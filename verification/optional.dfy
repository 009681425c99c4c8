/** The optional-value type used for "no intersection" and "no hit" results. */
module Optional {

  datatype Option<+T> = None | Some(value: T)

}

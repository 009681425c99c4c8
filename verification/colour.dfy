/**
  Colours: three real channels (`f32` in the renderer), the channelwise and
  scalar operators with their in-place forms, clamping into the unit cube,
  and the conversions from and to 8-bit RGB pixels.
 */
module Colours {

  datatype Colour = Colour(red: real, green: real, blue: real)

  /** The derived `Default`: every channel zero. */
  const Black: Colour := Colour(0.0, 0.0, 0.0)

  /** A colour with the same value `s` in every channel. */
  function Grey(s: real): Colour {
    Colour(s, s, s)
  }

  // ---------------------------------------------------------------------------
  // Channelwise operators
  // ---------------------------------------------------------------------------

  function Add(a: Colour, b: Colour): Colour {
    Colour(a.red + b.red, a.green + b.green, a.blue + b.blue)
  }

  function Sub(a: Colour, b: Colour): Colour {
    Colour(a.red - b.red, a.green - b.green, a.blue - b.blue)
  }

  function Mul(a: Colour, b: Colour): Colour {
    Colour(a.red * b.red, a.green * b.green, a.blue * b.blue)
  }

  /** No channel is zero, so that a channelwise division is defined. */
  predicate NonZero(c: Colour) {
    c.red != 0.0 && c.green != 0.0 && c.blue != 0.0
  }

  function Div(a: Colour, b: Colour): Colour
    requires NonZero(b)
  {
    Colour(a.red / b.red, a.green / b.green, a.blue / b.blue)
  }

  /** `Colour * f32` and `f32 * Colour`: both operand orders share this one definition. */
  function Scale(c: Colour, s: real): Colour {
    Colour(s * c.red, s * c.green, s * c.blue)
  }

  function DivScalar(c: Colour, s: real): Colour
    requires s != 0.0
  {
    Colour(c.red / s, c.green / s, c.blue / s)
  }

  /** Addition has `Black` as neutral element, commutes, associates, and `Sub` undoes it. */
  lemma AddIsAbelian(a: Colour, b: Colour, c: Colour)
    ensures Add(a, Black) == a
    ensures Add(a, b) == Add(b, a)
    ensures Add(Add(a, b), c) == Add(a, Add(b, c))
    ensures Sub(Add(a, b), b) == a
  {
  }

  /** Scaling by `s` is multiplying by the grey of `s`, on either side. */
  lemma ScaleIsGreyProduct(c: Colour, s: real)
    ensures Scale(c, s) == Mul(c, Grey(s))
    ensures Scale(c, s) == Mul(Grey(s), c)
  {
  }

  /** Division undoes multiplication, channelwise and by a scalar. */
  lemma DivUndoesMul(a: Colour, b: Colour, s: real)
    requires NonZero(b) && s != 0.0
    ensures Div(Mul(a, b), b) == a
    ensures DivScalar(Scale(a, s), s) == a
    ensures DivScalar(a, s) == Scale(a, 1.0 / s)
  {
    DivUndoesChannelMul(a, b);
    DivScalarUndoesScale(a, s);
    DivScalarIsReciprocalScale(a, s);
  }

  lemma DivUndoesChannelMul(a: Colour, b: Colour)
    requires NonZero(b)
    ensures Div(Mul(a, b), b) == a
  {
    MulThenDivide(a.red, b.red);
    MulThenDivide(a.green, b.green);
    MulThenDivide(a.blue, b.blue);
  }

  lemma DivScalarUndoesScale(a: Colour, s: real)
    requires s != 0.0
    ensures DivScalar(Scale(a, s), s) == a
  {
    ScaleThenDivide(s, a.red);
    ScaleThenDivide(s, a.green);
    ScaleThenDivide(s, a.blue);
  }

  lemma DivScalarIsReciprocalScale(a: Colour, s: real)
    requires s != 0.0
    ensures DivScalar(a, s) == Scale(a, 1.0 / s)
  {
    DivideByReciprocal(a.red, s);
    DivideByReciprocal(a.green, s);
    DivideByReciprocal(a.blue, s);
  }

  lemma MulThenDivide(x: real, y: real)
    requires y != 0.0
    ensures x * y / y == x
  {
  }

  lemma ScaleThenDivide(y: real, x: real)
    requires y != 0.0
    ensures y * x / y == x
  {
  }

  lemma DivideByReciprocal(x: real, y: real)
    requires y != 0.0
    ensures x / y == (1.0 / y) * x
  {
  }

  /** Scaling undoes division by the same scalar. */
  lemma ScaleUndoesDivScalar(c: Colour, s: real)
    requires s != 0.0
    ensures Scale(DivScalar(c, s), s) == c
  {
  }

  /** Multiplication distributes over addition. */
  lemma MulDistributes(a: Colour, b: Colour, c: Colour)
    ensures Mul(a, Add(b, c)) == Add(Mul(a, b), Mul(a, c))
  {
  }

  // ---------------------------------------------------------------------------
  // In-place forms: each updates the three channels one at a time
  // ---------------------------------------------------------------------------

  method AddAssign(a: Colour, b: Colour) returns (r: Colour)
    ensures r == Add(a, b)
  {
    r := a;
    r := r.(red := r.red + b.red);
    r := r.(green := r.green + b.green);
    r := r.(blue := r.blue + b.blue);
  }

  method SubAssign(a: Colour, b: Colour) returns (r: Colour)
    ensures r == Sub(a, b)
  {
    r := a;
    r := r.(red := r.red - b.red);
    r := r.(green := r.green - b.green);
    r := r.(blue := r.blue - b.blue);
  }

  method MulAssign(a: Colour, b: Colour) returns (r: Colour)
    ensures r == Mul(a, b)
  {
    r := a;
    r := r.(red := r.red * b.red);
    r := r.(green := r.green * b.green);
    r := r.(blue := r.blue * b.blue);
  }

  method DivAssign(a: Colour, b: Colour) returns (r: Colour)
    requires NonZero(b)
    ensures r == Div(a, b)
  {
    r := a;
    r := r.(red := r.red / b.red);
    r := r.(green := r.green / b.green);
    r := r.(blue := r.blue / b.blue);
  }

  method ScaleAssign(c: Colour, s: real) returns (r: Colour)
    ensures r == Scale(c, s)
  {
    r := c;
    r := r.(red := r.red * s);
    r := r.(green := r.green * s);
    r := r.(blue := r.blue * s);
  }

  method DivScalarAssign(c: Colour, s: real) returns (r: Colour)
    requires s != 0.0
    ensures r == DivScalar(c, s)
  {
    r := c;
    r := r.(red := r.red / s);
    r := r.(green := r.green / s);
    r := r.(blue := r.blue / s);
  }

  // ---------------------------------------------------------------------------
  // Clamping
  // ---------------------------------------------------------------------------

  /** The largest channel: it is one of the three and no channel exceeds it. */
  function MaxChannel(c: Colour): (m: real)
    ensures m == c.red || m == c.green || m == c.blue
    ensures c.red <= m && c.green <= m && c.blue <= m
  {
    if c.red >= c.green && c.red >= c.blue then c.red
    else if c.green >= c.blue then c.green
    else c.blue
  }

  function Max(a: real, b: real): real {
    if a >= b then a else b
  }

  /**
    `clamped`: the colour divided by the larger of its largest channel and 1.
    A colour whose channels are all at most 1 is left alone; otherwise the hue
    is kept and the brightest channel becomes exactly 1.
   */
  function Clamped(c: Colour): (r: Colour)
    ensures MaxChannel(c) <= 1.0 ==> r == c
    ensures MaxChannel(c) > 1.0 ==> r == DivScalar(c, MaxChannel(c)) && MaxChannel(r) == 1.0
    ensures r.red <= 1.0 && r.green <= 1.0 && r.blue <= 1.0
  {
    var m := MaxChannel(c);
    var r := DivScalar(c, Max(m, 1.0));
    if m > 1.0 then
      DividedByMax(c.red, m);
      DividedByMax(c.green, m);
      DividedByMax(c.blue, m);
      r
    else
      r
  }

  /** A channel no greater than a maximum above 1, divided by that maximum. */
  lemma DividedByMax(x: real, m: real)
    requires m > 1.0 && x <= m
    ensures x / m <= 1.0 && (x == m ==> x / m == 1.0) && m * (x / m) == x
  {
  }

  /** Clamping twice is clamping once. */
  lemma ClampedIdempotent(c: Colour)
    ensures Clamped(Clamped(c)) == Clamped(c)
  {
  }

  /** A clamped colour is a positive multiple of the original colour: clamping keeps the hue. */
  lemma ClampedKeepsHue(c: Colour)
    ensures exists k: real :: k > 0.0 && Scale(Clamped(c), k) == c
  {
    if MaxChannel(c) > 1.0 {
      ScaleUndoesDivScalar(c, MaxChannel(c));
      assert Scale(Clamped(c), MaxChannel(c)) == c;
    } else {
      assert Scale(Clamped(c), 1.0) == c;
    }
  }

  // ---------------------------------------------------------------------------
  // Conversions to and from 8-bit pixels
  // ---------------------------------------------------------------------------

  newtype u8 = x: int | 0 <= x < 256

  /** `image::Rgb<u8>`: one byte per channel. */
  datatype Rgb = Rgb(r: u8, g: u8, b: u8)

  /**
    Rust's `as u8` on a float: truncates toward zero and saturates at both ends
    of the byte range (NaN, which maps to 0, does not arise over the reals).
   */
  function CastU8(x: real): (r: u8)
    ensures x <= 0.0 ==> r == 0
    ensures x >= 255.0 ==> r == 255
    ensures 0.0 <= x < 256.0 ==> r as real <= x < r as real + 1.0
  {
    if x <= 0.0 then 0
    else if x >= 255.0 then 255
    else x.Floor as u8
  }

  /** `From<Rgb<u8>>`: each byte divided by 255. */
  function FromRgb(p: Rgb): (c: Colour)
    ensures 0.0 <= c.red <= 1.0 && 0.0 <= c.green <= 1.0 && 0.0 <= c.blue <= 1.0
    ensures 255.0 * c.red == p.r as real && 255.0 * c.green == p.g as real && 255.0 * c.blue == p.b as real
  {
    Colour(p.r as real / 255.0, p.g as real / 255.0, p.b as real / 255.0)
  }

  /** `Into<Rgb<u8>>`: clamp, scale by 255, then cast every channel to a byte. */
  function ToRgb(c: Colour): (p: Rgb)
    ensures var k := Clamped(c);
      && p.r == CastU8(255.0 * k.red)
      && p.g == CastU8(255.0 * k.green)
      && p.b == CastU8(255.0 * k.blue)
  {
    var k := Scale(Clamped(c), 255.0);
    Rgb(CastU8(k.red), CastU8(k.green), CastU8(k.blue))
  }

  /** A byte turned into a colour channel and back is the same byte. */
  lemma ByteRoundTrip(b: u8)
    ensures CastU8(255.0 * (b as real / 255.0)) == b
  {
    assert 255.0 * (b as real / 255.0) == b as real;
    assert (b as real).Floor == b as int;
  }

  /** Every pixel survives a conversion to a colour and back. */
  lemma RgbRoundTrip(p: Rgb)
    ensures ToRgb(FromRgb(p)) == p
  {
    assert Clamped(FromRgb(p)) == FromRgb(p);
    ByteRoundTrip(p.r);
    ByteRoundTrip(p.g);
    ByteRoundTrip(p.b);
  }

  /**
    A colour inside the unit cube is quantised downwards: each channel of the
    pixel, read back as a colour, lies within 1/255 below the original channel.
   */
  lemma QuantisationError(c: Colour)
    requires 0.0 <= c.red <= 1.0 && 0.0 <= c.green <= 1.0 && 0.0 <= c.blue <= 1.0
    ensures var back := FromRgb(ToRgb(c));
      && back.red <= c.red < back.red + 1.0 / 255.0
      && back.green <= c.green < back.green + 1.0 / 255.0
      && back.blue <= c.blue < back.blue + 1.0 / 255.0
  {
    assert Clamped(c) == c;
    ChannelQuantisation(c.red);
    ChannelQuantisation(c.green);
    ChannelQuantisation(c.blue);
  }

  lemma ChannelQuantisation(x: real)
    requires 0.0 <= x <= 1.0
    ensures CastU8(255.0 * x) as real / 255.0 <= x < CastU8(255.0 * x) as real / 255.0 + 1.0 / 255.0
  {
    var b := CastU8(255.0 * x);
    if x == 1.0 {
      assert b == 255;
    } else {
      assert b as real <= 255.0 * x < b as real + 1.0;
    }
  }

  /** The conversion examples of the colour tests, one lemma each. */
  lemma FromRgbExample()
    ensures FromRgb(Rgb(255, 0, 0)) == Colour(1.0, 0.0, 0.0)
    ensures FromRgb(Rgb(0, 255, 0)) == Colour(0.0, 1.0, 0.0)
    ensures FromRgb(Rgb(0, 0, 255)) == Colour(0.0, 0.0, 1.0)
  {
  }

  lemma ToRgbExampleUnit()
    ensures ToRgb(Colour(1.0, 0.0, 0.0)) == Rgb(255, 0, 0)
  {
    var c := Colour(1.0, 0.0, 0.0);
    assert MaxChannel(c) == 1.0;
    assert Clamped(c) == c;
    assert CastU8(255.0) == 255;
  }

  lemma ToRgbExampleInRange()
    ensures ToRgb(Colour(0.0, 0.25, 0.5)) == Rgb(0, 63, 127)
  {
    var c := Colour(0.0, 0.25, 0.5);
    assert MaxChannel(c) == 0.5;
    assert Clamped(c) == c;
    assert CastU8(63.75) == 63;
    assert CastU8(127.5) == 127;
  }

  lemma ToRgbExampleSaturated()
    ensures ToRgb(Colour(0.0, 2.0, 0.0)) == Rgb(0, 255, 0)
  {
    var c := Colour(0.0, 2.0, 0.0);
    var k := Clamped(c);
    assert MaxChannel(c) == 2.0;
    assert k == DivScalar(c, 2.0);
    assert k.red == 0.0 && k.green == 1.0 && k.blue == 0.0;
  }

  lemma ToRgbExampleBright()
    ensures ToRgb(Colour(0.0, 0.0, 5.0)) == Rgb(0, 0, 255)
  {
    var c := Colour(0.0, 0.0, 5.0);
    var k := Clamped(c);
    assert MaxChannel(c) == 5.0;
    assert k == DivScalar(c, 5.0);
    assert k.red == 0.0 && k.green == 0.0 && k.blue == 1.0;
  }

  /** The clamping examples of the colour tests. */
  lemma ClampedExampleBright()
    ensures Clamped(Colour(0.5, 1.0, 2.0)) == Colour(0.25, 0.5, 1.0)
  {
    assert MaxChannel(Colour(0.5, 1.0, 2.0)) == 2.0;
  }

  lemma ClampedExampleInRange()
    ensures Clamped(Colour(0.5, 1.0, 0.75)) == Colour(0.5, 1.0, 0.75)
  {
    assert MaxChannel(Colour(0.5, 1.0, 0.75)) == 1.0;
  }
}

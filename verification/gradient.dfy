/** `create_gradient_texture` of `src/lib.rs`: RGBA colours packed into a one-row byte texture. */
module Gradient {
  import opened Wrappers
  import opened Numeric
  import opened Gl

  /** A `glam::Vec4` used as an RGBA colour with components nominally in [0, 1]. */
  datatype Color = Color(r: real, g: real, b: real, a: real)

  /** The widest gradient the function accepts. */
  const MaxColors: nat := 256

  const GradientAssertion: string := "assertion failed: gradient.len() <= 256"
  const GradientTextureError: string := "Failed to create texture"

  /** `Vec4::to_array`: components in x, y, z, w order. */
  function ColorComponents(c: Color): seq<real> {
    [c.r, c.g, c.b, c.a]
  }

  /** `(f * 255.0) as u8`. */
  function ComponentByte(f: real): U8 {
    FloatToU8(f * 255.0)
  }

  /** A component in [0, 1] needs no saturation: it becomes the floor of 255 times itself. */
  lemma ComponentByteUnit(f: real)
    requires 0.0 <= f <= 1.0
    ensures ComponentByte(f) == (f * 255.0).Floor
    ensures ComponentByte(f) as real <= f * 255.0 < ComponentByte(f) as real + 1.0
  {
    assert f * 255.0 <= 255.0;
  }

  /** Out-of-range components saturate rather than wrap. */
  lemma ComponentByteSaturates(f: real)
    ensures f <= 0.0 ==> ComponentByte(f) == 0
    ensures f >= 1.0 ==> ComponentByte(f) == 255
  {
  }

  function ColorBytes(c: Color): seq<U8> {
    [ComponentByte(c.r), ComponentByte(c.g), ComponentByte(c.b), ComponentByte(c.a)]
  }

  /** The `iter().map(to_array).flatten().map(as u8)` chain: component i of colour j lands at 4j + i. */
  function Pack(gradient: seq<Color>): (bytes: seq<U8>)
    ensures |bytes| == 4 * |gradient|
    ensures forall j, i :: 0 <= j < |gradient| && 0 <= i < 4 ==>
      bytes[4 * j + i] == ComponentByte(ColorComponents(gradient[j])[i])
  {
    if |gradient| == 0 then [] else ColorBytes(gradient[0]) + Pack(gradient[1..])
  }

  /** The component value a byte stands for. */
  function ByteComponent(b: U8): real {
    b as real / 255.0
  }

  /** Reads colours back out of RGBA bytes, four per colour. */
  function Unpack(bytes: seq<U8>): (gradient: seq<Color>)
    requires |bytes| % 4 == 0
    ensures |gradient| == |bytes| / 4
    decreases |bytes|
  {
    if |bytes| == 0 then []
    else
      [Color(ByteComponent(bytes[0]), ByteComponent(bytes[1]), ByteComponent(bytes[2]), ByteComponent(bytes[3]))]
        + Unpack(bytes[4..])
  }

  lemma ByteRoundTrip(b: U8)
    ensures ComponentByte(ByteComponent(b)) == b
  {
    assert ByteComponent(b) * 255.0 == b as real;
  }

  /** Every byte string of whole texels is the packing of some gradient. */
  lemma {:induction false} PackUnpack(bytes: seq<U8>)
    requires |bytes| % 4 == 0
    ensures Pack(Unpack(bytes)) == bytes
    decreases |bytes|
  {
    if |bytes| > 0 {
      var g := Unpack(bytes);
      PackUnpack(bytes[4..]);
      assert g[1..] == Unpack(bytes[4..]);
      ByteRoundTrip(bytes[0]);
      ByteRoundTrip(bytes[1]);
      ByteRoundTrip(bytes[2]);
      ByteRoundTrip(bytes[3]);
      assert ColorBytes(g[0]) == bytes[..4];
      assert bytes == bytes[..4] + bytes[4..];
    }
  }

  /** A component some byte represents exactly. */
  predicate Exact(f: real) {
    exists b: U8 :: f == ByteComponent(b)
  }

  lemma ExactRoundTrip(f: real)
    requires Exact(f)
    ensures ByteComponent(ComponentByte(f)) == f
  {
    var b: U8 :| f == ByteComponent(b);
    ByteRoundTrip(b);
  }

  /** A colour every component of which some byte represents exactly. */
  predicate ExactColor(c: Color) {
    Exact(c.r) && Exact(c.g) && Exact(c.b) && Exact(c.a)
  }

  lemma ExactColorRoundTrip(c: Color)
    requires ExactColor(c)
    ensures Color(ByteComponent(ComponentByte(c.r)), ByteComponent(ComponentByte(c.g)),
                  ByteComponent(ComponentByte(c.b)), ByteComponent(ComponentByte(c.a))) == c
  {
    ExactRoundTrip(c.r);
    ExactRoundTrip(c.g);
    ExactRoundTrip(c.b);
    ExactRoundTrip(c.a);
  }

  /** Colours whose components are exact byte values survive packing unchanged. */
  lemma {:induction false} UnpackPack(gradient: seq<Color>)
    requires forall j :: 0 <= j < |gradient| ==> ExactColor(gradient[j])
    ensures Unpack(Pack(gradient)) == gradient
  {
    if |gradient| > 0 {
      var c := gradient[0];
      var p := Pack(gradient);
      assert p == ColorBytes(c) + Pack(gradient[1..]);
      assert p[4..] == Pack(gradient[1..]);
      UnpackPack(gradient[1..]);
      ExactColorRoundTrip(c);
    }
  }

  /**
   * `create_gradient_texture`: panics on more than 256 colours, otherwise
   * uploads the packed bytes as a `len x 1` RGBA texture that clamps and
   * filters linearly.
   */
  function CreateGradientTexture(gl: GlContext, gradient: seq<Color>): (r: Result<Texture>)
    ensures |gradient| > MaxColors ==> r == Err(Panic(GradientAssertion))
    ensures r.Ok? <==> |gradient| <= MaxColors && gl.canCreateTexture && gl.acceptsTextureUpload
    ensures |gradient| <= MaxColors && !gl.canCreateTexture ==> r == Err(Message(GradientTextureError))
    ensures |gradient| <= MaxColors && gl.canCreateTexture && !gl.acceptsTextureUpload ==> r == Err(Browser)
    ensures r.Ok? ==>
      && r.value.WellFormed()
      && r.value.format == RGBA8
      && r.value.width == |gradient| && r.value.height == 1
      && r.value.data == Pack(gradient)
      && r.value.wrap == ClampToEdge
      && r.value.minFilter == Linear && r.value.magFilter == Linear
  {
    if |gradient| > MaxColors then Err(Panic(GradientAssertion))
    else
      var bytes := Pack(gradient);
      if !gl.canCreateTexture then Err(Message(GradientTextureError))
      else if !gl.acceptsTextureUpload then Err(Browser)
      else Ok(Texture(|gradient|, 1, RGBA8, bytes, ClampToEdge, Linear, Linear))
  }
}

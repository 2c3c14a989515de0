/** The few WebGL2 notions the particle code's observable effects depend on. */
module Gl {
  import opened Numeric

  /** Which fallible object creations and uploads the rendering context grants. */
  datatype GlContext = GlContext(
    canCreateBuffer: bool,
    canCreateVertexArray: bool,
    canCreateTexture: bool,
    acceptsTextureUpload: bool)

  /** Pixel formats uploaded with `UNSIGNED_BYTE` components. */
  datatype Format = RG8 | RGBA8

  datatype Wrap = MirroredRepeat | ClampToEdge

  datatype Filter = Nearest | Linear

  /** A 2D texture as uploaded by `tex_image_2d`: its size, format, bytes and sampling parameters. */
  datatype Texture = Texture(
    width: nat,
    height: nat,
    format: Format,
    data: seq<U8>,
    wrap: Wrap,
    minFilter: Filter,
    magFilter: Filter)
  {
    /** The upload supplies exactly one byte per channel per texel. */
    predicate WellFormed() {
      |data| == Channels(format) * width * height
    }
  }

  function Channels(f: Format): nat {
    match f
    case RG8 => 2
    case RGBA8 => 4
  }
}

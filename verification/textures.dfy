/**
 * The engine's texture objects, as records of the fields the decoders set.
 * Every texture the decoders build has RGBA format, so the format is not
 * recorded; a field left at the engine's default is None.
 */
module Textures {
  import opened Wrappers

  datatype Filter = NearestFilter | LinearFilter | LinearMipMapLinearFilter

  datatype Encoding = LogLuvEncoding

  /** A 2D texture over a byte buffer (`THREE.DataTexture`). */
  datatype DataTexture = DataTexture(
    data: seq<byte>,
    width: nat,
    height: nat,
    encoding: Option<Encoding>,
    flipY: bool,
    minFilter: Option<Filter>,
    magFilter: Option<Filter>)

  /** A cube texture: six face images and, for the assembled map, one cube texture per further mip level. */
  datatype CubeTexture = CubeTexture(
    images: seq<DataTexture>,
    mipmaps: seq<CubeTexture>,
    encoding: Encoding,
    minFilter: Filter,
    magFilter: Filter,
    generateMipmaps: bool)

  /** The `minFilter`/`magFilter` entries of a decoder's options object; None when absent. */
  datatype TextureOptions = TextureOptions(minFilter: Option<Filter>, magFilter: Option<Filter>)

  /** A texture built from bytes with only the constructor arguments: `new THREE.DataTexture(data, w, h, RGBAFormat)`. */
  function PlainDataTexture(data: seq<byte>, width: nat, height: nat): DataTexture {
    DataTexture(data, width, height, None, false, None, None)
  }
}

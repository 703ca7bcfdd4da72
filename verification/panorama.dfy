/**
 * The packed panorama decoder (`PanoramaEnv`): one square planar RGBA
 * image, possibly gzip-framed, gathered into a zeroed buffer as long as the
 * input and wrapped in a LogLuv texture sampled linearly and flipped.
 */
module EnvironmentPanorama {
  import opened Wrappers
  import opened Errors
  import opened Zlib
  import opened PlanarImage
  import opened Textures

  /** The texture `loadPacked` builds over the gathered pixels. */
  function PanoramaTexture(pixels: seq<byte>, size: nat): DataTexture {
    DataTexture(pixels, size, size, Some(LogLuvEncoding), true, Some(LinearFilter), Some(LinearFilter))
  }

  /** What `loadPacked` ends with: the texture, or the TypeError of reading an undefined buffer. */
  function Decode(data: seq<byte>, size: nat, backend: Backend): Result<DataTexture, Error> {
    match Inflate(data, backend)
    case None => Failure(UndefinedBuffer)
    case Some(bytes) => Success(PanoramaTexture(Deinterleaved(bytes, size * size, Zeros(|bytes|)), size))
  }

  /**
   * The gathered buffer is as long as the input; pixel i, channel c holds
   * input byte i + c·size² (0 when that is past the end); whatever lies
   * beyond the size² pixels stays 0.
   */
  lemma DecodedPixels(bytes: seq<byte>, size: nat)
    ensures var t := Decode(bytes, size, None);
      !IsGunzipBuffer(bytes) ==>
        (t.Success? && |t.value.data| == |bytes| &&
         (forall i: nat, c: nat :: i < size * size && c < 4 && 4 * i + c < |bytes| ==>
           t.value.data[4 * i + c] == At(bytes, i + c * (size * size))) &&
         (forall k :: 4 * (size * size) <= k < |bytes| ==> t.value.data[k] == 0))
  {
    DeinterleavedAt(bytes, size * size, Zeros(|bytes|));
  }

  /** An image packed as four planar blocks of exactly size² bytes decodes to the interleaved image. */
  lemma DecodePlanar(rgba: seq<byte>, size: nat, backend: Backend)
    requires |rgba| == 4 * (size * size)
    requires !IsGunzipBuffer(Planar(rgba, size * size))
    ensures Decode(Planar(rgba, size * size), size, backend) == Success(PanoramaTexture(rgba, size))
  {
    UnpackPlanar(rgba, size * size);
  }

  /** A gzip-framed file decodes like its decompressed bytes, and fails without the library. */
  lemma DecodeInflated(data: seq<byte>, size: nat, backend: Backend)
    requires IsGunzipBuffer(data)
    ensures backend.None? ==> Decode(data, size, backend) == Failure(UndefinedBuffer)
    ensures backend.Some? && !IsGunzipBuffer(backend.value(data)) ==>
      Decode(data, size, backend) == Decode(backend.value(data), size, backend)
  {
  }

  class PanoramaEnv {
    const options: TextureOptions
    const size: nat
    const data: seq<byte>
    /** The decoded texture (`get texture()`); None, the source's null, until `loadPacked` succeeds. */
    var texture: Option<DataTexture>

    constructor (data: seq<byte>, size: nat, options: TextureOptions)
      ensures this.data == data && this.size == size && this.options == options && texture == None
    {
      this.data := data;
      this.size := size;
      this.options := options;
      texture := None;
    }

    /** `loadPacked`: inflate, gather the four planes into a fresh zeroed buffer, wrap it. */
    method LoadPacked(backend: Backend) returns (r: Outcome<Error>)
      modifies this
      ensures var d := Decode(data, size, backend);
        (r.Pass? <==> d.Success?) &&
        (r.Fail? ==> r.error == d.error && texture == old(texture)) &&
        (r.Pass? ==> texture == Some(d.value))
    {
      var inflated := Inflate(data, backend);
      if inflated.None? {
        return Fail(UndefinedBuffer);
      }
      var imageData := inflated.value;
      var deinterleave := new byte[|imageData|](_ => 0);
      assert deinterleave[..] == Zeros(|imageData|);
      DeinterleaveImage4(size, imageData, deinterleave);
      texture := Some(PanoramaTexture(deinterleave[..], size));
      return Pass;
    }
  }
}

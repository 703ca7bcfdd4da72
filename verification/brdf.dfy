/**
 * The split-sum BRDF lookup table decoder (`IntegrateBRDF`): the first
 * 4·size² bytes of the (possibly gzip-framed) file, taken as they are
 * stored, as a size×size RGBA texture.
 */
module IntegrateBRDFMap {
  import opened Wrappers
  import opened Errors
  import opened Zlib
  import opened Textures

  /**
   * `loadPacked`. The view `new Uint8Array(data, 0, 4·size²)` throws a
   * RangeError when the buffer is shorter; over the undefined that `gunzip`
   * returns without its library it is an empty array, so that case yields a
   * texture with no data rather than an error.
   */
  function LoadPacked(data: seq<byte>, size: nat, backend: Backend): (r: Result<DataTexture, Error>)
    ensures r.Success? ==> r.value.width == size && r.value.height == size
    ensures r.Failure? ==> r.error == ViewOutOfRange
  {
    var byteSize := size * size * 4;
    match Inflate(data, backend)
    case None => Success(PlainDataTexture([], size, size))
    case Some(bytes) =>
      if byteSize > |bytes| then Failure(ViewOutOfRange)
      else Success(PlainDataTexture(bytes[..byteSize], size, size))
  }

  /**
   * With the bytes at hand, the table is exactly their first 4·size² bytes
   * in stored order (no channel gather), and a shorter buffer is an error.
   */
  lemma LoadPackedPrefix(data: seq<byte>, size: nat, backend: Backend)
    requires Inflate(data, backend).Some?
    ensures var bytes := Inflate(data, backend).value;
      var r := LoadPacked(data, size, backend);
      (r.Failure? <==> |bytes| < 4 * (size * size)) &&
      (r.Success? ==>
        |r.value.data| == 4 * (size * size) &&
        forall k :: 0 <= k < 4 * (size * size) ==> r.value.data[k] == bytes[k])
  {
  }

  /** A table stored uncompressed followed by anything decodes to itself. */
  lemma LoadPackedStored(table: seq<byte>, rest: seq<byte>, size: nat, backend: Backend)
    requires |table| == 4 * (size * size) && !IsGunzipBuffer(table + rest)
    ensures LoadPacked(table + rest, size, backend) == Success(PlainDataTexture(table, size, size))
  {
    assert (table + rest)[..4 * (size * size)] == table;
  }

  /** Without the decompression library a gzip-framed table gives an empty texture, not an error. */
  lemma LoadPackedWithoutLibrary(data: seq<byte>, size: nat)
    requires IsGunzipBuffer(data)
    ensures LoadPacked(data, size, None) == Success(PlainDataTexture([], size, size))
  {
  }
}

/**
 * The gzip front of the environment decoders: a two-byte magic check and a
 * decompressor that may be absent from the page.
 */
module Zlib {
  import opened Wrappers

  /**
   * The decompression library the page may have loaded (`window.Zlib`),
   * given as the function from compressed to decompressed bytes; None when
   * the script is missing. Its own failures on corrupt input are not modelled.
   */
  type Backend = Option<seq<byte> -> seq<byte>>

  /** Element `j` of a Uint8Array as the comparison sees it: undefined past the end never equals a byte. */
  function Peek(data: seq<byte>, j: nat): Option<byte> {
    if j < |data| then Some(data[j]) else None
  }

  /** `isGunzipBuffer`: byte 0 is 0x1F and byte 1 is 0x8B. */
  predicate IsGunzipBuffer(data: seq<byte>) {
    Peek(data, 0) == Some(0x1F) && Peek(data, 1) == Some(0x8B)
  }

  /** The magic test reads the first two bytes and nothing else; a buffer of fewer than two bytes never carries it. */
  lemma IsGunzipBufferMeans(data: seq<byte>)
    ensures IsGunzipBuffer(data) <==> |data| >= 2 && data[0] == 0x1F && data[1] == 0x8B
    ensures |data| < 2 ==> !IsGunzipBuffer(data)
  {
  }

  /**
   * `gunzip`: the decompressed bytes, or None when the backend is missing
   * (the source logs an error and returns undefined).
   */
  function Gunzip(data: seq<byte>, backend: Backend): (r: Option<seq<byte>>)
    ensures r.None? <==> backend.None?
    ensures backend.Some? ==> r == Some(backend.value(data))
  {
    match backend
    case None => None
    case Some(decompress) => Some(decompress(data))
  }

  /**
   * The first line of every decoder's `readInputArray`: decompress when the
   * magic is present, otherwise keep the bytes. None stands for the
   * undefined that `gunzip` returns without a backend.
   */
  function Inflate(data: seq<byte>, backend: Backend): (r: Option<seq<byte>>)
    ensures !IsGunzipBuffer(data) ==> r == Some(data)
    ensures IsGunzipBuffer(data) ==> r == Gunzip(data, backend)
  {
    if IsGunzipBuffer(data) then Gunzip(data, backend) else Some(data)
  }

  /** Only a gzip-framed buffer can be lost to a missing backend, and a plain one is never touched. */
  lemma InflateUndefinedOnlyForGzip(data: seq<byte>, backend: Backend)
    ensures Inflate(data, backend).None? <==> IsGunzipBuffer(data) && backend.None?
    ensures Inflate(data, backend).Some? && !IsGunzipBuffer(data) ==> Inflate(data, backend).value == data
  {
  }
}

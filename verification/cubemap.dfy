/**
 * The packed cube map decoder (`CubeMapEnv`). A packed buffer, possibly
 * gzip-framed, holds mip level 0, 1, ... one after the other; each level
 * holds the six faces in order, each face a planar RGBA block of side²·4
 * bytes, the side halving from level to level. Decoding stops before the
 * first level whose start lies at or past the end of the buffer.
 *
 * The base size is 2^L; `Math.log(size) / Math.LN2` is taken to be L.
 */
module EnvironmentCubeMap {
  import opened Wrappers
  import opened Errors
  import opened Zlib
  import opened PlanarImage
  import opened PowerOfTwo
  import opened Textures

  /** Side of mip level `m` of a map whose level 0 has side 2^L. */
  function Side(L: nat, m: nat): nat
    requires m <= L
  {
    Pow2(L - m)
  }

  /** Bytes one face of level `m` occupies: side² pixels of four bytes. */
  function FaceBytes(L: nat, m: nat): nat
    requires m <= L
  {
    Side(L, m) * Side(L, m) * 4
  }

  /** Where level `i` starts: after the six faces of every earlier level. */
  function LevelOffset(L: nat, i: nat): nat
    requires i <= L + 1
  {
    if i == 0 then 0 else LevelOffset(L, i - 1) + 6 * FaceBytes(L, i - 1)
  }

  /** Where face `f` of level `m` starts. */
  function FaceOffset(L: nat, m: nat, f: nat): nat
    requires m <= L
  {
    LevelOffset(L, m) + f * FaceBytes(L, m)
  }

  /** The first level at or after `i` that does not start inside a buffer of `len` bytes (at most L + 1). */
  function NumLevelsFrom(L: nat, len: nat, i: nat): (r: nat)
    requires i <= L + 1
    ensures i <= r <= L + 1
    ensures forall j :: i <= j < r ==> LevelOffset(L, j) < len
    ensures r == L + 1 || LevelOffset(L, r) >= len
    decreases L + 1 - i
  {
    if i == L + 1 || LevelOffset(L, i) >= len then i else NumLevelsFrom(L, len, i + 1)
  }

  /** How many levels the decoder starts on a buffer of `len` bytes. */
  function NumLevels(L: nat, len: nat): (r: nat)
    ensures r <= L + 1
  {
    NumLevelsFrom(L, len, 0)
  }

  /** The last level started runs past the end of the buffer: some face view is out of range. */
  predicate Truncated(L: nat, len: nat) {
    LevelOffset(L, NumLevels(L, len)) > len
  }

  /** The decoded RGBA pixels of face `f` of level `m` (empty when the block is not inside `data`). */
  function FaceImage(data: seq<byte>, L: nat, m: nat, f: nat): seq<byte>
    requires m <= L
  {
    var off := FaceOffset(L, m, f);
    var len := FaceBytes(L, m);
    if off + len <= |data| then Deinterleaved(data[off..off + len], Side(L, m) * Side(L, m), Zeros(len)) else []
  }

  /** The per-face mip chains after the first `k` levels were read: no face at all before the first. */
  function Levels(data: seq<byte>, L: nat, k: nat): (r: seq<seq<seq<byte>>>)
    requires k <= L + 1
    ensures |r| == (if k == 0 then 0 else 6)
    ensures forall f :: 0 <= f < |r| ==> |r[f]| == k
  {
    if k == 0 then [] else seq(6, f requires 0 <= f < 6 => seq(k, m requires 0 <= m < k => FaceImage(data, L, m, f)))
  }

  /** The per-face mip chains the level loop collects. */
  function DecodedFaces(data: seq<byte>, L: nat): (r: seq<seq<seq<byte>>>)
    ensures |r| == (if NumLevels(L, |data|) == 0 then 0 else 6)
  {
    Levels(data, L, NumLevels(L, |data|))
  }

  /** Chain `f` of `chains`, or the empty chain `images[face] = []` creates. */
  function Chain(chains: seq<seq<seq<byte>>>, f: nat): seq<seq<byte>> {
    if f < |chains| then chains[f] else []
  }

  /** One face of level `m` as a texture. */
  function FaceTexture(pixels: seq<byte>, side: nat): DataTexture {
    DataTexture(pixels, side, side, Some(LogLuvEncoding), false, None, None)
  }

  /** The cube texture `createRGBA8Packed` builds for level `m`. */
  function LevelTexture(packed: seq<seq<seq<byte>>>, L: nat, m: nat): CubeTexture
    requires |packed| == 6 && m <= L
    requires forall f :: 0 <= f < 6 ==> m < |packed[f]|
  {
    CubeTexture(seq(6, f requires 0 <= f < 6 => FaceTexture(packed[f][m], Side(L, m))), [],
                LogLuvEncoding, LinearMipMapLinearFilter, LinearFilter, false)
  }

  /** Chains of equal length, at most L + 1 levels, one per face: what the level loop hands over. */
  predicate WellFormedChains(packed: seq<seq<seq<byte>>>, L: nat) {
    |packed| == 6 && 1 <= |packed[0]| <= L + 1 && forall f :: 0 <= f < 6 ==> |packed[f]| == |packed[0]|
  }

  /** The integrated texture: level 0 as the face images, the further levels as mipmaps. */
  function Assembled(packed: seq<seq<seq<byte>>>, L: nat, options: TextureOptions): CubeTexture
    requires WellFormedChains(packed, L)
  {
    var k := |packed[0]|;
    CubeTexture(LevelTexture(packed, L, 0).images,
                seq(k - 1, m requires 0 <= m < k - 1 => LevelTexture(packed, L, m + 1)),
                LogLuvEncoding,
                options.minFilter.GetOr(LinearMipMapLinearFilter),
                options.magFilter.GetOr(LinearFilter),
                false)
  }

  /** What `readInputArray` ends with on bytes that need no decompression. */
  function DecodeBytes(bytes: seq<byte>, L: nat, options: TextureOptions): Result<CubeTexture, Error> {
    if Truncated(L, |bytes|) then Failure(ViewOutOfRange)
    else if NumLevels(L, |bytes|) == 0 then Failure(NoCubeLevels)
    else Success(Assembled(DecodedFaces(bytes, L), L, options))
  }

  /** What `loadPacked` ends with for a map of base size 2^L: the integrated texture or the error thrown. */
  function Decode(data: seq<byte>, L: nat, options: TextureOptions, backend: Backend): Result<CubeTexture, Error> {
    match Inflate(data, backend)
    case None => Failure(UndefinedBuffer)
    case Some(bytes) => DecodeBytes(bytes, L, options)
  }

  /** The levels are laid out back to back: level k starts at 8·(4^(L+1) − 4^(L+1−k)). */
  lemma {:induction false} LevelOffsetClosedForm(L: nat, k: nat)
    requires k <= L + 1
    ensures LevelOffset(L, k) == 8 * (Pow4(L + 1) - Pow4(L + 1 - k))
  {
    if k > 0 {
      LevelOffsetClosedForm(L, k - 1);
      Pow2Squared(L - (k - 1));
      assert Pow4(L + 1 - (k - 1)) == 4 * Pow4(L + 1 - k);
    }
  }

  /** Later levels start strictly later. */
  lemma {:induction false} LevelOffsetIncreasing(L: nat, i: nat, j: nat)
    requires i < j <= L + 1
    ensures LevelOffset(L, i) < LevelOffset(L, j)
  {
    if i < j - 1 {
      LevelOffsetIncreasing(L, i, j - 1);
    }
  }

  /**
   * The decoder reports a truncated buffer exactly when the buffer ends
   * strictly inside the full chain of levels and not on a level boundary.
   */
  lemma TruncatedIff(L: nat, len: nat)
    ensures Truncated(L, len) <==>
      len < LevelOffset(L, L + 1) && forall k :: 0 <= k <= L + 1 ==> LevelOffset(L, k) != len
  {
    var n := NumLevels(L, len);
    if Truncated(L, len) {
      forall k | 0 <= k <= L + 1
        ensures LevelOffset(L, k) != len
      {
        if n < k {
          LevelOffsetIncreasing(L, n, k);
        }
      }
      if n < L + 1 {
        LevelOffsetIncreasing(L, n, L + 1);
      }
    } else if n < L + 1 {
      assert LevelOffset(L, n) == len;
    }
  }

  /** A buffer holding exactly the first k levels (k ≥ 1) yields k levels and no error. */
  lemma ExactLevels(L: nat, k: nat)
    requires 1 <= k <= L + 1
    ensures NumLevels(L, LevelOffset(L, k)) == k && !Truncated(L, LevelOffset(L, k))
  {
    var len := LevelOffset(L, k);
    var n := NumLevels(L, len);
    if n < k {
      assert n == L + 1 || LevelOffset(L, n) >= len;
      LevelOffsetIncreasing(L, n, k);
    }
  }

  /** The integrated texture holds chain f's level 0 as face f and its level m as face f of mipmap m − 1. */
  lemma AssembledLayout(packed: seq<seq<seq<byte>>>, L: nat, options: TextureOptions)
    requires WellFormedChains(packed, L)
    ensures var t := Assembled(packed, L, options);
      var k := |packed[0]|;
      |t.mipmaps| == k - 1 && |t.images| == 6 &&
      (forall f :: 0 <= f < 6 ==> t.images[f].data == packed[f][0] && t.images[f].width == Pow2(L)) &&
      (forall m, f :: 1 <= m < k && 0 <= f < 6 ==>
        |t.mipmaps[m - 1].images| == 6 &&
        t.mipmaps[m - 1].images[f].data == packed[f][m] && t.mipmaps[m - 1].images[f].width == Pow2(L - m))
  {
    var t := Assembled(packed, L, options);
    forall m | 1 <= m < |packed[0]|
      ensures t.mipmaps[m - 1] == LevelTexture(packed, L, m)
    {
    }
  }

  /** The chains the level loop collects hold, for each face, the faces of every level read. */
  lemma DecodedChains(bytes: seq<byte>, L: nat)
    requires NumLevels(L, |bytes|) >= 1
    ensures var packed := DecodedFaces(bytes, L);
      WellFormedChains(packed, L) && |packed[0]| == NumLevels(L, |bytes|) &&
      forall m, f :: 0 <= m < |packed[0]| && 0 <= f < 6 ==> packed[f][m] == FaceImage(bytes, L, m, f)
  {
  }

  /**
   * A successful decode is one cube texture whose six faces are the level-0
   * blocks at full size and whose mipmaps are the further levels, each
   * half the size of the one before, all at least one and at most L + 1 levels.
   */
  lemma DecodedLayout(bytes: seq<byte>, L: nat, options: TextureOptions)
    requires DecodeBytes(bytes, L, options).Success?
    ensures var t := DecodeBytes(bytes, L, options).value;
      var k := NumLevels(L, |bytes|);
      1 <= k <= L + 1 && |t.mipmaps| == k - 1 && |t.images| == 6 &&
      (forall f :: 0 <= f < 6 ==> t.images[f].data == FaceImage(bytes, L, 0, f) && t.images[f].width == Pow2(L)) &&
      (forall m, f :: 1 <= m < k && 0 <= f < 6 ==>
        |t.mipmaps[m - 1].images| == 6 &&
        t.mipmaps[m - 1].images[f].data == FaceImage(bytes, L, m, f) &&
        t.mipmaps[m - 1].images[f].width == Pow2(L - m))
    ensures var t := DecodeBytes(bytes, L, options).value;
      t.minFilter == options.minFilter.GetOr(LinearMipMapLinearFilter) &&
      t.magFilter == options.magFilter.GetOr(LinearFilter) && t.encoding == LogLuvEncoding
  {
    DecodedChains(bytes, L);
    AssembledLayout(DecodedFaces(bytes, L), L, options);
  }

  /** The gzip framing is transparent: with the library present the decoder works on the decompressed bytes. */
  lemma DecodeInflated(data: seq<byte>, L: nat, options: TextureOptions, backend: Backend)
    ensures !IsGunzipBuffer(data) ==> Decode(data, L, options, backend) == DecodeBytes(data, L, options)
    ensures IsGunzipBuffer(data) && backend.Some? ==>
      Decode(data, L, options, backend) == DecodeBytes(backend.value(data), L, options)
    ensures IsGunzipBuffer(data) && backend.None? ==> Decode(data, L, options, backend) == Failure(UndefinedBuffer)
  {
  }

  /** Stepping a cursor of `b`-byte blocks: block `k + 1` starts one block later and, for k < 6, ends within six blocks. */
  lemma BlockStep(k: nat, b: nat)
    ensures (k + 1) * b == k * b + b
    ensures k < 6 ==> k * b + b <= 6 * b
  {
  }

  /** One face view of the level loop: `byteSize` bytes at `offset` gathered into a fresh Uint8Array. */
  method ReadFace(data: seq<byte>, L: nat, m: nat, f: nat, offset: nat) returns (image: seq<byte>)
    requires m <= L && offset == FaceOffset(L, m, f) && offset + FaceBytes(L, m) <= |data|
    ensures image == FaceImage(data, L, m, f)
  {
    var size := Pow2(L - m);
    var byteSize := size * size * 4;
    var deinterleave := new byte[byteSize](_ => 0);
    assert deinterleave[..] == Zeros(byteSize);
    DeinterleaveImage4(size, data[offset..offset + byteSize], deinterleave);
    image := deinterleave[..];
  }

  /**
   * One pass of the face loop of `loadPacked` over level `i`, which starts
   * inside the buffer: each face view is gathered into a fresh array and
   * appended to that face's chain.
   */
  method ReadLevel(data: seq<byte>, L: nat, i: nat, images: seq<seq<seq<byte>>>)
    returns (r: Result<seq<seq<seq<byte>>>, Error>)
    requires i <= L && LevelOffset(L, i) < |data|
    requires |images| == 0 || |images| == 6
    ensures r.Failure? <==> LevelOffset(L, i + 1) > |data|
    ensures r.Failure? ==> r.error == ViewOutOfRange
    ensures r.Success? ==>
      |r.value| == 6 && forall f :: 0 <= f < 6 ==> r.value[f] == Chain(images, f) + [FaceImage(data, L, i, f)]
  {
    var byteSize := FaceBytes(L, i);
    var offset := LevelOffset(L, i);
    ghost var start := offset;
    assert LevelOffset(L, i + 1) == start + 6 * byteSize;
    var out := images;
    ghost var read: seq<seq<byte>> := [];
    var face := 0;
    while face < 6
      invariant 0 <= face <= 6
      invariant offset == start + face * byteSize <= |data|
      invariant |out| == (if |images| == 0 then face else 6)
      invariant |read| == face && forall f :: 0 <= f < face ==> read[f] == FaceImage(data, L, i, f)
      invariant forall f :: 0 <= f < face ==> out[f] == Chain(images, f) + [read[f]]
      invariant forall f :: face <= f < |out| ==> out[f] == images[f]
    {
      if |out| <= face {
        out := out + [[]];
      }
      BlockStep(face, byteSize);
      if offset + byteSize > |data| {
        return Failure(ViewOutOfRange);
      }
      var image := ReadFace(data, L, i, face, offset);
      out := out[face := out[face] + [image]];
      read := read + [image];
      offset := offset + byteSize;
      face := face + 1;
    }
    return Success(out);
  }

  /** Reading level `i` extends every chain by that level's face. */
  lemma LevelsStep(data: seq<byte>, L: nat, i: nat, out: seq<seq<seq<byte>>>)
    requires i <= L
    requires |out| == 6
    requires forall f :: 0 <= f < 6 ==> out[f] == Chain(Levels(data, L, i), f) + [FaceImage(data, L, i, f)]
    ensures out == Levels(data, L, i + 1)
  {
    var prev, next := Levels(data, L, i), Levels(data, L, i + 1);
    forall f | 0 <= f < 6
      ensures out[f] == next[f]
    {
      var chain := Chain(prev, f);
      assert |chain| == i;
      assert out[f] == chain + [FaceImage(data, L, i, f)];
      forall m | 0 <= m < i + 1
        ensures out[f][m] == next[f][m]
      {
        if m < i {
          assert out[f][m] == chain[m] == FaceImage(data, L, m, f);
        }
      }
    }
  }

  /** The level loop of `loadPacked`: a byte cursor walks the levels until it reaches the end of the buffer. */
  method ReadPackedLevels(data: seq<byte>, L: nat) returns (r: Result<seq<seq<seq<byte>>>, Error>)
    ensures r.Failure? <==> Truncated(L, |data|)
    ensures r.Failure? ==> r.error == ViewOutOfRange
    ensures r.Success? ==> r.value == DecodedFaces(data, L)
  {
    var images: seq<seq<seq<byte>>> := [];
    var i := 0;
    while i <= L
      invariant 0 <= i <= L + 1
      invariant LevelOffset(L, i) <= |data|
      invariant NumLevels(L, |data|) == NumLevelsFrom(L, |data|, i)
      invariant images == Levels(data, L, i)
    {
      if LevelOffset(L, i) >= |data| {
        break;
      }
      var next := ReadLevel(data, L, i, images);
      if next.Failure? {
        assert NumLevels(L, |data|) == i + 1;
        return next;
      }
      LevelsStep(data, L, i, next.value);
      images := next.value;
      i := i + 1;
    }
    return Success(images);
  }

  /** The face loop of `createRGBA8Packed` for level `mip`: one data texture per face, at the level's side. */
  method LevelFaces(packed: seq<seq<seq<byte>>>, L: nat, mip: nat, size: nat) returns (images: seq<DataTexture>)
    requires WellFormedChains(packed, L) && mip < |packed[0]| && size == Side(L, mip)
    ensures images == LevelTexture(packed, L, mip).images
  {
    images := [];
    var face := 0;
    while face < 6
      invariant 0 <= face <= 6 && |images| == face
      invariant forall f :: 0 <= f < face ==> images[f] == FaceTexture(packed[f][mip], size)
    {
      images := images + [FaceTexture(packed[face][mip], size)];
      face := face + 1;
    }
  }

  /**
   * The integration loop of `createRGBA8Packed`: for every face, the face
   * image of level 0, and (again, for every face) the further levels as
   * mipmaps.
   */
  method Integrate(cubeTextures: seq<CubeTexture>) returns (image: seq<DataTexture>, mipmaps: seq<CubeTexture>)
    requires |cubeTextures| >= 1 && |cubeTextures[0].images| == 6
    ensures image == cubeTextures[0].images && mipmaps == cubeTextures[1..]
  {
    var numMips := |cubeTextures|;
    image := [];
    mipmaps := [];
    var i := 0;
    while i < 6
      invariant 0 <= i <= 6 && image == cubeTextures[0].images[..i]
      invariant mipmaps == if i == 0 then [] else cubeTextures[1..]
    {
      image := image + [cubeTextures[0].images[i]];
      var m := 1;
      while m < numMips
        invariant 1 <= m <= numMips
        invariant i == 0 ==> mipmaps == cubeTextures[1..m]
        invariant i > 0 ==> mipmaps == cubeTextures[1..]
      {
        if m - 1 < |mipmaps| {
          mipmaps := mipmaps[m - 1 := cubeTextures[m]];
        } else {
          mipmaps := mipmaps + [cubeTextures[m]];
        }
        m := m + 1;
      }
      i := i + 1;
    }
    assert image == cubeTextures[0].images[..6];
  }

  /**
   * `createRGBA8Packed`: one cube texture per level, whose six faces are
   * that level's images at the halved size; then the integrated texture
   * takes the level-0 faces as its images and the other levels as mipmaps.
   */
  method CreateRGBA8Packed(packed: seq<seq<seq<byte>>>, L: nat, options: TextureOptions)
    returns (cubeTextures: seq<CubeTexture>, r: Result<CubeTexture, Error>)
    requires |packed| == 0 || WellFormedChains(packed, L)
    ensures r.Failure? <==> |packed| == 0
    ensures r.Failure? ==> r.error == NoCubeLevels && cubeTextures == []
    ensures r.Success? ==> r.value == Assembled(packed, L, options)
    ensures r.Success? ==> |cubeTextures| == |packed[0]|
    ensures r.Success? ==> forall m :: 0 <= m < |cubeTextures| ==> cubeTextures[m] == LevelTexture(packed, L, m)
  {
    cubeTextures := [];
    if |packed| == 0 {
      return [], Failure(NoCubeLevels);
    }
    var numMips := |packed[0]|;
    var size := Pow2(L);
    var mip := 0;
    while mip < numMips
      invariant 0 <= mip <= numMips
      invariant mip <= L ==> size == Pow2(L - mip)
      invariant |cubeTextures| == mip
      invariant forall m :: 0 <= m < mip ==> cubeTextures[m] == LevelTexture(packed, L, m)
    {
      var images := LevelFaces(packed, L, mip, size);
      cubeTextures := cubeTextures + [CubeTexture(images, [], LogLuvEncoding, LinearMipMapLinearFilter, LinearFilter, false)];
      if mip < L {
        Pow2Half(L - mip - 1);
      }
      size := size / 2;
      mip := mip + 1;
    }
    var image, mipmaps := Integrate(cubeTextures);
    var minFilter := if options.minFilter.Some? then options.minFilter.value else LinearMipMapLinearFilter;
    var magFilter := if options.magFilter.Some? then options.magFilter.value else LinearFilter;
    r := Success(CubeTexture(image, mipmaps, LogLuvEncoding, minFilter, magFilter, false));
    assert mipmaps == seq(numMips - 1, m requires 0 <= m < numMips - 1 => LevelTexture(packed, L, m + 1));
  }

  /** A packed cube map and what decoding it left behind. */
  class CubeMapEnv {
    const options: TextureOptions
    const size: nat
    const data: seq<byte>
    var packedImages: seq<seq<seq<byte>>>
    var cubeTextures: seq<CubeTexture>
    /** The integrated texture; None until `loadPacked` succeeds. */
    var texture: Option<CubeTexture>

    constructor (data: seq<byte>, size: nat, options: TextureOptions)
      ensures this.data == data && this.size == size && this.options == options
      ensures packedImages == [] && cubeTextures == [] && texture == None
    {
      this.data := data;
      this.size := size;
      this.options := options;
      packedImages := [];
      cubeTextures := [];
      texture := None;
    }

    /** `loadPacked`: inflate, read the levels, assemble; `texture` is the result. */
    method LoadPacked(backend: Backend) returns (r: Outcome<Error>)
      requires IsPow2(size)
      modifies this
      ensures var d := Decode(data, Log2(size), options, backend);
        (r.Pass? <==> d.Success?) &&
        (r.Fail? ==> r.error == d.error && texture == old(texture)) &&
        (r.Pass? ==> texture == Some(d.value))
      ensures r.Pass? ==> packedImages == DecodedFaces(Inflate(data, backend).value, Log2(size))
    {
      var L := Log2(size);
      var inflated := Inflate(data, backend);
      if inflated.None? {
        return Fail(UndefinedBuffer);
      }
      var bytes := inflated.value;
      var levels := ReadPackedLevels(bytes, L);
      if levels.Failure? {
        return Fail(levels.error);
      }
      packedImages := levels.value;
      var built, result := CreateRGBA8Packed(packedImages, L, options);
      cubeTextures := built;
      if result.Failure? {
        return Fail(result.error);
      }
      texture := Some(result.value);
      return Pass;
    }
  }
}

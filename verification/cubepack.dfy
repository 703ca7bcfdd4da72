/**
 * The packed cube map layout, written out as an encoder, and the proof that
 * the decoder of `EnvironmentCubeMap` inverts it: every face of every level
 * comes back exactly as it was packed.
 */
module CubeMapPacking {
  import opened Wrappers
  import opened Errors
  import opened Zlib
  import opened PlanarImage
  import opened PowerOfTwo
  import opened Textures
  import opened EnvironmentCubeMap

  /** The blocks one after the other. */
  function Flatten(blocks: seq<seq<byte>>): (r: seq<byte>)
  {
    if |blocks| == 0 then [] else Flatten(blocks[..|blocks| - 1]) + blocks[|blocks| - 1]
  }

  lemma {:induction false} FlattenSplit(blocks: seq<seq<byte>>, i: nat)
    requires i <= |blocks|
    ensures Flatten(blocks) == Flatten(blocks[..i]) + Flatten(blocks[i..])
  {
    if i < |blocks| {
      var n := |blocks|;
      var init := blocks[..n - 1];
      FlattenSplit(init, i);
      assert init[..i] == blocks[..i];
      assert blocks[i..][..|blocks[i..]| - 1] == init[i..];
    } else {
      assert blocks[..i] == blocks;
    }
  }

  /** Block `i` sits right after the blocks before it. */
  lemma FlattenBlock(blocks: seq<seq<byte>>, i: nat)
    requires i < |blocks|
    ensures var s := |Flatten(blocks[..i])|;
      s + |blocks[i]| <= |Flatten(blocks)| && Flatten(blocks)[s..s + |blocks[i]|] == blocks[i]
  {
    FlattenSplit(blocks, i + 1);
    assert blocks[..i + 1][..i] == blocks[..i];
  }

  /** Blocks of one size n: the first i of them take i·n bytes. */
  lemma {:induction false} FlattenUniform(blocks: seq<seq<byte>>, n: nat, i: nat)
    requires i <= |blocks| && forall j :: 0 <= j < |blocks| ==> |blocks[j]| == n
    ensures |Flatten(blocks[..i])| == i * n
  {
    if i > 0 {
      FlattenUniform(blocks, n, i - 1);
      assert blocks[..i][..i - 1] == blocks[..i - 1];
    }
  }

  /** A mip chain to pack: `levels[m][f]` is face f of level m, side 2^(L−m), as interleaved RGBA8. */
  predicate WellSized(levels: seq<seq<seq<byte>>>, L: nat) {
    1 <= |levels| <= L + 1 &&
    forall m :: 0 <= m < |levels| ==> |levels[m]| == 6 && forall f :: 0 <= f < 6 ==> |levels[m][f]| == FaceBytes(L, m)
  }

  /** Level `m` in the file: the six faces, each as four planar channel blocks. */
  function PackLevel(levels: seq<seq<seq<byte>>>, L: nat, m: nat): (r: seq<byte>)
    requires WellSized(levels, L) && m < |levels|
  {
    var n := Side(L, m) * Side(L, m);
    Flatten(seq(6, f requires 0 <= f < 6 => Planar(levels[m][f], n)))
  }

  /** The packed file: the levels, largest first. */
  function Pack(levels: seq<seq<seq<byte>>>, L: nat): seq<byte>
    requires WellSized(levels, L)
  {
    Flatten(seq(|levels|, m requires 0 <= m < |levels| => PackLevel(levels, L, m)))
  }

  /** Face f of a packed level lies at f·FaceBytes within it and holds that face's planar block. */
  lemma PackLevelFace(levels: seq<seq<seq<byte>>>, L: nat, m: nat, f: nat)
    requires WellSized(levels, L) && m < |levels| && f < 6
    ensures |PackLevel(levels, L, m)| == 6 * FaceBytes(L, m)
    ensures var b := FaceBytes(L, m);
      PackLevel(levels, L, m)[f * b..f * b + b] == Planar(levels[m][f], Side(L, m) * Side(L, m))
  {
    var n := Side(L, m) * Side(L, m);
    var faces := seq(6, g requires 0 <= g < 6 => Planar(levels[m][g], n));
    FlattenUniform(faces, FaceBytes(L, m), f);
    FlattenUniform(faces, FaceBytes(L, m), 6);
    assert faces[..6] == faces;
    FlattenBlock(faces, f);
  }

  /** The first m levels of the file take exactly LevelOffset(L, m) bytes. */
  lemma {:induction false} PackPrefix(levels: seq<seq<seq<byte>>>, L: nat, m: nat)
    requires WellSized(levels, L) && m <= |levels|
    ensures var blocks := seq(|levels|, j requires 0 <= j < |levels| => PackLevel(levels, L, j));
      |Flatten(blocks[..m])| == LevelOffset(L, m)
  {
    if m > 0 {
      var blocks := seq(|levels|, j requires 0 <= j < |levels| => PackLevel(levels, L, j));
      PackPrefix(levels, L, m - 1);
      assert blocks[..m][..m - 1] == blocks[..m - 1];
      PackLevelFace(levels, L, m - 1, 0);
    }
  }

  lemma SliceOfSlice(s: seq<byte>, a: nat, e: nat, c: nat, d: nat)
    requires a + e <= |s| && c <= d <= e
    ensures s[a..a + e][c..d] == s[a + c..a + d]
  {
    var inner := s[a..a + e][c..d];
    assert forall i :: 0 <= i < d - c ==> inner[i] == s[a + c..a + d][i];
  }

  lemma FaceWithinLevel(f: nat, b: nat)
    requires f < 6
    ensures f * b + b <= 6 * b
  {
  }

  /** Level m of the packed file lies at `LevelOffset(L, m)`. */
  lemma PackLevelAt(levels: seq<seq<seq<byte>>>, L: nat, m: nat)
    requires WellSized(levels, L) && m < |levels|
    ensures var lo := LevelOffset(L, m);
      lo + |PackLevel(levels, L, m)| <= |Pack(levels, L)| &&
      Pack(levels, L)[lo..lo + |PackLevel(levels, L, m)|] == PackLevel(levels, L, m)
  {
    var blocks := seq(|levels|, j requires 0 <= j < |levels| => PackLevel(levels, L, j));
    PackPrefix(levels, L, m);
    FlattenBlock(blocks, m);
  }

  /** Face f of level m of the packed file is that face's planar block, at `FaceOffset(L, m, f)`. */
  lemma PackFace(levels: seq<seq<seq<byte>>>, L: nat, m: nat, f: nat)
    requires WellSized(levels, L) && m < |levels| && f < 6
    ensures var off := FaceOffset(L, m, f); var b := FaceBytes(L, m);
      off + b <= |Pack(levels, L)| &&
      Pack(levels, L)[off..off + b] == Planar(levels[m][f], Side(L, m) * Side(L, m))
  {
    PackLevelAt(levels, L, m);
    PackLevelFace(levels, L, m, f);
    var b := FaceBytes(L, m);
    FaceWithinLevel(f, b);
    SliceOfSlice(Pack(levels, L), LevelOffset(L, m), 6 * b, f * b, f * b + b);
  }

  /** The packed file is exactly as long as its levels: LevelOffset(L, k) for k levels. */
  lemma PackLength(levels: seq<seq<seq<byte>>>, L: nat)
    requires WellSized(levels, L)
    ensures |Pack(levels, L)| == LevelOffset(L, |levels|)
  {
    var blocks := seq(|levels|, j requires 0 <= j < |levels| => PackLevel(levels, L, j));
    PackPrefix(levels, L, |levels|);
    assert blocks[..|levels|] == blocks;
  }

  /** The decoded texture holds `levels`: level 0 as its faces, every further level as a mipmap. */
  predicate Restores(r: Result<CubeTexture, Error>, levels: seq<seq<seq<byte>>>)
    requires |levels| >= 1 && forall m :: 0 <= m < |levels| ==> |levels[m]| == 6
  {
    r.Success? && |r.value.images| == 6 && |r.value.mipmaps| == |levels| - 1 &&
    (forall f :: 0 <= f < 6 ==> r.value.images[f].data == levels[0][f]) &&
    (forall m, f :: 1 <= m < |levels| && 0 <= f < 6 ==>
      |r.value.mipmaps[m - 1].images| == 6 && r.value.mipmaps[m - 1].images[f].data == levels[m][f])
  }

  /** Decoding a packed file returns every face of every level as it was packed. */
  lemma DecodePack(levels: seq<seq<seq<byte>>>, L: nat, options: TextureOptions)
    requires WellSized(levels, L)
    ensures Restores(DecodeBytes(Pack(levels, L), L, options), levels)
  {
    var file := Pack(levels, L);
    PackLength(levels, L);
    ExactLevels(L, |levels|);
    forall m, f | 0 <= m < |levels| && 0 <= f < 6
      ensures FaceImage(file, L, m, f) == levels[m][f]
    {
      PackFace(levels, L, m, f);
      UnpackPlanar(levels[m][f], Side(L, m) * Side(L, m));
    }
    DecodedLayout(file, L, options);
  }

  /**
   * The same through `loadPacked`: a gzip-framed file decompresses to the
   * packed levels, and a plain file is read as is, unless its first two
   * bytes happen to be the gzip magic.
   */
  lemma LoadPack(data: seq<byte>, levels: seq<seq<seq<byte>>>, L: nat, options: TextureOptions, backend: Backend)
    requires WellSized(levels, L)
    requires if IsGunzipBuffer(data) then backend.Some? && backend.value(data) == Pack(levels, L) else data == Pack(levels, L)
    ensures Restores(Decode(data, L, options, backend), levels)
  {
    DecodeInflated(data, L, options, backend);
    assert Decode(data, L, options, backend) == DecodeBytes(Pack(levels, L), L, options);
    DecodePack(levels, L, options);
  }
}

/**
 * The planar-to-interleaved gather `deinterleaveImage4` that both the cube
 * map and the panorama decoder run. The packed file stores an image of
 * `n` pixels as four planar blocks of `n` bytes (all R, then all G, all B,
 * all A); the gather writes them out as RGBA8, four bytes per pixel.
 *
 * The arrays follow Uint8Array rules: a read past the end of `src` yields
 * undefined, which is stored as 0, and a write past the end of `dst` is
 * dropped. The panorama decoder depends on both.
 */
module PlanarImage {
  import opened Wrappers

  /** `src[j]` stored into a Uint8Array: 0 when `j` is past the end. */
  function At(src: seq<byte>, j: nat): byte {
    if j < |src| then src[j] else 0
  }

  /** The four channel bytes of pixel `i`, read from the four planar blocks. */
  function Pixel(src: seq<byte>, n: nat, i: nat): seq<byte> {
    [At(src, i), At(src, i + n), At(src, i + 2 * n), At(src, i + 3 * n)]
  }

  /** The interleaved bytes of the first `count` pixels, in the order the gather writes them. */
  function Gathered(src: seq<byte>, n: nat, count: nat): (r: seq<byte>)
    ensures |r| == 4 * count
  {
    if count == 0 then [] else Gathered(src, n, count - 1) + Pixel(src, n, count - 1)
  }

  /** `written` laid over the first positions of `dst`; what lies past the end of `dst` is dropped. */
  function Overlay(written: seq<byte>, dst: seq<byte>): (r: seq<byte>)
    ensures |r| == |dst|
  {
    seq(|dst|, k requires 0 <= k < |dst| => if k < |written| then written[k] else dst[k])
  }

  /** The content of `dst` after `deinterleaveImage4` over `n` pixels. */
  function Deinterleaved(src: seq<byte>, n: nat, dst: seq<byte>): (r: seq<byte>)
    ensures |r| == |dst|
  {
    Overlay(Gathered(src, n, n), dst)
  }

  /** Channel `c` of pixel `i` lands at position `4i + c`. */
  lemma {:induction false} GatheredAt(src: seq<byte>, n: nat, count: nat, i: nat, c: nat)
    requires i < count && c < 4
    ensures Gathered(src, n, count)[4 * i + c] == At(src, i + c * n)
  {
    if i < count - 1 {
      GatheredAt(src, n, count - 1, i, c);
    }
  }

  /**
   * `deinterleaveImage4`: for every pixel i < n and channel c < 4,
   * dst[4i + c] = src[i + c·n] (0 when the read falls past the end of src);
   * positions from 4n on keep their old content.
   */
  lemma DeinterleavedAt(src: seq<byte>, n: nat, dst: seq<byte>)
    ensures forall i: nat, c: nat :: i < n && c < 4 && 4 * i + c < |dst| ==>
      Deinterleaved(src, n, dst)[4 * i + c] == At(src, i + c * n)
    ensures forall k :: 4 * n <= k < |dst| ==> Deinterleaved(src, n, dst)[k] == dst[k]
  {
    forall i: nat, c: nat | i < n && c < 4 && 4 * i + c < |dst|
      ensures Deinterleaved(src, n, dst)[4 * i + c] == At(src, i + c * n)
    {
      GatheredAt(src, n, n, i, c);
    }
  }

  /** `n` zero bytes: a freshly allocated Uint8Array. */
  function Zeros(n: nat): (r: seq<byte>)
    ensures |r| == n && forall k :: 0 <= k < n ==> r[k] == 0
  {
    seq(n, _ => 0)
  }

  /** Channel `c` of an interleaved RGBA8 image of `n` pixels, as one planar block. */
  function Channel(rgba: seq<byte>, n: nat, c: nat): (r: seq<byte>)
    requires |rgba| == 4 * n && c < 4
    ensures |r| == n
  {
    seq(n, i requires 0 <= i < n => rgba[4 * i + c])
  }

  /**
   * The layout the packed files use, the inverse of the gather: the four
   * channels of an interleaved RGBA8 image of `n` pixels, one block after
   * the other.
   */
  function Planar(rgba: seq<byte>, n: nat): (r: seq<byte>)
    requires |rgba| == 4 * n
    ensures |r| == 4 * n
  {
    Channel(rgba, n, 0) + Channel(rgba, n, 1) + Channel(rgba, n, 2) + Channel(rgba, n, 3)
  }

  /** Channel c of pixel i sits at i + c·n in the planar layout. */
  lemma PlanarAt(rgba: seq<byte>, n: nat, i: nat, c: nat)
    requires |rgba| == 4 * n && i < n && c < 4
    ensures i + c * n < 4 * n && Planar(rgba, n)[i + c * n] == rgba[4 * i + c]
  {
    var p := Planar(rgba, n);
    if c == 0 {
      assert p[i] == Channel(rgba, n, 0)[i];
    } else if c == 1 {
      assert p[i + n] == Channel(rgba, n, 1)[i];
    } else if c == 2 {
      assert p[i + 2 * n] == Channel(rgba, n, 2)[i];
    } else {
      assert p[i + 3 * n] == Channel(rgba, n, 3)[i];
    }
  }

  /** Unpacking a planar block recovers the interleaved image it was packed from. */
  lemma UnpackPlanar(rgba: seq<byte>, n: nat)
    requires |rgba| == 4 * n
    ensures Deinterleaved(Planar(rgba, n), n, Zeros(4 * n)) == rgba
  {
    var p := Planar(rgba, n);
    var out := Deinterleaved(p, n, Zeros(4 * n));
    forall k | 0 <= k < 4 * n
      ensures out[k] == rgba[k]
    {
      var i, c := k / 4, k % 4;
      assert k == 4 * i + c && i < n;
      GatheredAt(p, n, n, i, c);
      PlanarAt(rgba, n, i, c);
    }
  }

  /** Packing the unpacked image gives back the planar block: the gather is a bijection on 4n bytes. */
  lemma PackUnpacked(src: seq<byte>, n: nat)
    requires |src| == 4 * n
    ensures Planar(Deinterleaved(src, n, Zeros(4 * n)), n) == src
  {
    var out := Deinterleaved(src, n, Zeros(4 * n));
    forall i | 0 <= i < n
      ensures Channel(out, n, 0)[i] == src[i]
      ensures Channel(out, n, 1)[i] == src[n + i]
      ensures Channel(out, n, 2)[i] == src[2 * n + i]
      ensures Channel(out, n, 3)[i] == src[3 * n + i]
    {
      GatheredAt(src, n, n, i, 0);
      GatheredAt(src, n, n, i, 1);
      GatheredAt(src, n, n, i, 2);
      GatheredAt(src, n, n, i, 3);
    }
    assert Channel(out, n, 0) == src[..n];
    assert Channel(out, n, 1) == src[n..2 * n];
    assert Channel(out, n, 2) == src[2 * n..3 * n];
    assert Channel(out, n, 3) == src[3 * n..];
    assert src == src[..n] + src[n..2 * n] + src[2 * n..3 * n] + src[3 * n..];
  }

  /**
   * `deinterleaveImage4(size, src, dst)`: a running index walks dst four
   * bytes per pixel over the size² pixels.
   */
  method DeinterleaveImage4(size: nat, src: seq<byte>, dst: array<byte>)
    modifies dst
    ensures dst[..] == Deinterleaved(src, size * size, old(dst[..]))
  {
    var npixel := size * size;
    var npixel2 := 2 * npixel;
    var npixel3 := 3 * npixel;
    var idx := 0;
    var i := 0;
    while i < npixel
      invariant 0 <= i <= npixel && idx == 4 * i
      invariant dst[..] == Overlay(Gathered(src, npixel, i), old(dst[..]))
    {
      if idx < dst.Length { dst[idx] := At(src, i); }
      idx := idx + 1;
      if idx < dst.Length { dst[idx] := At(src, i + npixel); }
      idx := idx + 1;
      if idx < dst.Length { dst[idx] := At(src, i + npixel2); }
      idx := idx + 1;
      if idx < dst.Length { dst[idx] := At(src, i + npixel3); }
      idx := idx + 1;
      i := i + 1;
      assert Gathered(src, npixel, i) == Gathered(src, npixel, i - 1) + Pixel(src, npixel, i - 1);
    }
  }
}

/**
 * The few String and Array.prototype operations the viewer relies on, over
 * sequences: `substr`, `indexOf`, `lastIndexOf`, `replace` with a string
 * pattern, and ASCII `toUpperCase`.
 */
module JsString {

  /** `p` occurs in `s` at position `i`. */
  predicate MatchAt<T(==)>(s: seq<T>, p: seq<T>, i: int) {
    0 <= i && i + |p| <= |s| && s[i..i + |p|] == p
  }

  predicate StartsWith<T(==)>(s: seq<T>, p: seq<T>) {
    MatchAt(s, p, 0)
  }

  predicate EndsWith<T(==)>(s: seq<T>, p: seq<T>) {
    MatchAt(s, p, |s| - |p|)
  }

  /** `s.substr(start, length)` for non-negative arguments: clipped to the end of `s`. */
  function Substr<T>(s: seq<T>, start: nat, length: nat): (r: seq<T>)
    ensures start + length <= |s| ==> r == s[start..start + length]
    ensures start + length > |s| ==> r == s[if start < |s| then start else |s|..]
  {
    var b := if start < |s| then start else |s|;
    var e := if start + length < |s| then start + length else |s|;
    s[b..e]
  }

  /** A substr of `s` of the length of `p` equals `p` exactly when `s` starts with `p`. */
  lemma SubstrPrefix<T>(s: seq<T>, p: seq<T>)
    ensures Substr(s, 0, |p|) == p <==> StartsWith(s, p)
  {
    if |p| > |s| {
      assert |Substr(s, 0, |p|)| < |p|;
    }
  }

  /** `s.indexOf(p, from)`: the first position at or after `from` where `p` occurs, or -1. */
  function IndexOfFrom<T(==)>(s: seq<T>, p: seq<T>, from: nat): (r: int)
    ensures r == -1 || (from <= r && MatchAt(s, p, r))
    ensures r == -1 ==> forall i :: from <= i ==> !MatchAt(s, p, i)
    ensures r >= 0 ==> forall i :: from <= i < r ==> !MatchAt(s, p, i)
    decreases |s| - from
  {
    if from + |p| > |s| then -1
    else if s[from..from + |p|] == p then from
    else IndexOfFrom(s, p, from + 1)
  }

  function IndexOf<T(==)>(s: seq<T>, p: seq<T>): (r: int)
    ensures r == -1 || MatchAt(s, p, r)
    ensures r == -1 <==> forall i :: !MatchAt(s, p, i)
    ensures r >= 0 ==> forall i :: i < r ==> !MatchAt(s, p, i)
  {
    IndexOfFrom(s, p, 0)
  }

  /** Unanchored search, as `String.prototype.match` with a literal pattern and `RegExp.test`. */
  predicate Contains<T(==)>(s: seq<T>, p: seq<T>)
    decreases |s|
  {
    StartsWith(s, p) || (|s| > 0 && Contains(s[1..], p))
  }

  /** `p` occurs in `s` exactly when it matches at some position. */
  lemma {:induction false} ContainsIff<T>(s: seq<T>, p: seq<T>)
    ensures Contains(s, p) <==> exists i :: MatchAt(s, p, i)
    decreases |s|
  {
    if |s| > 0 {
      ContainsIff(s[1..], p);
      if exists i :: MatchAt(s[1..], p, i) {
        var i :| MatchAt(s[1..], p, i);
        assert s[1..][i..i + |p|] == s[i + 1..i + 1 + |p|];
        assert MatchAt(s, p, i + 1);
      }
      if exists i :: MatchAt(s, p, i) {
        var i :| MatchAt(s, p, i);
        if i > 0 {
          assert s[1..][i - 1..i - 1 + |p|] == s[i..i + |p|];
          assert MatchAt(s[1..], p, i - 1);
        }
      }
    } else if exists i :: MatchAt(s, p, i) {
      var i :| MatchAt(s, p, i);
      assert i == 0;
    }
  }

  /** `p` occurs in `s` exactly when `indexOf` finds it. */
  lemma ContainsIndexOf<T>(s: seq<T>, p: seq<T>)
    ensures Contains(s, p) <==> IndexOf(s, p) >= 0
  {
    ContainsIff(s, p);
  }

  lemma ContainsAt<T>(s: seq<T>, p: seq<T>, i: int)
    requires MatchAt(s, p, i)
    ensures Contains(s, p)
  {
    ContainsIff(s, p);
  }

  /** A pattern with an element the sequence lacks does not occur in it. */
  lemma MissingElement<T>(s: seq<T>, p: seq<T>, x: T)
    requires x in p && x !in s
    ensures !Contains(s, p)
  {
    ContainsIff(s, p);
  }

  /** `s.replace(p, '')` with a string pattern: drops the first occurrence of `p`. */
  function RemoveFirst<T(==)>(s: seq<T>, p: seq<T>): (r: seq<T>)
    ensures !Contains(s, p) ==> r == s
    ensures Contains(s, p) ==> |r| == |s| - |p|
    ensures Contains(s, p) ==> 0 <= IndexOf(s, p) && r == s[..IndexOf(s, p)] + s[IndexOf(s, p) + |p|..]
  {
    ContainsIndexOf(s, p);
    var i := IndexOf(s, p);
    if i < 0 then s else s[..i] + s[i + |p|..]
  }

  /** Replacing a prefix removes exactly that prefix. */
  lemma RemovePrefix<T>(p: seq<T>, s: seq<T>)
    ensures RemoveFirst(p + s, p) == s
  {
    assert MatchAt(p + s, p, 0);
    ContainsAt(p + s, p, 0);
    ContainsIndexOf(p + s, p);
    assert (p + s)[|p|..] == s;
  }

  /** `s.lastIndexOf(x)` for a single element `x`. */
  function LastIndexOf<T(==)>(s: seq<T>, x: T): (r: int)
    ensures -1 <= r < |s|
    ensures r >= 0 ==> s[r] == x && x !in s[r + 1..]
    ensures r == -1 <==> x !in s
  {
    if s == [] then -1
    else if s[|s| - 1] == x then |s| - 1
    else
      assert s == s[..|s| - 1] + [s[|s| - 1]];
      LastIndexOf(s[..|s| - 1], x)
  }

  /** The last occurrence is the one with none after it. */
  lemma {:induction false} LastIndexOfAt<T>(s: seq<T>, x: T, i: nat)
    requires i < |s| && s[i] == x && x !in s[i + 1..]
    ensures LastIndexOf(s, x) == i
    decreases |s|
  {
    if i < |s| - 1 {
      assert s[|s| - 1] == s[i + 1..][|s| - 2 - i];
      assert s[..|s| - 1][i + 1..] == s[i + 1..|s| - 1];
      LastIndexOfAt(s[..|s| - 1], x, i);
    }
  }

  function UpperChar(c: char): char {
    if 'a' <= c <= 'z' then (c as int - 32) as char else c
  }

  /** `s.toUpperCase()` on ASCII text. */
  function ToUpper(s: string): (r: string)
    ensures |r| == |s|
    ensures forall i :: 0 <= i < |s| ==> r[i] == UpperChar(s[i])
  {
    seq(|s|, i requires 0 <= i < |s| => UpperChar(s[i]))
  }
}

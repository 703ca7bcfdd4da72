/**
 * The shader include preprocessor (`Program`): every line of the form
 * `#preImport <name>`, with optional leading blanks, is replaced by the
 * recursive expansion of the chunk of that name from a registry; the rest
 * of the line and every other character are kept.
 *
 * The include pattern is the multiline, global expression
 * `^[ \t]*#preImport +<([\w\d./]+)>`. `^` holds at the start of the text and
 * right after a line terminator; the match is deterministic (each repetition
 * is greedy and followed by a character it cannot consume), so it is written
 * here as a scan. JavaScript recursion has no bound of its own: the engine's
 * stack limit ends an include cycle with a RangeError, modelled by a depth
 * budget `fuel` whose exhaustion gives `StackOverflow`.
 */
module ShaderProgram {
  import opened Wrappers
  import opened Errors
  import opened JsString

  /** The characters after which `^` holds in a multiline expression. */
  predicate IsLineTerminator(c: char) {
    c == '\n' || c == '\r' || c == '\U{2028}' || c == '\U{2029}'
  }

  predicate LineStart(s: string, p: nat) {
    p == 0 || (p <= |s| && IsLineTerminator(s[p - 1]))
  }

  /** `[ \t]` */
  predicate IsBlank(c: char) {
    c == ' ' || c == '\t'
  }

  predicate IsSpace(c: char) {
    c == ' '
  }

  /** `[\w\d./]`: letters, digits, `_`, `.` and `/`. */
  predicate IsNameChar(c: char) {
    ('A' <= c <= 'Z') || ('a' <= c <= 'z') || ('0' <= c <= '9') || c == '_' || c == '.' || c == '/'
  }

  const Keyword: string := "#preImport"

  /** The end of the longest run of characters satisfying `P` that starts at `i`. */
  function RunEnd(s: string, i: nat, P: char -> bool): (r: nat)
    requires i <= |s|
    ensures i <= r <= |s|
    decreases |s| - i
  {
    if i < |s| && P(s[i]) then RunEnd(s, i + 1, P) else i
  }

  /** The run is as long as it can be: every character in it satisfies `P`, the next one does not. */
  lemma {:induction false} RunEndMaximal(s: string, i: nat, P: char -> bool)
    requires i <= |s|
    ensures var r := RunEnd(s, i, P);
      (forall k :: i <= k < r ==> P(s[k])) && (r == |s| || !P(s[r]))
    decreases |s| - i
  {
    if i < |s| && P(s[i]) {
      RunEndMaximal(s, i + 1, P);
    }
  }

  /** A directive match: the chunk name and the position right after `>`. */
  datatype Directive = Directive(name: string, end: nat)

  /** The pattern's tail `[\w\d./]+>` from position `i`. */
  function NameAt(s: string, i: nat): (r: Option<Directive>)
    requires i <= |s|
    ensures r.Some? ==> i < r.value.end <= |s|
  {
    var e := RunEnd(s, i, IsNameChar);
    if e == i || e == |s| || s[e] != '>' then None
    else Some(Directive(s[i..e], e + 1))
  }

  /** The pattern after the keyword, ` +<[\w\d./]+>`, from position `k`. */
  function ImportAt(s: string, k: nat): (r: Option<Directive>)
    requires k <= |s|
    ensures r.Some? ==> k < r.value.end <= |s|
  {
    var sp := RunEnd(s, k, IsSpace);
    if sp == k || sp == |s| || s[sp] != '<' then None
    else NameAt(s, sp + 1)
  }

  /** The include pattern tried at position `p` of `s`. */
  function DirectiveAt(s: string, p: nat): (r: Option<Directive>)
    requires p <= |s|
    ensures r.Some? ==> LineStart(s, p) && p < r.value.end <= |s|
  {
    if !LineStart(s, p) then None
    else
      var q := RunEnd(s, p, IsBlank);
      if !MatchAt(s, Keyword, q) then None
      else ImportAt(s, q + |Keyword|)
  }

  predicate NoDirective(s: string) {
    forall p :: 0 <= p <= |s| ==> DirectiveAt(s, p).None?
  }

  /** The text of one directive: blanks, the keyword, spaces, and the name in angle brackets. */
  function DirectiveText(blanks: string, spaces: string, name: string): string {
    blanks + Keyword + spaces + "<" + name + ">"
  }

  predicate WellFormed(blanks: string, spaces: string, name: string) {
    (forall i :: 0 <= i < |blanks| ==> IsBlank(blanks[i])) &&
    |spaces| >= 1 && (forall i :: 0 <= i < |spaces| ==> IsSpace(spaces[i])) &&
    |name| >= 1 && (forall i :: 0 <= i < |name| ==> IsNameChar(name[i]))
  }

  /**
   * `preParseShader` from position `i`: plain characters are copied, a
   * directive is replaced by its chunk's expansion. An unknown name throws
   * "Can not resolve #preImport <name>"; the first failing directive, in
   * text order, decides the error.
   */
  function ExpandFrom(s: string, i: nat, chunks: map<string, string>, fuel: nat): (r: Result<string, Error>)
    requires i <= |s|
    decreases fuel, |s| - i
  {
    if i == |s| then Success([])
    else
      match DirectiveAt(s, i)
      case None =>
        (match ExpandFrom(s, i + 1, chunks, fuel)
         case Success(t) => Success([s[i]] + t)
         case Failure(e) => Failure(e))
      case Some(d) =>
        if d.name !in chunks then Failure(UnresolvedImport(d.name))
        else if fuel == 0 then Failure(StackOverflow)
        else
          match ExpandFrom(chunks[d.name], 0, chunks, fuel - 1)
          case Failure(e) => Failure(e)
          case Success(included) =>
            match ExpandFrom(s, d.end, chunks, fuel)
            case Success(t) => Success(included + t)
            case Failure(e) => Failure(e)
  }

  /** `preParseShader(s)` with at most `fuel` nested includes. */
  function PreParse(s: string, chunks: map<string, string>, fuel: nat): Result<string, Error> {
    ExpandFrom(s, 0, chunks, fuel)
  }

  /** `getPBRShader`: the vertex and the fragment sources, each expanded on its own, the vertex source first. */
  function GetPBRShader(vs: string, fs: string, chunks: map<string, string>, fuel: nat): (r: Result<(string, string), Error>)
    ensures r.Success? <==> PreParse(vs, chunks, fuel).Success? && PreParse(fs, chunks, fuel).Success?
    ensures r.Success? ==> r.value.0 == PreParse(vs, chunks, fuel).value && r.value.1 == PreParse(fs, chunks, fuel).value
    ensures PreParse(vs, chunks, fuel).Failure? ==> r == Failure(PreParse(vs, chunks, fuel).error)
    ensures PreParse(vs, chunks, fuel).Success? && PreParse(fs, chunks, fuel).Failure? ==>
      r == Failure(PreParse(fs, chunks, fuel).error)
  {
    var v :- PreParse(vs, chunks, fuel);
    var f :- PreParse(fs, chunks, fuel);
    Success((v, f))
  }

  // ----- the pattern -----

  lemma {:induction false} RunEndAt(s: string, i: nat, P: char -> bool, j: nat)
    requires i <= j <= |s|
    requires forall k :: i <= k < j ==> P(s[k])
    requires j == |s| || !P(s[j])
    ensures RunEnd(s, i, P) == j
    decreases j - i
  {
    if i < j {
      RunEndAt(s, i + 1, P, j);
    }
  }

  /** Where the parts of a directive match lie, and what each run holds. */
  lemma DirectiveShape(s: string, p: nat) returns (q: nat, sp: nat, e: nat)
    requires p <= |s| && DirectiveAt(s, p).Some?
    ensures var d := DirectiveAt(s, p).value;
      p <= q && q + |Keyword| < sp < e < |s| && d.end == e + 1 &&
      s[q..q + |Keyword|] == Keyword && s[sp] == '<' && s[e] == '>' && d.name == s[sp + 1..e]
    ensures forall i :: p <= i < q ==> IsBlank(s[i])
    ensures forall i :: q + |Keyword| <= i < sp ==> IsSpace(s[i])
    ensures forall i :: sp + 1 <= i < e ==> IsNameChar(s[i])
  {
    q := RunEnd(s, p, IsBlank);
    var k := q + |Keyword|;
    sp := RunEnd(s, k, IsSpace);
    e := RunEnd(s, sp + 1, IsNameChar);
    RunEndMaximal(s, p, IsBlank);
    RunEndMaximal(s, k, IsSpace);
    RunEndMaximal(s, sp + 1, IsNameChar);
  }

  /** A slice cut at five points is the concatenation of its pieces. */
  lemma Pieces(s: string, p: nat, q: nat, k: nat, sp: nat, e: nat)
    requires p <= q <= k <= sp < e < |s|
    ensures s[p..e + 1] == s[p..q] + s[q..k] + s[k..sp] + [s[sp]] + s[sp + 1..e] + [s[e]]
  {
    assert s[sp..e + 1] == [s[sp]] + s[sp + 1..e] + [s[e]];
    assert s[k..e + 1] == s[k..sp] + s[sp..e + 1];
    assert s[q..e + 1] == s[q..k] + s[k..e + 1];
    assert s[p..e + 1] == s[p..q] + s[q..e + 1];
  }

  /** Every match of the pattern is the text of a well-formed directive at a line start. */
  lemma DirectiveSound(s: string, p: nat) returns (blanks: string, spaces: string)
    requires p <= |s| && DirectiveAt(s, p).Some?
    ensures var d := DirectiveAt(s, p).value;
      LineStart(s, p) && WellFormed(blanks, spaces, d.name) &&
      d.end == p + |DirectiveText(blanks, spaces, d.name)| &&
      s[p..d.end] == DirectiveText(blanks, spaces, d.name)
  {
    var d := DirectiveAt(s, p).value;
    var q, sp, e := DirectiveShape(s, p);
    var k := q + |Keyword|;
    blanks := s[p..q];
    spaces := s[k..sp];
    Pieces(s, p, q, k, sp, e);
    assert forall i :: 0 <= i < |blanks| ==> blanks[i] == s[p + i];
    assert forall i :: 0 <= i < |spaces| ==> spaces[i] == s[k + i];
    assert forall i :: 0 <= i < |d.name| ==> d.name[i] == s[sp + 1 + i];
  }

  /** `s` holds `t` at `p`, so it holds each piece of `t` at the matching offset. */
  lemma SliceOfMatch(s: string, p: nat, t: string, i: nat, j: nat)
    requires MatchAt(s, t, p) && i <= j <= |t|
    ensures s[p + i..p + j] == t[i..j]
  {
    forall x | 0 <= x < j - i ensures s[p + i..p + j][x] == t[i..j][x] {
      assert s[p + i..p + j][x] == s[p + i + x] == s[p..p + |t|][i + x];
    }
  }

  /** Where the pieces of a directive's text lie. */
  lemma TextPieces(blanks: string, spaces: string, name: string)
    ensures var text := DirectiveText(blanks, spaces, name);
      var k := |blanks| + |Keyword|;
      var sp := k + |spaces|;
      var e := sp + 1 + |name|;
      |text| == e + 1 &&
      text[..|blanks|] == blanks && text[|blanks|..k] == Keyword && text[k..sp] == spaces &&
      text[sp] == '<' && text[sp + 1..e] == name && text[e] == '>'
  {
    var text := DirectiveText(blanks, spaces, name);
    assert text == blanks + Keyword + spaces + "<" + name + ">";
  }

  lemma RunOver(s: string, i: nat, piece: string, P: char -> bool)
    requires i + |piece| <= |s| && s[i..i + |piece|] == piece
    requires forall t :: 0 <= t < |piece| ==> P(piece[t])
    ensures forall j :: i <= j < i + |piece| ==> P(s[j])
  {
    forall j | i <= j < i + |piece| ensures P(s[j]) {
      assert s[j] == s[i..i + |piece|][j - i];
    }
  }

  /** The pattern matches at `p` when its pieces lie at the given positions. */
  lemma MatchedPieces(s: string, p: nat, q: nat, sp: nat, e: nat)
    requires LineStart(s, p) && p <= q && q + |Keyword| < sp && sp + 1 < e < |s|
    requires forall j :: p <= j < q ==> IsBlank(s[j])
    requires MatchAt(s, Keyword, q)
    requires forall j :: q + |Keyword| <= j < sp ==> IsSpace(s[j])
    requires s[sp] == '<' && s[e] == '>'
    requires forall j :: sp + 1 <= j < e ==> IsNameChar(s[j])
    ensures DirectiveAt(s, p) == Some(Directive(s[sp + 1..e], e + 1))
  {
    assert s[q] == s[q..q + |Keyword|][0] == '#';
    RunEndAt(s, p, IsBlank, q);
    RunEndAt(s, q + |Keyword|, IsSpace, sp);
    RunEndAt(s, sp + 1, IsNameChar, e);
    assert NameAt(s, sp + 1) == Some(Directive(s[sp + 1..e], e + 1));
    assert ImportAt(s, q + |Keyword|) == Some(Directive(s[sp + 1..e], e + 1));
  }

  /** A directive's text at `p` puts its pieces where `MatchedPieces` asks for them. */
  lemma TextAt(s: string, p: nat, blanks: string, spaces: string, name: string)
    requires WellFormed(blanks, spaces, name)
    requires MatchAt(s, DirectiveText(blanks, spaces, name), p)
    ensures var q := p + |blanks|;
      var sp := q + |Keyword| + |spaces|;
      var e := sp + 1 + |name|;
      p + |DirectiveText(blanks, spaces, name)| == e + 1 && q + |Keyword| < sp && sp + 1 < e < |s| &&
      (forall j :: p <= j < q ==> IsBlank(s[j])) &&
      MatchAt(s, Keyword, q) &&
      (forall j :: q + |Keyword| <= j < sp ==> IsSpace(s[j])) &&
      s[sp] == '<' && s[e] == '>' &&
      (forall j :: sp + 1 <= j < e ==> IsNameChar(s[j])) &&
      s[sp + 1..e] == name
  {
    var text := DirectiveText(blanks, spaces, name);
    TextPieces(blanks, spaces, name);
    var q := p + |blanks|;
    var k := q + |Keyword|;
    var sp := k + |spaces|;
    var e := sp + 1 + |name|;
    SliceOfMatch(s, p, text, 0, |blanks|);
    SliceOfMatch(s, p, text, |blanks|, |blanks| + |Keyword|);
    SliceOfMatch(s, p, text, |blanks| + |Keyword|, sp - p);
    SliceOfMatch(s, p, text, sp + 1 - p, e - p);
    assert s[sp] == text[sp - p] && s[e] == text[e - p];
    RunOver(s, p, blanks, IsBlank);
    RunOver(s, k, spaces, IsSpace);
    RunOver(s, sp + 1, name, IsNameChar);
  }

  /** Every well-formed directive at a line start is matched, with its name and end. */
  lemma DirectiveComplete(s: string, p: nat, blanks: string, spaces: string, name: string)
    requires LineStart(s, p) && WellFormed(blanks, spaces, name)
    requires MatchAt(s, DirectiveText(blanks, spaces, name), p)
    ensures DirectiveAt(s, p) == Some(Directive(name, p + |DirectiveText(blanks, spaces, name)|))
  {
    TextAt(s, p, blanks, spaces, name);
    var q := p + |blanks|;
    MatchedPieces(s, p, q, q + |Keyword| + |spaces|, q + |Keyword| + |spaces| + 1 + |name|);
  }

  // ----- expansion -----

  /** The result of expanding `s[i..]` after a plain stretch `s[i..p]` is that stretch followed by the rest. */
  function Prepend(text: string, r: Result<string, Error>): Result<string, Error> {
    match r
    case Success(t) => Success(text + t)
    case Failure(e) => Failure(e)
  }

  /** A stretch without directives is copied as it is. */
  lemma {:induction false} ExpandPlain(s: string, i: nat, p: nat, chunks: map<string, string>, fuel: nat)
    requires i <= p <= |s|
    requires forall q :: i <= q < p ==> DirectiveAt(s, q).None?
    ensures ExpandFrom(s, i, chunks, fuel) == Prepend(s[i..p], ExpandFrom(s, p, chunks, fuel))
    decreases p - i
  {
    if i < p {
      ExpandPlain(s, i + 1, p, chunks, fuel);
      assert [s[i]] + s[i + 1..p] == s[i..p];
      match ExpandFrom(s, p, chunks, fuel)
      case Success(t) =>
        assert [s[i]] + (s[i + 1..p] + t) == s[i..p] + t;
      case Failure(_) =>
    } else {
      assert s[i..p] == [];
      match ExpandFrom(s, p, chunks, fuel)
      case Success(t) =>
        assert [] + t == t;
      case Failure(_) =>
    }
  }

  /** Text containing no directive comes back unchanged. */
  lemma Unchanged(s: string, chunks: map<string, string>, fuel: nat)
    requires NoDirective(s)
    ensures PreParse(s, chunks, fuel) == Success(s)
  {
    ExpandPlain(s, 0, |s|, chunks, fuel);
    assert s[0..|s|] == s && s + [] == s;
  }

  /** The first directive naming an unknown chunk throws, whatever follows it. */
  lemma UnknownChunk(s: string, p: nat, chunks: map<string, string>, fuel: nat)
    requires p <= |s| && DirectiveAt(s, p).Some? && DirectiveAt(s, p).value.name !in chunks
    requires forall q :: 0 <= q < p ==> DirectiveAt(s, q).None?
    ensures PreParse(s, chunks, fuel) == Failure(UnresolvedImport(DirectiveAt(s, p).value.name))
  {
    ExpandPlain(s, 0, p, chunks, fuel);
  }

  /**
   * Without a cycle guard a chunk that begins by including itself never
   * finishes: every depth budget runs out.
   */
  lemma {:induction false} SelfInclusionOverflows(name: string, chunks: map<string, string>, fuel: nat)
    requires name in chunks && |chunks[name]| > 0
    requires DirectiveAt(chunks[name], 0).Some? && DirectiveAt(chunks[name], 0).value.name == name
    ensures ExpandFrom(chunks[name], 0, chunks, fuel) == Failure(StackOverflow)
  {
    if fuel > 0 {
      SelfInclusionOverflows(name, chunks, fuel - 1);
    }
  }

  /** A larger depth budget changes nothing for a text that did not run out of it. */
  lemma {:induction false} FuelMonotone(s: string, i: nat, chunks: map<string, string>, fuel: nat, more: nat)
    requires i <= |s| && fuel <= more
    requires ExpandFrom(s, i, chunks, fuel) != Failure(StackOverflow)
    ensures ExpandFrom(s, i, chunks, more) == ExpandFrom(s, i, chunks, fuel)
    decreases fuel, |s| - i
  {
    if i < |s| {
      match DirectiveAt(s, i)
      case None =>
        FuelMonotone(s, i + 1, chunks, fuel, more);
      case Some(d) =>
        if d.name in chunks && fuel > 0 {
          var inner := ExpandFrom(chunks[d.name], 0, chunks, fuel - 1);
          FuelMonotone(chunks[d.name], 0, chunks, fuel - 1, more - 1);
          if inner.Success? {
            FuelMonotone(s, d.end, chunks, fuel, more);
          }
        }
    }
  }

  /** Every directive of `s` from `i` on that names a known chunk names one of rank below `bound`. */
  predicate IncludesBelow(s: string, i: nat, chunks: map<string, string>, rank: map<string, nat>, bound: nat) {
    forall p :: i <= p <= |s| && DirectiveAt(s, p).Some? && DirectiveAt(s, p).value.name in chunks ==>
      DirectiveAt(s, p).value.name in rank && rank[DirectiveAt(s, p).value.name] < bound
  }

  /**
   * A registry without include cycles: a rank on chunk names that every
   * include inside a chunk decreases.
   */
  predicate Ranked(chunks: map<string, string>, rank: map<string, nat>) {
    forall n :: n in chunks ==> n in rank && IncludesBelow(chunks[n], 0, chunks, rank, rank[n])
  }

  /** Over a registry without cycles, a depth budget above the ranks of the includes never runs out. */
  lemma {:induction false} RankedNoOverflow(s: string, i: nat, chunks: map<string, string>, rank: map<string, nat>,
                                           fuel: nat)
    requires i <= |s| && Ranked(chunks, rank) && IncludesBelow(s, i, chunks, rank, fuel)
    ensures ExpandFrom(s, i, chunks, fuel) != Failure(StackOverflow)
    decreases fuel, |s| - i
  {
    if i < |s| {
      match DirectiveAt(s, i)
      case None =>
        RankedNoOverflow(s, i + 1, chunks, rank, fuel);
      case Some(d) =>
        if d.name in chunks {
          assert rank[d.name] < fuel;
          RankedNoOverflow(chunks[d.name], 0, chunks, rank, fuel - 1);
          RankedNoOverflow(s, d.end, chunks, rank, fuel);
        }
    }
  }

  // ----- one include -----

  lemma {:induction false} RunEndShift(a: string, b: string, j: nat, P: char -> bool)
    requires j <= |b|
    ensures RunEnd(a + b, |a| + j, P) == |a| + RunEnd(b, j, P)
    decreases |b| - j
  {
    if j < |b| && P(b[j]) {
      RunEndShift(a, b, j + 1, P);
    }
  }

  lemma ShiftSlice(a: string, b: string, i: nat, j: nat)
    requires i <= j <= |b|
    ensures (a + b)[|a| + i..|a| + j] == b[i..j]
  {
    assert (a + b)[|a|..] == b;
    assert (a + b)[|a|..][i..j] == (a + b)[|a| + i..|a| + j];
  }

  /** A match found in a text, seen in the same text after a prefix of `n` characters. */
  function Shifted(d: Option<Directive>, n: nat): Option<Directive> {
    match d
    case None => None
    case Some(d) => Some(Directive(d.name, n + d.end))
  }

  lemma NameAtShift(a: string, b: string, i: nat)
    requires i <= |b|
    ensures NameAt(a + b, |a| + i) == Shifted(NameAt(b, i), |a|)
  {
    RunEndShift(a, b, i, IsNameChar);
    var e := RunEnd(b, i, IsNameChar);
    if e < |b| {
      assert (a + b)[|a| + e] == b[e];
      ShiftSlice(a, b, i, e);
    }
  }

  lemma ImportAtShift(a: string, b: string, k: nat)
    requires k <= |b|
    ensures ImportAt(a + b, |a| + k) == Shifted(ImportAt(b, k), |a|)
  {
    RunEndShift(a, b, k, IsSpace);
    var sp := RunEnd(b, k, IsSpace);
    if sp < |b| {
      assert (a + b)[|a| + sp] == b[sp];
      NameAtShift(a, b, sp + 1);
    }
  }

  /** Past its first character, a text is matched alike on its own and after any prefix. */
  lemma DirectiveShift(a: string, b: string, j: nat)
    requires 0 < j <= |b|
    ensures DirectiveAt(a + b, |a| + j) == Shifted(DirectiveAt(b, j), |a|)
  {
    LineStartShift(a, b, j);
    if LineStart(b, j) {
      RunEndShift(a, b, j, IsBlank);
      var q := RunEnd(b, j, IsBlank);
      KeywordShift(a, b, q);
      if MatchAt(b, Keyword, q) {
        ImportAtShift(a, b, q + |Keyword|);
      }
    }
  }

  lemma LineStartShift(a: string, b: string, j: nat)
    requires 0 < j <= |b|
    ensures LineStart(a + b, |a| + j) <==> LineStart(b, j)
  {
    assert (a + b)[|a| + j - 1] == b[j - 1];
  }

  lemma KeywordShift(a: string, b: string, q: nat)
    requires q <= |b|
    ensures MatchAt(a + b, Keyword, |a| + q) <==> MatchAt(b, Keyword, q)
  {
    if q + |Keyword| <= |b| {
      ShiftSlice(a, b, q, q + |Keyword|);
    }
  }

  /** After a directive's text, a text without directives past its first character adds none. */
  lemma RestPlain(text: string, rest: string)
    requires |text| > 0 && text[|text| - 1] == '>'
    requires forall j :: 0 < j <= |rest| ==> DirectiveAt(rest, j).None?
    ensures forall q :: |text| <= q < |text + rest| ==> DirectiveAt(text + rest, q).None?
  {
    var s := text + rest;
    forall q | |text| <= q < |s| ensures DirectiveAt(s, q).None? {
      if q > |text| {
        DirectiveShift(text, rest, q - |text|);
      } else {
        assert s[q - 1] == '>';
      }
    }
  }

  /**
   * A directive line is replaced by its chunk, blanks and all, and the text
   * after `>` is kept; an include needs one level of the depth budget.
   */
  lemma SingleInclude(blanks: string, spaces: string, name: string, rest: string, chunks: map<string, string>,
                      fuel: nat)
    requires WellFormed(blanks, spaces, name) && name in chunks && NoDirective(chunks[name])
    requires forall j :: 0 < j <= |rest| ==> DirectiveAt(rest, j).None?
    ensures PreParse(DirectiveText(blanks, spaces, name) + rest, chunks, fuel) ==
      if fuel == 0 then Failure(StackOverflow) else Success(chunks[name] + rest)
  {
    var text := DirectiveText(blanks, spaces, name);
    var s := text + rest;
    assert s[0..|text|] == text;
    DirectiveComplete(s, 0, blanks, spaces, name);
    if fuel > 0 {
      Unchanged(chunks[name], chunks, fuel - 1);
      assert text[|text| - 1] == '>';
      RestPlain(text, rest);
      ExpandPlain(s, |text|, |s|, chunks, fuel);
      assert s[|text|..|s|] == rest && rest + [] == rest;
      assert ExpandFrom(s, |text|, chunks, fuel) == Success(rest);
      assert ExpandFrom(chunks[name], 0, chunks, fuel - 1) == Success(chunks[name]);
    }
  }
}

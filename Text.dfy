/**
 * The parts of Python's `str` behaviour the invoice extraction relies on:
 * character classes of its regular expressions, `str.upper`, the `in`
 * substring test, `str.splitlines` and the value of a run of digits.
 */
module Text {

  /** An ASCII decimal digit: what `\d` matches in this model. */
  predicate IsDigit(c: char) {
    '0' <= c <= '9'
  }

  /** Python's whitespace set, as matched by `\s` in a `str` pattern. */
  predicate IsSpace(c: char) {
    || ('\t' <= c <= '\r')
    || ('\U{1C}' <= c <= ' ')
    || c == '\U{85}' || c == '\U{A0}' || c == '\U{1680}'
    || ('\U{2000}' <= c <= '\U{200A}')
    || c == '\U{2028}' || c == '\U{2029}' || c == '\U{202F}' || c == '\U{205F}' || c == '\U{3000}'
  }

  /** The line boundaries `str.splitlines` splits at. */
  predicate IsLineBreak(c: char) {
    || c == '\n' || c == '\r' || c == '\U{B}' || c == '\U{C}'
    || c == '\U{1C}' || c == '\U{1D}' || c == '\U{1E}' || c == '\U{85}'
    || c == '\U{2028}' || c == '\U{2029}'
  }

  /** The character classes the extraction's regular expressions repeat greedily. */
  datatype CharClass =
    | Digits       // \d
    | Spaces       // \s
    | LineBody     // anything but a line boundary
    | ColonSpaces  // [:\s]
    | DigitsCommas // [\d,]

  predicate InClass(c: char, cls: CharClass) {
    match cls
    case Digits => IsDigit(c)
    case Spaces => IsSpace(c)
    case LineBody => !IsLineBreak(c)
    case ColonSpaces => c == ':' || IsSpace(c)
    case DigitsCommas => IsDigit(c) || c == ','
  }

  /** `str.upper` on one character, restricted to ASCII letters. */
  function UpperChar(c: char): char {
    if 'a' <= c <= 'z' then (c as int - 32) as char else c
  }

  function Upper(s: string): (u: string)
    ensures |u| == |s|
    ensures forall k :: 0 <= k < |s| ==> u[k] == UpperChar(s[k])
  {
    seq(|s|, k requires 0 <= k < |s| => UpperChar(s[k]))
  }

  /** `sub` occurs in `s` starting at index `i`. */
  predicate OccursAt(s: string, sub: string, i: int) {
    0 <= i && i + |sub| <= |s| && s[i..i + |sub|] == sub
  }

  /** Python's `sub in s`: try every start position from the left. */
  function Contains(s: string, sub: string): bool
    decreases |s|
  {
    if |s| < |sub| then false
    else if s[..|sub|] == sub then true
    else Contains(s[1..], sub)
  }

  lemma {:induction false} ContainsIffOccurs(s: string, sub: string)
    ensures Contains(s, sub) <==> exists i :: OccursAt(s, sub, i)
    decreases |s|
  {
    if |s| < |sub| {
    } else if s[..|sub|] == sub {
      assert OccursAt(s, sub, 0);
    } else {
      ContainsIffOccurs(s[1..], sub);
      forall i | OccursAt(s, sub, i)
        ensures OccursAt(s[1..], sub, i - 1)
      {
        assert i != 0;
        assert s[1..][i - 1..i - 1 + |sub|] == s[i..i + |sub|];
      }
      if exists i :: OccursAt(s[1..], sub, i) {
        var i :| OccursAt(s[1..], sub, i);
        assert s[1..][i..i + |sub|] == s[i + 1..i + 1 + |sub|];
        assert OccursAt(s, sub, i + 1);
      }
    }
  }

  /** The upper-cased text mentions `word` somewhere: Python's `word in text.upper()`. */
  ghost predicate Mentions(text: string, word: string) {
    exists i :: OccursAt(Upper(text), word, i)
  }

  /** A word whose first letter the upper-cased text never shows is not mentioned. */
  lemma {:induction false} NotMentioned(text: string, word: string)
    requires |word| > 0
    requires forall k :: 0 <= k < |text| ==> UpperChar(text[k]) != word[0]
    ensures !Mentions(text, word)
  {
    forall i
      ensures !OccursAt(Upper(text), word, i)
    {
      if 0 <= i && i + |word| <= |text| {
        assert Upper(text)[i..i + |word|][0] == UpperChar(text[i]);
      }
    }
  }

  /** An occurrence survives upper-casing both strings. */
  lemma {:induction false} UpperKeepsOccurrence(s: string, sub: string, i: int)
    requires OccursAt(s, sub, i)
    ensures OccursAt(Upper(s), Upper(sub), i)
  {
    assert Upper(s)[i..i + |sub|] == Upper(sub) by {
      forall k | 0 <= k < |sub|
        ensures Upper(s)[i..i + |sub|][k] == Upper(sub)[k]
      {
        assert s[i..i + |sub|][k] == sub[k];
      }
    }
  }

  /**
   * Index just past the longest run of characters satisfying `p` that
   * starts at `i`: what a greedy `p+` or `p*` consumes.
   */
  function RunEnd(s: string, i: nat, cls: CharClass): (e: nat)
    requires i <= |s|
    ensures i <= e <= |s|
    ensures forall k :: i <= k < e ==> InClass(s[k], cls)
    ensures e == |s| || !InClass(s[e], cls)
    decreases |s| - i
  {
    if i == |s| || !InClass(s[i], cls) then i else RunEnd(s, i + 1, cls)
  }

  /** A run that ends where the class stops is the one `RunEnd` finds. */
  lemma {:induction false} RunEndIs(s: string, i: nat, e: nat, cls: CharClass)
    requires i <= e <= |s|
    requires forall k :: i <= k < e ==> InClass(s[k], cls)
    requires e == |s| || !InClass(s[e], cls)
    ensures RunEnd(s, i, cls) == e
  {
  }

  /** `s` holds no line boundary. */
  predicate IsLine(s: string) {
    forall k :: 0 <= k < |s| ==> !IsLineBreak(s[k])
  }

  /** `str.splitlines`: "\r\n" is one boundary and a final boundary opens no empty line. */
  function SplitLines(s: string): (lines: seq<string>)
    decreases |s|
  {
    if s == [] then []
    else
      var e := RunEnd(s, 0, LineBody);
      if e == |s| then [s]
      else
        var next := if s[e] == '\r' && e + 1 < |s| && s[e + 1] == '\n' then e + 2 else e + 1;
        [s[..e]] + SplitLines(s[next..])
  }

  /** The characters of `s` that are not line boundaries, in order. */
  function DropBreaks(s: string): string {
    if s == [] then []
    else (if IsLineBreak(s[0]) then [] else [s[0]]) + DropBreaks(s[1..])
  }

  function Concat(lines: seq<string>): string {
    if lines == [] then [] else lines[0] + Concat(lines[1..])
  }

  lemma {:induction false} DropBreaksAppend(a: string, b: string)
    ensures DropBreaks(a + b) == DropBreaks(a) + DropBreaks(b)
    decreases |a|
  {
    if a == [] {
      assert a + b == b;
    } else {
      assert (a + b)[1..] == a[1..] + b;
      DropBreaksAppend(a[1..], b);
    }
  }

  lemma {:induction false} DropBreaksOfLine(s: string)
    requires IsLine(s)
    ensures DropBreaks(s) == s
    decreases |s|
  {
    if s != [] {
      DropBreaksOfLine(s[1..]);
    }
  }

  lemma {:induction false} DropBreaksOfBreaks(s: string)
    requires forall k :: 0 <= k < |s| ==> IsLineBreak(s[k])
    ensures DropBreaks(s) == []
    decreases |s|
  {
    if s != [] {
      DropBreaksOfBreaks(s[1..]);
    }
  }

  /** Splitting loses exactly the line boundaries: the lines, joined, are the text without them. */
  lemma {:induction false} SplitLinesLosesOnlyBreaks(s: string)
    ensures Concat(SplitLines(s)) == DropBreaks(s)
    decreases |s|
  {
    if s != [] {
      var e := RunEnd(s, 0, LineBody);
      if e == |s| {
        assert s[..e] == s;
        DropBreaksOfLine(s);
        assert Concat([s]) == s + Concat([]);
      } else {
        var next := if s[e] == '\r' && e + 1 < |s| && s[e + 1] == '\n' then e + 2 else e + 1;
        SplitLinesLosesOnlyBreaks(s[next..]);
        SplitLinesStep(s, e, next);
      }
    }
  }

  /** One step of the above: the first line, then its boundary, then the rest. */
  lemma {:induction false} SplitLinesStep(s: string, e: nat, next: nat)
    requires e < |s| && e == RunEnd(s, 0, LineBody)
    requires next == if s[e] == '\r' && e + 1 < |s| && s[e + 1] == '\n' then e + 2 else e + 1
    requires Concat(SplitLines(s[next..])) == DropBreaks(s[next..])
    ensures Concat(SplitLines(s)) == DropBreaks(s)
  {
    var line, brk, tail := s[..e], s[e..next], s[next..];
    SplitLinesUnfold(s);
    ConcatCons(line, SplitLines(tail));
    FirstLine(s, e);
    FirstBoundary(s, e, next);
    assert forall k :: 0 <= k < |brk| ==> IsLineBreak(brk[k]);
    SliceThree(s, e, next);
    DropBreaksOfLineThenBreak(line, brk, tail);
  }

  lemma {:induction false} DropBreaksOfLineThenBreak(line: string, brk: string, tail: string)
    requires IsLine(line)
    requires forall k :: 0 <= k < |brk| ==> IsLineBreak(brk[k])
    ensures DropBreaks(line + (brk + tail)) == line + DropBreaks(tail)
  {
    DropBreaksAppend(line, brk + tail);
    DropBreaksAppend(brk, tail);
    DropBreaksOfLine(line);
    DropBreaksOfBreaks(brk);
  }

  /** A line boundary as `str.splitlines` consumes it: one boundary character, or "\r\n" as a pair. */
  predicate IsBoundary(b: string) {
    (|b| == 1 && IsLineBreak(b[0])) || b == "\r\n"
  }

  /** The lines put back together with the boundary that followed each. */
  function Interleave(lines: seq<string>, seps: seq<string>): string
    requires |lines| == |seps|
  {
    if lines == [] then [] else lines[0] + seps[0] + Interleave(lines[1..], seps[1..])
  }

  /**
   * `lines`, each followed by `seps`, is a cut of a text at every line
   * boundary: lines hold no boundary, each separator is one whole boundary
   * (a "\r" never leaves the "\n" after it to a separator of its own), and
   * only a non-empty last line may go without one.
   */
  predicate Cuts(lines: seq<string>, seps: seq<string>) {
    && |lines| == |seps|
    && (forall k :: 0 <= k < |lines| ==> IsLine(lines[k]))
    && (forall k :: 0 <= k < |seps| ==> IsBoundary(seps[k]) || (k == |seps| - 1 && seps[k] == [] && lines[k] != []))
    && (forall k :: 0 <= k < |seps| - 1 && seps[k] == "\r" ==> lines[k + 1] != [] || seps[k + 1] != "\n")
  }

  /** `splitlines` cuts the text at every boundary: with the boundaries put back, the lines give the text. */
  lemma {:induction false} SplitLinesCuts(s: string) returns (seps: seq<string>)
    ensures Cuts(SplitLines(s), seps) && Interleave(SplitLines(s), seps) == s
    decreases |s|
  {
    if s == [] {
      seps := [];
    } else {
      var e := RunEnd(s, 0, LineBody);
      if e == |s| {
        FirstLine(s, e);
        assert s[..e] == s;
        seps := [[]];
        assert Interleave([s], seps) == s + [] + [];
      } else {
        var next := if s[e] == '\r' && e + 1 < |s| && s[e + 1] == '\n' then e + 2 else e + 1;
        var rest := SplitLinesCuts(s[next..]);
        seps := CutsStep(s, e, next, rest);
      }
    }
  }

  /** The text before the first boundary is a line. */
  lemma {:induction false} FirstLine(s: string, e: nat)
    requires e <= |s| && forall k :: 0 <= k < e ==> InClass(s[k], LineBody)
    ensures IsLine(s[..e])
  {
    forall k | 0 <= k < e
      ensures !IsLineBreak(s[..e][k])
    {
      assert InClass(s[k], LineBody);
    }
  }

  /** One step of `SplitLinesCuts`: the first line and its boundary in front of the cut of the rest. */
  lemma {:induction false} CutsStep(s: string, e: nat, next: nat, rest: seq<string>) returns (seps: seq<string>)
    requires e < |s| && e == RunEnd(s, 0, LineBody)
    requires next == if s[e] == '\r' && e + 1 < |s| && s[e + 1] == '\n' then e + 2 else e + 1
    requires Cuts(SplitLines(s[next..]), rest) && Interleave(SplitLines(s[next..]), rest) == s[next..]
    ensures Cuts(SplitLines(s), seps) && Interleave(SplitLines(s), seps) == s
  {
    var line, sep, tail := s[..e], s[e..next], s[next..];
    FirstLine(s, e);
    FirstBoundary(s, e, next);
    SplitLinesUnfold(s);
    seps := ConsCut(line, sep, tail, SplitLines(tail), rest);
    SliceThree(s, e, next);
  }

  lemma SplitLinesUnfold(s: string)
    requires s != [] && RunEnd(s, 0, LineBody) < |s|
    ensures
      var e := RunEnd(s, 0, LineBody);
      SplitLines(s) == [s[..e]] + SplitLines(s[if s[e] == '\r' && e + 1 < |s| && s[e + 1] == '\n' then e + 2 else e + 1..])
  {
  }

  /** A line and a boundary put in front of a cut text make a cut text. */
  lemma {:induction false} ConsCut(line: string, sep: string, tail: string, lines: seq<string>, rest: seq<string>)
    returns (seps: seq<string>)
    requires IsLine(line) && IsBoundary(sep)
    requires Cuts(lines, rest) && Interleave(lines, rest) == tail
    requires sep == "\r" ==> tail == [] || tail[0] != '\n'
    ensures seps == [sep] + rest
    ensures Cuts([line] + lines, seps) && Interleave([line] + lines, seps) == line + sep + tail
  {
    StartOfCut(tail, lines, rest);
    CutsCons(line, sep, lines, rest);
    seps := [sep] + rest;
    InterleaveCons(line, sep, lines, rest);
  }

  /** What `splitlines` takes as the first boundary is one whole boundary, "\r\n" taken together. */
  lemma {:induction false} FirstBoundary(s: string, e: nat, next: nat)
    requires e < |s| && e == RunEnd(s, 0, LineBody)
    requires next == if s[e] == '\r' && e + 1 < |s| && s[e + 1] == '\n' then e + 2 else e + 1
    ensures IsBoundary(s[e..next])
    ensures s[e..next] == "\r" ==> next == |s| || s[next] != '\n'
  {
    assert !InClass(s[e], LineBody);
  }

  /** A cut text that opens with an empty line opens with that line's boundary. */
  lemma {:induction false} StartOfCut(tail: string, lines: seq<string>, seps: seq<string>)
    requires Cuts(lines, seps) && Interleave(lines, seps) == tail
    ensures lines != [] ==> tail != []
    ensures lines != [] && lines[0] == [] ==> seps[0] != [] && tail[0] == seps[0][0]
  {
    if lines != [] {
      assert tail == lines[0] + seps[0] + Interleave(lines[1..], seps[1..]);
    }
  }

  lemma {:induction false} InterleaveCons(line: string, sep: string, lines: seq<string>, seps: seq<string>)
    requires |lines| == |seps|
    ensures Interleave([line] + lines, [sep] + seps) == line + sep + Interleave(lines, seps)
  {
    assert ([line] + lines)[1..] == lines && ([sep] + seps)[1..] == seps;
  }

  /** Conversely, a cut of `s` at every boundary is what `splitlines` returns: the cut is unique. */
  lemma {:induction false} SplitLinesUnique(s: string, lines: seq<string>, seps: seq<string>)
    requires Cuts(lines, seps) && Interleave(lines, seps) == s
    ensures SplitLines(s) == lines
    decreases |lines|
  {
    if lines != [] {
      var rest := Interleave(lines[1..], seps[1..]);
      FirstCut(s, lines, seps, rest);
      if seps[0] != [] {
        CutsTail(lines, seps);
        SplitLinesUnique(rest, lines[1..], seps[1..]);
        assert SplitLines(s) == [lines[0]] + SplitLines(rest);
        assert lines == [lines[0]] + lines[1..];
      }
    }
  }

  /** Where `splitlines` finds the first boundary of a text cut as `lines` and `seps`, and where it resumes. */
  lemma {:induction false} FirstCut(s: string, lines: seq<string>, seps: seq<string>, rest: string)
    requires Cuts(lines, seps) && Interleave(lines, seps) == s && lines != []
    requires rest == Interleave(lines[1..], seps[1..])
    ensures RunEnd(s, 0, LineBody) == |lines[0]| && s[..|lines[0]|] == lines[0]
    ensures seps[0] == [] ==> |lines| == 1 && s == lines[0] && s != []
    ensures seps[0] != [] ==>
      var e := |lines[0]|;
      && e < |s|
      && (if s[e] == '\r' && e + 1 < |s| && s[e + 1] == '\n' then e + 2 else e + 1) == e + |seps[0]|
      && s[e + |seps[0]|..] == rest
  {
    var line, sep := lines[0], seps[0];
    assert s == line + (sep + rest);
    assert IsLine(line);
    forall k | 0 <= k < |line|
      ensures InClass(s[k], LineBody)
    {
      assert s[k] == line[k];
    }
    if sep == [] {
      assert |lines| == 1;
      assert rest == [];
      RunEndIs(s, 0, |line|, LineBody);
    } else {
      assert s[|line|] == sep[0];
      RunEndIs(s, 0, |line|, LineBody);
      var e := |line|;
      if sep == "\r" && e + 1 < |s| && s[e + 1] == '\n' {
        BoundaryNotFollowedByNewline(lines, seps, rest);
        assert false;
      }
      assert s[e + |sep|..] == rest;
    }
  }

  /** After a lone "\r" separator, the rest of the text does not start with "\n". */
  lemma {:induction false} BoundaryNotFollowedByNewline(lines: seq<string>, seps: seq<string>, rest: string)
    requires Cuts(lines, seps) && |lines| >= 1 && seps[0] == "\r"
    requires rest == Interleave(lines[1..], seps[1..])
    ensures rest == [] || rest[0] != '\n'
  {
    if rest != [] {
      assert |lines| >= 2;
      assert rest == lines[1] + seps[1] + Interleave(lines[2..], seps[2..]);
      assert IsLine(lines[1]);
      if lines[1] == [] {
        assert seps[1] != [];
        assert rest[0] == seps[1][0];
      } else {
        assert rest[0] == lines[1][0];
      }
    }
  }

  lemma {:induction false} CutsCons(line: string, sep: string, lines: seq<string>, seps: seq<string>)
    requires Cuts(lines, seps) && IsLine(line) && IsBoundary(sep)
    requires sep == "\r" && lines != [] ==> lines[0] != [] || seps[0] != "\n"
    ensures Cuts([line] + lines, [sep] + seps)
  {
    var ls, ss := [line] + lines, [sep] + seps;
    assert forall k :: 1 <= k < |ls| ==> ls[k] == lines[k - 1] && ss[k] == seps[k - 1];
  }

  lemma {:induction false} CutsTail(lines: seq<string>, seps: seq<string>)
    requires Cuts(lines, seps) && lines != []
    ensures Cuts(lines[1..], seps[1..])
  {
    assert forall k :: 0 <= k < |lines| - 1 ==> lines[1..][k] == lines[k + 1] && seps[1..][k] == seps[k + 1];
  }

  /** Two lines joined by "\n" split back into those two lines. */
  lemma {:induction false} SplitTwoLines(a: string, b: string)
    requires IsLine(a) && IsLine(b) && b != []
    ensures SplitLines(a + "\n" + b) == [a, b]
  {
    var lines, seps := [a, b], ["\n", []];
    assert lines[1..] == [b] && seps[1..] == [[]];
    assert Interleave([b], [[]]) == b + [] + Interleave([], []);
    assert Interleave(lines, seps) == a + "\n" + Interleave([b], [[]]);
    assert Interleave(lines, seps) == a + "\n" + b;
    assert Cuts(lines, seps);
    SplitLinesUnique(a + "\n" + b, lines, seps);
  }

  lemma {:induction false} SliceThree(s: string, i: nat, j: nat)
    requires i <= j <= |s|
    ensures s == s[..i] + (s[i..j] + s[j..])
    ensures s == s[..i] + s[i..j] + s[j..]
  {
    assert s[..j] == s[..i] + s[i..j];
  }

  lemma {:induction false} ConcatCons(line: string, rest: seq<string>)
    ensures Concat([line] + rest) == line + Concat(rest)
  {
    assert ([line] + rest)[1..] == rest;
  }

  /** A piece of `w`, where `w` stands in `s` at `b`. */
  lemma {:induction false} SliceWithin(s: string, b: nat, w: string, lo: nat, hi: nat)
    requires b + |w| <= |s| && s[b..b + |w|] == w && lo <= hi <= |w|
    ensures s[b + lo..b + hi] == w[lo..hi]
  {
    forall k | 0 <= k < hi - lo
      ensures s[b + lo..b + hi][k] == w[lo..hi][k]
    {
      assert s[b..b + |w|][lo + k] == s[b + lo + k];
    }
  }

  predicate AllDigits(s: string) {
    forall k :: 0 <= k < |s| ==> IsDigit(s[k])
  }

  /** A stretch of digits inside a string, taken out as a string of its own. */
  lemma {:induction false} DigitsSlice(s: string, i: nat, j: nat)
    requires i <= j <= |s|
    requires forall k :: i <= k < j ==> IsDigit(s[k])
    ensures AllDigits(s[i..j])
  {
    forall k | 0 <= k < j - i
      ensures IsDigit(s[i..j][k])
    {
      assert s[i..j][k] == s[i + k];
    }
  }

  function DigitValue(c: char): nat
    requires IsDigit(c)
  {
    c as int - '0' as int
  }

  function DigitChar(d: nat): (c: char)
    requires d < 10
    ensures IsDigit(c) && DigitValue(c) == d
  {
    ('0' as int + d) as char
  }

  function Pow10(k: nat): (p: nat)
    ensures p >= 1
  {
    if k == 0 then 1 else 10 * Pow10(k - 1)
  }

  /** The number a run of decimal digits denotes, leading zeros allowed. */
  function DigitsValue(s: string): (n: nat)
    requires AllDigits(s)
    ensures n < Pow10(|s|)
  {
    if s == [] then 0 else DigitsValue(s[..|s| - 1]) * 10 + DigitValue(s[|s| - 1])
  }

  /** Python's `str(n)` for a natural number: decimal, no padding. */
  function NatToString(n: nat): (s: string)
    ensures AllDigits(s) && 1 <= |s|
    ensures DigitsValue(s) == n
    ensures s[0] == '0' ==> n == 0 && |s| == 1
  {
    if n < 10 then [DigitChar(n)]
    else
      var t := NatToString(n / 10);
      assert (t + [DigitChar(n % 10)])[..|t|] == t;
      t + [DigitChar(n % 10)]
  }

  /** `float(w + "." + f)`, or `float(w)` when `f` is empty, computed exactly. */
  function DecimalValue(whole: string, frac: string): (r: real)
    requires AllDigits(whole) && AllDigits(frac)
    ensures DigitsValue(whole) as real <= r < DigitsValue(whole) as real + 1.0
    ensures frac == [] || DigitsValue(frac) == 0 ==> r == DigitsValue(whole) as real
  {
    FractionBelowOne(DigitsValue(frac), Pow10(|frac|));
    DigitsValue(whole) as real + DigitsValue(frac) as real / Pow10(|frac|) as real
  }

  lemma {:induction false} FractionBelowOne(a: nat, p: nat)
    requires a < p
    ensures 0.0 <= a as real / p as real < 1.0
  {
    var x := a as real / p as real;
    assert x * p as real == a as real;
  }
}

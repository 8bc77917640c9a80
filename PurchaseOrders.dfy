/**
 * Purchase-order references (app.py, `extract_po_numbers`): every match of
 * `PO\d{6,20}` that `re.findall` reports, de-duplicated and sorted as Python
 * sorts strings.
 */
module PurchaseOrders {
  import opened Wrappers
  import opened Text

  const MinDigits: nat := 6
  const MaxDigits: nat := 20

  /** A reference as the pattern describes it: "PO" and then 6 to 20 digits. */
  predicate IsReference(t: string) {
    && 2 + MinDigits <= |t| <= 2 + MaxDigits
    && t[..2] == "PO"
    && AllDigits(t[2..])
  }

  /**
   * `PO\d{6,20}` matches at `i` and ends at `e`: the greedy digit count is the
   * whole digit run, or 20 digits when the run is longer.
   */
  predicate MatchSpan(s: string, i: int, e: int) {
    && 0 <= i && i + 2 + MinDigits <= e <= i + 2 + MaxDigits && e <= |s|
    && s[i..i + 2] == "PO"
    && (forall k :: i + 2 <= k < e ==> IsDigit(s[k]))
    && (e == i + 2 + MaxDigits || e == |s| || !IsDigit(s[e]))
  }

  /** The end of the match the pattern makes at `i`, if any. */
  function MatchAt(s: string, i: nat): (m: Option<nat>)
    requires i <= |s|
    ensures forall e :: m == Some(e) <==> MatchSpan(s, i, e)
  {
    if i + 2 <= |s| && s[i..i + 2] == "PO" then
      var run := RunEnd(s, i + 2, Digits);
      var e := if run - (i + 2) <= MaxDigits then run else i + 2 + MaxDigits;
      if e - (i + 2) >= MinDigits then Some(e) else None
    else None
  }

  /**
   * `re.findall` from index `i`: a match resumes the scan at its end, a miss
   * one character on. Since no "PO" can start inside a match, every match of
   * the pattern from `i` on is reported.
   */
  function FindAllFrom(s: string, i: nat): (ms: seq<string>)
    requires i <= |s|
    ensures forall t :: t in ms ==> IsReference(t)
    ensures forall k :: i <= k < |s| && MatchAt(s, k).Some? ==> s[k..MatchAt(s, k).value] in ms
    decreases |s| - i
  {
    if i == |s| then []
    else match MatchAt(s, i)
      case Some(e) =>
        SpanIsReference(s, i, e);
        NoMatchInside(s, i, e);
        [s[i..e]] + FindAllFrom(s, e)
      case None => FindAllFrom(s, i + 1)
  }

  /** A match covers "O" and digits after its "P", so the pattern cannot match again before it ends. */
  lemma {:induction false} NoMatchInside(s: string, i: nat, e: nat)
    requires i <= |s| && MatchSpan(s, i, e)
    ensures forall k :: i < k < e ==> MatchAt(s, k).None?
  {
    forall k | i < k < e
      ensures MatchAt(s, k).None?
    {
      assert s[k] != 'P' by {
        if k == i + 1 {
          assert s[k] == s[i..i + 2][1];
        } else {
          assert IsDigit(s[k]);
        }
      }
      assert forall e' :: MatchSpan(s, k, e') ==> s[k] == s[k..k + 2][0];
    }
  }

  /** The text a match covers is a reference. */
  lemma {:induction false} SpanIsReference(s: string, i: int, e: int)
    requires MatchSpan(s, i, e)
    ensures IsReference(s[i..e])
  {
    assert s[i..e][..2] == s[i..i + 2];
    forall k | 0 <= k < |s[i..e][2..]|
      ensures IsDigit(s[i..e][2..][k])
    {
      assert s[i..e][2..][k] == s[i + 2 + k];
    }
  }

  function FindAll(s: string): seq<string> {
    FindAllFrom(s, 0)
  }

  /** The scan comes back empty exactly when the pattern matches at no position it could visit. */
  lemma {:induction false} FindAllFromEmpty(s: string, i: nat)
    requires i <= |s|
    ensures FindAllFrom(s, i) == [] <==> forall j :: i <= j < |s| ==> MatchAt(s, j).None?
    decreases |s| - i
  {
    if i < |s| {
      if MatchAt(s, i).None? {
        FindAllFromEmpty(s, i + 1);
      }
    }
  }

  /** The pattern matches at `k` and the matched text is `t`. */
  predicate FoundAt(s: string, k: int, t: string) {
    MatchSpan(s, k, k + |t|) && s[k..k + |t|] == t
  }

  /** Every reported reference sits in the text where the pattern matched. */
  lemma {:induction false} FindAllFromSound(s: string, i: nat, t: string)
    requires i <= |s| && t in FindAllFrom(s, i)
    ensures exists k :: i <= k && FoundAt(s, k, t)
    decreases |s| - i
  {
    match MatchAt(s, i)
    case Some(e) =>
      if t != s[i..e] {
        FindAllFromSound(s, e, t);
      } else {
        assert FoundAt(s, i, t);
      }
    case None =>
      FindAllFromSound(s, i + 1, t);
  }

  // ----- Python's ordering of strings -----

  /** Python's `a < b` on `str`: lexicographic by character, a proper prefix first. */
  predicate Below(a: string, b: string)
    decreases |a|
  {
    |b| > 0 && (|a| == 0 || a[0] < b[0] || (a[0] == b[0] && Below(a[1..], b[1..])))
  }

  lemma {:induction false} BelowAsymmetric(a: string, b: string)
    requires Below(a, b)
    ensures !Below(b, a)
    decreases |a|
  {
    if |a| > 0 && a[0] == b[0] && Below(a[1..], b[1..]) {
      BelowAsymmetric(a[1..], b[1..]);
    }
  }

  lemma {:induction false} BelowTotal(a: string, b: string)
    requires a != b
    ensures Below(a, b) || Below(b, a)
    decreases |a|
  {
    if |a| > 0 && |b| > 0 && a[0] == b[0] {
      assert a == [a[0]] + a[1..] && b == [b[0]] + b[1..];
      BelowTotal(a[1..], b[1..]);
    }
  }

  lemma {:induction false} BelowTransitive(a: string, b: string, c: string)
    requires Below(a, b) && Below(b, c)
    ensures Below(a, c)
    decreases |a|
  {
    if |a| > 0 && a[0] == b[0] && b[0] == c[0] {
      BelowTransitive(a[1..], b[1..], c[1..]);
    }
  }

  /** Under Python's ordering "PO10…" sorts before "PO2…", whatever the numbers say. */
  lemma {:induction false} TextualNotNumericOrder()
    ensures Below("PO1000000", "PO200000")
  {
    var a, b := "PO1000000", "PO200000";
    assert a[1..][1..][0] < b[1..][1..][0];
    assert Below(a[1..], b[1..]);
  }

  predicate StrictlyAscending(xs: seq<string>) {
    forall i, j :: 0 <= i < j < |xs| ==> Below(xs[i], xs[j])
  }

  /** Adds `x` to an ascending list unless it is already there. */
  function Insert(xs: seq<string>, x: string): (r: seq<string>)
    requires StrictlyAscending(xs)
    ensures StrictlyAscending(r)
    ensures forall t :: t in r <==> t in xs || t == x
  {
    if xs == [] then [x]
    else if x == xs[0] then xs
    else if Below(x, xs[0]) then
      assert forall j :: 0 <= j < |xs| ==> Below(x, xs[j]) by {
        forall j | 0 < j < |xs|
          ensures Below(x, xs[j])
        {
          BelowTransitive(x, xs[0], xs[j]);
        }
      }
      assert forall j :: 0 < j < |[x] + xs| ==> ([x] + xs)[j] == xs[j - 1];
      [x] + xs
    else
      BelowTotal(x, xs[0]);
      var rest := Insert(xs[1..], x);
      assert forall t :: t in rest ==> Below(xs[0], t) by {
        forall t | t in xs[1..]
          ensures Below(xs[0], t)
        {
          var j :| 0 <= j < |xs[1..]| && xs[1..][j] == t;
          assert xs[j + 1] == t;
        }
      }
      assert forall j :: 0 < j < |[xs[0]] + rest| ==> ([xs[0]] + rest)[j] == rest[j - 1];
      assert forall t :: t in xs <==> t == xs[0] || t in xs[1..] by {
        assert xs == [xs[0]] + xs[1..];
      }
      [xs[0]] + rest
  }

  /** Python's `sorted(set(xs))`. */
  function SortedSet(xs: seq<string>): (r: seq<string>)
    ensures StrictlyAscending(r)
    ensures forall t :: t in r <==> t in xs
  {
    if xs == [] then []
    else
      assert forall t :: t in xs <==> t == xs[0] || t in xs[1..] by {
        assert xs == [xs[0]] + xs[1..];
      }
      Insert(SortedSet(xs[1..]), xs[0])
  }

  /** A strictly ascending list is fixed by the set of its elements. */
  lemma {:induction false} AscendingIsDeterminedByElements(a: seq<string>, b: seq<string>)
    requires StrictlyAscending(a) && StrictlyAscending(b)
    requires forall t :: t in a <==> t in b
    ensures a == b
    decreases |a|
  {
    SameElementsBothEmpty(a, b);
    if a != [] {
      assert a[0] in a && b[0] in b;
      if a[0] != b[0] {
        var i :| 0 <= i < |a| && a[i] == b[0];
        var j :| 0 <= j < |b| && b[j] == a[0];
        assert Below(a[0], b[0]);
        BelowAsymmetric(a[0], b[0]);
        assert false;
      }
      forall t
        ensures t in a[1..] <==> t in b[1..]
      {
        ElementsOfTail(a, t);
        ElementsOfTail(b, t);
      }
      AscendingIsDeterminedByElements(a[1..], b[1..]);
      assert a == [a[0]] + a[1..] && b == [b[0]] + b[1..];
    }
  }

  lemma {:induction false} SameElementsBothEmpty(a: seq<string>, b: seq<string>)
    requires forall t :: t in a <==> t in b
    ensures a == [] <==> b == []
  {
    if a != [] {
      assert a[0] in a;
    }
    if b != [] {
      assert b[0] in b;
    }
  }

  /** In a strictly ascending list the head is not repeated in the tail. */
  lemma {:induction false} ElementsOfTail(a: seq<string>, t: string)
    requires StrictlyAscending(a) && a != []
    ensures t in a[1..] <==> t in a && t != a[0]
  {
    if t in a[1..] {
      var j :| 0 <= j < |a[1..]| && a[1..][j] == t;
      assert Below(a[0], a[j + 1]);
      BelowAsymmetric(a[0], a[j + 1]);
    }
    if t in a && t != a[0] {
      var j :| 0 <= j < |a| && a[j] == t;
      assert a[1..][j - 1] == t;
    }
  }

  /** `extract_po_numbers`: the findall matches, de-duplicated and in Python's string order. */
  function ExtractPoNumbers(text: string): (refs: seq<string>)
    ensures StrictlyAscending(refs)
    ensures forall t :: t in refs <==> t in FindAll(text)
    ensures forall t :: t in refs ==> IsReference(t)
  {
    SortedSet(FindAll(text))
  }

  /** Nothing but a matching position makes the list non-empty; no match gives `[]`, not a missing value. */
  lemma {:induction false} NoReferencesIffNoMatch(text: string)
    ensures ExtractPoNumbers(text) == [] <==> forall j :: 0 <= j < |text| ==> MatchAt(text, j).None?
  {
    FindAllFromEmpty(text, 0);
    var refs := ExtractPoNumbers(text);
    if refs != [] {
      assert refs[0] in FindAll(text);
    }
    if FindAll(text) != [] {
      assert FindAll(text)[0] in refs;
    }
  }

  /** Each listed reference is a match of the pattern somewhere in the text. */
  lemma {:induction false} ReferencesOccurInText(text: string, t: string)
    requires t in ExtractPoNumbers(text)
    ensures exists k :: FoundAt(text, k, t)
  {
    FindAllFromSound(text, 0, t);
  }

  /** The listed references are exactly the texts the pattern matches somewhere in the document. */
  lemma {:induction false} ReferencesAreMatches(text: string, t: string)
    ensures t in ExtractPoNumbers(text) <==> exists k :: FoundAt(text, k, t)
  {
    if t in ExtractPoNumbers(text) {
      ReferencesOccurInText(text, t);
    }
    if exists k :: FoundAt(text, k, t) {
      var k :| FoundAt(text, k, t);
      assert MatchAt(text, k) == Some(k + |t|);
      assert text[k..MatchAt(text, k).value] in FindAll(text);
    }
  }

  /** A reference repeated throughout the document is listed once. */
  lemma {:induction false} RepeatedReferenceListedOnce(text: string, t: string)
    requires t in FindAll(text)
    requires forall u :: u in FindAll(text) ==> u == t
    ensures ExtractPoNumbers(text) == [t]
  {
    AscendingIsDeterminedByElements(ExtractPoNumbers(text), [t]);
  }
}

/**
 * The Paragon invoice parser (app.py, `parse_paragon`): a scan of the text
 * line by line that keeps the item lines, reads a quantity and an amount off
 * each, adds them into one of two buckets, and then reports one row per
 * bucket that received anything, with totals summed from the rows.
 */
module Paragon {
  import opened Wrappers
  import opened Text

  // ----- the quantity: `re.match(r"\s*(\d+(?:\.\d+)?)", line)` -----

  /** The line opens, after whitespace only, with a digit at `w`. */
  predicate SpacesThenDigit(line: string, w: int) {
    0 <= w < |line| && (forall k :: 0 <= k < w ==> IsSpace(line[k])) && IsDigit(line[w])
  }

  ghost predicate StartsWithNumber(line: string) {
    exists w :: SpacesThenDigit(line, w)
  }

  /**
   * The leading number, as `float` reads the matched text: the digits and,
   * when a dot and at least one digit follow them, that fraction too.
   */
  function LeadingNumber(line: string): (q: Option<real>)
    ensures q.Some? <==> StartsWithNumber(line)
  {
    var w := RunEnd(line, 0, Spaces);
    assert forall v :: SpacesThenDigit(line, v) ==> v == w;
    if w == |line| || !IsDigit(line[w]) then None
    else
      assert SpacesThenDigit(line, w);
      var d := RunEnd(line, w, Digits);
      DigitsSlice(line, w, d);
      if d + 1 < |line| && line[d] == '.' && IsDigit(line[d + 1]) then
        var f := RunEnd(line, d + 1, Digits);
        DigitsSlice(line, d + 1, f);
        Some(DecimalValue(line[w..d], line[d + 1..f]))
      else Some(DigitsValue(line[w..d]) as real)
  }

  /** Whitespace, the digits `line[w..d]` and no fraction after them: the quantity is that whole number. */
  lemma {:induction false} LeadingWholeNumber(line: string, w: nat, d: nat)
    requires SpacesThenDigit(line, w) && w < d <= |line|
    requires forall k :: w <= k < d ==> IsDigit(line[k])
    requires d == |line| || (!IsDigit(line[d]) && !(line[d] == '.' && d + 1 < |line| && IsDigit(line[d + 1])))
    ensures AllDigits(line[w..d])
    ensures LeadingNumber(line) == Some(DigitsValue(line[w..d]) as real)
  {
    RunEndIs(line, 0, w, Spaces);
    RunEndIs(line, w, d, Digits);
    DigitsSlice(line, w, d);
  }

  /** Whitespace, the digits `line[w..d]`, a dot and the digits `line[d + 1..f]`: the quantity is that decimal. */
  lemma {:induction false} LeadingDecimalNumber(line: string, w: nat, d: nat, f: nat)
    requires SpacesThenDigit(line, w) && w < d && d + 1 < f <= |line|
    requires forall k :: w <= k < d ==> IsDigit(line[k])
    requires line[d] == '.'
    requires forall k :: d + 1 <= k < f ==> IsDigit(line[k])
    requires f == |line| || !IsDigit(line[f])
    ensures AllDigits(line[w..d]) && AllDigits(line[d + 1..f])
    ensures LeadingNumber(line) == Some(DecimalValue(line[w..d], line[d + 1..f]))
  {
    RunEndIs(line, 0, w, Spaces);
    RunEndIs(line, w, d, Digits);
    RunEndIs(line, d + 1, f, Digits);
    DigitsSlice(line, w, d);
    DigitsSlice(line, d + 1, f);
  }

  // ----- the amount: the last of `re.findall(r"[\d,]+\.\d+", line)` -----

  /** A matched amount: digits and commas, the dot, then the fraction digits. */
  datatype AmountToken = AmountToken(grouped: string, frac: string) {

    predicate WellFormed() {
      && |grouped| >= 1 && (forall k :: 0 <= k < |grouped| ==> InClass(grouped[k], DigitsCommas))
      && |frac| >= 1 && AllDigits(frac)
    }

    /**
     * `float(token.replace(",", ""))`: the digits left once the commas go
     * are the whole part, so the value lies between it and the next whole
     * number, and is that whole number when the fraction is all zeros.
     */
    function Value(): (v: real)
      requires WellFormed()
      ensures AllDigits(DropCommas(grouped))
      ensures DigitsValue(DropCommas(grouped)) as real <= v < DigitsValue(DropCommas(grouped)) as real + 1.0
      ensures DigitsValue(frac) == 0 ==> v == DigitsValue(DropCommas(grouped)) as real
    {
      DecimalValue(DropCommas(grouped), frac)
    }
  }

  /** `s.replace(",", "")`. */
  function DropCommas(s: string): (r: string)
    ensures forall k :: 0 <= k < |r| ==> r[k] != ','
    ensures (forall k :: 0 <= k < |s| ==> InClass(s[k], DigitsCommas)) ==> AllDigits(r)
    ensures (forall k :: 0 <= k < |s| ==> s[k] != ',') ==> r == s
  {
    if s == [] then []
    else
      var rest := DropCommas(s[1..]);
      if s[0] == ',' then rest
      else
        assert s == [s[0]] + s[1..];
        [s[0]] + rest
  }

  /** `replace` works character by character: dropping commas from a concatenation drops them from each part. */
  lemma {:induction false} DropCommasAppend(a: string, b: string)
    ensures DropCommas(a + b) == DropCommas(a) + DropCommas(b)
    decreases |a|
  {
    if a == [] {
      assert a + b == b;
    } else {
      assert (a + b)[0] == a[0] && (a + b)[1..] == a[1..] + b;
      DropCommasAppend(a[1..], b);
    }
  }

  /** On one character, a comma goes and anything else stays. */
  lemma {:induction false} DropCommasOne(c: char)
    ensures DropCommas([c]) == if c == ',' then [] else [c]
  {
    assert [c][1..] == [];
  }

  /**
   * The pattern matches at `i`: the digit-and-comma run `s[i..r]`, the dot at
   * `r`, and the digit run up to `e`. Both runs are as long as they can be,
   * which is what the greedy pattern takes.
   */
  predicate AmountSpan(s: string, i: int, r: int, e: int) {
    && 0 <= i < r && r + 1 < e <= |s|
    && (forall k :: i <= k < r ==> InClass(s[k], DigitsCommas))
    && s[r] == '.'
    && (forall k :: r + 1 <= k < e ==> IsDigit(s[k]))
    && (e == |s| || !IsDigit(s[e]))
  }

  /** Where the dot and the end of the match fall when the pattern matches at `i`. */
  function AmountMatchAt(s: string, i: nat): (m: Option<(nat, nat)>)
    requires i <= |s|
    ensures m.Some? ==> AmountSpan(s, i, m.value.0, m.value.1)
    ensures m.None? ==> forall r, e :: !AmountSpan(s, i, r, e)
  {
    var r := RunEnd(s, i, DigitsCommas);
    assert forall r', e' :: AmountSpan(s, i, r', e') ==> r' == r && e' == RunEnd(s, r' + 1, Digits) by {
      forall r', e' | AmountSpan(s, i, r', e')
        ensures r' == r && e' == RunEnd(s, r' + 1, Digits)
      {
        RunEndIs(s, i, r', DigitsCommas);
        RunEndIs(s, r' + 1, e', Digits);
      }
    }
    if r == i || r == |s| || s[r] != '.' then None
    else
      var e := RunEnd(s, r + 1, Digits);
      if e == r + 1 then None else Some((r, e))
  }

  /** Conversely, the pattern can match at `i` in one way only, and that is the match found. */
  lemma {:induction false} AmountMatchAtIs(s: string, i: nat, r: nat, e: nat)
    requires AmountSpan(s, i, r, e)
    ensures AmountMatchAt(s, i) == Some((r, e))
  {
    RunEndIs(s, i, r, DigitsCommas);
    RunEndIs(s, r + 1, e, Digits);
  }

  /** The token a match at `i` with its dot at `r` and its end at `e` reports. */
  function TokenOf(s: string, i: nat, r: nat, e: nat): (t: AmountToken)
    requires AmountSpan(s, i, r, e)
    ensures t.WellFormed()
  {
    var t := AmountToken(s[i..r], s[r + 1..e]);
    assert forall k :: 0 <= k < |t.grouped| ==> t.grouped[k] == s[i + k];
    assert forall k :: 0 <= k < |t.frac| ==> t.frac[k] == s[r + 1 + k];
    t
  }

  /** `re.findall` from index `i`: a match resumes the scan at its end, a miss one character on. */
  function AmountsFrom(s: string, i: nat): (ts: seq<AmountToken>)
    requires i <= |s|
    ensures forall k :: 0 <= k < |ts| ==> ts[k].WellFormed()
    decreases |s| - i
  {
    if i == |s| then []
    else match AmountMatchAt(s, i)
      case Some((r, e)) => [TokenOf(s, i, r, e)] + AmountsFrom(s, e)
      case None => AmountsFrom(s, i + 1)
  }

  lemma {:induction false} AmountsFromEmpty(s: string, i: nat)
    requires i <= |s|
    ensures AmountsFrom(s, i) == [] <==> forall j :: i <= j < |s| ==> AmountMatchAt(s, j).None?
    decreases |s| - i
  {
    if i < |s| && AmountMatchAt(s, i).None? {
      AmountsFromEmpty(s, i + 1);
    }
  }

  /** The match at `k` (dot at `r`, end at `e`) is the scan's last: the scan resumed at `e` finds nothing. */
  predicate FinalMatch(s: string, k: int, r: int, e: int) {
    AmountSpan(s, k, r, e) && AmountsFrom(s, e) == []
  }

  /** Being the last match means the pattern matches at no position from its end on. */
  lemma {:induction false} FinalMatchMeans(s: string, k: nat, r: nat, e: nat)
    requires AmountSpan(s, k, r, e)
    ensures FinalMatch(s, k, r, e) <==> forall j :: e <= j < |s| ==> AmountMatchAt(s, j).None?
  {
    AmountsFromEmpty(s, e);
  }

  /**
   * The scan that starts at `i` tries position `k`: it reaches `k` by
   * resuming after each match it makes and one character on after each miss.
   */
  predicate Visits(s: string, i: nat, k: nat)
    requires i <= |s|
    decreases |s| - i
  {
    || i == k
    || (i < k && i < |s| &&
        match AmountMatchAt(s, i)
        case Some((r, e)) => Visits(s, e, k)
        case None => Visits(s, i + 1, k))
  }

  /** What a scan from `i` reports is what it reports before it reaches a visited `k`, then the scan from `k`. */
  lemma {:induction false} VisitsScan(s: string, i: nat, k: nat) returns (pre: seq<AmountToken>)
    requires i <= |s| && Visits(s, i, k)
    ensures k <= |s| && AmountsFrom(s, i) == pre + AmountsFrom(s, k)
    decreases |s| - i
  {
    if i == k {
      pre := [];
    } else {
      match AmountMatchAt(s, i)
      case Some((r, e)) =>
        ScanMatch(s, i, r, e);
        var rest := VisitsScan(s, e, k);
        pre := [TokenOf(s, i, r, e)] + rest;
      case None =>
        ScanMiss(s, i);
        pre := VisitsScan(s, i + 1, k);
    }
  }

  lemma {:induction false} AmountsFromLast(s: string, i: nat)
    requires i <= |s| && AmountsFrom(s, i) != []
    ensures var ts := AmountsFrom(s, i);
      exists k: nat, r, e :: Visits(s, i, k) && FinalMatch(s, k, r, e) && ts[|ts| - 1] == TokenOf(s, k, r, e)
  {
    var k, r, e := LastMatchOf(s, i);
  }

  /** The position, dot and end of the match that gives the scan's last token. */
  lemma {:induction false} LastMatchOf(s: string, i: nat) returns (k: nat, r: nat, e: nat)
    requires i <= |s| && AmountsFrom(s, i) != []
    ensures i <= k && Visits(s, i, k) && FinalMatch(s, k, r, e)
    ensures var ts := AmountsFrom(s, i); ts[|ts| - 1] == TokenOf(s, k, r, e)
    decreases |s| - i, 1
  {
    var m := AmountMatchAt(s, i);
    if m.Some? {
      k, r, e := LastMatchPast(s, i, m.value.0, m.value.1);
    } else {
      ScanMiss(s, i);
      k, r, e := LastMatchOf(s, i + 1);
    }
  }

  /** The case of `LastMatchOf` where the scan matches at `i`. */
  lemma {:induction false} LastMatchPast(s: string, i: nat, r0: nat, e0: nat) returns (k: nat, r: nat, e: nat)
    requires i < |s| && AmountMatchAt(s, i) == Some((r0, e0))
    ensures i <= k && Visits(s, i, k) && FinalMatch(s, k, r, e)
    ensures var ts := AmountsFrom(s, i); ts[|ts| - 1] == TokenOf(s, k, r, e)
    decreases |s| - i, 0
  {
    ScanMatch(s, i, r0, e0);
    var tok, rest := TokenOf(s, i, r0, e0), AmountsFrom(s, e0);
    if rest == [] {
      assert [tok] + rest == [tok];
      k, r, e := i, r0, e0;
    } else {
      k, r, e := LastMatchOf(s, e0);
      LastOfCons(tok, rest);
    }
  }

  lemma {:induction false} LastOfCons<T>(x: T, a: seq<T>)
    requires a != []
    ensures ([x] + a)[|a|] == a[|a| - 1]
  {
  }

  /** A character no match of the amount pattern can cover. */
  predicate Barrier(c: char) {
    !InClass(c, DigitsCommas) && c != '.'
  }

  /** A match that starts before a barrier ends at or before it. */
  lemma {:induction false} MatchStopsAtBarrier(s: string, i: nat, r: nat, e: nat, k: nat)
    requires AmountSpan(s, i, r, e) && i < k <= |s| && Barrier(s[k - 1])
    ensures e <= k
  {
  }

  /**
   * A scan that starts at or before a barrier-preceded `k` tries position `k`
   * itself: what it reports is some tokens `pre` and then what a scan from
   * `k` reports.
   */
  lemma {:induction false} ScanReaches(s: string, i: nat, k: nat) returns (pre: seq<AmountToken>)
    requires i <= k <= |s| && (i == k || Barrier(s[k - 1]))
    ensures AmountsFrom(s, i) == pre + AmountsFrom(s, k)
    decreases k - i, 1
  {
    if i == k {
      pre := [];
    } else {
      var m := AmountMatchAt(s, i);
      if m.Some? {
        pre := ScanReachesPast(s, i, m.value.0, m.value.1, k);
      } else {
        ScanMiss(s, i);
        pre := ScanReaches(s, i + 1, k);
      }
    }
  }

  /** The case of `ScanReaches` where a match at `i` is skipped over as a whole. */
  lemma {:induction false} ScanReachesPast(s: string, i: nat, r: nat, e: nat, k: nat) returns (pre: seq<AmountToken>)
    requires i < k <= |s| && Barrier(s[k - 1]) && AmountMatchAt(s, i) == Some((r, e))
    ensures AmountsFrom(s, i) == pre + AmountsFrom(s, k)
    decreases k - i, 0
  {
    ScanMatch(s, i, r, e);
    MatchStopsAtBarrier(s, i, r, e, k);
    var rest := ScanReaches(s, e, k);
    pre := [TokenOf(s, i, r, e)] + rest;
    assert AmountsFrom(s, i) == [TokenOf(s, i, r, e)] + (rest + AmountsFrom(s, k));
  }

  /** A match at `i` is reported and the scan resumes at its end. */
  lemma {:induction false} ScanMatch(s: string, i: nat, r: nat, e: nat)
    requires i < |s| && AmountMatchAt(s, i) == Some((r, e))
    ensures AmountSpan(s, i, r, e) && AmountsFrom(s, i) == [TokenOf(s, i, r, e)] + AmountsFrom(s, e)
  {
  }

  /** A miss at `i` moves the scan one character on. */
  lemma {:induction false} ScanMiss(s: string, i: nat)
    requires i < |s| && AmountMatchAt(s, i).None?
    ensures AmountsFrom(s, i) == AmountsFrom(s, i + 1)
  {
  }

  /**
   * `numbers[-1]` of the findall, or nothing when the findall is empty: it
   * is absent exactly when the pattern matches nowhere, and otherwise it is
   * the match the scan visits after whose end the pattern matches no more.
   */
  function LastAmount(line: string): (a: Option<AmountToken>)
    ensures a.None? <==> forall j :: 0 <= j < |line| ==> AmountMatchAt(line, j).None?
    ensures a.Some? ==> exists k: nat, r, e :: Visits(line, 0, k) && FinalMatch(line, k, r, e) && a.value == TokenOf(line, k, r, e)
  {
    var ts := AmountsFrom(line, 0);
    AmountsFromEmpty(line, 0);
    if ts == [] then None
    else
      AmountsFromLast(line, 0);
      Some(ts[|ts| - 1])
  }

  // ----- one line -----

  datatype Bucket = Crt100 | Crt100Da

  /** The key each bucket is reported under. */
  function ItemName(b: Bucket): string {
    match b
    case Crt100 => "CRT 100"
    case Crt100Da => "CRT 100 DA"
  }

  /** What one item line adds: its bucket, its quantity, its amount. */
  datatype LineItem = LineItem(bucket: Bucket, qty: real, amount: real)

  ghost predicate HasAmount(line: string) {
    exists j :: 0 <= j < |line| && AmountMatchAt(line, j).Some?
  }

  /**
   * The body of the line loop: the line's item, or nothing when a `continue`
   * skips it. A line is kept exactly when its upper-cased form holds "CRT"
   * and "100", it opens with a number and it holds an amount; it then goes to
   * the DA bucket exactly when the upper-cased line holds "DA" anywhere, and
   * brings its leading number and its last amount.
   */
  function ParseLine(line: string): (p: Option<LineItem>)
    ensures p.Some? <==>
      Mentions(line, "CRT") && Mentions(line, "100") && StartsWithNumber(line) && HasAmount(line)
    ensures p.Some? ==> (p.value.bucket == Crt100Da <==> Mentions(line, "DA"))
    ensures p.Some? ==> LeadingNumber(line) == Some(p.value.qty)
    ensures p.Some? ==> LastAmount(line).Some? && p.value.amount == LastAmount(line).value.Value()
  {
    var upper := Upper(line);
    ContainsIffOccurs(upper, "CRT");
    ContainsIffOccurs(upper, "100");
    ContainsIffOccurs(upper, "DA");
    if !Contains(upper, "CRT") || !Contains(upper, "100") then None
    else match LeadingNumber(line)
      case None => None
      case Some(qty) =>
        match LastAmount(line)
        case None => None
        case Some(token) =>
          var key := if Contains(upper, "DA") then Crt100Da else Crt100;
          Some(LineItem(key, qty, token.Value()))
  }

  /** The item a line yields, assembled from what the line's tests and scanners find. */
  lemma {:induction false} ParseLineOf(line: string, q: real, t: AmountToken)
    requires Mentions(line, "CRT") && Mentions(line, "100")
    requires LeadingNumber(line) == Some(q) && LastAmount(line) == Some(t)
    ensures t.WellFormed()
    ensures ParseLine(line) == Some(LineItem(if Mentions(line, "DA") then Crt100Da else Crt100, q, t.Value()))
  {
    var upper := Upper(line);
    ContainsIffOccurs(upper, "CRT");
    ContainsIffOccurs(upper, "100");
    ContainsIffOccurs(upper, "DA");
  }

  /** "DA" is looked for anywhere in the line, so a line that says "STANDARD" counts as a DA line. */
  lemma {:induction false} StandardMentionsDa(line: string, i: int)
    requires OccursAt(line, "STANDARD", i)
    ensures Mentions(line, "DA")
  {
    assert OccursAt(Upper(line), "DA", i + 4) by {
      assert line[i + 4] == line[i..i + 8][4] == 'D';
      assert line[i + 5] == line[i..i + 8][5] == 'A';
      assert Upper(line)[i + 4] == UpperChar('D') == 'D';
      assert Upper(line)[i + 5] == UpperChar('A') == 'A';
      assert Upper(line)[i + 4..i + 6] == [Upper(line)[i + 4], Upper(line)[i + 5]];
    }
  }

  // ----- the accumulation over lines -----

  /** `ParseLine` applied to every line, in order. */
  function Parsed(lines: seq<string>): (ps: seq<Option<LineItem>>)
    ensures |ps| == |lines|
    ensures forall i :: 0 <= i < |lines| ==> ps[i] == ParseLine(lines[i])
  {
    seq(|lines|, i requires 0 <= i < |lines| => ParseLine(lines[i]))
  }

  /** The items of the lines that were kept, in order. */
  function Collect(ps: seq<Option<LineItem>>): seq<LineItem> {
    if ps == [] then []
    else
      var rest := Collect(ps[..|ps| - 1]);
      match ps[|ps| - 1]
      case None => rest
      case Some(item) => rest + [item]
  }

  function Items(lines: seq<string>): seq<LineItem> {
    Collect(Parsed(lines))
  }

  /** Entry `i` of the per-line results is an item that went to bucket `b`. */
  predicate KeptInto(ps: seq<Option<LineItem>>, i: int, b: Bucket) {
    0 <= i < |ps| && ps[i].Some? && ps[i].value.bucket == b
  }

  /** Whether some item went to bucket `b`: what `key in grouped` asks. */
  function HasBucket(items: seq<LineItem>, b: Bucket): (has: bool)
    ensures has <==> exists k :: 0 <= k < |items| && items[k].bucket == b
  {
    if items == [] then false
    else
      var init := items[..|items| - 1];
      assert forall k :: 0 <= k < |init| ==> init[k] == items[k];
      HasBucket(init, b) || items[|items| - 1].bucket == b
  }

  /** The quantities of the items in bucket `b`, added in order from 0. */
  function QtySum(items: seq<LineItem>, b: Bucket): real {
    if items == [] then 0.0
    else
      var last := items[|items| - 1];
      QtySum(items[..|items| - 1], b) + (if last.bucket == b then last.qty else 0.0)
  }

  /** The amounts of the items in bucket `b`, added in order from 0. */
  function AmountSum(items: seq<LineItem>, b: Bucket): real {
    if items == [] then 0.0
    else
      var last := items[|items| - 1];
      AmountSum(items[..|items| - 1], b) + (if last.bucket == b then last.amount else 0.0)
  }

  /** The quantities and amounts of all items, whatever their bucket. */
  function AllQty(items: seq<LineItem>): real {
    if items == [] then 0.0 else AllQty(items[..|items| - 1]) + items[|items| - 1].qty
  }

  function AllAmount(items: seq<LineItem>): real {
    if items == [] then 0.0 else AllAmount(items[..|items| - 1]) + items[|items| - 1].amount
  }

  /** The accumulator's entry for `b` is present iff `b` received an item, and holds that bucket's sums. */
  predicate Tally(grouped: map<Bucket, (real, real)>, items: seq<LineItem>, b: Bucket) {
    && (b in grouped <==> HasBucket(items, b))
    && (b in grouped ==> grouped[b] == (QtySum(items, b), AmountSum(items, b)))
  }

  predicate Tallied(grouped: map<Bucket, (real, real)>, items: seq<LineItem>) {
    Tally(grouped, items, Crt100) && Tally(grouped, items, Crt100Da)
  }

  lemma {:induction false} TallyOf(grouped: map<Bucket, (real, real)>, items: seq<LineItem>, b: Bucket)
    requires Tallied(grouped, items)
    ensures Tally(grouped, items, b)
  {
    match b
    case Crt100 =>
    case Crt100Da =>
  }

  /** One more item changes its own bucket's sums by its values and no other bucket's. */
  lemma {:induction false} AddItem(items: seq<LineItem>, item: LineItem, b: Bucket)
    ensures QtySum(items + [item], b) == QtySum(items, b) + (if item.bucket == b then item.qty else 0.0)
    ensures AmountSum(items + [item], b) == AmountSum(items, b) + (if item.bucket == b then item.amount else 0.0)
    ensures HasBucket(items + [item], b) <==> HasBucket(items, b) || item.bucket == b
  {
    assert (items + [item])[..|items|] == items;
  }

  /** The per-line results of one line more. */
  lemma {:induction false} ParsedStep(ps: seq<Option<LineItem>>, k: nat)
    requires k < |ps|
    ensures ps[..k + 1] == ps[..k] + [ps[k]]
  {
    assert ps[..k + 1][..k] == ps[..k];
  }

  /** Adding an item into the accumulator keeps it in step with the items. */
  lemma {:induction false} TallyAdd(grouped: map<Bucket, (real, real)>, items: seq<LineItem>, item: LineItem, qty: real, amount: real)
    requires Tallied(grouped, items)
    requires (qty, amount) == if item.bucket in grouped then grouped[item.bucket] else (0.0, 0.0)
    ensures Tallied(grouped[item.bucket := (qty + item.qty, amount + item.amount)], items + [item])
  {
    AddItem(items, item, Crt100);
    AddItem(items, item, Crt100Da);
    if item.bucket !in grouped {
      EmptyBucket(items, item.bucket);
    }
  }

  /** A bucket that received nothing sums to zero. */
  lemma {:induction false} EmptyBucket(items: seq<LineItem>, b: Bucket)
    requires !HasBucket(items, b)
    ensures QtySum(items, b) == 0.0 && AmountSum(items, b) == 0.0
  {
    if items != [] {
      EmptyBucket(items[..|items| - 1], b);
    }
  }

  // ----- rows and totals -----

  /** A Python number: `int` and `float` print differently, so the model keeps them apart. */
  datatype Num = Int(i: int) | Float(f: real)

  function NumValue(n: Num): real {
    match n
    case Int(i) => i as real
    case Float(f) => f
  }

  /** Python's `+`: two `int`s give an `int`, anything with a `float` gives a `float`. */
  function Add(x: Num, y: Num): (z: Num)
    ensures NumValue(z) == NumValue(x) + NumValue(y)
    ensures z.Int? <==> x.Int? && y.Int?
  {
    if x.Int? && y.Int? then Int(x.i + y.i) else Float(NumValue(x) + NumValue(y))
  }

  /** `int(q) if float(q).is_integer() else q`. */
  function Display(q: real): (n: Num)
    ensures NumValue(n) == q
    ensures n.Int? <==> q == q.Floor as real
  {
    if q == q.Floor as real then Int(q.Floor) else Float(q)
  }

  datatype Row = Row(item: string, qty: Num, amount: real)

  /** The order `parse_paragon` reports the buckets in. */
  const DisplayOrder: seq<Bucket> := [Crt100, Crt100Da]

  function RowOf(items: seq<LineItem>, b: Bucket): Row {
    Row(ItemName(b), Display(QtySum(items, b)), AmountSum(items, b))
  }

  /** The rows for the buckets of `order` that received an item, in that order. */
  function RowsFor(items: seq<LineItem>, order: seq<Bucket>): (rows: seq<Row>)
    ensures |rows| <= |order|
  {
    if order == [] then []
    else
      var b := order[|order| - 1];
      RowsFor(items, order[..|order| - 1]) + (if HasBucket(items, b) then [RowOf(items, b)] else [])
  }

  /** The rows for one bucket more of the order. */
  lemma {:induction false} RowsStep(items: seq<LineItem>, order: seq<Bucket>, j: nat)
    requires j < |order|
    ensures RowsFor(items, order[..j + 1])
      == RowsFor(items, order[..j]) + (if HasBucket(items, order[j]) then [RowOf(items, order[j])] else [])
  {
    assert order[..j + 1][..j] == order[..j];
  }

  /** `sum(r["qty"] for r in rows)`: Python's `sum` starts from the `int` 0. */
  function SumQty(rows: seq<Row>): (n: Num)
    ensures n.Int? <==> forall k :: 0 <= k < |rows| ==> rows[k].qty.Int?
  {
    if rows == [] then Int(0)
    else
      var init := rows[..|rows| - 1];
      assert forall k :: 0 <= k < |init| ==> init[k] == rows[k];
      Add(SumQty(init), rows[|rows| - 1].qty)
  }

  /** `sum(r["amount"] for r in rows)`: every amount is a `float`, so only the empty sum stays the `int` 0. */
  function SumAmount(rows: seq<Row>): (n: Num)
    ensures n.Int? <==> rows == []
  {
    if rows == [] then Int(0) else Add(SumAmount(rows[..|rows| - 1]), Float(rows[|rows| - 1].amount))
  }

  /** The dictionary `parse_paragon` returns. */
  datatype Summary = Summary(vendor: string, rows: seq<Row>, totalQty: Num, totalAmount: Num)

  /**
   * `parse_paragon`: the line loop fills the two-bucket accumulator, the
   * bucket loop turns it into rows in display order, and the totals are
   * summed from the rows.
   */
  method ParseParagon(text: string) returns (s: Summary)
    ensures s.vendor == "Paragon"
    ensures s.rows == RowsFor(Items(SplitLines(text)), DisplayOrder)
    ensures s.totalQty == SumQty(s.rows) && s.totalAmount == SumAmount(s.rows)
  {
    var lines := SplitLines(text);
    var grouped := Accumulate(lines);
    var rows := BuildRows(grouped, Items(lines));
    s := Summary("Paragon", rows, SumQty(rows), SumAmount(rows));
  }

  /** The line loop: each kept line adds its quantity and amount into its bucket. */
  method Accumulate(lines: seq<string>) returns (grouped: map<Bucket, (real, real)>)
    ensures Tallied(grouped, Items(lines))
  {
    grouped := map[];
    ghost var ps := Parsed(lines);
    for k := 0 to |lines|
      invariant Tallied(grouped, Collect(ps[..k]))
    {
      ParsedStep(ps, k);
      assert Collect(ps[..k + 1]) == Collect(ps[..k]) + (if ps[k].Some? then [ps[k].value] else []) by {
        assert ps[..k + 1][..k] == ps[..k];
      }
      var parsed := ParseLine(lines[k]);
      if parsed.Some? {
        var item := parsed.value;
        var (qty, amount) := if item.bucket in grouped then grouped[item.bucket] else (0.0, 0.0);
        TallyAdd(grouped, Collect(ps[..k]), item, qty, amount);
        grouped := grouped[item.bucket := (qty + item.qty, amount + item.amount)];
      }
    }
    assert ps[..|lines|] == ps;
  }

  /** The bucket loop: a row per bucket that received something, in display order. */
  method BuildRows(grouped: map<Bucket, (real, real)>, items: seq<LineItem>) returns (rows: seq<Row>)
    requires Tallied(grouped, items)
    ensures rows == RowsFor(items, DisplayOrder)
  {
    rows := [];
    for j := 0 to |DisplayOrder|
      invariant rows == RowsFor(items, DisplayOrder[..j])
    {
      var key := DisplayOrder[j];
      RowsStep(items, DisplayOrder, j);
      TallyOf(grouped, items, key);
      if key in grouped {
        var (qty, amount) := grouped[key];
        rows := rows + [Row(ItemName(key), Display(qty), amount)];
        assert rows == RowsFor(items, DisplayOrder[..j]) + [RowOf(items, key)];
      }
    }
    assert DisplayOrder[..|DisplayOrder|] == DisplayOrder;
  }

  /**
   * Conversely: a match that follows a barrier (or opens the line), after
   * which nothing matches, is the amount `LastAmount` reports.
   */
  lemma {:induction false} LastAmountIs(line: string, k: nat, r: nat, e: nat)
    requires FinalMatch(line, k, r, e) && (k == 0 || Barrier(line[k - 1]))
    ensures LastAmount(line) == Some(TokenOf(line, k, r, e))
  {
    var pre := ScanReaches(line, 0, k);
    AmountMatchAtIs(line, k, r, e);
    ScanMatch(line, k, r, e);
    assert AmountsFrom(line, 0) == pre + [TokenOf(line, k, r, e)];
  }

  /** The final match the scan visits is the amount taken, wherever it starts. */
  lemma {:induction false} LastAmountOf(line: string, k: nat, r: nat, e: nat)
    requires Visits(line, 0, k) && FinalMatch(line, k, r, e)
    ensures LastAmount(line) == Some(TokenOf(line, k, r, e))
  {
    var pre := VisitsScan(line, 0, k);
    AmountMatchAtIs(line, k, r, e);
    ScanMatch(line, k, r, e);
    assert AmountsFrom(line, 0) == pre + [TokenOf(line, k, r, e)];
  }

  /**
   * A last amount that follows a digit: in "1.2,34.5" the scan takes "1.2", resumes at the comma
   * and takes ",34.5" last. The matches "2,34.5" and "4.5" it never tries are not the amount.
   */
  lemma {:induction false} SampleAmountAfterDigit(line: string)
    requires line == "1.2,34.5"
    ensures LastAmount(line) == Some(AmountToken(",34", "5"))
  {
    assert AmountSpan(line, 0, 1, 3);
    AmountMatchAtIs(line, 0, 1, 3);
    assert Visits(line, 0, 3);
    assert AmountSpan(line, 3, 6, 8);
    assert FinalMatch(line, 3, 6, 8);
    LastAmountOf(line, 3, 6, 8);
    assert line[3..6] == ",34" && line[7..8] == "5";
  }

  // ----- what the report promises -----

  /** The rows written out: the base bucket's row if it received anything, then the DA bucket's. */
  lemma {:induction false} RowsSpelledOut(items: seq<LineItem>)
    ensures RowsFor(items, DisplayOrder)
      == (if HasBucket(items, Crt100) then [RowOf(items, Crt100)] else [])
       + (if HasBucket(items, Crt100Da) then [RowOf(items, Crt100Da)] else [])
  {
    assert DisplayOrder[..1] == [Crt100];
    assert DisplayOrder[..1][..0] == [];
    assert DisplayOrder[..|DisplayOrder| - 1] == [Crt100];
  }

  /** At most two rows, and "CRT 100" always comes before "CRT 100 DA". */
  lemma {:induction false} RowsInDisplayOrder(items: seq<LineItem>)
    ensures var rows := RowsFor(items, DisplayOrder);
      && |rows| <= 2
      && (forall k :: 0 <= k < |rows| ==> rows[k].item == "CRT 100" || rows[k].item == "CRT 100 DA")
      && (forall i, j :: 0 <= i < j < |rows| ==> rows[i].item == "CRT 100" && rows[j].item == "CRT 100 DA")
  {
    RowsSpelledOut(items);
  }

  /**
   * Bucket `b` has a row exactly when some item went to it, and that row
   * carries the bucket's summed quantity, shown as an `int` exactly when it
   * is a whole number, and its summed amount.
   */
  lemma {:induction false} RowForBucket(items: seq<LineItem>, b: Bucket)
    ensures var rows := RowsFor(items, DisplayOrder);
      (exists k :: 0 <= k < |rows| && rows[k].item == ItemName(b)) <==> HasBucket(items, b)
    ensures var rows := RowsFor(items, DisplayOrder);
      forall k :: 0 <= k < |rows| && rows[k].item == ItemName(b) ==>
        && NumValue(rows[k].qty) == QtySum(items, b)
        && (rows[k].qty.Int? <==> QtySum(items, b) == QtySum(items, b).Floor as real)
        && rows[k].amount == AmountSum(items, b)
  {
    RowsSpelledOut(items);
    var rows := RowsFor(items, DisplayOrder);
    assert ItemName(Crt100) != ItemName(Crt100Da);
    if HasBucket(items, b) {
      var k := if b == Crt100 then 0 else |rows| - 1;
      assert rows[k] == RowOf(items, b);
    }
  }

  /** Bucket `b` received an item exactly when some line was kept into it. */
  lemma {:induction false} BucketFromLines(ps: seq<Option<LineItem>>, b: Bucket)
    ensures HasBucket(Collect(ps), b) <==> exists i :: KeptInto(ps, i, b)
    decreases |ps|
  {
    if ps != [] {
      var n := |ps| - 1;
      var init := ps[..n];
      BucketFromLines(init, b);
      assert Collect(ps) == Collect(init) + if ps[n].Some? then [ps[n].value] else [];
      AddAll(Collect(init), if ps[n].Some? then [ps[n].value] else [], b);
      assert ps[n].Some? && ps[n].value.bucket == b ==> KeptInto(ps, n, b);
      if exists i :: KeptInto(ps, i, b) {
        var i :| KeptInto(ps, i, b);
        if i < n {
          assert KeptInto(init, i, b);
        }
      }
      if exists i :: KeptInto(init, i, b) {
        var i :| KeptInto(init, i, b);
        assert KeptInto(ps, i, b);
      }
    }
  }

  /** Appending what one line adds: the bucket gains an item iff the line went to it. */
  lemma {:induction false} AddAll(items: seq<LineItem>, added: seq<LineItem>, b: Bucket)
    requires |added| <= 1
    ensures HasBucket(items + added, b) <==> HasBucket(items, b) || (added != [] && added[0].bucket == b)
  {
    if added == [] {
      assert items + added == items;
    } else {
      AddItem(items, added[0], b);
      assert added == [added[0]];
    }
  }

  /** Every item lies in one of the two buckets, so the two bucket sums add up to all items. */
  lemma {:induction false} BucketsPartition(items: seq<LineItem>)
    ensures QtySum(items, Crt100) + QtySum(items, Crt100Da) == AllQty(items)
    ensures AmountSum(items, Crt100) + AmountSum(items, Crt100Da) == AllAmount(items)
  {
    if items != [] {
      BucketsPartition(items[..|items| - 1]);
    }
  }

  /**
   * `total_qty` and `total_amount`, summed from the rows, are the sums over
   * every kept line: no kept line is lost between the buckets and the rows.
   */
  lemma {:induction false} TotalsCoverAllItems(items: seq<LineItem>)
    ensures var rows := RowsFor(items, DisplayOrder);
      NumValue(SumQty(rows)) == AllQty(items) && NumValue(SumAmount(rows)) == AllAmount(items)
  {
    RowsSpelledOut(items);
    BucketsPartition(items);
    if !HasBucket(items, Crt100) {
      EmptyBucket(items, Crt100);
    }
    if !HasBucket(items, Crt100Da) {
      EmptyBucket(items, Crt100Da);
    }
    var rows := RowsFor(items, DisplayOrder);
    if |rows| == 2 {
      assert rows[..1] == [rows[0]] && rows[..1][..0] == [];
      assert SumQty(rows[..1]) == Add(Int(0), rows[0].qty);
      assert SumAmount(rows[..1]) == Add(Int(0), Float(rows[0].amount));
    } else if |rows| == 1 {
      assert rows[..0] == [];
    }
  }

  /** No line kept: no rows, and both totals are the `int` 0. */
  lemma {:induction false} NothingKept(items: seq<LineItem>)
    ensures var rows := RowsFor(items, DisplayOrder);
      rows == [] <==> items == []
    ensures items == [] ==>
      var rows := RowsFor(items, DisplayOrder);
      SumQty(rows) == Int(0) && SumAmount(rows) == Int(0)
  {
    RowsSpelledOut(items);
    if items != [] {
      assert HasBucket(items, items[0].bucket);
    }
  }

  // ----- worked examples -----

  /** A whole accumulated quantity is shown as an `int`, any other as the decimal itself. */
  lemma {:induction false} QuantityDisplay()
    ensures Display(12.0) == Int(12) && Display(12.5) == Float(12.5)
  {
    assert (12.5).Floor == 12;
  }

  /** The base-item line of a sample invoice passes the filter without "DA". */
  lemma {:induction false} BaseSampleWords(line: string)
    requires line == "2.00 CRT100 Regular ... 40.00"
    ensures Mentions(line, "CRT") && Mentions(line, "100") && !Mentions(line, "DA")
  {
    SampleWord(line, "CRT", 5);
    SampleWord(line, "100", 8);
    NotMentioned(line, "DA");
  }

  /** The same line opens with the quantity 2. */
  lemma {:induction false} BaseSampleQuantity(line: string)
    requires line == "2.00 CRT100 Regular ... 40.00"
    ensures LeadingNumber(line) == Some(2.0)
  {
    SampleQuantity(line, '2');
  }

  /** Its last amount is 40.00. */
  lemma {:induction false} BaseSampleAmount(line: string)
    requires line == "2.00 CRT100 Regular ... 40.00"
    ensures LastAmount(line) == Some(AmountToken("40", "00")) && AmountToken("40", "00").Value() == 40.0
  {
    SampleLastAmount(line, 24, '4', '0');
    SampleAmount('4', '0');
  }

  /** The DA-item line of the same invoice: the filter words and "DA" are all there. */
  lemma {:induction false} DaSampleWords(line: string)
    requires line == "1.00 CRT 100 DA widget ... 70.00"
    ensures Mentions(line, "CRT") && Mentions(line, "100") && Mentions(line, "DA")
  {
    SampleWord(line, "CRT", 5);
    SampleWord(line, "100", 9);
    SampleWord(line, "DA", 13);
  }

  /** The DA line's quantity is 1. */
  lemma {:induction false} DaSampleQuantity(line: string)
    requires line == "1.00 CRT 100 DA widget ... 70.00"
    ensures LeadingNumber(line) == Some(1.0)
  {
    SampleQuantity(line, '1');
  }

  /** Its last amount is 70.00. */
  lemma {:induction false} DaSampleAmount(line: string)
    requires line == "1.00 CRT 100 DA widget ... 70.00"
    ensures LastAmount(line) == Some(AmountToken("70", "00")) && AmountToken("70", "00").Value() == 70.0
  {
    SampleLastAmount(line, 27, '7', '0');
    SampleAmount('7', '0');
  }

  /** The base sample line yields one "CRT 100" item: quantity 2, amount 40. */
  lemma {:induction false} BaseSampleItem(line: string)
    requires line == "2.00 CRT100 Regular ... 40.00"
    ensures ParseLine(line) == Some(LineItem(Crt100, 2.0, 40.0))
  {
    BaseSampleWords(line);
    BaseSampleQuantity(line);
    BaseSampleAmount(line);
    ParseLineOf(line, 2.0, AmountToken("40", "00"));
  }

  /** The DA sample line yields one "CRT 100 DA" item: quantity 1, amount 70. */
  lemma {:induction false} DaSampleItem(line: string)
    requires line == "1.00 CRT 100 DA widget ... 70.00"
    ensures ParseLine(line) == Some(LineItem(Crt100Da, 1.0, 70.0))
  {
    DaSampleWords(line);
    DaSampleQuantity(line);
    DaSampleAmount(line);
    ParseLineOf(line, 1.0, AmountToken("70", "00"));
  }

  /** The sample invoice's two item lines, one after the other, give one item each, in order. */
  lemma {:induction false} SampleItems(base: string, da: string)
    requires base == "2.00 CRT100 Regular ... 40.00"
    requires da == "1.00 CRT 100 DA widget ... 70.00"
    ensures Items(SplitLines(base + "\n" + da)) == [LineItem(Crt100, 2.0, 40.0), LineItem(Crt100Da, 1.0, 70.0)]
  {
    SampleLines(base, da);
    SplitTwoLines(base, da);
    BaseSampleItem(base);
    DaSampleItem(da);
    ItemsOfTwo(base, da, LineItem(Crt100, 2.0, 40.0), LineItem(Crt100Da, 1.0, 70.0));
  }

  lemma {:induction false} SampleLines(base: string, da: string)
    requires base == "2.00 CRT100 Regular ... 40.00"
    requires da == "1.00 CRT 100 DA widget ... 70.00"
    ensures IsLine(base) && IsLine(da)
  {
  }

  /** Two kept lines give their two items, in order. */
  lemma {:induction false} ItemsOfTwo(a: string, b: string, x: LineItem, y: LineItem)
    requires ParseLine(a) == Some(x) && ParseLine(b) == Some(y)
    ensures Items([a, b]) == [x, y]
  {
    var ps := Parsed([a, b]);
    assert |ps| == 2 && ps[0] == Some(x) && ps[1] == Some(y);
    CollectTwo(ps, x, y);
  }

  lemma {:induction false} CollectTwo(ps: seq<Option<LineItem>>, x: LineItem, y: LineItem)
    requires |ps| == 2 && ps[0] == Some(x) && ps[1] == Some(y)
    ensures Collect(ps) == [x, y]
  {
    assert ps[..1][..0] == [];
    assert Collect(ps[..1]) == [x];
  }

  /**
   * The whole sample: the text of the two item lines reports a "CRT 100" row
   * of 2 and 40.0 and a "CRT 100 DA" row of 1 and 70.0, totalling 3 and 110.0.
   */
  lemma {:induction false} SampleInvoice(base: string, da: string)
    requires base == "2.00 CRT100 Regular ... 40.00"
    requires da == "1.00 CRT 100 DA widget ... 70.00"
    ensures var rows := RowsFor(Items(SplitLines(base + "\n" + da)), DisplayOrder);
      && rows == [Row("CRT 100", Int(2), 40.0), Row("CRT 100 DA", Int(1), 70.0)]
      && SumQty(rows) == Int(3) && SumAmount(rows) == Float(110.0)
  {
    SampleItems(base, da);
    SampleRows();
  }

  /** An upper-case word written out in the line is mentioned. */
  lemma {:induction false} SampleWord(line: string, word: string, i: nat)
    requires i + |word| <= |line|
    requires forall k :: 0 <= k < |word| ==> line[i + k] == word[k] && UpperChar(word[k]) == word[k]
    ensures Mentions(line, word)
  {
    assert OccursAt(Upper(line), word, i) by {
      forall k | 0 <= k < |word|
        ensures Upper(line)[i..i + |word|][k] == word[k]
      {
        assert Upper(line)[i + k] == UpperChar(line[i + k]);
      }
    }
  }

  /** A line that opens with "<d>.00 " has the quantity `d`. */
  lemma {:induction false} SampleQuantity(line: string, d: char)
    requires |line| > 4 && line[..5] == [d] + ".00 " && IsDigit(d)
    ensures LeadingNumber(line) == Some(DigitValue(d) as real)
  {
    assert line[0] == d && line[1] == '.' && line[2] == '0' && line[3] == '0' && line[4] == ' ';
    assert SpacesThenDigit(line, 0);
    LeadingDecimalNumber(line, 0, 1, 4);
    assert line[0..1] == [d];
    assert line[2..4] == "00";
    assert DigitsValue([d]) == DigitValue(d) by {
      assert [d][..0] == [];
    }
    assert DigitsValue("00") == 0 by {
      assert "00"[..1] == "0";
    }
  }

  /** A line that ends with " <a><b>.00" has that amount last. */
  lemma {:induction false} SampleLastAmount(line: string, k: nat, a: char, b: char)
    requires 1 <= k && |line| == k + 5 && line[k - 1] == ' ' && line[k] == a && line[k + 1] == b
    requires IsDigit(a) && IsDigit(b) && line[k + 2] == '.' && line[k + 3] == '0' && line[k + 4] == '0'
    ensures LastAmount(line) == Some(AmountToken([a, b], "00"))
  {
    SampleSpan(line, k, a, b);
    LastAmountIs(line, k, k + 2, k + 5);
    SampleToken(line, k, a, b);
  }

  lemma {:induction false} SampleSpan(line: string, k: nat, a: char, b: char)
    requires 1 <= k && |line| == k + 5 && line[k - 1] == ' ' && line[k] == a && line[k + 1] == b
    requires IsDigit(a) && IsDigit(b) && line[k + 2] == '.' && line[k + 3] == '0' && line[k + 4] == '0'
    ensures AmountSpan(line, k, k + 2, k + 5) && FinalMatch(line, k, k + 2, k + 5) && Barrier(line[k - 1])
  {
    assert AmountSpan(line, k, k + 2, k + 5);
  }

  lemma {:induction false} SampleToken(line: string, k: nat, a: char, b: char)
    requires |line| == k + 5 && line[k] == a && line[k + 1] == b
    requires IsDigit(a) && IsDigit(b) && line[k + 2] == '.' && line[k + 3] == '0' && line[k + 4] == '0'
    requires AmountSpan(line, k, k + 2, k + 5)
    ensures TokenOf(line, k, k + 2, k + 5) == AmountToken([a, b], "00")
  {
    assert line[k..k + 2] == [a, b];
    assert line[k + 3..k + 5] == "00";
  }

  /** The value of the amount "<a><b>.00". */
  lemma {:induction false} SampleAmount(a: char, b: char)
    requires IsDigit(a) && IsDigit(b)
    ensures AmountToken([a, b], "00").WellFormed()
    ensures AmountToken([a, b], "00").Value() == (DigitValue(a) * 10 + DigitValue(b)) as real
  {
    assert DropCommas([a, b]) == [a, b];
    assert [a, b][..1] == [a] && [a][..0] == [];
    assert DigitsValue([a]) == DigitValue(a);
    assert DigitsValue([a, b]) == DigitValue(a) * 10 + DigitValue(b);
    assert DigitsValue("00") == 0 by {
      assert "00"[..1] == "0";
    }
    assert Pow10(2) == 100;
  }

  /** The two sample items give a "CRT 100" row of 2 and 40.00, a DA row of 1 and 70.00, and totals 3 and 110.00. */
  lemma {:induction false} SampleRows()
    ensures RowsFor([LineItem(Crt100, 2.0, 40.0), LineItem(Crt100Da, 1.0, 70.0)], DisplayOrder)
      == [Row("CRT 100", Int(2), 40.0), Row("CRT 100 DA", Int(1), 70.0)]
    ensures SumQty([Row("CRT 100", Int(2), 40.0), Row("CRT 100 DA", Int(1), 70.0)]) == Int(3)
    ensures SumAmount([Row("CRT 100", Int(2), 40.0), Row("CRT 100 DA", Int(1), 70.0)]) == Float(110.0)
  {
    var items := [LineItem(Crt100, 2.0, 40.0), LineItem(Crt100Da, 1.0, 70.0)];
    RowsSpelledOut(items);
    assert items[..1] == [items[0]] && items[..1][..0] == [];
    assert HasBucket(items, Crt100) && HasBucket(items, Crt100Da);
    assert QtySum(items[..1], Crt100) == 2.0 && AmountSum(items[..1], Crt100) == 40.0;
    assert QtySum(items[..1], Crt100Da) == 0.0 && AmountSum(items[..1], Crt100Da) == 0.0;
    assert QtySum(items, Crt100) == 2.0 && AmountSum(items, Crt100) == 40.0;
    assert QtySum(items, Crt100Da) == 1.0 && AmountSum(items, Crt100Da) == 70.0;
    assert Display(2.0) == Int(2) && Display(1.0) == Int(1);
  }
}

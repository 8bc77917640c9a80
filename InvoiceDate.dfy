/**
 * The invoice date (app.py, `extract_invoice_date`): the leftmost match of
 * `Invoice\s+Date[:\s]+(\d{1,2}[/-]\d{1,2}[/-]\d{4})` (ignoring case), then
 * the first of four `strptime` formats that accepts the captured token, then
 * the Korean long form "{year}년 {month}월 {day}일".
 */
module InvoiceDate {
  import opened Wrappers
  import opened Text

  // ----- the search pattern -----

  /** `word` stands at index `i` of `s`, ignoring ASCII letter case. */
  predicate CaselessAt(s: string, i: nat, word: string) {
    i + |word| <= |s| && Upper(s[i..i + |word|]) == Upper(word)
  }

  /** `s` holds `w` from index `i` on. */
  predicate PrefixAt(s: string, i: nat, w: string) {
    i + |w| <= |s| && s[i..i + |w|] == w
  }

  predicate IsDateSep(c: char) {
    c == '/' || c == '-'
  }

  /** The captured group: two fields of one or two digits and a four-digit year, each field followed by a separator. */
  datatype DateToken = DateToken(first: string, sep1: char, second: string, sep2: char, year: string) {

    /** The token as it stands in the text. */
    function Raw(): string {
      first + [sep1] + second + [sep2] + year
    }

    /** The shape `\d{1,2}[/-]\d{1,2}[/-]\d{4}`. */
    predicate WellFormed() {
      && 1 <= |first| <= 2 && AllDigits(first) && IsDateSep(sep1)
      && 1 <= |second| <= 2 && AllDigits(second) && IsDateSep(sep2)
      && |year| == 4 && AllDigits(year)
    }
  }

  /** The label part `Invoice\s+Date[:\s]+` stands at `i`, with "Date" at `a` and the token at `b`. */
  predicate LabelAt(s: string, i: nat, a: nat, b: nat) {
    && CaselessAt(s, i, "invoice")
    && i + 7 < a && CaselessAt(s, a, "date")
    && (forall k :: i + 7 <= k < a ==> IsSpace(s[k]))
    && a + 4 < b <= |s| && (forall k :: a + 4 <= k < b ==> s[k] == ':' || IsSpace(s[k]))
  }

  /** A label stands at `i` and the well-formed token `t` right after it. */
  ghost predicate Labelled(s: string, i: nat, t: DateToken) {
    t.WellFormed() && exists a, b :: LabelAt(s, i, a, b) && PrefixAt(s, b, t.Raw())
  }

  /**
   * The shape `\d{1,2}[/-]\d{1,2}[/-]\d{4}` stands at `b` with its separators
   * at `d1` and `d2`.
   */
  predicate FieldsAt(s: string, b: nat, d1: nat, d2: nat) {
    && b + 1 <= d1 <= b + 2 && d1 + 2 <= d2 <= d1 + 3 && d2 + 5 <= |s|
    && AllDigits(s[b..d1]) && IsDateSep(s[d1])
    && AllDigits(s[d1 + 1..d2]) && IsDateSep(s[d2])
    && AllDigits(s[d2 + 1..d2 + 5])
  }

  /** Where the greedy digit runs put the two separators, if the shape stands at `b`. */
  function FieldEnds(s: string, b: nat): (m: Option<(nat, nat)>)
    requires b <= |s|
    ensures m.Some? ==> FieldsAt(s, b, m.value.0, m.value.1)
  {
    var d1 := RunEnd(s, b, Digits);
    if d1 - b < 1 || d1 - b > 2 || d1 == |s| || !IsDateSep(s[d1]) then None
    else
      var d2 := RunEnd(s, d1 + 1, Digits);
      if d2 - (d1 + 1) < 1 || d2 - (d1 + 1) > 2 || d2 == |s| || !IsDateSep(s[d2]) then None
      else if d2 + 5 > |s| || !AllDigits(s[d2 + 1..d2 + 5]) then None
      else
        DigitsSlice(s, b, d1);
        DigitsSlice(s, d1 + 1, d2);
        Some((d1, d2))
  }

  /** The date group matched at `b`, if the text there has its shape. */
  function TokenAt(s: string, b: nat): (t: Option<DateToken>)
    requires b <= |s|
    ensures t.Some? ==> t.value.WellFormed() && PrefixAt(s, b, t.value.Raw())
  {
    match FieldEnds(s, b)
    case None => None
    case Some((d1, d2)) =>
      RawInText(s, b, d1, d2);
      Some(DateToken(s[b..d1], s[d1], s[d1 + 1..d2], s[d2], s[d2 + 1..d2 + 5]))
  }

  /** The text from `b` to four characters past `d2`, cut at the separators `d1` and `d2`. */
  lemma {:induction false} RawInText(s: string, b: nat, d1: nat, d2: nat)
    requires b <= d1 < d2 && d2 + 5 <= |s|
    ensures s[b..d2 + 5] == DateToken(s[b..d1], s[d1], s[d1 + 1..d2], s[d2], s[d2 + 1..d2 + 5]).Raw()
  {
    assert s[b..d2 + 5] == s[b..d1] + s[d1..d2 + 5];
    assert s[d1..d2 + 5] == [s[d1]] + s[d1 + 1..d2 + 5];
    assert s[d1 + 1..d2 + 5] == s[d1 + 1..d2] + s[d2..d2 + 5];
    assert s[d2..d2 + 5] == [s[d2]] + s[d2 + 1..d2 + 5];
  }

  /** Conversely, a well-formed token standing at `b` is what the group captures there. */
  lemma {:induction false} TokenAtComplete(s: string, b: nat, t: DateToken)
    requires t.WellFormed() && PrefixAt(s, b, t.Raw())
    ensures TokenAt(s, b) == Some(t)
  {
    var d1, d2 := b + |t.first|, b + |t.first| + 1 + |t.second|;
    TokenPieces(s, b, t);
    FieldEndsIs(s, b, d1, d2);
  }

  /** Where the shape stands, the greedy runs stop exactly at its separators. */
  lemma {:induction false} FieldEndsIs(s: string, b: nat, d1: nat, d2: nat)
    requires FieldsAt(s, b, d1, d2)
    ensures FieldEnds(s, b) == Some((d1, d2))
  {
    DigitRunOf(s, b, d1);
    DigitRunOf(s, d1 + 1, d2);
  }

  /** The pieces of a token standing at `b`, read back out of the text. */
  lemma {:induction false} TokenPieces(s: string, b: nat, t: DateToken)
    requires t.WellFormed() && PrefixAt(s, b, t.Raw())
    ensures var d1, d2 := b + |t.first|, b + |t.first| + 1 + |t.second|;
      && d2 + 5 <= |s|
      && s[b..d1] == t.first && s[d1] == t.sep1
      && s[d1 + 1..d2] == t.second && s[d2] == t.sep2
      && s[d2 + 1..d2 + 5] == t.year
  {
    var r, n1, n2 := t.Raw(), |t.first|, |t.second|;
    RawPieces(t);
    SliceWithin(s, b, r, 0, n1);
    SliceWithin(s, b, r, n1 + 1, n1 + 1 + n2);
    SliceWithin(s, b, r, n1 + 2 + n2, |r|);
    assert s[b + n1] == s[b..b + |r|][n1];
    assert s[b + n1 + 1 + n2] == s[b..b + |r|][n1 + 1 + n2];
  }

  /** The pieces of a token's raw text, as slices. */
  lemma {:induction false} RawPieces(t: DateToken)
    ensures var r, n1, n2 := t.Raw(), |t.first|, |t.second|;
      && |r| == n1 + n2 + 2 + |t.year|
      && r[0..n1] == t.first && r[n1] == t.sep1
      && r[n1 + 1..n1 + 1 + n2] == t.second && r[n1 + 1 + n2] == t.sep2
      && r[n1 + 2 + n2..] == t.year
  {
    var a := t.first + [t.sep1];
    var c := a + t.second + [t.sep2];
    assert t.Raw() == c + t.year;
    assert (a + t.second)[..|a|] == a;
    assert (a + t.second)[|a|..] == t.second;
  }

  /** A one- or two-digit field followed by a separator is one whole digit run. */
  lemma {:induction false} DigitRunOf(s: string, i: nat, e: nat)
    requires i <= e < |s| && AllDigits(s[i..e]) && IsDateSep(s[e])
    ensures RunEnd(s, i, Digits) == e
  {
    forall k | i <= k < e
      ensures InClass(s[k], Digits)
    {
      assert s[i..e][k - i] == s[k];
    }
    RunEndIs(s, i, e, Digits);
  }

  /** The label `Invoice\s+Date[:\s]+` tried at `i`: where "Date" and the date group begin. */
  function LabelEnd(s: string, i: nat): (m: Option<(nat, nat)>)
    requires i <= |s|
    ensures m.Some? ==> LabelAt(s, i, m.value.0, m.value.1)
  {
    if !CaselessAt(s, i, "invoice") then None
    else
      var a := RunEnd(s, i + 7, Spaces);
      if a == i + 7 || !CaselessAt(s, a, "date") then None
      else
        var b := RunEnd(s, a + 4, ColonSpaces);
        if b == a + 4 then None else Some((a, b))
  }

  /** The whole pattern tried at index `i`: the token it captures, if it matches there. */
  function MatchAt(s: string, i: nat): (m: Option<DateToken>)
    requires i <= |s|
    ensures m.Some? ==> Labelled(s, i, m.value)
  {
    match LabelEnd(s, i)
    case None => None
    case Some((a, b)) =>
      var t := TokenAt(s, b);
      assert t.Some? ==> LabelAt(s, i, a, b) && PrefixAt(s, b, t.value.Raw());
      t
  }

  /**
   * The pattern cannot match at `i` in any other way: the label's whitespace
   * and separator runs end where the next literal begins, so a label and a
   * well-formed token at `i` are exactly what `MatchAt` finds.
   */
  lemma {:induction false} MatchAtComplete(s: string, i: nat, a: nat, b: nat, t: DateToken)
    requires LabelAt(s, i, a, b) && t.WellFormed() && PrefixAt(s, b, t.Raw())
    ensures MatchAt(s, i) == Some(t)
  {
    RawPieces(t);
    assert s[b] == t.Raw()[0] == t.Raw()[0..|t.first|][0] == t.first[0] by {
      assert s[b..b + |t.Raw()|][0] == s[b];
    }
    LabelEndIs(s, i, a, b);
    TokenAtComplete(s, b, t);
  }

  /** A label followed by a digit is found with both of its runs at full length. */
  lemma {:induction false} LabelEndIs(s: string, i: nat, a: nat, b: nat)
    requires LabelAt(s, i, a, b) && b < |s| && IsDigit(s[b])
    ensures LabelEnd(s, i) == Some((a, b))
  {
    assert UpperChar(s[a]) == 'D' by {
      assert Upper(s[a..a + 4])[0] == Upper("date")[0];
    }
    RunEndIs(s, i + 7, a, Spaces);
    RunEndIs(s, a + 4, b, ColonSpaces);
  }

  /** `re.search`: the first index from `i` on where the pattern matches. */
  function SearchFrom(s: string, i: nat): (r: Option<(nat, DateToken)>)
    requires i <= |s|
    ensures r.Some? ==> i <= r.value.0 <= |s| && MatchAt(s, r.value.0) == Some(r.value.1)
    ensures r.Some? ==> forall j :: i <= j < r.value.0 ==> MatchAt(s, j).None?
    ensures r.None? ==> forall j :: i <= j <= |s| ==> MatchAt(s, j).None?
    decreases |s| - i
  {
    var m := MatchAt(s, i);
    if m.Some? then Some((i, m.value))
    else if i == |s| then None
    else
      var r := SearchFrom(s, i + 1);
      assert r.Some? ==> forall j :: i <= j < r.value.0 ==> MatchAt(s, j).None? by {
        if r.Some? {
          forall j | i <= j < r.value.0
            ensures MatchAt(s, j).None?
          {
            if j == i {
              assert MatchAt(s, j) == m;
            }
          }
        }
      }
      r
  }

  // ----- the calendar `strptime` and `datetime` enforce -----

  datatype Date = Date(year: nat, month: nat, day: nat)

  predicate IsLeapYear(y: nat) {
    y % 4 == 0 && (y % 100 != 0 || y % 400 == 0)
  }

  function DaysInMonth(y: nat, m: nat): (n: nat)
    requires 1 <= m <= 12
    ensures 28 <= n <= 31
  {
    if m == 2 then (if IsLeapYear(y) then 29 else 28)
    else if m == 4 || m == 6 || m == 9 || m == 11 then 30
    else 31
  }

  /** A date `datetime` accepts: years 1 to 9999, a real month, a day inside it. */
  predicate ValidDate(d: Date) {
    1 <= d.year <= 9999 && 1 <= d.month <= 12 && 1 <= d.day <= DaysInMonth(d.year, d.month)
  }

  datatype FieldOrder = MonthFirst | DayFirst

  /** A `strptime` format of the shape "%m<sep>%d<sep>%Y" or "%d<sep>%m<sep>%Y". */
  datatype Format = Format(order: FieldOrder, sep: char)

  /** The formats tried, in order: "%m/%d/%Y", "%m-%d-%Y", "%d/%m/%Y", "%d-%m-%Y". */
  const Formats: seq<Format> := [Format(MonthFirst, '/'), Format(MonthFirst, '-'), Format(DayFirst, '/'), Format(DayFirst, '-')]

  /** The date a token denotes when its fields are read in `order`. */
  function Reading(t: DateToken, order: FieldOrder): Date
    requires t.WellFormed()
  {
    var a, b, y := DigitsValue(t.first), DigitsValue(t.second), DigitsValue(t.year);
    match order
    case MonthFirst => Date(y, a, b)
    case DayFirst => Date(y, b, a)
  }

  /** The two field orders read the same fields, with month and day swapped. */
  lemma {:induction false} ReadingsSwap(t: DateToken)
    requires t.WellFormed()
    ensures var mf, df := Reading(t, MonthFirst), Reading(t, DayFirst);
      df.year == mf.year && df.month == mf.day && df.day == mf.month
  {
  }

  /**
   * Where `datetime` draws the line: 29 February exists in 2000 but not in
   * 1900 (a century year not divisible by 400), April has no 31st, and there
   * is no year 0.
   */
  lemma {:induction false} CalendarEdges()
    ensures ValidDate(Date(2000, 2, 29)) && !ValidDate(Date(1900, 2, 29))
    ensures ValidDate(Date(2024, 2, 29)) && !ValidDate(Date(2025, 2, 29))
    ensures !ValidDate(Date(2025, 4, 31)) && ValidDate(Date(2025, 12, 31)) && !ValidDate(Date(0, 1, 1))
  {
  }

  /**
   * `datetime.strptime(t.Raw(), f)`. The token already has the searched shape,
   * so the format's literal separators must both equal the token's; `%m`
   * accepts exactly the one- or two-digit fields worth 1 to 12, `%d` those
   * worth 1 to 31, `%Y` the four digits; `datetime` then rejects a year 0
   * and a day past the month's end. All of that is `ValidDate`.
   */
  function Strptime(t: DateToken, f: Format): (d: Option<Date>)
    requires t.WellFormed()
    ensures d.Some? <==> t.sep1 == f.sep && t.sep2 == f.sep && ValidDate(Reading(t, f.order))
    ensures d.Some? ==> d.value == Reading(t, f.order)
  {
    if t.sep1 != f.sep || t.sep2 != f.sep then None
    else
      var d := Reading(t, f.order);
      if ValidDate(d) then Some(d) else None
  }

  /** `fs[k]` is the first format in `fs` that accepts `t`. */
  predicate FirstAccepting(t: DateToken, fs: seq<Format>, k: int)
    requires t.WellFormed()
  {
    0 <= k < |fs| && Strptime(t, fs[k]).Some? && forall j :: 0 <= j < k ==> Strptime(t, fs[j]).None?
  }

  /** The `for fmt in (...): try: ... break` loop: the first format that parses wins. */
  function FirstParse(t: DateToken, fs: seq<Format>): (d: Option<Date>)
    requires t.WellFormed()
    ensures d.None? <==> forall k :: 0 <= k < |fs| ==> Strptime(t, fs[k]).None?
    ensures d.Some? ==> exists k :: FirstAccepting(t, fs, k) && d == Strptime(t, fs[k])
  {
    if fs == [] then None
    else match Strptime(t, fs[0])
      case Some(x) =>
        assert FirstAccepting(t, fs, 0);
        Some(x)
      case None =>
        var d := FirstParse(t, fs[1..]);
        assert forall k :: 0 < k < |fs| ==> fs[k] == fs[1..][k - 1];
        assert d.Some? ==> exists k :: FirstAccepting(t, fs, k) && d == Strptime(t, fs[k]) by {
          if d.Some? {
            var k :| FirstAccepting(t, fs[1..], k) && d == Strptime(t, fs[1..][k]);
            assert FirstAccepting(t, fs, k + 1);
          }
        }
        d
  }

  /** The f-string "{dt.year}년 {dt.month}월 {dt.day}일": plain decimal numbers, no zero padding. */
  function KoreanDate(d: Date): string {
    Marked(NatToString(d.year), '\U{B144}',
      " " + Marked(NatToString(d.month), '\U{C6D4}',
        " " + Marked(NatToString(d.day), '\U{C77C}', "")))
  }

  /** The rendering spelled out: year, "년 ", month, "월 ", day, "일". */
  lemma {:induction false} KoreanSpelled(d: Date)
    ensures KoreanDate(d) == NatToString(d.year) + "\U{B144} " + NatToString(d.month) + "\U{C6D4} "
      + NatToString(d.day) + "\U{C77C}"
  {
    var y, m, n := NatToString(d.year), NatToString(d.month), NatToString(d.day);
    assert Marked(n, '\U{C77C}', "") == n + "\U{C77C}";
    assert Marked(m, '\U{C6D4}', " " + (n + "\U{C77C}")) == m + "\U{C6D4} " + n + "\U{C77C}";
    assert Marked(y, '\U{B144}', " " + (m + "\U{C6D4} " + n + "\U{C77C}"))
      == y + "\U{B144} " + m + "\U{C6D4} " + n + "\U{C77C}";
  }

  /** `digits` followed by the unit mark `mark` and then `rest`. */
  function Marked(digits: string, mark: char, rest: string): string {
    digits + ([mark] + rest)
  }

  /** Two runs of digits each followed by the same non-digit mark split the same way. */
  lemma {:induction false} DigitsBeforeMark(a: string, x: string, b: string, y: string, c: char)
    requires AllDigits(a) && AllDigits(b) && !IsDigit(c)
    requires a + ([c] + x) == b + ([c] + y)
    ensures a == b && x == y
  {
    var s := a + ([c] + x);
    MarkFollowsDigits(a, x, b, y, c);
    MarkFollowsDigits(b, y, a, x, c);
    assert a == s[..|a|] == b;
    assert x == s[|a| + 1..] == y;
  }

  lemma {:induction false} MarkFollowsDigits(a: string, x: string, b: string, y: string, c: char)
    requires AllDigits(b) && !IsDigit(c)
    requires a + ([c] + x) == b + ([c] + y)
    ensures |a| >= |b|
  {
    MarkAt(a, x, c);
  }

  lemma {:induction false} MarkAt(a: string, x: string, c: char)
    ensures (a + ([c] + x))[|a|] == c
  {
  }

  lemma {:induction false} NatToStringInjective(m: nat, n: nat)
    requires NatToString(m) == NatToString(n)
    ensures m == n
  {
  }

  /** The Korean rendering loses nothing: different dates never render alike. */
  lemma {:induction false} KoreanDateInjective(d1: Date, d2: Date)
    requires KoreanDate(d1) == KoreanDate(d2)
    ensures d1 == d2
  {
    var day1 := Marked(NatToString(d1.day), '\U{C77C}', "");
    var day2 := Marked(NatToString(d2.day), '\U{C77C}', "");
    var month1 := Marked(NatToString(d1.month), '\U{C6D4}', " " + day1);
    var month2 := Marked(NatToString(d2.month), '\U{C6D4}', " " + day2);
    DigitsBeforeMark(NatToString(d1.year), " " + month1, NatToString(d2.year), " " + month2, '\U{B144}');
    assert month1 == (" " + month1)[1..] == (" " + month2)[1..] == month2;
    DigitsBeforeMark(NatToString(d1.month), " " + day1, NatToString(d2.month), " " + day2, '\U{C6D4}');
    assert day1 == (" " + day1)[1..] == (" " + day2)[1..] == day2;
    DigitsBeforeMark(NatToString(d1.day), "", NatToString(d2.day), "", '\U{C77C}');
    NatToStringInjective(d1.year, d2.year);
    NatToStringInjective(d1.month, d2.month);
    NatToStringInjective(d1.day, d2.day);
  }

  /**
   * The normalized rendering of a token, when one of the formats parses it:
   * there is none exactly when the separators differ or neither reading is a
   * date; otherwise the month/day reading wins whenever it is a date.
   */
  function Normalize(t: DateToken): (n: Option<string>)
    requires t.WellFormed()
    ensures n.None? <==> t.sep1 != t.sep2 || (!ValidDate(Reading(t, MonthFirst)) && !ValidDate(Reading(t, DayFirst)))
    ensures n.Some? && ValidDate(Reading(t, MonthFirst)) ==> n == Some(KoreanDate(Reading(t, MonthFirst)))
    ensures n.Some? && !ValidDate(Reading(t, MonthFirst)) ==> n == Some(KoreanDate(Reading(t, DayFirst)))
  {
    FormatsInOrder(t);
    match FirstParse(t, Formats)
    case None => None
    case Some(d) => Some(KoreanDate(d))
  }

  /** What the four formats, tried in order, make of a token. */
  lemma {:induction false} FormatsInOrder(t: DateToken)
    requires t.WellFormed()
    ensures var mf, df := Reading(t, MonthFirst), Reading(t, DayFirst);
      && (FirstParse(t, Formats).None? <==> t.sep1 != t.sep2 || (!ValidDate(mf) && !ValidDate(df)))
      && (t.sep1 == t.sep2 && ValidDate(mf) ==> FirstParse(t, Formats) == Some(mf))
      && (t.sep1 == t.sep2 && !ValidDate(mf) && ValidDate(df) ==> FirstParse(t, Formats) == Some(df))
  {
    assert Formats[1..] == [Formats[1], Formats[2], Formats[3]];
    assert Formats[1..][1..] == [Formats[2], Formats[3]];
    assert Formats[1..][1..][1..] == [Formats[3]];
    assert Formats[1..][1..][1..][1..] == [];
  }

  /** The pair `(raw, korean)` that `extract_invoice_date` returns; `None` where Python returns `None`. */
  datatype DateResult = DateResult(raw: Option<string>, korean: Option<string>)

  /** The pattern matches at `i`, capturing `t`, and at no earlier index. */
  predicate LeftmostMatch(text: string, i: nat, t: DateToken) {
    i <= |text| && MatchAt(text, i) == Some(t) && forall j :: 0 <= j < i ==> MatchAt(text, j).None?
  }

  function ExtractInvoiceDate(text: string): (r: DateResult)
    ensures r.raw.None? <==> forall i :: 0 <= i <= |text| ==> MatchAt(text, i).None?
    ensures r.raw.None? ==> r.korean.None?
    ensures r.raw.Some? ==> exists i, t ::
      LeftmostMatch(text, i, t) && t.WellFormed() && r.raw.value == t.Raw() && r.korean == Normalize(t)
  {
    match SearchFrom(text, 0)
    case None => DateResult(None, None)
    case Some((i, t)) =>
      assert LeftmostMatch(text, i, t);
      DateResult(Some(t.Raw()), Normalize(t))
  }

  // ----- what the format order decides -----

  /** The first field cannot be a month but the second can: the day/month reading is used. */
  lemma {:induction false} DayFirstFallback(t: DateToken)
    requires t.WellFormed() && t.sep1 == t.sep2
    requires DigitsValue(t.first) > 12
    requires ValidDate(Reading(t, DayFirst))
    ensures Normalize(t) == Some(KoreanDate(Reading(t, DayFirst)))
  {
    assert Formats[1..] == [Formats[1], Formats[2], Formats[3]];
    assert Formats[1..][1..] == [Formats[2], Formats[3]];
    assert Formats[1..][1..][1..] == [Formats[3]];
    assert Strptime(t, Formats[0]).None? && Strptime(t, Formats[1]).None?;
  }

  /** "03/04/2025" is read month first: 4 March 2025. */
  lemma {:induction false} SampleMonthFirst(t: DateToken)
    requires t == DateToken("03", '/', "04", '/', "2025")
    ensures Normalize(t) == Some(KoreanDate(Date(2025, 3, 4)))
  {
    SampleReading(t, 3, 4, 20, 25);
  }

  /** 4 March 2025 is written "2025년 3월 4일", without zero padding. */
  lemma {:induction false} SampleMonthFirstText()
    ensures KoreanDate(Date(2025, 3, 4)) == "2025\U{B144} 3\U{C6D4} 4\U{C77C}"
  {
    KoreanSpelled(Date(2025, 3, 4));
    SampleYear();
    SampleSmall(3);
    SampleSmall(4);
    assert "2025" + "\U{B144} " + "3" + "\U{C6D4} " + "4" + "\U{C77C}" == "2025\U{B144} 3\U{C6D4} 4\U{C77C}";
  }

  /** "19-11-2025" has no month 19, so the day-first format reads it: 19 November 2025. */
  lemma {:induction false} SampleDayFirst(t: DateToken)
    requires t == DateToken("19", '-', "11", '-', "2025")
    ensures Normalize(t) == Some(KoreanDate(Date(2025, 11, 19)))
  {
    SampleReading(t, 19, 11, 20, 25);
    DayFirstFallback(t);
  }

  /** 19 November 2025 is written "2025년 11월 19일". */
  lemma {:induction false} SampleDayFirstText()
    ensures KoreanDate(Date(2025, 11, 19)) == "2025\U{B144} 11\U{C6D4} 19\U{C77C}"
  {
    KoreanSpelled(Date(2025, 11, 19));
    SampleYear();
    SampleTwo(11);
    SampleTwo(19);
    assert "2025" + "\U{B144} " + "11" + "\U{C6D4} " + "19" + "\U{C77C}" == "2025\U{B144} 11\U{C6D4} 19\U{C77C}";
  }

  /** "13/13/2025" is no date either way round: only the raw text is returned. */
  lemma {:induction false} SampleNoDate(t: DateToken)
    requires t == DateToken("13", '/', "13", '/', "2025")
    ensures Normalize(t).None?
  {
    SampleReading(t, 13, 13, 20, 25);
  }

  /** A token of two-digit fields `a` and `b` and the year `hi` `lo`, read both ways. */
  lemma {:induction false} SampleReading(t: DateToken, a: nat, b: nat, hi: nat, lo: nat)
    requires a < 100 && t.first == [DigitChar(a / 10), DigitChar(a % 10)]
    requires b < 100 && t.second == [DigitChar(b / 10), DigitChar(b % 10)]
    requires hi < 100 && lo < 100
    requires t.year == [DigitChar(hi / 10), DigitChar(hi % 10), DigitChar(lo / 10), DigitChar(lo % 10)]
    requires IsDateSep(t.sep1) && IsDateSep(t.sep2)
    ensures t.WellFormed()
    ensures Reading(t, MonthFirst) == Date(hi * 100 + lo, a, b)
    ensures Reading(t, DayFirst) == Date(hi * 100 + lo, b, a)
  {
    TwoDigits(t.first, a);
    TwoDigits(t.second, b);
    FourDigits(t.year, hi, lo);
  }

  lemma {:induction false} TwoDigits(s: string, n: nat)
    requires n < 100 && s == [DigitChar(n / 10), DigitChar(n % 10)]
    ensures AllDigits(s) && DigitsValue(s) == n
  {
    assert s[..1] == [s[0]] && s[..1][..0] == [];
  }

  lemma {:induction false} FourDigits(s: string, hi: nat, lo: nat)
    requires hi < 100 && lo < 100
    requires s == [DigitChar(hi / 10), DigitChar(hi % 10), DigitChar(lo / 10), DigitChar(lo % 10)]
    ensures AllDigits(s) && DigitsValue(s) == hi * 100 + lo
  {
    assert s[..2] == [s[0], s[1]];
    TwoDigits(s[..2], hi);
    assert s[..3] == s[..2] + [s[2]] && s[..3][..2] == s[..2];
    assert DigitsValue(s[..3]) == hi * 10 + lo / 10;
  }

  lemma {:induction false} SampleYear()
    ensures NatToString(2025) == "2025"
  {
    assert NatToString(2) == "2";
    assert NatToString(20) == "20";
    assert NatToString(202) == "202";
  }

  lemma {:induction false} SampleSmall(n: nat)
    requires n < 10
    ensures NatToString(n) == [DigitChar(n)]
  {
  }

  lemma {:induction false} SampleTwo(n: nat)
    requires 10 <= n < 20
    ensures NatToString(n) == ['1', DigitChar(n % 10)]
  {
    assert NatToString(n / 10) == "1";
  }
}

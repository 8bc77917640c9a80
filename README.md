# Invoice Genie extraction core, in Dafny

This project models the decision logic of Invoice Genie's `app.py`. The program reads the text of a
supplier invoice and does four things:

- **Vendor detection** (`detect_vendor`) upper-cases the text and picks "PARAGON" when it mentions
  CRT or PARAGON. Otherwise it picks "PHYSIOL" when it mentions PHYSIOL or PODEYE, and otherwise
  "UNKNOWN". Module `Vendor`.
- **Purchase-order references** (`extract_po_numbers`) collects every non-overlapping match of
  `PO\d{6,20}`. It then drops duplicates and sorts the rest in Python's code-point (textual) order.
  Module `PurchaseOrders`.
- **Invoice date** (`extract_invoice_date`) finds the leftmost `Invoice\s+Date[:\s]+` label
  (case-insensitively) that is followed by a `\d{1,2}[/-]\d{1,2}[/-]\d{4}` token. It reads the token
  with the formats `%m/%d/%Y`, `%m-%d-%Y`, `%d/%m/%Y` and `%d-%m-%Y`, in that order. The first format
  that accepts the token is rendered in the Korean long form "YYYY년 M월 D일". The raw token is
  returned even when no format accepts it. Module `InvoiceDate`.
- **Paragon line items** (`parse_paragon`) walks the text line by line and keeps a line only when:
  - its upper-cased form contains both "CRT" and "100";
  - it starts with a number (`\s*\d+(?:\.\d+)?`);
  - it holds at least one amount (`[\d,]+\.\d+`).

  The leading number is the line's quantity. The last amount, with its commas dropped, is the
  line's amount. Each line goes to the "CRT 100 DA" bucket when it mentions "DA" and to "CRT 100"
  otherwise. The method then emits one row per non-empty bucket, "CRT 100" first. A whole quantity
  is shown as an integer. It finally totals the rows with Python's `sum`. Module `Paragon`.

The shared Python string behaviour lives in module `Text`:

- `str.upper` and substring `in`;
- the `\s` and `\d` classes;
- `str.splitlines`;
- decimal digit strings and their values;
- `float()` of a decimal literal.

`Wrappers` holds the `Option` type.

`parse_paragon` updates a dictionary in a loop, so it is modelled as the method
`Paragon.ParseParagon`. The method has two loops: `Paragon.Accumulate` fills the per-bucket
accumulator and `Paragon.BuildRows` builds the rows. Each loop is proved against specification
functions:

- `Items` lists the line items that the kept lines produce;
- `QtySum`, `AmountSum` and `HasBucket` say what each bucket holds;
- `RowsFor` gives the rows in display order;
- `SumQty` and `SumAmount` give the totals.

The other three operations are expressions over the text and are modelled as functions.

Numbers are modelled as follows:

- Python floats are exact `real`s. Python's `int | float` distinction matters for what is shown (a
  whole quantity becomes an `int`, and `sum` of `int`s stays an `int`), so it is kept in the
  datatype `Num`.
- Python `str` ordering is the lexicographic order `Below` on code points.
- `datetime.strptime` on a token of the captured shape accepts exactly when:
  - both separators are the format's separator;
  - the two fields, read in the format's order, give a real calendar date (month 1 to 12, day within
    the month and Gregorian leap years, year 1 to 9999).

## Model

| member | source | states |
|---|---|---|
| Vendor.DetectVendor | app.py:67-73 | The result is Paragon exactly when the upper-cased text contains CRT or PARAGON. It is Physiol exactly when neither appears and PHYSIOL or PODEYE does. It is Unknown exactly when none of the four appears. |
| Vendor.CaseBlind | app.py:68 | Upper-casing the text first does not change the detected vendor. |
| Vendor.ParagonWinsOverPhysiol | app.py:69-72 | A text that contains "Paragon" as written and PHYSIOL in any case is classified as Paragon (precedence). |
| Vendor.EmptyTextIsUnknown | app.py:73 | The empty text is classified as Unknown. |
| PurchaseOrders.MatchAt | app.py:59 | At index i the result is Some(e) exactly when `PO\d{6,20}` matches from i to e: "PO", 6 to 20 digits, greedily. |
| PurchaseOrders.SpanIsReference | app.py:59 | The text of every match span is a reference: "PO" followed by 6 to 20 digits. |
| PurchaseOrders.FindAllFrom | app.py:59 | Every string the left-to-right scan from i reports is a reference, and every match of the pattern at an index from i on is reported. |
| PurchaseOrders.FindAllFromEmpty | app.py:59 | The scan from i reports nothing exactly when the pattern matches at no index from i on. |
| PurchaseOrders.FindAllFromSound | app.py:59 | Every reported string is the match at some position at or after the scan's start. |
| PurchaseOrders.NoMatchInside | app.py:59 | No match starts strictly inside another match, so the non-overlapping scan skips no match. |
| PurchaseOrders.BelowAsymmetric | app.py:61 | Textual string order is asymmetric. |
| PurchaseOrders.BelowTotal | app.py:61 | Any two different strings are ordered one way or the other. |
| PurchaseOrders.BelowTransitive | app.py:61 | Textual string order is transitive. |
| PurchaseOrders.TextualNotNumericOrder | app.py:61 | The order is textual, not numeric: "PO1000000" sorts before "PO200000". |
| PurchaseOrders.Insert | app.py:61 | Adding to a strictly ascending list keeps it strictly ascending. The elements become the old ones plus the new one. |
| PurchaseOrders.SortedSet | app.py:61 | `sorted(set(xs))` is strictly ascending and holds exactly the elements of xs. |
| PurchaseOrders.AscendingIsDeterminedByElements | app.py:61 | Two strictly ascending lists with the same elements are equal, so the sorted set is unique. |
| PurchaseOrders.ElementsOfTail | app.py:61 | In a strictly ascending list, the tail holds every element except the head. |
| PurchaseOrders.ExtractPoNumbers | app.py:58-61 | The result is strictly ascending. It holds exactly the strings `findall` reports, and each is a reference. |
| PurchaseOrders.NoReferencesIffNoMatch | app.py:58-61 | The result is empty exactly when the pattern matches nowhere in the text. |
| PurchaseOrders.ReferencesOccurInText | app.py:58-61 | Every listed reference stands in the text at a position where the pattern matches. |
| PurchaseOrders.ReferencesAreMatches | app.py:58-61 | A string is listed exactly when the pattern matches it at some position of the text. |
| PurchaseOrders.RepeatedReferenceListedOnce | app.py:58-61 | A text whose matches are all one reference, however often repeated, yields exactly that reference once. |
| InvoiceDate.FieldEnds | app.py:29 | When it finds separators d1 and d2 at b, the shape `\d{1,2}[/-]\d{1,2}[/-]\d{4}` stands there with those separators. |
| InvoiceDate.FieldEndsIs | app.py:29 | Wherever that shape stands with separators d1 and d2, FieldEnds finds exactly them. |
| InvoiceDate.TokenAt | app.py:29 | A token found at b is well formed and is spelled out in the text at b. |
| InvoiceDate.TokenAtComplete | app.py:29 | Every well-formed token spelled out at b is the one TokenAt finds there. |
| InvoiceDate.RawInText | app.py:29 | The text between the first field and the year is the raw token built from its pieces. |
| InvoiceDate.TokenPieces | app.py:29 | A well-formed token spelled out at b puts its separators and fields at the expected offsets. |
| InvoiceDate.RawPieces | app.py:29 | The raw token is made of first field, separator, second field, separator, year, at fixed offsets. |
| InvoiceDate.DigitRunOf | app.py:29 | A greedy digit run that stops at a date separator ends exactly there. |
| InvoiceDate.LabelEnd | app.py:29 | When it returns Some((a, b)), then "invoice", whitespace, "date" at a, and `[:\s]+` up to b stand at i, case-insensitively. |
| InvoiceDate.LabelEndIs | app.py:29 | Every such label followed by a digit is found, with the same a and b. |
| InvoiceDate.MatchAt | app.py:28-32 | A match at i is a label followed by a well-formed token spelled out in the text. |
| InvoiceDate.MatchAtComplete | app.py:28-32 | Every label at i followed by a well-formed token gives exactly that token. |
| InvoiceDate.SearchFrom | app.py:28-32 | `re.search` finds the leftmost index at which the pattern matches, and nothing when there is none. |
| InvoiceDate.DaysInMonth | app.py:41 | A month has between 28 and 31 days. |
| InvoiceDate.Strptime | app.py:41 | A format accepts the token exactly when both separators are the format's and its reading is a valid date. The date it gives is that reading. |
| InvoiceDate.FirstParse | app.py:39-45 | The loop yields nothing exactly when every format rejects. Otherwise it yields the date from the first format that accepts. |
| InvoiceDate.FormatsInOrder | app.py:39-45 | With the four formats in order, nothing parses exactly when the separators differ or neither reading is a valid date. Otherwise the month/day reading wins when it is valid, and the day/month reading is used when only it is. |
| InvoiceDate.Normalize | app.py:38-50 | No Korean date is produced exactly when the separators differ or neither reading is a valid date. A valid month/day reading is the one rendered; otherwise the day/month reading is. |
| InvoiceDate.ReadingsSwap | app.py:39-41 | The day/month reading has the month/day reading's year, with month and day swapped. |
| InvoiceDate.CalendarEdges | app.py:41 | 29 February is valid in 2000 and 2024 but not in 1900 or 2025. 31 April is invalid, 31 December is valid, and year 0 is invalid. |
| InvoiceDate.DayFirstFallback | app.py:39-50 | When the first field exceeds 12 and the day/month reading is valid, that reading is rendered. |
| InvoiceDate.KoreanSpelled | app.py:50 | The Korean form is year, "년 ", month, "월 ", day, "일", in unpadded decimal. |
| InvoiceDate.DigitsBeforeMark | app.py:50 | Two digit runs followed by the same non-digit mark in equal strings are equal, and so are the rests. |
| InvoiceDate.MarkFollowsDigits | app.py:50 | A non-digit mark cannot fall inside a digit run. |
| InvoiceDate.NatToStringInjective | app.py:50 | Different numbers have different decimal spellings. |
| InvoiceDate.KoreanDateInjective | app.py:50 | Different dates have different Korean renderings. |
| InvoiceDate.ExtractInvoiceDate | app.py:27-51 | The raw token is absent exactly when the pattern matches nowhere, and then the Korean date is absent too. Otherwise the raw token is that of the leftmost match, and the Korean date is the one its first accepting format gives. |
| InvoiceDate.SampleMonthFirst | app.py:36-50 | "03/04/2025" is read month first, as 4 March 2025. |
| InvoiceDate.SampleMonthFirstText | app.py:50 | 4 March 2025 is rendered "2025년 3월 4일". |
| InvoiceDate.SampleDayFirst | app.py:36-50 | "19-11-2025" has no month 19, so it is read day first, as 19 November 2025. |
| InvoiceDate.SampleDayFirstText | app.py:50 | 19 November 2025 is rendered "2025년 11월 19일". |
| InvoiceDate.SampleNoDate | app.py:36-48 | "13/13/2025" is no date in either order, so only the raw token is returned. |
| InvoiceDate.SampleReading | app.py:41 | Two-digit fields and a four-digit year give the expected month/day and day/month readings. |
| InvoiceDate.TwoDigits | app.py:41 | A two-digit field has the value its digits spell. |
| InvoiceDate.FourDigits | app.py:41 | A four-digit year has the value its digits spell. |
| InvoiceDate.SampleYear | app.py:50 | 2025 is spelled "2025". |
| InvoiceDate.SampleSmall | app.py:50 | A month or day below 10 is spelled with one digit, without zero padding. |
| InvoiceDate.SampleTwo | app.py:50 | A number from 10 to 19 is spelled "1" followed by its last digit. |
| Text.Upper | app.py:68 | Upper-casing keeps the length and upper-cases each character. |
| Text.ContainsIffOccurs | app.py:69 | Python's `sub in s` holds exactly when sub occurs at some index. |
| Text.NotMentioned | app.py:69 | A word whose first letter the upper-cased text never shows is not mentioned. |
| Text.UpperKeepsOccurrence | app.py:68-69 | An occurrence in the text is still an occurrence, upper-cased, in the upper-cased text. |
| Text.RunEnd | app.py:96 | A greedy run of a character class ends at the first character outside it, or at the end of the text. |
| Text.RunEndIs | app.py:96 | Any such end is the one RunEnd computes. |
| Text.SplitLinesCuts | app.py:88 | `splitlines` cuts the text at boundaries: every line is free of boundaries, each is followed by one boundary ("\r\n" counted as one, never split), only a non-empty last line may lack one, and lines and boundaries put back together give the text. |
| Text.SplitLinesUnique | app.py:88 | Any such cut of the text is the one `splitlines` returns. |
| Text.SplitTwoLines | app.py:88 | Two lines joined by "\n", the second non-empty, split back into exactly those two lines. |
| Text.SplitLinesLosesOnlyBreaks | app.py:88 | Joining the lines gives back the text with only its line boundaries removed. |
| Text.SplitLinesStep | app.py:88 | Peeling off the first line, with "\r\n" as one boundary, keeps that property. |
| Text.DropBreaksAppend | app.py:88 | Removing boundaries distributes over concatenation. |
| Text.DropBreaksOfLine | app.py:88 | A line has no boundaries to remove. |
| Text.DropBreaksOfBreaks | app.py:88 | A run of boundaries disappears entirely. |
| Text.DropBreaksOfLineThenBreak | app.py:88 | A line, boundaries, then the rest: only the line survives ahead of the rest. |
| Text.ConcatCons | app.py:88 | Joining a line in front of lines puts its text in front. |
| Text.DigitChar | app.py:50 | The digit character for d has value d. |
| Text.DigitsValue | app.py:99 | A string of n digits has a value below 10^n. |
| Text.NatToString | app.py:50 | The decimal spelling of n is non-empty digits whose value is n, with no leading zero. |
| Text.DecimalValue | app.py:99-105 | `float("w.f")` lies in [w, w+1). It is exactly w when there is no fraction or the fraction is zero. |
| Paragon.LeadingNumber | app.py:96-98 | `re.match(r"\s*(\d+(?:\.\d+)?)")` succeeds exactly when the line starts, after whitespace, with a digit. |
| Paragon.LeadingWholeNumber | app.py:96-99 | A leading digit run with no fraction after it gives its whole value. |
| Paragon.LeadingDecimalNumber | app.py:96-99 | A leading digits '.' digits gives `float` of that literal. |
| Paragon.DropCommas | app.py:105 | `replace(",", "")` leaves no comma. Digits and commas become all digits. A string without commas is unchanged. |
| Paragon.DropCommasAppend | app.py:105 | Dropping commas from a concatenation drops them from each part. |
| Paragon.DropCommasOne | app.py:105 | On one character, a comma is removed and any other character is kept. |
| Paragon.AmountToken.Value | app.py:105 | `float()` of an amount without commas lies in [w, w+1) for its whole part w, and is w when its fraction is all zeros. |
| Paragon.AmountMatchAt | app.py:102 | At i, `[\d,]+\.\d+` either matches (greedily) with the '.' at r and end e, or cannot match at all. |
| Paragon.AmountMatchAtIs | app.py:102 | Every such match is the one AmountMatchAt reports. |
| Paragon.TokenOf | app.py:102 | The matched text splits into a well-formed whole part and fraction. |
| Paragon.AmountsFrom | app.py:102 | Every token `findall` reports is well formed. |
| Paragon.AmountsFromEmpty | app.py:102-104 | The amount scan from i finds nothing exactly when the pattern matches at no index from i on. |
| Paragon.FinalMatchMeans | app.py:102-105 | A match is the final one exactly when the pattern matches nowhere from its end on. |
| Paragon.AmountsFromLast | app.py:105 | `numbers[-1]` is the token of a final match that the scan visits. |
| Paragon.LastMatchOf | app.py:105 | The last token of the scan from i is the token of a final match that the scan from i visits, and the lemma names that match. |
| Paragon.LastMatchPast | app.py:105 | The same, for a scan that matches at its start. |
| Paragon.MatchStopsAtBarrier | app.py:102 | An amount match cannot run across a character that is neither digit, comma nor '.'. |
| Paragon.ScanReaches | app.py:102 | A scan from i reaches every index just past such a barrier, and it produces a prefix, then the scan from there. |
| Paragon.ScanReachesPast | app.py:102 | The same, for a scan that matches at its start. |
| Paragon.ScanMatch | app.py:102 | A match at i contributes its token, and the scan resumes at its end (no overlap). |
| Paragon.ScanMiss | app.py:102 | No match at i: the scan resumes at i+1. |
| Paragon.LastAmount | app.py:102-105 | There is no amount exactly when the pattern matches nowhere in the line. Otherwise the amount is the token of a final match that the scan visits. |
| Paragon.LastAmountIs | app.py:102-105 | A final match that starts the line or follows a barrier is the amount taken. |
| Paragon.VisitsScan | app.py:102 | A scan from i that visits k reports some tokens, then exactly what the scan from k reports. |
| Paragon.LastAmountOf | app.py:102-105 | Every final match that the scan visits is the amount taken. |
| Paragon.SampleAmountAfterDigit | app.py:102-105 | In "1.2,34.5" the amount taken is ",34.5": the scan resumes after "1.2", and the untried matches "2,34.5" and "4.5" are not the amount. |
| Paragon.ParseLine | app.py:88-111 | A line yields an item exactly when it mentions CRT and 100, starts with a number and holds an amount. The bucket is DA exactly when it mentions DA. The quantity is its leading number and the amount is its last amount's value. |
| Paragon.ParseLineOf | app.py:88-114 | Given the leading number and the last amount, the line yields exactly that item. |
| Paragon.StandardMentionsDa | app.py:108-111 | A line containing "STANDARD" mentions "DA", so it goes to the DA bucket. |
| Paragon.Parsed | app.py:88 | There is one parse result per line, each the parse of that line. |
| Paragon.HasBucket | app.py:119 | A bucket is present exactly when some item was added to it. |
| Paragon.TallyOf | app.py:113-114 | A tallied accumulator holds each bucket's sums. |
| Paragon.AddItem | app.py:113-114 | Adding an item raises its bucket's sums by its quantity and amount, and marks the bucket present. |
| Paragon.TallyAdd | app.py:85-114 | `defaultdict` plus `+=` keeps the accumulator equal to the per-bucket sums. |
| Paragon.EmptyBucket | app.py:85 | A bucket nothing was added to sums to zero. |
| Paragon.Add | app.py:130-131 | Python `+` on int or float gives the sum. The result is an int exactly when both operands are. |
| Paragon.Display | app.py:122-123 | The shown quantity has the same value, and is an int exactly when the quantity is whole. |
| Paragon.RowsFor | app.py:117-128 | There is at most one row per key in the display order. |
| Paragon.RowsStep | app.py:118-128 | Each key adds its row when its bucket is present. |
| Paragon.SumQty | app.py:130 | The total quantity is an int exactly when every row's quantity is. |
| Paragon.SumAmount | app.py:131 | The total amount is an int exactly when there are no rows, since it starts from `0` and amounts are floats. |
| Paragon.ParseParagon | app.py:81-138 | The vendor is "Paragon". The rows are those of the items the kept lines produce, in display order. The totals are the sums of the rows. |
| Paragon.Accumulate | app.py:85-114 | The loop leaves, per bucket, the sum of quantities and amounts of the kept lines, and records which buckets were touched. |
| Paragon.BuildRows | app.py:116-128 | The rows are the present buckets, "CRT 100" first, with quantity shown per the display rule. |
| Paragon.RowsSpelledOut | app.py:117-128 | The rows are the "CRT 100" row if present, then the "CRT 100 DA" row if present. |
| Paragon.RowsInDisplayOrder | app.py:117-128 | There are at most two rows, named "CRT 100" or "CRT 100 DA", base first. |
| Paragon.RowForBucket | app.py:117-128 | A bucket has a row exactly when some item went to it. That row's quantity and amount are the bucket's sums, and the quantity is an int exactly when it is whole. |
| Paragon.BucketFromLines | app.py:88-114 | A bucket is present exactly when some line's parse put an item into it. |
| Paragon.AddAll | app.py:113-114 | Appending at most one item makes a bucket present exactly when it was already present or the item is in it. |
| Paragon.BucketsPartition | app.py:108-111 | Every item goes to exactly one of the two buckets: their sums add up to the sums over all items. |
| Paragon.TotalsCoverAllItems | app.py:130-131 | The totals equal the quantity and amount summed over every kept line. |
| Paragon.NothingKept | app.py:116-138 | There are no rows exactly when no line was kept. Then both totals are the int 0. |
| Paragon.QuantityDisplay | app.py:122-123 | A quantity of 12.0 is shown as the int 12, and 12.5 stays 12.5. |
| Paragon.BaseSampleWords | app.py:89-111 | "2.00 CRT100 Regular ... 40.00" mentions CRT and 100 but not DA. |
| Paragon.BaseSampleQuantity | app.py:96-99 | Its quantity is 2.0. |
| Paragon.BaseSampleAmount | app.py:102-105 | Its amount is 40.0. |
| Paragon.DaSampleWords | app.py:89-111 | "1.00 CRT 100 DA widget ... 70.00" mentions CRT, 100 and DA. |
| Paragon.DaSampleQuantity | app.py:96-99 | Its quantity is 1.0. |
| Paragon.DaSampleAmount | app.py:102-105 | Its amount is 70.0. |
| Paragon.SampleWord | app.py:89-92 | An upper-case word standing in the line is mentioned. |
| Paragon.SampleQuantity | app.py:96-99 | A line starting "d.00 " has quantity d. |
| Paragon.SampleLastAmount | app.py:102-105 | A line ending " ab.00" has the amount token "ab.00". |
| Paragon.SampleToken | app.py:102 | The match at the end of such a line is the token "ab.00". |
| Paragon.SampleAmount | app.py:105 | The token "ab.00" is well formed and worth 10a+b. |
| Paragon.BaseSampleItem | app.py:88-111 | "2.00 CRT100 Regular ... 40.00" yields the item (CRT 100, 2.0, 40.0). |
| Paragon.DaSampleItem | app.py:88-111 | "1.00 CRT 100 DA widget ... 70.00" yields the item (CRT 100 DA, 1.0, 70.0). |
| Paragon.ItemsOfTwo | app.py:88-114 | Two kept lines give their two items, in order. |
| Paragon.CollectTwo | app.py:88-114 | Two parse results that are both items give those two items, in order. |
| Paragon.SampleItems | app.py:88-114 | The two sample lines joined by "\n" give the items (CRT 100, 2, 40) then (CRT 100 DA, 1, 70). |
| Paragon.SampleInvoice | app.py:81-131 | That two-line text gives rows "CRT 100" 2 40.0 and "CRT 100 DA" 1 70.0, and totals of the int 3 and the float 110.0. |
| Paragon.SampleRows | app.py:116-131 | Items (CRT 100, 2, 40) and (CRT 100 DA, 1, 70) give rows "CRT 100" 2 40.0 and "CRT 100 DA" 1 70.0. The totals are the int 3 and the float 110.0. |

## Left out

- `extract_text` (app.py:12-21) reads PDF pages through PyPDF2. That is file and library I/O, so the model starts from the extracted text.
- The Flask route, `parse_physiol`, temporary files and HTML rendering are outside the extraction core and are not part of this model.
- Python floats are exact reals here. Binary rounding of `float()` and of `+=` is not modelled, so `12.5 + 0.1`-style rounding artefacts do not appear.
- `\d` and `str.upper` are modelled on ASCII only. Python also accepts non-ASCII decimal digits for `\d`, and upper-cases non-ASCII letters. The special IGNORECASE folds of 'ı', 'İ', 'ſ' and the Kelvin sign are not modelled either.
- InvoiceDate.Strptime: it models `datetime.strptime` only on tokens of the captured shape, as separator agreement plus calendar validity. The rest of strptime's format language is not modelled.
- `.strip()` on the captured token (app.py:36) is the identity here: the captured group starts and ends with a digit.
- Paragon.LastAmount: its contract names the amount as the token of a final match that the scan visits, as an existential. The converse, that every final match the scan visits is the one taken, is the separate lemma Paragon.LastAmountOf.
- Paragon.ParseParagon: the accumulator is a local `map` value rather than a `defaultdict` object, and the result dictionary is the datatype `Summary`. Python's dynamic typing of the row entries is reduced to `Num` for quantities and `real` for amounts.
- `[\d,]+\.\d+` (app.py:102) accepts one or more fraction digits, and the model follows it.

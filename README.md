# PDF order → table: a Dafny model of the parsing engine

This project models the parsing engine of `pdf-to-excel_app.py`, a small
Streamlit app. The app turns a PDF purchase order into a table with the
columns Lp, Name, Quantity and Barcode. It works in four steps:

1. **Line builder** (`extract_text_with_pypdf2`). The text of each page is
   split at `"\n"`. Every piece is stripped and kept only if something is
   left. A sanity test decides whether the PyPDF2 lines are used or the
   pdfplumber lines are tried instead.
2. **Layout classifier.** The layout is B when some line matches the greedy
   one-line pattern `^\d+\s+\d{13}\s+.+\s+[\d,]+\s+szt`. Otherwise it is C when
   some line is exactly thirteen digits. Otherwise it is A.
3. **Three parsers.**
   - Layout A: a line carrying the label `Kod kres.:` and a barcode, then the
     Lp line, then name lines up to a line containing "szt".
   - Layout B: one record per line, cut out by the lazy pattern
     `^(\d+)\s+(\d{13})\s+(.+?)\s+([\d,]+)\s+szt`.
   - Layout C: a bare barcode line, then the Lp line, then name lines up to
     the "szt" line. After each record the scan jumps past that line.
4. **Number conversion.** The Lp text goes through `int()`, which raises
   `ValueError` on more than 4300 digits. The captured quantity token loses
   its spaces (A and C), its comma becomes a decimal point, and it goes
   through `float()`. `float()` skips only tab, newline, vertical tab, form
   feed, carriage return and space at the ends of the token, and raises
   `ValueError` on anything else that is not a number.

Each part is modelled in the form the code has:

- The loops are methods with loop invariants: the page/piece loops, the three
  parser loops, and the inner "collect name lines until szt" loop.
- Each method is proved equal to a specification function.
- The properties are proved as lemmas about those functions.

The regular expressions are written out as searches over span positions, in
the order a backtracking engine tries them. They are proved to be:

- the leftmost match for `re.search`;
- for layout B's pattern, the first match in backtracking order: the longest
  whitespace after the barcode, then the shortest name;
- for the detection pattern, the same set of lines as the parser's lazy
  pattern.

Quantities are exact decimals (`Decimal(mantissa, scale)`). A conversion that
would raise returns `Failure(NotAFloat(token))` or `Failure(TooManyDigits(lp))`,
and the failure propagates out of the parser as the exception does.

Modules:

| file | module | what it holds |
|---|---|---|
| outcomes.dfy | Outcomes | `Option` and `Result` |
| text.dfy | Text | ASCII character classes, runs, strip/split/join, substring tests |
| quantity.dfy | Quantity | the decimal type and `float()` on a token |
| records.dfy | Records | the record type, and the two scan shapes: a per-line scan (`Scan`) and a scan that jumps (`Hop`) |
| itemblock.dfy | ItemBlock | the "name lines up to szt" block shared by A and C, and the quantity search |
| linestream.dfy | LineStream | the line builder and the extractor fallback |
| singleline.dfy | SingleLine | the one-line pattern of layout B and its greedy twin |
| layouta.dfy, layoutb.dfy, layoutc.dfy | LayoutA, LayoutB, LayoutC | the three parsers |
| app.dfy | App | the classifier, the dispatch and the script's main flow |

The code does not cut page footers, does not skip repeated table headers,
does not drop incomplete records and does not number positions itself; every
record's barcode comes from its own label line, pattern group or barcode line.
The model does none of these either.

One behaviour of the code, kept in the model, is easy to miss: in layout B a
line such as `1 5029040012366   5 szt` matches with an empty name. The lazy
name group takes a space from the whitespace after the barcode, and
`strip()` then leaves nothing.

## Model

| member | source | states |
|---|---|---|
| Text.Strip | pdf-to-excel_app.py:64 | the result of `strip()` has no whitespace at either end |
| Text.StripKeepsMiddle | pdf-to-excel_app.py:64 | strip removes only whitespace, from both ends, and keeps the middle of the string unchanged |
| Text.StripEmpty | pdf-to-excel_app.py:65 | a stripped piece is empty exactly when the piece is all whitespace, so `if stripped` drops exactly the blank pieces |
| Text.StripLeftSpec | pdf-to-excel_app.py:64 | lstrip removes a leading run of whitespace and keeps a suffix that does not start with whitespace |
| Text.StripRightSpec | pdf-to-excel_app.py:64 | rstrip removes a trailing run of whitespace and keeps a prefix that does not end with whitespace |
| Text.Split | pdf-to-excel_app.py:63 | `split("\n")` gives at least one piece, also for the empty text |
| Text.SplitPieces | pdf-to-excel_app.py:63 | no piece of `split("\n")` contains a newline |
| Text.JoinSplit | pdf-to-excel_app.py:63 | joining the pieces of `split("\n")` with newlines gives back the text |
| Text.SplitAtNewline | pdf-to-excel_app.py:63 | the pieces of `a + "\n" + b` are the pieces of `a` followed by the pieces of `b` |
| Text.Join | pdf-to-excel_app.py:140 | definition of `sep.join(parts)`; its properties are stated by Text.JoinSplit, ItemBlock.JoinTrimmed and ItemBlock.NameIsJoin |
| Text.RemoveSpaces | pdf-to-excel_app.py:133 | definition of `replace(" ", "")`; its property is stated by Quantity.RemoveSpacesCount |
| Text.DigitsValue | pdf-to-excel_app.py:119 | definition of the value `int()` gives a digit string; Quantity.NatDigits and Quantity.IntOfRoundTrip state that it reads back decimal digits |
| Text.ContainsSzt | pdf-to-excel_app.py:129 | definition of `"szt" in line.lower()`: "szt" in any case at some position; SztIndexSpec states where the inner loop finds it |
| Text.Contains | pdf-to-excel_app.py:110 | definition of the case-sensitive substring test for the label; LayoutA.RecordAtWhen states the loop's use of it |
| Text.StartsWithLp | pdf-to-excel_app.py:73 | definition of `line.lower().startswith("lp")`; LineStream.Extracted states the choice it drives |
| Text.IsDigitString | pdf-to-excel_app.py:118 | definition of `isdigit()` on ASCII: non-empty and digits only; LayoutA.RecordAtWhen and LayoutC.OutcomeAt state the parsers' use of it |
| Text.IsBarcodeLine | pdf-to-excel_app.py:188 | definition of `re.fullmatch(r"\d{13}", line)`: exactly thirteen digits; LayoutC.OutcomeAt and App.DetectSpec state its use |
| Text.SpanEndUnique | pdf-to-excel_app.py:158 | a class run that stops at a character outside the class is the longest run, which is what makes the regex groups forced |
| LineStream.BuildLines | pdf-to-excel_app.py:56-66 | definition of the lines the page loop builds; its properties are stated by BuildLinesClean, BuildLinesAppend and PageLinesAtNewline, and CollectLines proves the loop equal to it |
| LineStream.CollectLines | pdf-to-excel_app.py:56-66 | the nested page/piece loops produce exactly `BuildLines(pages)`, the stripped non-empty pieces page by page |
| LineStream.BuildLinesClean | pdf-to-excel_app.py:63-66 | every line built is non-empty and stripped |
| LineStream.BuildLinesAppend | pdf-to-excel_app.py:61-66 | the lines of earlier pages come before the lines of later pages |
| LineStream.PageLinesAtNewline | pdf-to-excel_app.py:63-66 | within a page, the lines above a line break come before the lines below it |
| LineStream.HasEanOrHeader | pdf-to-excel_app.py:72-75 | definition of `has_ean_or_header`: some line is a bare 13-digit line or starts with "lp" in any case; Extracted states the choice it drives |
| LineStream.Extracted | pdf-to-excel_app.py:72-98 | the PyPDF2 lines are chosen when one of them is a bare 13-digit line or starts with "lp"; otherwise the pdfplumber lines if pdfplumber is installed and gave lines; otherwise the PyPDF2 lines. The result is clean, and it is empty only when both sources gave nothing |
| LineStream.ExtractText | pdf-to-excel_app.py:56-98 | the extraction method returns exactly `Extracted(...)` |
| Quantity.FromToken | pdf-to-excel_app.py:134 | definition of `float(token.replace(",", "."))` on the tokens the quantity patterns capture, made of digits, commas and whitespace; which tokens convert is stated by FromTokenSucceeds and SeparatorRejected, and to what value by DigitTokenValue and CommaTokenValue |
| Quantity.FloatBody | pdf-to-excel_app.py:134 | definition of the text `float()` reads: the token without tab, newline, vertical tab, form feed, carriage return and space at its ends; FloatBodyMiddle states its properties |
| Quantity.NumberOf | pdf-to-excel_app.py:134 | definition of the number that body writes, if any; NumberOfDefined states when there is one, and DigitTokenValue and CommaTokenValue state its value |
| Quantity.DigitTokenValue | pdf-to-excel_app.py:134 | a token whose body is a digit run converts to that run's value with no decimal places, whatever float whitespace surrounds it |
| Quantity.CommaTokenValue | pdf-to-excel_app.py:134 | a token whose body is digits, one comma and digits, with a digit on at least one side, converts to the digits on both sides read together with as many decimal places as digits after the comma, whatever float whitespace surrounds it |
| Quantity.EmptyLeftValue | pdf-to-excel_app.py:134 | `",5"` converts to 0.5 |
| Quantity.EmptyRightValue | pdf-to-excel_app.py:134 | `"5,"` converts to 5 |
| Quantity.PaddedTokenValue | pdf-to-excel_app.py:134 | `" 12,5\t"` converts to 12.5 |
| Quantity.WithCommaReads | pdf-to-excel_app.py:134 | digits with a comma placed before the last `scale` of them convert to their value with `scale` decimal places |
| Quantity.FromTokenSucceeds | pdf-to-excel_app.py:134 | for the tokens the patterns capture (digits, commas and whitespace), `float()` succeeds exactly on those that, once tab, newline, vertical tab, form feed, carriage return and space are removed from their ends, are digits with at most one comma and at least one digit |
| Quantity.FloatBodyMiddle | pdf-to-excel_app.py:134 | the text `float()` reads is a slice of the token with only float whitespace before and after it, and it is empty or neither starts nor ends with float whitespace |
| Quantity.SeparatorRejected | pdf-to-excel_app.py:134 | a token holding one of the characters 0x1c to 0x1f anywhere never converts, although `strip()` and `\s` count them as whitespace |
| Quantity.IntOf | pdf-to-excel_app.py:119 | definition of `int()` on a digit line: a `ValueError` on more than 4300 digits, its value otherwise; the same call is made at lines 162 and 192 |
| Quantity.IntOfRoundTrip | pdf-to-excel_app.py:119 | `int()` of the decimal digits of n gives back n whenever they are at most 4300 digits |
| Quantity.NumberOfDefined | pdf-to-excel_app.py:134 | a stripped token has a value exactly when it is well formed |
| Quantity.RemoveSpacesCount | pdf-to-excel_app.py:133 | `replace(" ", "")` keeps the number of characters of every class without the space, and keeps no space |
| Quantity.CleanedTokenConverts | pdf-to-excel_app.py:133-134 | a token of digits, commas and spaces converts, once its spaces are removed, exactly when it has at least one digit and at most one comma |
| Quantity.RenderRoundTrip | pdf-to-excel_app.py:134 | every decimal has a comma token that converts back to exactly that decimal |
| Quantity.PaddedDigits | pdf-to-excel_app.py:134 | the padded digits of a decimal are digits only, longer than its scale, and have the value of its mantissa |
| Quantity.NatDigits | pdf-to-excel_app.py:134 | the decimal digits of n are at least one digit and have the value n |
| Records.YieldedExactly | pdf-to-excel_app.py:159-161 | the yielding positions are exactly those with an outcome, in strictly increasing order |
| Records.ScanRecords | pdf-to-excel_app.py:159-171 | a successful scan appends one record per yielding position, in order, each that position's record |
| Records.ScanFails | pdf-to-excel_app.py:165-169 | the scan fails exactly when some outcome is an error, and then with the first error, since the exception leaves the loop |
| Records.ScanNothing | pdf-to-excel_app.py:157-172 | a scan over positions that all yield nothing returns an empty table |
| Records.VisitedBlocks | pdf-to-excel_app.py:186-222 | every position the jumping scan visits has an outcome, and the next visited position is at or after the jump target |
| Records.VisitedCovers | pdf-to-excel_app.py:186-222 | a position with an outcome is either visited or lies strictly inside a jump from a visited position |
| Records.HopRecords | pdf-to-excel_app.py:213-220 | a successful jumping scan appends one record per visited position, in order |
| Records.HopFails | pdf-to-excel_app.py:203-206 | the jumping scan fails exactly when a visited position holds an error, and then with the first such error |
| ItemBlock.SztIndex | pdf-to-excel_app.py:127-138 | the index where the inner loop stops lies between its start and the end of the list; SztIndexSpec states which line it is |
| ItemBlock.SztIndexSpec | pdf-to-excel_app.py:127-138 | no line before the index found contains "szt" in any case, and the line at that index does |
| ItemBlock.QtySearch | pdf-to-excel_app.py:131 | a match found starts at or after p and its group is the longest run of digits, whitespace and commas there; QtySearchLeftmostLongest states that it is the engine's match |
| ItemBlock.QuantityToken | pdf-to-excel_app.py:131-133 | definition of `m_qty.group(1)` for the first match of the quantity search, if any; QuantityTokenChars and QtySearchLeftmostLongest state its properties |
| ItemBlock.QtyMatchForced | pdf-to-excel_app.py:131 | any match of `([\d\s,]+)\s*szt` starting at p has "szt" exactly where the longest run of digits, whitespace and commas from p ends |
| ItemBlock.QtySearchLeftmostLongest | pdf-to-excel_app.py:131 | the modelled search returns the leftmost match with the longest group, and returns none only when the pattern matches nowhere |
| ItemBlock.QuantityTokenChars | pdf-to-excel_app.py:131-133 | the captured token is non-empty and made of digits, whitespace and commas |
| ItemBlock.Collect | pdf-to-excel_app.py:124-140 | the inner while loop stops at `SztIndex`, and returns the name `ItemName` and the quantity `ItemQuantity` |
| ItemBlock.ItemName | pdf-to-excel_app.py:140 | definition of `" ".join(name_parts).strip()` over the lines before the "szt" line; NameIsJoin and JoinTrimmed state its properties |
| ItemBlock.ItemQuantity | pdf-to-excel_app.py:128-144 | definition of the quantity: 0 without a "szt" line or without a token there, else `float()` of the token without spaces; QuantityCases states the cases |
| ItemBlock.Item | pdf-to-excel_app.py:118-146 | definition of the record built from the Lp line and the lines after it, with `int()` raising before `float()`; LayoutA.RecordAtFields and LayoutC.ProductsPerBlock state its use |
| ItemBlock.JoinTrimmed | pdf-to-excel_app.py:140 | joining stripped non-empty lines with single spaces gives a stripped, non-empty string |
| ItemBlock.NameIsJoin | pdf-to-excel_app.py:140 | for lines from the builder, the name is exactly the single-space join of the lines before the "szt" line, or before the end |
| ItemBlock.QuantityCases | pdf-to-excel_app.py:128-144 | the quantity is 0 when no "szt" line follows or that line has no token before "szt"; otherwise, for a space-separated token, conversion succeeds exactly when it has a digit and at most one comma |
| SingleLine.Match | pdf-to-excel_app.py:158-160 | a reported match satisfies the pattern literally (digits, whitespace, 13 digits, whitespace, a name without newlines, whitespace, digits and commas, whitespace, "szt" in any case) |
| SingleLine.HeadForced | pdf-to-excel_app.py:158 | in every match the Lp run and the whitespace after it are the longest runs, and the whitespace after the barcode lies within its longest run |
| SingleLine.TailForced | pdf-to-excel_app.py:158 | in every match the runs after the name are the longest ones, and the name stays on the line |
| SingleLine.MatchCovers | pdf-to-excel_app.py:158-160 | whenever the line matches in some way, the engine reports a match, and that match comes no later in backtracking order |
| SingleLine.MatchFirst | pdf-to-excel_app.py:158-160 | `pattern.match` succeeds exactly when the line matches, and reports the match with the longest whitespace after the barcode and, for that, the shortest name |
| SingleLine.LazyFrom | pdf-to-excel_app.py:158 | the lazy group ends at the first position from which the rest of the pattern matches |
| SingleLine.FromD | pdf-to-excel_app.py:158 | backtracking into the whitespace after the barcode goes from its longest run downward, and each skipped length admits no name |
| SingleLine.DetectLine | pdf-to-excel_app.py:260-261 | definition of `bool(pattern_b.match(line))` for the greedy pattern; DetectLineIff states that it agrees with the parser's pattern |
| SingleLine.GreedyLazy | pdf-to-excel_app.py:260 | the greedy name group can end somewhere exactly when the lazy one can |
| SingleLine.GreedyDLazy | pdf-to-excel_app.py:260 | the greedy search over the whitespace after the barcode succeeds exactly when the lazy one does |
| SingleLine.DetectLineIff | pdf-to-excel_app.py:158-261 | the classifier's greedy pattern matches a line exactly when the parser's lazy pattern does, and exactly when the line matches in some way |
| LayoutB.Parse | pdf-to-excel_app.py:157-172 | the loop returns exactly `Products(lines)` |
| LayoutB.YieldedMatching | pdf-to-excel_app.py:159-161 | the lines that give a record are exactly the lines the pattern matches, in line order |
| LayoutB.RecordOf | pdf-to-excel_app.py:162-171 | definition of the record of one match, with `int()` of group 1 raising before `float()` of group 4; RecordConverts and RecordFields state its properties |
| LayoutB.LineRecord | pdf-to-excel_app.py:160-171 | definition of one pass of the for loop: nothing when the pattern does not match, otherwise the record of the match; LineRecordSome states when it yields |
| LayoutB.Products | pdf-to-excel_app.py:157-172 | definition of what `parse_layout_b` returns or raises; ProductsPerLine states its properties and Parse proves the loop equal to it |
| LayoutB.ProductsPerLine | pdf-to-excel_app.py:157-171 | one record per matching line, in line order, each that line's record; failure exactly when a matching line's record raises (an Lp of more than 4300 digits, or a quantity that does not convert), with the first such error |
| LayoutB.LineRecordSome | pdf-to-excel_app.py:160-161 | a line gives a record or an error exactly when the pattern matches it |
| LayoutB.OutcomesMatch | pdf-to-excel_app.py:160-161 | the outcome at each index is present exactly when that line matches |
| LayoutB.RecordConverts | pdf-to-excel_app.py:162-169 | a matched line's record is built exactly when group 1 has at most 4300 digits and group 4 has a digit and at most one comma; a longer group 1 is the error reported, since `int()` runs first, and otherwise the error is group 4's |
| LayoutB.RecordFields | pdf-to-excel_app.py:162-164 | Lp is the value of the whole leading digit run, which has at most 4300 digits; the barcode is the 13 digits after the following whitespace and is itself followed by whitespace; the name is stripped |
| LayoutA.BarcodeSearch | pdf-to-excel_app.py:112-115 | `re.search(r"(\d{13})")` finds the leftmost start of thirteen digits, or none when there is none |
| LayoutA.Parse | pdf-to-excel_app.py:108-147 | the for loop with its inner scan returns exactly `Products(lines)` |
| LayoutA.RecordAt | pdf-to-excel_app.py:109-146 | definition of what one pass of the for loop yields at an index; RecordAtWhen and RecordAtFields state its properties |
| LayoutA.Products | pdf-to-excel_app.py:108-147 | definition of what `parse_layout_a` returns or raises; ProductsPerLabel states its properties and Parse proves the loop equal to it |
| LayoutA.RecordAtWhen | pdf-to-excel_app.py:109-122 | an index gives a record or an error exactly when its line holds the label and 13 digits and the next line is all digits; every index is examined, whatever earlier records used as names |
| LayoutA.RecordAtFields | pdf-to-excel_app.py:112-146 | the barcode is the leftmost 13-digit run of the label line; Lp is the value of the next line; the name and quantity come from the lines after it; the error is TooManyDigits of the Lp line when it has more than 4300 digits, since `int()` runs first, and otherwise the quantity's error |
| LayoutA.AtMostOnePerLabel | pdf-to-excel_app.py:109-110 | at most one record per label line, and every yielding index is a label line |
| LayoutA.ProductsPerLabel | pdf-to-excel_app.py:108-147 | one record per yielding index, in index order, never more than the label lines; failure exactly when some record raises, with the first error |
| LayoutC.BlockAt | pdf-to-excel_app.py:188-218 | definition of what the while loop finds at an index; OutcomeAt and OutcomeValue state its properties |
| LayoutC.NextIndex | pdf-to-excel_app.py:186-222 | where the loop goes from each index is a valid jump for the outcomes: forward, and past the block after a record |
| LayoutC.Products | pdf-to-excel_app.py:184-224 | definition of what `parse_layout_c` returns or raises; ProductsPerBlock and FailsAtBlock state its properties and Parse proves the loop equal to it |
| LayoutC.Resume | pdf-to-excel_app.py:200-220 | after a record the scan goes on past its "szt" line, at most one past the end of the list |
| LayoutC.OutcomeAt | pdf-to-excel_app.py:186-222 | an index starts a record exactly when its line is 13 digits and the next line is all digits; otherwise the loop moves to the next line |
| LayoutC.OutcomeValue | pdf-to-excel_app.py:188-218 | an outcome at an index is the record built from the next line as its Lp line and the index's line as its barcode |
| LayoutC.Parse | pdf-to-excel_app.py:184-224 | the while loop, with `idx = j + 1` after a record, returns exactly `Products(lines)` |
| LayoutC.BlocksDisjoint | pdf-to-excel_app.py:188-220 | every record starts at a bare barcode line followed by an all-digit line, and the next record starts after the "szt" line of the previous one |
| LayoutC.BlocksCover | pdf-to-excel_app.py:186-222 | a line where a record could start is skipped only when it lies inside an earlier record's block, no further than that block's "szt" line |
| LayoutC.ProductsPerBlock | pdf-to-excel_app.py:188-218 | one record per block, in order: the barcode is the whole 13-digit line, and the record is built from the Lp line after it and the lines that follow |
| LayoutC.FailsAtBlock | pdf-to-excel_app.py:203-206 | failure exactly when some block's outcome is an error, and then with the first such error |
| App.Detect | pdf-to-excel_app.py:258-266 | definition of `detect_layout`; DetectSpec states it in the parsers' own terms |
| App.DetectSpec | pdf-to-excel_app.py:258-266 | B exactly when some line matches the record pattern; C exactly when none does and some line is a bare 13-digit line; A otherwise |
| App.DetectBFindsRecords | pdf-to-excel_app.py:157-262 | when the classifier picks B, parser B returns at least one record or raises |
| App.OtherLayoutsNotB | pdf-to-excel_app.py:260-266 | when the classifier does not pick B, parser B would return an empty table |
| App.LayoutBNeverEmpty | pdf-to-excel_app.py:268-279 | a document classified as B never ends in the "no items" warning |
| App.Dispatch | pdf-to-excel_app.py:268-274 | definition of the call to the parser the layout names; App.Run and App.LayoutBNeverEmpty state the flow through it |
| App.ReportFor | pdf-to-excel_app.py:268-279 | definition of the outcome of the main flow for given lines; LayoutBNeverEmpty and Run state its properties |
| App.Run | pdf-to-excel_app.py:238-279 | the main flow gives the report for the extracted lines: no text, the parser's error, no items, or the table with its layout |

## Left out

- The Streamlit user interface is not modelled: page setup, messages, the
  uploader, the table display and the download button. The main flow's
  outcome is a `Report` value instead.
- PyPDF2 and pdfplumber are foreign libraries. Each extractor is given by the
  texts of its pages, and a `hasPlumber` flag stands for the import test. An
  extractor that raises is given as no pages. This covers an exception in the
  middle of extraction too, since the code then throws away the lines it had.
- pandas and the Excel writer are not modelled. A table is a sequence of
  records, and an empty DataFrame is the empty sequence.
- The binary representation of `float` is not modelled. Quantities are exact
  decimals, and a record whose quantity defaulted holds the decimal 0, not the
  int 0. A `Decimal` keeps the scale of its token: `"96,00"` gives
  `Decimal(9600, 2)` and `"96"` gives `Decimal(96, 0)`, where `float()`
  gives 96.0 for both, and `Zero` differs from the value of `"0,00"`. Equality
  of records is therefore not numeric equality of their quantities.
- Quantity.FromToken: only tokens of digits, commas and whitespace are
  modelled, the only characters the patterns at lines 131 and 158 capture.
  The other forms `float()` accepts (a decimal point, a sign, an exponent,
  `inf`, `nan`, underscores between digits) give a failure in the model; no
  parser passes such a token.
- Unicode is not modelled: `\d`, `\s`, `isdigit`, `lower`, `strip` and
  `IGNORECASE` are restricted to ASCII. Under Unicode, `isdigit` accepts
  characters that `int()` rejects, and case folding differs.
- Quantity.FromToken: the error carries the token, not the exception's
  message text.
- ItemBlock.QuantityCases: the "converts exactly when" statement is made only
  for tokens whose whitespace is plain spaces. A token that holds a tab or
  another whitespace character is covered by `Quantity.FromTokenSucceeds`
  applied to the token with spaces removed, and one holding 0x1c to 0x1f by
  `Quantity.SeparatorRejected`.
- Quantity.IntOf: the digit limit is fixed at 4300, the default of
  `sys.int_max_str_digits` in CPython 3.11 and later and in the security
  releases of September 2022 (3.10.7, 3.9.14, 3.8.14 and 3.7.14) and later.
  Interpreters without the limit, and other settings of it, are not modelled.
- App.Run: a `ValueError` from a parser is reported as `Crashed`. How
  Streamlit shows an uncaught exception is not modelled.

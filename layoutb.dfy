/** parse_layout_b (pdf-to-excel_app.py lines 150-172): every line that the
    one-line pattern matches is a record of its own. */
module LayoutB {
  import opened Outcomes
  import opened Text
  import opened Quantity
  import opened Records
  import opened SingleLine

  /** The record a match describes: Lp is int() of group 1, the barcode is
      group 2, the name is group 3 stripped, and the quantity is float() of
      group 4 with its comma made a decimal point. int() raises first, on a
      group 1 that is too long; then float() may raise. */
  function RecordOf(s: string, m: Spans): Result<Record, ConversionError>
    requires Shape(s, m)
  {
    match IntOf(s[..m.a])
    case Failure(err) => Failure(err)
    case Success(lp) =>
      match FromToken(s[m.f..m.g])
      case Failure(err) => Failure(err)
      case Success(q) => Success(Record(lp, Strip(s[m.d..m.e]), q, s[m.b..m.c]))
  }

  /** The record of one line: none when the pattern does not match. */
  function LineRecord(s: string): Outcome {
    match Match(s)
    case None => None
    case Some(m) => Some(RecordOf(s, m))
  }

  /** The outcome of every line, in order. */
  function LineOutcomes(lines: seq<string>): (outs: seq<Outcome>)
    ensures |outs| == |lines|
  {
    seq(|lines|, i requires 0 <= i < |lines| => LineRecord(lines[i]))
  }

  /** The DataFrame rows parse_layout_b builds, or the ValueError it raises. */
  function Products(lines: seq<string>): Parsed {
    Scan(LineOutcomes(lines), 0)
  }

  lemma OutcomeAt(lines: seq<string>, i: nat)
    requires i < |lines|
    ensures var m := Match(lines[i]);
      LineOutcomes(lines)[i] == if m.Some? then Some(RecordOf(lines[i], m.value)) else None
  {
  }

  /** The for loop over the lines; a conversion error propagates out of it. */
  method Parse(lines: seq<string>) returns (result: Parsed)
    ensures result == Products(lines)
  {
    ghost var outs := LineOutcomes(lines);
    var products: seq<Record> := [];
    ThenUnits([], Scan(outs, 0));
    for i := 0 to |lines|
      invariant Then(products, Scan(outs, i)) == Scan(outs, 0)
    {
      var m := Match(lines[i]);
      OutcomeAt(lines, i);
      if m.Some? {
        var rec := RecordOf(lines[i], m.value);
        if rec.Failure? {
          return Failure(rec.error);
        }
        ThenThen(products, [rec.value], Scan(outs, i + 1));
        products := products + [rec.value];
      }
    }
    ThenUnits(products, Scan(outs, |lines|));
    return Success(products);
  }

  /** The lines that yield something are exactly the lines the pattern
      matches, taken in line order. */
  lemma YieldedMatching(lines: seq<string>)
    ensures var ys := Yielded(LineOutcomes(lines), 0);
      && (forall i | 0 <= i < |lines| :: i in ys <==> Matches(lines[i]))
      && (forall k, l | 0 <= k < l < |ys| :: ys[k] < ys[l])
  {
    OutcomesMatch(lines);
    YieldedExactly(LineOutcomes(lines), 0);
  }

  /** One record per yielding line, in line order, each the record of its
      line (LineOutcomes(lines)[i] is LineRecord(lines[i])). The parser fails
      exactly when the record of some matching line raises, with the error of
      the first such line. */
  lemma ProductsPerLine(lines: seq<string>)
    ensures var outs, ys := LineOutcomes(lines), Yielded(LineOutcomes(lines), 0);
      Products(lines).Success? ==>
        && |Products(lines).value| == |ys|
        && forall k | 0 <= k < |ys| :: ys[k] < |lines| && outs[ys[k]] == Some(Success(Products(lines).value[k]))
    ensures var outs := LineOutcomes(lines);
      Products(lines).Failure? <==> exists i | 0 <= i < |lines| :: Failed(outs[i])
    ensures var outs := LineOutcomes(lines);
      Products(lines).Failure? ==> exists i | 0 <= i < |lines| ::
        && Failed(outs[i])
        && (forall j | 0 <= j < i :: !Failed(outs[j]))
        && Products(lines).error == outs[i].value.error
  {
    ScanRecords(LineOutcomes(lines), 0);
    ScanFails(LineOutcomes(lines), 0);
  }

  /** A line yields a record, or an error, exactly when the pattern matches it. */
  lemma LineRecordSome(s: string)
    ensures LineRecord(s).Some? <==> Matches(s)
  {
    MatchFirst(s);
  }

  lemma OutcomesMatch(lines: seq<string>)
    ensures forall i | 0 <= i < |lines| :: LineOutcomes(lines)[i].Some? <==> Matches(lines[i])
  {
    forall i | 0 <= i < |lines| ensures LineOutcomes(lines)[i].Some? <==> Matches(lines[i]) {
      LineRecordSome(lines[i]);
    }
  }

  /** A match's record fails exactly when the Lp group has more than
      MaxStrDigits digits, or the quantity group lacks a digit or holds more
      than one comma; an over-long Lp is the error reported. */
  lemma RecordConverts(s: string, m: Spans)
    requires Shape(s, m)
    ensures RecordOf(s, m).Success? <==>
      m.a <= MaxStrDigits && Count(s[m.f..m.g], Digit) >= 1 && Count(s[m.f..m.g], Comma) <= 1
    ensures m.a > MaxStrDigits ==> RecordOf(s, m) == Failure(TooManyDigits(s[..m.a]))
    ensures m.a <= MaxStrDigits && RecordOf(s, m).Failure? ==> RecordOf(s, m) == Failure(NotAFloat(s[m.f..m.g]))
  {
    var t := s[m.f..m.g];
    SliceAll(s, m.f, m.g, DigitOrComma);
    assert FloatBody(t) == t by {
      assert In(t[0], DigitOrComma) && In(t[|t| - 1], DigitOrComma);
    }
    FromTokenSucceeds(t);
  }

  /** A match's record: Lp is the value of the whole leading digit run, the
      barcode is the thirteen digits after the whitespace that follows it and
      is itself followed by whitespace, and the name carries no surrounding
      whitespace. */
  lemma RecordFields(s: string, m: Spans)
    requires Shape(s, m)
    ensures RecordOf(s, m).Success? ==>
      var r := RecordOf(s, m).value;
      var a := SpanEnd(s, 0, Digit);
      var b := SpanEnd(s, a, Space);
      && 0 < a <= MaxStrDigits && r.lp == DigitsValue(s[..a])
      && b + 13 < |s| && r.barcode == s[b..b + 13] && IsBarcodeLine(r.barcode) && IsSpace(s[b + 13])
      && Trimmed(r.name)
  {
    SpanEndUnique(s, 0, m.a, Digit);
    SpanEndUnique(s, m.a, m.b, Space);
    SliceAll(s, m.b, m.c, Digit);
    assert IsSpace(s[m.c]);
  }
}

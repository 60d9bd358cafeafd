/** parse_layout_a (pdf-to-excel_app.py lines 101-147): a line holding the
    label "Kod kres.:" and a barcode, the Lp alone on the next line, then the
    name lines up to the line with "szt". */
module LayoutA {
  import opened Outcomes
  import opened Text
  import opened Quantity
  import opened Records
  import opened ItemBlock

  /** The label that marks a barcode line. */
  const Label := "Kod kres.:"

  /** Thirteen digits start at i. */
  predicate BarcodeAt(s: string, i: int) {
    0 <= i && i + 13 <= |s| && All(s, i, i + 13, Digit)
  }

  /** re.search(r"(\d{13})", s) from p on: the leftmost place where thirteen
      digits start. */
  function BarcodeSearch(s: string, p: nat): (r: Option<nat>)
    requires p <= |s|
    ensures r.Some? ==> p <= r.value && BarcodeAt(s, r.value)
    ensures r.Some? ==> forall i | p <= i < r.value :: !BarcodeAt(s, i)
    ensures r.None? ==> forall i | p <= i :: !BarcodeAt(s, i)
    decreases |s| - p
  {
    if p + 13 > |s| then None
    else if All(s, p, p + 13, Digit) then Some(p)
    else BarcodeSearch(s, p + 1)
  }

  /** What the loop does at index idx: nothing unless the line holds the label
      and a barcode and the next line is all digits; otherwise the record whose
      Lp is the next line and whose name and quantity follow it. */
  function RecordAt(lines: seq<string>, idx: nat): Outcome
    requires idx < |lines|
  {
    var ln := lines[idx];
    if !Contains(ln, Label) then None
    else
      match BarcodeSearch(ln, 0)
      case None => None
      case Some(p) =>
        if idx + 1 < |lines| && IsDigitString(lines[idx + 1]) then Some(Item(lines, idx + 1, ln[p..p + 13]))
        else None
  }

  /** The outcome at every index, in order. */
  function LabelOutcomes(lines: seq<string>): (outs: seq<Outcome>)
    ensures |outs| == |lines|
  {
    seq(|lines|, i requires 0 <= i < |lines| => RecordAt(lines, i))
  }

  /** The DataFrame rows parse_layout_a builds, or the ValueError it raises. */
  function Products(lines: seq<string>): Parsed {
    Scan(LabelOutcomes(lines), 0)
  }

  lemma OutcomeAt(lines: seq<string>, idx: nat)
    requires idx < |lines|
    ensures LabelOutcomes(lines)[idx] == RecordAt(lines, idx)
  {
  }

  /** The for loop over the indices, with the inner scan for the name and the
      quantity; a conversion error propagates out of it. */
  method Parse(lines: seq<string>) returns (result: Parsed)
    ensures result == Products(lines)
  {
    ghost var outs := LabelOutcomes(lines);
    var products: seq<Record> := [];
    ThenUnits([], Scan(outs, 0));
    for idx := 0 to |lines|
      invariant Then(products, Scan(outs, idx)) == Scan(outs, 0)
    {
      OutcomeAt(lines, idx);
      var ln := lines[idx];
      if !Contains(ln, Label) {
        continue;
      }
      var m := BarcodeSearch(ln, 0);
      if m.None? {
        continue;
      }
      var barcode := ln[m.value..m.value + 13];
      if !(idx + 1 < |lines| && IsDigitString(lines[idx + 1])) {
        continue;
      }
      var lp := IntOf(lines[idx + 1]);
      if lp.Failure? {
        return Failure(lp.error);
      }
      var name, qty, j := Collect(lines, idx + 2);
      if qty.Failure? {
        return Failure(qty.error);
      }
      ThenThen(products, [Record(lp.value, name, qty.value, barcode)], Scan(outs, idx + 1));
      products := products + [Record(lp.value, name, qty.value, barcode)];
    }
    ThenUnits(products, Scan(outs, |lines|));
    return Success(products);
  }

  /** The index idx yields something exactly when its line holds the label and
      thirteen digits and the next line is all digits. Every index is looked
      at, whatever earlier records took as their names. */
  lemma RecordAtWhen(lines: seq<string>, idx: nat)
    requires idx < |lines|
    ensures RecordAt(lines, idx).Some? <==>
      && Contains(lines[idx], Label)
      && (exists p :: BarcodeAt(lines[idx], p))
      && idx + 1 < |lines| && IsDigitString(lines[idx + 1])
  {
    if p :| BarcodeAt(lines[idx], p) {
      assert BarcodeSearch(lines[idx], 0).Some?;
    }
  }

  /** A record's barcode is the leftmost run of thirteen digits on its label
      line, its Lp the value of the all-digit line after it, and its name and
      quantity those of the lines after that. An error comes from an Lp line
      longer than MaxStrDigits, which int() refuses first, or otherwise from
      the quantity. */
  lemma RecordAtFields(lines: seq<string>, idx: nat)
    requires idx < |lines|
    ensures RecordAt(lines, idx).Some? && RecordAt(lines, idx).value.Success? ==>
      var r := RecordAt(lines, idx).value.value;
      && IsBarcodeLine(r.barcode)
      && (exists p | BarcodeAt(lines[idx], p) :: r.barcode == lines[idx][p..p + 13]
            && forall q | 0 <= q < p :: !BarcodeAt(lines[idx], q))
      && idx + 1 < |lines| && IsDigitString(lines[idx + 1])
      && |lines[idx + 1]| <= MaxStrDigits && r.lp == DigitsValue(lines[idx + 1])
      && r.name == ItemName(lines, idx + 2)
      && ItemQuantity(lines, idx + 2) == Success(r.quantity)
    ensures RecordAt(lines, idx).Some? && RecordAt(lines, idx).value.Failure? ==>
      && idx + 1 < |lines|
      && (|lines[idx + 1]| > MaxStrDigits ==> RecordAt(lines, idx).value.error == TooManyDigits(lines[idx + 1]))
      && (|lines[idx + 1]| <= MaxStrDigits ==>
            ItemQuantity(lines, idx + 2).Failure? && RecordAt(lines, idx).value.error == ItemQuantity(lines, idx + 2).error)
  {
    var ln := lines[idx];
    if RecordAt(lines, idx).Some? {
      var p := BarcodeSearch(ln, 0).value;
      SliceAll(ln, p, p + 13, Digit);
    }
  }

  /** The records come in label-line order and there are at most as many of
      them as label lines: every yielding index holds the label, and the
      yielding indices increase. */
  lemma {:induction false} AtMostOnePerLabel(lines: seq<string>, i: nat)
    requires i <= |lines|
    ensures |Yielded(LabelOutcomes(lines), i)| <= LabelCount(lines, i)
    ensures forall k | 0 <= k < |Yielded(LabelOutcomes(lines), i)| ::
      var y := Yielded(LabelOutcomes(lines), i)[k]; i <= y < |lines| && Contains(lines[y], Label)
    decreases |lines| - i
  {
    YieldedExactly(LabelOutcomes(lines), i);
    if i < |lines| {
      AtMostOnePerLabel(lines, i + 1);
      OutcomeAt(lines, i);
      var outs := LabelOutcomes(lines);
      var rest := Yielded(outs, i + 1);
      var head: seq<nat> := if outs[i].Some? then [i] else [];
      assert Yielded(outs, i) == head + rest;
      forall k | 0 <= k < |Yielded(outs, i)|
        ensures var y := Yielded(outs, i)[k]; i <= y < |lines| && Contains(lines[y], Label)
      {
        if k >= |head| {
          assert Yielded(outs, i)[k] == rest[k - |head|];
        }
      }
    }
  }

  /** The number of lines from i on that hold the label. */
  function LabelCount(lines: seq<string>, i: nat): nat
    requires i <= |lines|
    decreases |lines| - i
  {
    if i == |lines| then 0 else (if Contains(lines[i], Label) then 1 else 0) + LabelCount(lines, i + 1)
  }

  /** One record per yielding index, in index order, each that index's record
      (LabelOutcomes(lines)[i] is RecordAt(lines, i)); the parser fails exactly
      when some record raises (an Lp of more than MaxStrDigits digits, or a
      quantity that does not convert), with the first such error. */
  lemma ProductsPerLabel(lines: seq<string>)
    ensures var outs, ys := LabelOutcomes(lines), Yielded(LabelOutcomes(lines), 0);
      Products(lines).Success? ==>
        && |Products(lines).value| == |ys| <= LabelCount(lines, 0)
        && forall k | 0 <= k < |ys| :: ys[k] < |lines| && outs[ys[k]] == Some(Success(Products(lines).value[k]))
    ensures var outs := LabelOutcomes(lines);
      Products(lines).Failure? <==> exists i | 0 <= i < |lines| :: Failed(outs[i])
    ensures var outs := LabelOutcomes(lines);
      Products(lines).Failure? ==> exists i | 0 <= i < |lines| ::
        && Failed(outs[i])
        && (forall j | 0 <= j < i :: !Failed(outs[j]))
        && Products(lines).error == outs[i].value.error
  {
    ScanRecords(LabelOutcomes(lines), 0);
    ScanFails(LabelOutcomes(lines), 0);
    AtMostOnePerLabel(lines, 0);
  }
}

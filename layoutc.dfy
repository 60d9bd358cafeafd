/** parse_layout_c (pdf-to-excel_app.py lines 175-224): a line of exactly
    thirteen digits, the Lp alone on the next line, then the name lines up to
    the line with "szt"; after a record the scan resumes past that line. */
module LayoutC {
  import opened Outcomes
  import opened Text
  import opened Quantity
  import opened Records
  import opened ItemBlock

  /** A record starts at idx: a bare barcode line followed by an all-digit
      line. */
  predicate Starts(lines: seq<string>, idx: nat) {
    idx + 1 < |lines| && IsBarcodeLine(lines[idx]) && IsDigitString(lines[idx + 1])
  }

  /** Where the scan goes on after a record starting at idx: the line after
      the first "szt" line from idx + 2 on, or one past the end when there is
      none. */
  function Resume(lines: seq<string>, idx: nat): (r: nat)
    requires Starts(lines, idx)
    ensures idx + 2 < r <= |lines| + 1
  {
    SztIndex(lines, idx + 2) + 1
  }

  /** What the loop finds at idx: nothing unless a record starts there, and
      otherwise the record whose barcode is the whole line. */
  function BlockAt(lines: seq<string>, idx: nat): Outcome
    requires idx < |lines|
  {
    if Starts(lines, idx) then Some(Item(lines, idx + 1, lines[idx])) else None
  }

  /** The outcomes at the indices from i on, in order. */
  function OutcomesFrom(lines: seq<string>, i: nat): (outs: seq<Outcome>)
    requires i <= |lines|
    ensures |outs| == |lines| - i
    decreases |lines| - i
  {
    if i == |lines| then [] else [BlockAt(lines, i)] + OutcomesFrom(lines, i + 1)
  }

  /** The outcome at every index. */
  function BlockOutcomes(lines: seq<string>): (outs: seq<Outcome>)
    ensures |outs| == |lines|
  {
    OutcomesFrom(lines, 0)
  }

  lemma {:induction false} OutcomesFromAt(lines: seq<string>, i: nat, idx: nat)
    requires i <= idx < |lines|
    ensures OutcomesFrom(lines, i)[idx - i] == BlockAt(lines, idx)
    decreases idx - i
  {
    if i < idx {
      OutcomesFromAt(lines, i + 1, idx);
    }
  }

  /** The outcome at idx is what the loop finds there. */
  lemma BlockOutcomeIs(lines: seq<string>, idx: nat)
    requires idx < |lines|
    ensures BlockOutcomes(lines)[idx] == BlockAt(lines, idx)
  {
    OutcomesFromAt(lines, 0, idx);
  }

  /** Where the loop goes from every index: past the block after a record,
      to the next line otherwise. */
  function NextIndex(lines: seq<string>): (next: seq<nat>)
    ensures Jumps(BlockOutcomes(lines), next)
  {
    seq(|lines|, i requires 0 <= i < |lines| => if Starts(lines, i) then Resume(lines, i) else i + 1)
  }

  /** The DataFrame rows parse_layout_c builds, or the ValueError it raises. */
  function Products(lines: seq<string>): Parsed {
    Hop(BlockOutcomes(lines), NextIndex(lines), 0)
  }

  /** The indices where the loop starts a record, in order. */
  function Blocks(lines: seq<string>): seq<nat> {
    Visited(BlockOutcomes(lines), NextIndex(lines), 0)
  }

  /** At each index the loop yields something exactly when the line is a bare
      barcode and the next line is all digits; a barcode line whose next line
      is not all digits yields nothing, and the loop moves to the next line. */
  lemma OutcomeAt(lines: seq<string>, idx: nat)
    requires idx < |lines|
    ensures BlockOutcomes(lines)[idx].Some? <==>
      idx + 1 < |lines| && IsBarcodeLine(lines[idx]) && IsDigitString(lines[idx + 1])
    ensures NextIndex(lines)[idx] == if Starts(lines, idx) then SztIndex(lines, idx + 2) + 1 else idx + 1
  {
    BlockOutcomeIs(lines, idx);
  }

  /** The outcome at a record start is the record built from the Lp line after
      it, with the whole barcode line as its barcode. */
  lemma OutcomeValue(lines: seq<string>, idx: nat)
    requires idx < |lines| && BlockOutcomes(lines)[idx].Some?
    ensures idx + 1 < |lines| && BlockOutcomes(lines)[idx].value == Item(lines, idx + 1, lines[idx])
  {
    BlockOutcomeIs(lines, idx);
  }

  /** One step of the loop at a record start whose Lp line int() refuses. */
  lemma LpFailStep(lines: seq<string>, idx: nat)
    requires Starts(lines, idx) && IntOf(lines[idx + 1]).Failure?
    ensures BlockOutcomes(lines)[idx] == Some(Failure(IntOf(lines[idx + 1]).error))
  {
    BlockOutcomeIs(lines, idx);
  }

  /** One step of the loop at a record start, with the Lp int() read and the
      name and quantity the inner loop collected. */
  lemma RecordStep(lines: seq<string>, idx: nat, lp: nat, name: string, qty: Result<Decimal, ConversionError>)
    requires Starts(lines, idx) && IntOf(lines[idx + 1]) == Success(lp)
    requires name == ItemName(lines, idx + 2) && qty == ItemQuantity(lines, idx + 2)
    ensures BlockOutcomes(lines)[idx] == Some(
      if qty.Failure? then Failure(qty.error) else Success(Record(lp, name, qty.value, lines[idx])))
    ensures NextIndex(lines)[idx] == SztIndex(lines, idx + 2) + 1
  {
    BlockOutcomeIs(lines, idx);
  }

  /** The scan stops at a record start whose record raises. */
  lemma FailStep(lines: seq<string>, idx: nat, products: seq<Record>, e: ConversionError)
    requires idx < |lines| && BlockOutcomes(lines)[idx] == Some(Failure(e))
    ensures Then(products, Hop(BlockOutcomes(lines), NextIndex(lines), idx)) == Failure(e)
  {
  }

  /** After a record taken at idx the scan goes on past its "szt" line, with
      the record appended. */
  lemma TakeStep(lines: seq<string>, idx: nat, products: seq<Record>, lp: nat, name: string, q: Decimal)
    requires Starts(lines, idx) && IntOf(lines[idx + 1]) == Success(lp)
    requires name == ItemName(lines, idx + 2) && ItemQuantity(lines, idx + 2) == Success(q)
    ensures Then(products, Hop(BlockOutcomes(lines), NextIndex(lines), idx)) ==
      Then(products + [Record(lp, name, q, lines[idx])], Hop(BlockOutcomes(lines), NextIndex(lines), SztIndex(lines, idx + 2) + 1))
  {
    RecordStep(lines, idx, lp, name, Success(q));
    HopTake(products, BlockOutcomes(lines), NextIndex(lines), idx, Record(lp, name, q, lines[idx]));
  }

  /** One step of the loop where no record starts. */
  lemma SkipStep(lines: seq<string>, idx: nat)
    requires idx < |lines| && !Starts(lines, idx)
    ensures BlockOutcomes(lines)[idx] == None && NextIndex(lines)[idx] == idx + 1
  {
    BlockOutcomeIs(lines, idx);
  }

  /** The outer while loop with idx, and the inner one with j, as the source
      writes them; a conversion error propagates out. */
  method Parse(lines: seq<string>) returns (result: Parsed)
    ensures result == Products(lines)
  {
    ghost var outs, next := BlockOutcomes(lines), NextIndex(lines);
    var products: seq<Record> := [];
    var idx := 0;
    ThenUnits([], Hop(outs, next, 0));
    while idx < |lines|
      invariant idx <= |lines| + 1
      invariant Then(products, Hop(outs, next, idx)) == Hop(outs, next, 0)
      decreases |lines| + 1 - idx
    {
      var ln := lines[idx];
      if IsBarcodeLine(ln) {
        if !(idx + 1 < |lines| && IsDigitString(lines[idx + 1])) {
          assert Then(products, Hop(outs, next, idx + 1)) == Hop(outs, next, 0) by {
            SkipStep(lines, idx);
            HopSkip(outs, next, idx);
          }
          idx := idx + 1;
          continue;
        }
        var lp := IntOf(lines[idx + 1]);
        if lp.Failure? {
          assert Hop(outs, next, 0) == Failure(lp.error) by {
            LpFailStep(lines, idx);
            FailStep(lines, idx, products, lp.error);
          }
          return Failure(lp.error);
        }
        var name, qty, j := Collect(lines, idx + 2);
        if qty.Failure? {
          assert Hop(outs, next, 0) == Failure(qty.error) by {
            RecordStep(lines, idx, lp.value, name, qty);
            FailStep(lines, idx, products, qty.error);
          }
          return Failure(qty.error);
        }
        var rec := Record(lp.value, name, qty.value, ln);
        assert Then(products + [rec], Hop(outs, next, j + 1)) == Hop(outs, next, 0) by {
          TakeStep(lines, idx, products, lp.value, name, qty.value);
          assert rec == Record(lp.value, name, qty.value, lines[idx]) && j == SztIndex(lines, idx + 2);
        }
        products := products + [rec];
        idx := j + 1;
      } else {
        assert Then(products, Hop(outs, next, idx + 1)) == Hop(outs, next, 0) by {
          SkipStep(lines, idx);
          HopSkip(outs, next, idx);
        }
        idx := idx + 1;
      }
    }
    ThenUnits(products, Hop(outs, next, idx));
    return Success(products);
  }

  /** The records come from disjoint blocks in increasing order: each block
      starts at a bare barcode line followed by an all-digit line, and the
      next one starts after the "szt" line that ends it. */
  lemma BlocksDisjoint(lines: seq<string>)
    ensures forall k | 0 <= k < |Blocks(lines)| :: Blocks(lines)[k] < |lines| && Starts(lines, Blocks(lines)[k])
    ensures forall k | 0 <= k < |Blocks(lines)| - 1 ::
      Blocks(lines)[k] + 2 <= |lines| && SztIndex(lines, Blocks(lines)[k] + 2) < Blocks(lines)[k + 1]
  {
    var outs, next, bs := BlockOutcomes(lines), NextIndex(lines), Blocks(lines);
    VisitedBlocks(outs, next, 0);
    forall k | 0 <= k < |bs| ensures bs[k] < |lines| && Starts(lines, bs[k]) {
      OutcomeAt(lines, bs[k]);
    }
    forall k | 0 <= k < |bs| - 1 ensures bs[k] + 2 <= |lines| && SztIndex(lines, bs[k] + 2) < bs[k + 1] {
      OutcomeAt(lines, bs[k]);
    }
  }

  /** A line where a record could start is skipped only when it lies inside
      an earlier record's block, between its barcode line and its "szt"
      line. */
  lemma BlocksCover(lines: seq<string>)
    ensures forall p | 0 <= p < |lines| && Starts(lines, p) ::
      p in Blocks(lines) ||
      exists k | 0 <= k < |Blocks(lines)| ::
        Blocks(lines)[k] < p && Blocks(lines)[k] + 2 <= |lines| && p <= SztIndex(lines, Blocks(lines)[k] + 2)
  {
    var outs, next, bs := BlockOutcomes(lines), NextIndex(lines), Blocks(lines);
    VisitedCovers(outs, next, 0);
    VisitedBlocks(outs, next, 0);
    forall p | 0 <= p < |lines| && Starts(lines, p)
      ensures p in bs || exists k | 0 <= k < |bs| :: bs[k] < p && bs[k] + 2 <= |lines| && p <= SztIndex(lines, bs[k] + 2)
    {
      OutcomeAt(lines, p);
      if p !in bs {
        var k :| 0 <= k < |bs| && bs[k] < p < |outs| && p < next[bs[k]];
        OutcomeAt(lines, bs[k]);
      }
    }
  }

  /** One record per block, in order: its barcode is the whole first line, a
      bare thirteen-digit line, and the record is the one built from the Lp
      line after it and the name and quantity lines after that. */
  lemma ProductsPerBlock(lines: seq<string>)
    ensures Products(lines).Success? ==>
      && |Products(lines).value| == |Blocks(lines)|
      && forall k | 0 <= k < |Blocks(lines)| ::
           var b := Blocks(lines)[k];
           && b + 1 < |lines|
           && Products(lines).value[k].barcode == lines[b]
           && IsBarcodeLine(lines[b]) && IsDigitString(lines[b + 1])
           && Item(lines, b + 1, lines[b]) == Success(Products(lines).value[k])
  {
    var outs, next, bs := BlockOutcomes(lines), NextIndex(lines), Blocks(lines);
    HopRecords(outs, next, 0);
    if Products(lines).Success? {
      var ps := Products(lines).value;
      forall k | 0 <= k < |bs|
        ensures var b := bs[k];
          && b + 1 < |lines|
          && ps[k].barcode == lines[b]
          && IsBarcodeLine(lines[b]) && IsDigitString(lines[b + 1])
          && Item(lines, b + 1, lines[b]) == Success(ps[k])
      {
        OutcomeAt(lines, bs[k]);
        OutcomeValue(lines, bs[k]);
      }
    }
  }

  /** The parser fails exactly when some block's outcome is an error (by
      OutcomeAt, when int() or float() raises on its record), and then
      with the error of the first such block. */
  lemma FailsAtBlock(lines: seq<string>)
    ensures Products(lines).Failure? <==> exists k | 0 <= k < |Blocks(lines)| ::
      Blocks(lines)[k] < |lines| && Failed(BlockOutcomes(lines)[Blocks(lines)[k]])
    ensures Products(lines).Failure? ==> exists k | 0 <= k < |Blocks(lines)| ::
      && Blocks(lines)[k] < |lines| && Failed(BlockOutcomes(lines)[Blocks(lines)[k]])
      && (forall l | 0 <= l < k :: Blocks(lines)[l] < |lines| && !Failed(BlockOutcomes(lines)[Blocks(lines)[l]]))
      && Products(lines).error == BlockOutcomes(lines)[Blocks(lines)[k]].value.error
  {
    var outs, next, bs := BlockOutcomes(lines), NextIndex(lines), Blocks(lines);
    HopFails(outs, next, 0);
    if k :| 0 <= k < |bs| && bs[k] < |lines| && Failed(outs[bs[k]]) {
      HopStopsAtError(outs, next, 0, k);
    }
  }
}

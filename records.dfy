/** The rows every layout parser produces. */
module Records {
  import opened Outcomes
  import opened Quantity

  /** One row of the output table: the columns Lp, Name, Quantity and Barcode. */
  datatype Record = Record(lp: nat, name: string, quantity: Decimal, barcode: string)

  /** What a parser returns: its rows in order, or the ValueError that stopped it. */
  type Parsed = Result<seq<Record>, ConversionError>

  /** The rows already appended, followed by what the rest of the scan yields;
      an error in the rest is the error of the whole scan. */
  function Then(done: seq<Record>, rest: Parsed): Parsed {
    match rest
    case Success(rs) => Success(done + rs)
    case Failure(e) => Failure(e)
  }

  /** What one step of a scan contributes: nothing, a record, or the error
      int() or float() raised while building one. */
  type Outcome = Option<Result<Record, ConversionError>>

  predicate Failed(o: Outcome) {
    o.Some? && o.value.Failure?
  }

  /** A scan that visits the outcomes from position i on, appends each record,
      and stops at the first error, which propagates out of the scan. */
  function Scan(outs: seq<Outcome>, i: nat): Parsed
    requires i <= |outs|
    decreases |outs| - i
  {
    if i == |outs| then Success([])
    else
      match outs[i]
      case None => Scan(outs, i + 1)
      case Some(Failure(e)) => Failure(e)
      case Some(Success(r)) => Then([r], Scan(outs, i + 1))
  }

  /** The positions from i on, in increasing order, whose outcome is not
      "nothing". */
  function Yielded(outs: seq<Outcome>, i: nat): seq<nat>
    requires i <= |outs|
    decreases |outs| - i
  {
    if i == |outs| then [] else (if outs[i].Some? then [i] else []) + Yielded(outs, i + 1)
  }

  lemma ThenThen(a: seq<Record>, b: seq<Record>, rest: Parsed)
    ensures Then(a, Then(b, rest)) == Then(a + b, rest)
  {
    if rest.Success? {
      assert a + (b + rest.value) == (a + b) + rest.value;
    }
  }

  lemma ThenUnits(done: seq<Record>, rest: Parsed)
    ensures Then([], rest) == rest
    ensures Then(done, Success([])) == Success(done)
  {
    if rest.Success? {
      assert [] + rest.value == rest.value;
    }
    assert done + [] == done;
  }

  /** Yielded lists exactly the positions from i on with an outcome, in
      strictly increasing order. */
  lemma {:induction false} YieldedExactly(outs: seq<Outcome>, i: nat)
    requires i <= |outs|
    ensures forall k | 0 <= k < |Yielded(outs, i)| :: i <= Yielded(outs, i)[k] < |outs|
    ensures forall p | i <= p < |outs| :: p in Yielded(outs, i) <==> outs[p].Some?
    ensures forall k, l | 0 <= k < l < |Yielded(outs, i)| :: Yielded(outs, i)[k] < Yielded(outs, i)[l]
    decreases |outs| - i
  {
    if i < |outs| {
      YieldedExactly(outs, i + 1);
    }
  }

  /** Outcomes that are all "nothing" make a scan that yields no record and
      no error. */
  lemma {:induction false} ScanNothing(outs: seq<Outcome>, i: nat)
    requires i <= |outs|
    requires forall p | i <= p < |outs| :: outs[p].None?
    ensures Scan(outs, i) == Success([])
    decreases |outs| - i
  {
    if i < |outs| {
      ScanNothing(outs, i + 1);
    }
  }

  /** A successful scan yields one record per position with an outcome, in
      order, each that position's record. */
  lemma {:induction false} ScanRecords(outs: seq<Outcome>, i: nat)
    requires i <= |outs|
    ensures Scan(outs, i).Success? ==>
      && |Scan(outs, i).value| == |Yielded(outs, i)|
      && forall k | 0 <= k < |Yielded(outs, i)| :: Yielded(outs, i)[k] < |outs| &&
           outs[Yielded(outs, i)[k]] == Some(Success(Scan(outs, i).value[k]))
    decreases |outs| - i
  {
    if i < |outs| && Scan(outs, i).Success? {
      ScanRecords(outs, i + 1);
      var ys := Yielded(outs, i + 1);
      var head: seq<nat> := if outs[i].Some? then [i] else [];
      assert Yielded(outs, i) == head + ys;
      var done: seq<Record> := if outs[i].Some? then [outs[i].value.value] else [];
      assert Scan(outs, i).value == done + Scan(outs, i + 1).value;
      forall k | 0 <= k < |Yielded(outs, i)|
        ensures Yielded(outs, i)[k] < |outs| && outs[Yielded(outs, i)[k]] == Some(Success(Scan(outs, i).value[k]))
      {
        if k >= |head| {
          assert Yielded(outs, i)[k] == ys[k - |head|];
        }
      }
    }
  }

  /** The scan fails exactly when some outcome is an error, and then with the
      error of the first one. */
  lemma ScanFails(outs: seq<Outcome>, i: nat)
    requires i <= |outs|
    ensures Scan(outs, i).Failure? <==> exists p | i <= p < |outs| :: Failed(outs[p])
    ensures Scan(outs, i).Failure? ==> exists p | i <= p < |outs| ::
      && Failed(outs[p])
      && (forall q | i <= q < p :: !Failed(outs[q]))
      && Scan(outs, i).error == outs[p].value.error
  {
    ScanFirstError(outs, i);
    if p :| i <= p < |outs| && Failed(outs[p]) {
      ScanStopsAtError(outs, i, p);
    }
  }

  lemma {:induction false} ScanFirstError(outs: seq<Outcome>, i: nat)
    requires i <= |outs|
    ensures Scan(outs, i).Failure? ==> exists p | i <= p < |outs| ::
      && Failed(outs[p])
      && (forall q | i <= q < p :: !Failed(outs[q]))
      && Scan(outs, i).error == outs[p].value.error
    decreases |outs| - i
  {
    if i < |outs| && !Failed(outs[i]) {
      ScanFirstError(outs, i + 1);
    }
  }

  lemma {:induction false} ScanStopsAtError(outs: seq<Outcome>, i: nat, p: nat)
    requires i <= p < |outs| && Failed(outs[p])
    ensures Scan(outs, i).Failure?
    decreases p - i
  {
    if i < p && !Failed(outs[i]) {
      ScanStopsAtError(outs, i + 1, p);
    }
  }

  /** A jump table for the outcomes: after a record found at p a scan goes on
      at next[p], which lies past p and at most one past the end. */
  predicate Jumps(outs: seq<Outcome>, next: seq<nat>) {
    |next| == |outs| && forall p | 0 <= p < |next| :: p < next[p] <= |outs| + 1
  }

  /** A scan that steps to the next position after "nothing" but jumps to
      next[p] after appending the record found at p, and stops at the first
      error, which propagates out of the scan. */
  function Hop(outs: seq<Outcome>, next: seq<nat>, i: nat): Parsed
    requires Jumps(outs, next) && i <= |outs| + 1
    decreases |outs| + 1 - i
  {
    if i >= |outs| then Success([])
    else
      match outs[i]
      case None => Hop(outs, next, i + 1)
      case Some(Failure(e)) => Failure(e)
      case Some(Success(r)) => Then([r], Hop(outs, next, next[i]))
  }

  /** Past a position without an outcome the scan just steps on. */
  lemma HopSkip(outs: seq<Outcome>, next: seq<nat>, i: nat)
    requires Jumps(outs, next) && i < |outs| && outs[i].None?
    ensures Hop(outs, next, i) == Hop(outs, next, i + 1)
  {
  }

  /** Past a record the scan jumps, with that record appended to those before. */
  lemma HopTake(done: seq<Record>, outs: seq<Outcome>, next: seq<nat>, i: nat, r: Record)
    requires Jumps(outs, next) && i < |outs| && outs[i] == Some(Success(r))
    ensures Then(done, Hop(outs, next, i)) == Then(done + [r], Hop(outs, next, next[i]))
  {
    ThenThen(done, [r], Hop(outs, next, next[i]));
  }

  /** The positions from i on where such a scan finds an outcome, in the order
      it finds them. */
  function Visited(outs: seq<Outcome>, next: seq<nat>, i: nat): seq<nat>
    requires Jumps(outs, next) && i <= |outs| + 1
    decreases |outs| + 1 - i
  {
    if i >= |outs| then []
    else if outs[i].Some? then [i] + Visited(outs, next, next[i])
    else Visited(outs, next, i + 1)
  }

  /** Every visited position has an outcome, and the next one visited lies at
      or after the jump from it: the visited positions increase. */
  lemma {:induction false} VisitedBlocks(outs: seq<Outcome>, next: seq<nat>, i: nat)
    requires Jumps(outs, next) && i <= |outs| + 1
    ensures forall k | 0 <= k < |Visited(outs, next, i)| ::
      i <= Visited(outs, next, i)[k] < |outs| && outs[Visited(outs, next, i)[k]].Some?
    ensures forall k | 0 <= k < |Visited(outs, next, i)| - 1 ::
      Visited(outs, next, i)[k] < |outs| && next[Visited(outs, next, i)[k]] <= Visited(outs, next, i)[k + 1]
    decreases |outs| + 1 - i
  {
    if i < |outs| {
      if outs[i].Some? {
        VisitedBlocks(outs, next, next[i]);
        var rest := Visited(outs, next, next[i]);
        assert Visited(outs, next, i) == [i] + rest;
      } else {
        VisitedBlocks(outs, next, i + 1);
      }
    }
  }

  /** The scan skips only what the jumps pass over: every position from i on
      with an outcome is visited or lies strictly inside a jump from a visited
      position. */
  lemma {:induction false} VisitedCovers(outs: seq<Outcome>, next: seq<nat>, i: nat)
    requires Jumps(outs, next) && i <= |outs| + 1
    ensures forall p | i <= p < |outs| && outs[p].Some? ::
      p in Visited(outs, next, i) ||
      exists k | 0 <= k < |Visited(outs, next, i)| ::
        Visited(outs, next, i)[k] < p < |outs| && p < next[Visited(outs, next, i)[k]]
    decreases |outs| + 1 - i
  {
    if i < |outs| {
      var vs := Visited(outs, next, i);
      var j := if outs[i].Some? then next[i] else i + 1;
      VisitedCovers(outs, next, j);
      var rest := Visited(outs, next, j);
      var head: seq<nat> := if outs[i].Some? then [i] else [];
      assert vs == head + rest;
      forall p | i <= p < |outs| && outs[p].Some?
        ensures p in vs || exists k | 0 <= k < |vs| :: vs[k] < p < |outs| && p < next[vs[k]]
      {
        if p == i {
          assert vs[0] == i;
        } else if p < j {
          assert 0 < |vs| && vs[0] < p < |outs| && p < next[vs[0]];
        } else if p !in rest {
          var k :| 0 <= k < |rest| && rest[k] < p < |outs| && p < next[rest[k]];
          assert vs[k + |head|] == rest[k];
        }
      }
    }
  }

  /** A successful scan yields one record per visited position, in order, each
      that position's record. */
  lemma {:induction false} HopRecords(outs: seq<Outcome>, next: seq<nat>, i: nat)
    requires Jumps(outs, next) && i <= |outs| + 1
    ensures Hop(outs, next, i).Success? ==>
      && |Hop(outs, next, i).value| == |Visited(outs, next, i)|
      && forall k | 0 <= k < |Visited(outs, next, i)| :: Visited(outs, next, i)[k] < |outs| &&
           outs[Visited(outs, next, i)[k]] == Some(Success(Hop(outs, next, i).value[k]))
    decreases |outs| + 1 - i
  {
    if i < |outs| && Hop(outs, next, i).Success? {
      var j := if outs[i].Some? then next[i] else i + 1;
      HopRecords(outs, next, j);
      var vs := Visited(outs, next, j);
      var head: seq<nat> := if outs[i].Some? then [i] else [];
      assert Visited(outs, next, i) == head + vs;
      var done: seq<Record> := if outs[i].Some? then [outs[i].value.value] else [];
      assert Hop(outs, next, i).value == done + Hop(outs, next, j).value;
      forall k | 0 <= k < |Visited(outs, next, i)|
        ensures Visited(outs, next, i)[k] < |outs| &&
          outs[Visited(outs, next, i)[k]] == Some(Success(Hop(outs, next, i).value[k]))
      {
        if k >= |head| {
          assert Visited(outs, next, i)[k] == vs[k - |head|];
        }
      }
    }
  }

  /** The scan fails exactly when some visited position holds an error, and
      then with the error of the first one. */
  lemma HopFails(outs: seq<Outcome>, next: seq<nat>, i: nat)
    requires Jumps(outs, next) && i <= |outs| + 1
    ensures Hop(outs, next, i).Failure? <==> exists k | 0 <= k < |Visited(outs, next, i)| ::
      Visited(outs, next, i)[k] < |outs| && Failed(outs[Visited(outs, next, i)[k]])
    ensures Hop(outs, next, i).Failure? ==> exists k | 0 <= k < |Visited(outs, next, i)| ::
      && Visited(outs, next, i)[k] < |outs| && Failed(outs[Visited(outs, next, i)[k]])
      && (forall l | 0 <= l < k :: Visited(outs, next, i)[l] < |outs| && !Failed(outs[Visited(outs, next, i)[l]]))
      && Hop(outs, next, i).error == outs[Visited(outs, next, i)[k]].value.error
  {
    HopFirstError(outs, next, i);
    if k :| (0 <= k < |Visited(outs, next, i)| && Visited(outs, next, i)[k] < |outs| &&
             Failed(outs[Visited(outs, next, i)[k]])) {
      HopStopsAtError(outs, next, i, k);
    }
  }

  lemma {:induction false} HopFirstError(outs: seq<Outcome>, next: seq<nat>, i: nat)
    requires Jumps(outs, next) && i <= |outs| + 1
    ensures Hop(outs, next, i).Failure? ==> exists k | 0 <= k < |Visited(outs, next, i)| ::
      && Visited(outs, next, i)[k] < |outs| && Failed(outs[Visited(outs, next, i)[k]])
      && (forall l | 0 <= l < k :: Visited(outs, next, i)[l] < |outs| && !Failed(outs[Visited(outs, next, i)[l]]))
      && Hop(outs, next, i).error == outs[Visited(outs, next, i)[k]].value.error
    decreases |outs| + 1 - i
  {
    if i < |outs| && Hop(outs, next, i).Failure? {
      var all := Visited(outs, next, i);
      if Failed(outs[i]) {
        assert all[0] == i;
      } else if outs[i].Some? {
        HopFirstError(outs, next, next[i]);
        var vs := Visited(outs, next, next[i]);
        assert all == [i] + vs;
        var k :| 0 <= k < |vs| && vs[k] < |outs| && Failed(outs[vs[k]])
          && (forall l | 0 <= l < k :: vs[l] < |outs| && !Failed(outs[vs[l]]))
          && Hop(outs, next, next[i]).error == outs[vs[k]].value.error;
        assert all[k + 1] == vs[k];
        forall l | 0 <= l < k + 1 ensures all[l] < |outs| && !Failed(outs[all[l]]) {
          if l > 0 {
            assert all[l] == vs[l - 1];
          }
        }
      } else {
        HopFirstError(outs, next, i + 1);
        assert all == Visited(outs, next, i + 1);
      }
    }
  }

  lemma {:induction false} HopStopsAtError(outs: seq<Outcome>, next: seq<nat>, i: nat, k: nat)
    requires Jumps(outs, next) && i <= |outs| + 1
    requires k < |Visited(outs, next, i)| && Visited(outs, next, i)[k] < |outs|
    requires Failed(outs[Visited(outs, next, i)[k]])
    ensures Hop(outs, next, i).Failure?
    decreases |outs| + 1 - i
  {
    var all := Visited(outs, next, i);
    if !Failed(outs[i]) {
      var j := if outs[i].Some? then next[i] else i + 1;
      var vs := Visited(outs, next, j);
      var head: seq<nat> := if outs[i].Some? then [i] else [];
      assert all == head + vs;
      if outs[i].Some? {
        assert k > 0 && all[k] == vs[k - 1];
        HopStopsAtError(outs, next, j, k - 1);
      } else {
        assert all[k] == vs[k];
        HopStopsAtError(outs, next, j, k);
      }
    }
  }
}

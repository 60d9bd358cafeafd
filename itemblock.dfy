/** The scan that layouts A and C share once they have found a record's Lp line
    (pdf-to-excel_app.py lines 124-146 and 197-218): the following lines up to
    the first one containing "szt" are the name, and that line holds the
    quantity. */
module ItemBlock {
  import opened Outcomes
  import opened Text
  import opened Quantity
  import opened Records

  /** The first index at or after start whose line contains "szt" (in any
      case), or |lines| when there is none. */
  function SztIndex(lines: seq<string>, start: nat): (j: nat)
    requires start <= |lines|
    ensures start <= j <= |lines|
    decreases |lines| - start
  {
    if start == |lines| || ContainsSzt(lines[start]) then start else SztIndex(lines, start + 1)
  }

  /** No line before the one SztIndex finds contains "szt", and that one does. */
  lemma {:induction false} SztIndexSpec(lines: seq<string>, start: nat)
    requires start <= |lines|
    ensures forall k | start <= k < SztIndex(lines, start) :: !ContainsSzt(lines[k])
    ensures SztIndex(lines, start) < |lines| ==> ContainsSzt(lines[SztIndex(lines, start)])
    decreases |lines| - start
  {
    if start < |lines| && !ContainsSzt(lines[start]) {
      SztIndexSpec(lines, start + 1);
    }
  }

  /** re.search(r"([\d\s,]+)\s*szt", s, re.IGNORECASE) can match with group 1
      being s[p..k] and \s* being s[k..m]. */
  predicate QtyMatch(s: string, p: int, k: int, m: int) {
    p < k <= m && All(s, p, k, QtyChar) && All(s, k, m, Space) && SztAt(s, m)
  }

  /** Whitespace is part of [\d\s,] and "szt" is not, so a match reaches as far
      as the run of digits, whitespace and commas that starts at p. */
  lemma QtyMatchForced(s: string, p: nat, k: int, m: int)
    requires QtyMatch(s, p, k, m)
    ensures p < |s| && In(s[p], QtyChar) && m == SpanEnd(s, p, QtyChar)
  {
    assert All(s, p, m, QtyChar);
    assert !In(s[m], QtyChar);
    SpanEndUnique(s, p, m, QtyChar);
  }

  /** The regex search from position p onwards: the first start whose longest
      run of digits, whitespace and commas is followed by "szt"; the run is the
      captured group (the engine tries the longest group first, and a shorter
      one cannot be followed by "szt" either). */
  function QtySearch(s: string, p: nat): (r: Option<(nat, nat)>)
    requires p <= |s|
    ensures r.Some? ==> p <= r.value.0 < |s| && r.value.1 == SpanEnd(s, r.value.0, QtyChar)
    decreases |s| - p
  {
    if p == |s| then None
    else if In(s[p], QtyChar) && SztAt(s, SpanEnd(s, p, QtyChar)) then Some((p, SpanEnd(s, p, QtyChar)))
    else QtySearch(s, p + 1)
  }

  /** QtySearch follows the regex engine: its match is the leftmost one, its
      group is the longest at that start, and when it finds none the pattern
      occurs nowhere. */
  lemma {:induction false} QtySearchLeftmostLongest(s: string, p: nat)
    requires p <= |s|
    ensures QtySearch(s, p).Some? ==>
      var (q0, e0) := QtySearch(s, p).value;
      && QtyMatch(s, q0, e0, e0)
      && (forall q, k, m | p <= q < q0 :: !QtyMatch(s, q, k, m))
      && (forall k, m :: QtyMatch(s, q0, k, m) ==> k <= e0)
    ensures QtySearch(s, p).None? ==> forall q, k, m | p <= q :: !QtyMatch(s, q, k, m)
    decreases |s| - p
  {
    forall k, m | QtyMatch(s, p, k, m) ensures SztAt(s, SpanEnd(s, p, QtyChar)) && k <= SpanEnd(s, p, QtyChar) {
      QtyMatchForced(s, p, k, m);
    }
    if p < |s| {
      var e := SpanEnd(s, p, QtyChar);
      if In(s[p], QtyChar) && SztAt(s, e) {
        assert QtyMatch(s, p, e, e);
      } else {
        QtySearchLeftmostLongest(s, p + 1);
      }
    } else {
      forall q, k, m | p <= q ensures !QtyMatch(s, q, k, m) {}
    }
  }

  /** The group captured by the quantity search, if the line has one. */
  function QuantityToken(s: string): Option<string> {
    match QtySearch(s, 0)
    case Some((p, e)) => Some(s[p..e])
    case None => None
  }

  /** The captured quantity token is made of digits, whitespace and commas. */
  lemma QuantityTokenChars(s: string)
    requires QuantityToken(s).Some?
    ensures var t := QuantityToken(s).value; |t| > 0 && All(t, 0, |t|, QtyChar)
  {
    QtySearchLeftmostLongest(s, 0);
  }

  /** " ".join(name_parts).strip() for the lines from start up to the "szt" line. */
  function ItemName(lines: seq<string>, start: nat): string
    requires start <= |lines|
  {
    Strip(Join(lines[start..SztIndex(lines, start)], " "))
  }

  /** The quantity: 0 when no line contains "szt" or that line has no token
      right before "szt"; otherwise float() of the token with its spaces removed
      and its comma made a decimal point, which may raise. */
  function ItemQuantity(lines: seq<string>, start: nat): Result<Decimal, ConversionError>
    requires start <= |lines|
  {
    var j := SztIndex(lines, start);
    if j == |lines| then Success(Zero)
    else
      match QuantityToken(lines[j])
      case None => Success(Zero)
      case Some(token) => FromToken(RemoveSpaces(token))
  }

  /** The record whose Lp line is lines[lpIndex]: int() of that line, which
      raises first when it is too long, then the name and quantity of the lines
      that follow. */
  function Item(lines: seq<string>, lpIndex: nat, barcode: string): Result<Record, ConversionError>
    requires lpIndex < |lines|
  {
    match IntOf(lines[lpIndex])
    case Failure(e) => Failure(e)
    case Success(lp) =>
      match ItemQuantity(lines, lpIndex + 1)
      case Failure(e) => Failure(e)
      case Success(q) => Success(Record(lp, ItemName(lines, lpIndex + 1), q, barcode))
  }

  /** The inner while loop: collects name lines from start until a line
      containing "szt", and reads the quantity from that line. j is where the
      loop stopped. */
  method Collect(lines: seq<string>, start: nat) returns (name: string, qty: Result<Decimal, ConversionError>, j: nat)
    requires start <= |lines|
    ensures j == SztIndex(lines, start)
    ensures name == ItemName(lines, start)
    ensures qty == ItemQuantity(lines, start)
  {
    var nameParts: seq<string> := [];
    var found: Option<Result<Decimal, ConversionError>> := None;
    j := start;
    while j < |lines|
      invariant start <= j <= |lines|
      invariant nameParts == lines[start..j]
      invariant SztIndex(lines, j) == SztIndex(lines, start)
      invariant found == None
    {
      if ContainsSzt(lines[j]) {
        var m := QuantityToken(lines[j]);
        if m.Some? {
          found := Some(FromToken(RemoveSpaces(m.value)));
        }
        break;
      }
      nameParts := nameParts + [lines[j]];
      j := j + 1;
    }
    name := Strip(Join(nameParts, " "));
    qty := if found.Some? then found.value else Success(Zero);
  }

  /** Joining stripped non-empty lines with single spaces gives a stripped string. */
  lemma {:induction false} JoinTrimmed(parts: seq<string>)
    requires forall k | 0 <= k < |parts| :: parts[k] != [] && Trimmed(parts[k])
    ensures Trimmed(Join(parts, " "))
    ensures |parts| > 0 ==> Join(parts, " ") != []
  {
    if |parts| > 1 {
      JoinTrimmed(parts[1..]);
      var rest := Join(parts[1..], " ");
      assert Join(parts, " ") == parts[0] + " " + rest;
      assert Join(parts, " ")[0] == parts[0][0];
      assert Join(parts, " ")[|Join(parts, " ")| - 1] == rest[|rest| - 1];
    }
  }

  /** When the lines are stripped and non-empty, as the line builder makes them,
      the name is exactly the single-space join of the lines before the "szt"
      line. */
  lemma NameIsJoin(lines: seq<string>, start: nat)
    requires start <= |lines|
    requires forall k | start <= k < |lines| :: lines[k] != [] && Trimmed(lines[k])
    ensures ItemName(lines, start) == Join(lines[start..SztIndex(lines, start)], " ")
  {
    var parts := lines[start..SztIndex(lines, start)];
    assert forall k | 0 <= k < |parts| :: parts[k] == lines[start + k];
    JoinTrimmed(parts);
    StripTrimmed(Join(parts, " "));
  }

  /** The quantity is the default 0 unless a line containing "szt" has a token
      before "szt"; conversion can fail only on such a token, and for a token
      whose whitespace is plain spaces it fails exactly when the token lacks a
      digit or has more than one comma. */
  lemma QuantityCases(lines: seq<string>, start: nat)
    requires start <= |lines|
    ensures var j := SztIndex(lines, start);
      (j == |lines| || QuantityToken(lines[j]).None?) ==> ItemQuantity(lines, start) == Success(Zero)
    ensures var j := SztIndex(lines, start);
      j < |lines| && QuantityToken(lines[j]).Some? ==>
        var t := QuantityToken(lines[j]).value;
        (forall i | 0 <= i < |t| :: IsSpace(t[i]) ==> t[i] == ' ') ==>
          (ItemQuantity(lines, start).Success? <==> Count(t, Digit) >= 1 && Count(t, Comma) <= 1)
  {
    var j := SztIndex(lines, start);
    if j < |lines| && QuantityToken(lines[j]).Some? {
      var t := QuantityToken(lines[j]).value;
      QuantityTokenChars(lines[j]);
      if forall i | 0 <= i < |t| :: IsSpace(t[i]) ==> t[i] == ' ' {
        assert forall i | 0 <= i < |t| :: IsDigit(t[i]) || t[i] == ',' || t[i] == ' ' by {
          forall i | 0 <= i < |t| ensures IsDigit(t[i]) || t[i] == ',' || t[i] == ' ' {
            assert In(t[i], QtyChar);
          }
        }
        CleanedTokenConverts(t);
      }
    }
  }
}

/** The one-line record pattern of layout B,
      ^(\d+)\s+(\d{13})\s+(.+?)\s+([\d,]+)\s+szt   (case-insensitive, anchored
    at the start of the line by re.match), and its greedy twin
      ^\d+\s+\d{13}\s+.+\s+[\d,]+\s+szt
    that the layout classifier uses (pdf-to-excel_app.py lines 158 and 260).
    Both are written out as searches over the positions where the pattern's
    parts begin and end, in the order a backtracking engine tries them. */
module SingleLine {
  import opened Outcomes
  import opened Text

  /** Where the parts of a match end: group 1 is s[..a], the barcode group is
      s[b..c], the name group s[d..e], the quantity group s[f..g], and "szt"
      starts at h. */
  datatype Spans = Spans(a: nat, b: nat, c: nat, d: nat, e: nat, f: nat, g: nat, h: nat)

  /** The pattern, read literally: one or more digits, whitespace, thirteen
      digits, whitespace, at least one character that is not a newline,
      whitespace, digits and commas, whitespace, then "szt" in any case. */
  predicate Shape(s: string, m: Spans) {
    && 0 < m.a && All(s, 0, m.a, Digit)
    && m.a < m.b && All(s, m.a, m.b, Space)
    && m.c == m.b + 13 && All(s, m.b, m.c, Digit)
    && m.c < m.d && All(s, m.c, m.d, Space)
    && m.d < m.e && All(s, m.d, m.e, NotNewline)
    && m.e < m.f && All(s, m.e, m.f, Space)
    && m.f < m.g && All(s, m.f, m.g, DigitOrComma)
    && m.g < m.h && All(s, m.g, m.h, Space)
    && SztAt(s, m.h)
  }

  /** The line matches the pattern in some way. */
  ghost predicate Matches(s: string) {
    exists m :: Shape(s, m)
  }

  /** The part before the name: the leading digit run, the whitespace after it
      and the thirteen digits that follow. A shorter digit or whitespace run
      would be followed by a character the next part cannot start with, so a
      match can only take the longest ones. */
  function Head(s: string): (r: Option<(nat, nat, nat)>)
    ensures r.Some? ==> r.value.1 + 13 == r.value.2 <= |s|
  {
    var a := SpanEnd(s, 0, Digit);
    var b := SpanEnd(s, a, Space);
    if 0 < a < b && b + 13 <= |s| && All(s, b, b + 13, Digit) then Some((a, b, b + 13)) else None
  }

  /** The part after a name that ends at e: whitespace, digits and commas,
      whitespace and "szt". Each run is again the longest one. */
  function Tail(s: string, e: nat): Option<(nat, nat, nat)>
    requires e <= |s|
  {
    var f := SpanEnd(s, e, Space);
    var g := SpanEnd(s, f, DigitOrComma);
    var h := SpanEnd(s, g, Space);
    if e < f < g < h && SztAt(s, h) then Some((f, g, h)) else None
  }

  /** ok[x] says whether the rest of the pattern matches after a name that ends
      at x, for every end x of the line. */
  function Completions(s: string): (ok: seq<bool>)
    ensures |ok| == |s| + 1
  {
    seq(|s| + 1, x requires 0 <= x <= |s| => Tail(s, x).Some?)
  }

  /** The lazy name group: the first end in e..n after which the rest of the
      pattern matches. */
  function LazyFrom(ok: seq<bool>, e: nat, n: nat): (r: Option<nat>)
    requires e <= n < |ok|
    ensures r.Some? ==> e <= r.value <= n && ok[r.value]
    ensures r.Some? ==> forall x | e <= x < r.value :: !ok[x]
    ensures r.None? ==> forall x | e <= x <= n :: !ok[x]
    decreases n - e
  {
    if ok[e] then Some(e) else if e < n then LazyFrom(ok, e + 1, n) else None
  }

  /** No name starting at d can be completed: every end up to the first
      newline fails. */
  predicate NoNameAt(s: string, ok: seq<bool>, d: nat)
    requires d <= |s| < |ok|
  {
    forall x | d < x <= SpanEnd(s, d, NotNewline) :: !ok[x]
  }

  /** The whitespace after the barcode, tried from its longest (ending at d)
      down to a single character; for each, the lazy name. c is where the
      barcode ends. */
  function FromD(s: string, ok: seq<bool>, c: nat, d: nat): (r: Option<(nat, nat)>)
    requires c <= d <= |s| < |ok|
    ensures r.Some? ==> c < r.value.0 <= d && r.value.0 < r.value.1 <= SpanEnd(s, r.value.0, NotNewline)
    ensures r.Some? ==> ok[r.value.1]
    ensures r.Some? ==> forall x | r.value.0 < x < r.value.1 :: !ok[x]
    ensures r.Some? ==> forall y | r.value.0 < y <= d :: NoNameAt(s, ok, y)
    ensures r.None? ==> forall y | c < y <= d :: NoNameAt(s, ok, y)
    decreases d
  {
    if d == c then None
    else
      var n := SpanEnd(s, d, NotNewline);
      var lazy := if d < n then LazyFrom(ok, d + 1, n) else None;
      if lazy.Some? then Some((d, lazy.value)) else FromD(s, ok, c, d - 1)
  }

  /** pattern.match(s) for the parser's pattern: the match the engine reports,
      if any. */
  function Match(s: string): (r: Option<Spans>)
    ensures r.Some? ==> Shape(s, r.value)
  {
    match Head(s)
    case None => None
    case Some((a, b, c)) =>
      var ok := Completions(s);
      match FromD(s, ok, c, SpanEnd(s, c, Space))
      case None => None
      case Some((d, e)) =>
        assert ok[e];
        var (f, g, h) := Tail(s, e).value;
        assert All(s, c, d, Space);
        assert All(s, d, e, NotNewline);
        Some(Spans(a, b, c, d, e, f, g, h))
  }

  /** In every match the digit and whitespace runs before the name are the
      longest ones, and the whitespace after the barcode lies within the
      longest run there. */
  lemma HeadForced(s: string, m: Spans)
    requires Shape(s, m)
    ensures Head(s) == Some((m.a, m.b, m.c))
    ensures m.d <= SpanEnd(s, m.c, Space)
  {
    SpanEndUnique(s, 0, m.a, Digit);
    SpanEndUnique(s, m.a, m.b, Space);
    SpanEndCovers(s, m.c, m.d, Space);
  }

  /** The runs after the name are the longest ones too, and the name stops
      before any newline: only the ends of the whitespace after the barcode and
      of the name are free. */
  lemma TailForced(s: string, m: Spans)
    requires Shape(s, m)
    ensures m.e <= SpanEnd(s, m.d, NotNewline)
    ensures Tail(s, m.e) == Some((m.f, m.g, m.h))
    ensures Completions(s)[m.e]
  {
    SpanEndCovers(s, m.d, m.e, NotNewline);
    SpanEndUnique(s, m.e, m.f, Space);
    SpanEndUnique(s, m.f, m.g, DigitOrComma);
    assert !IsSpace(s[m.h]);
    SpanEndUnique(s, m.g, m.h, Space);
  }

  /** Every way the line matches is found by the engine's search, at or after
      the match the search settles on. */
  lemma MatchCovers(s: string, m: Spans)
    requires Shape(s, m)
    ensures Match(s).Some?
    ensures m.d < Match(s).value.d || (m.d == Match(s).value.d && Match(s).value.e <= m.e)
  {
    HeadForced(s, m);
    TailForced(s, m);
    var ok := Completions(s);
    assert !NoNameAt(s, ok, m.d) by {
      assert m.d < m.e <= SpanEnd(s, m.d, NotNewline) && ok[m.e];
    }
    var found := FromD(s, ok, m.c, SpanEnd(s, m.c, Space));
    assert found.Some? && m.d <= found.value.0;
    assert m.d == found.value.0 ==> found.value.1 <= m.e;
  }

  /** The reported match is the one a backtracking engine finds first: among
      all ways the line matches, the longest whitespace after the barcode, and
      for that the shortest name. The engine reports no match exactly when the
      line does not match at all. */
  lemma MatchFirst(s: string)
    ensures Match(s).Some? <==> Matches(s)
    ensures Match(s).Some? ==> forall m | Shape(s, m) ::
      m.d < Match(s).value.d || (m.d == Match(s).value.d && Match(s).value.e <= m.e)
  {
    if Match(s).Some? {
      assert Shape(s, Match(s).value);
    }
    forall m | Shape(s, m)
      ensures Match(s).Some?
      ensures m.d < Match(s).value.d || (m.d == Match(s).value.d && Match(s).value.e <= m.e)
    {
      MatchCovers(s, m);
    }
  }

  /** The greedy name group: some end in lo..e, tried from e downwards, after
      which the rest of the pattern matches. */
  function GreedyFrom(ok: seq<bool>, lo: nat, e: nat): bool
    requires lo <= e < |ok|
    decreases e - lo
  {
    ok[e] || (lo < e && GreedyFrom(ok, lo, e - 1))
  }

  /** The whitespace after the barcode tried from ending at d downwards, with the
      greedy name for each. */
  function GreedyD(s: string, ok: seq<bool>, c: nat, d: nat): bool
    requires c <= d <= |s| < |ok|
    decreases d
  {
    if d == c then false
    else
      var n := SpanEnd(s, d, NotNewline);
      (d < n && GreedyFrom(ok, d + 1, n)) || GreedyD(s, ok, c, d - 1)
  }

  /** bool(pattern_b.match(s)) for the classifier's greedy pattern. */
  function DetectLine(s: string): bool {
    match Head(s)
    case None => false
    case Some((_, _, c)) => GreedyD(s, Completions(s), c, SpanEnd(s, c, Space))
  }

  lemma {:induction false} GreedyLazy(ok: seq<bool>, lo: nat, e: nat)
    requires lo <= e < |ok|
    ensures GreedyFrom(ok, lo, e) <==> LazyFrom(ok, lo, e).Some?
    decreases e - lo
  {
    if lo < e {
      GreedyLazy(ok, lo, e - 1);
      if LazyFrom(ok, lo, e - 1).None? && !ok[e] {
        assert forall x | lo <= x <= e :: !ok[x];
      }
    }
  }

  lemma {:induction false} GreedyDLazy(s: string, ok: seq<bool>, c: nat, d: nat)
    requires c <= d <= |s| < |ok|
    ensures GreedyD(s, ok, c, d) <==> FromD(s, ok, c, d).Some?
    decreases d
  {
    if d > c {
      var n := SpanEnd(s, d, NotNewline);
      if d < n {
        GreedyLazy(ok, d + 1, n);
      }
      GreedyDLazy(s, ok, c, d - 1);
    }
  }

  /** The classifier's greedy pattern and the parser's lazy one accept the same
      lines: they differ only in where the name group ends. */
  lemma DetectLineIff(s: string)
    ensures DetectLine(s) <==> Match(s).Some?
    ensures DetectLine(s) <==> Matches(s)
  {
    MatchFirst(s);
    if Head(s).Some? {
      var c := Head(s).value.2;
      GreedyDLazy(s, Completions(s), c, SpanEnd(s, c, Space));
    }
  }
}

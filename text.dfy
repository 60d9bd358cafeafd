/** Characters and strings as the parser sees them: the ASCII part of Python's
    str.isspace / regex \s, ASCII digits, lower-casing, and the str methods the
    program calls (strip, split("\n"), join, replace(" ", ""), isdigit, int). */
module Text {

  /** Python's whitespace restricted to ASCII: '\t' '\n' '\v' '\f' '\r' (9..13),
      the separators 0x1c..0x1f, and ' '. str.strip, str.isspace and the regex
      class \s use this set; float() skips a narrower one (Quantity.IsFloatSpace). */
  predicate IsSpace(c: char) {
    var n := c as int;
    n == 32 || 9 <= n <= 13 || 28 <= n <= 31
  }

  predicate IsDigit(c: char) {
    '0' <= c <= '9'
  }

  /** The character classes the program's regular expressions use. */
  datatype Class =
    | Digit          // \d
    | Space          // \s
    | DigitOrComma   // [\d,]
    | QtyChar        // [\d\s,]
    | Comma          // ,
    | NotNewline     // . (any character but a newline)

  predicate In(c: char, k: Class) {
    match k
    case Digit => IsDigit(c)
    case Space => IsSpace(c)
    case DigitOrComma => IsDigit(c) || c == ','
    case QtyChar => IsDigit(c) || IsSpace(c) || c == ','
    case Comma => c == ','
    case NotNewline => c != '\n'
  }

  /** s[i..j] is a well-formed slice made only of characters of class k. */
  predicate All(s: string, i: int, j: int, k: Class) {
    0 <= i <= j <= |s| && forall t | i <= t < j :: In(s[t], k)
  }

  /** A run of class-k characters stays one when cut out of the string. */
  lemma SliceAll(s: string, i: int, j: int, k: Class)
    requires All(s, i, j, k)
    ensures All(s[i..j], 0, j - i, k)
  {
    forall t | 0 <= t < j - i ensures In(s[i..j][t], k) {
      assert s[i..j][t] == s[i + t];
    }
  }

  /** The end of the longest run of class-k characters that starts at i. */
  function SpanEnd(s: string, i: nat, k: Class): (e: nat)
    requires i <= |s|
    ensures i <= e <= |s| && All(s, i, e, k)
    ensures e < |s| ==> !In(s[e], k)
    decreases |s| - i
  {
    if i < |s| && In(s[i], k) then SpanEnd(s, i + 1, k) else i
  }

  /** A run of class-k characters that stops at a character outside k (or at the
      end of s) is the longest run. */
  lemma {:induction false} SpanEndUnique(s: string, i: nat, e: nat, k: Class)
    requires All(s, i, e, k)
    requires e < |s| ==> !In(s[e], k)
    ensures SpanEnd(s, i, k) == e
    decreases e - i
  {
    if i < e {
      SpanEndUnique(s, i + 1, e, k);
    }
  }

  /** Every run of class-k characters from i lies inside the longest one. */
  lemma {:induction false} SpanEndCovers(s: string, i: nat, j: nat, k: Class)
    requires All(s, i, j, k)
    ensures j <= SpanEnd(s, i, k)
    decreases j - i
  {
    if i < j {
      SpanEndCovers(s, i + 1, j, k);
    }
  }

  /** ASCII lower-casing, the part of str.lower and re.IGNORECASE modelled here. */
  function Lower(c: char): char {
    if 'A' <= c <= 'Z' then (c as int + 32) as char else c
  }

  /** "szt" starts at index h, compared without regard to case. */
  predicate SztAt(s: string, h: int) {
    0 <= h && h + 3 <= |s| && Lower(s[h]) == 's' && Lower(s[h + 1]) == 'z' && Lower(s[h + 2]) == 't'
  }

  /** "szt" in s.lower() */
  predicate ContainsSzt(s: string) {
    exists h | 0 <= h <= |s| - 3 :: SztAt(s, h)
  }

  /** pattern in s (case-sensitive substring test) */
  predicate Contains(s: string, pattern: string) {
    exists i | 0 <= i <= |s| - |pattern| :: OccursAt(s, pattern, i)
  }

  predicate OccursAt(s: string, pattern: string, i: int) {
    0 <= i && i + |pattern| <= |s| && s[i..i + |pattern|] == pattern
  }

  /** s.lower().startswith("lp") */
  predicate StartsWithLp(s: string) {
    |s| >= 2 && Lower(s[0]) == 'l' && Lower(s[1]) == 'p'
  }

  /** s.isdigit(): non-empty and made of digits only. */
  predicate IsDigitString(s: string) {
    |s| > 0 && All(s, 0, |s|, Digit)
  }

  /** re.fullmatch(r"\d{13}", s): exactly thirteen digits. */
  predicate IsBarcodeLine(s: string) {
    |s| == 13 && All(s, 0, 13, Digit)
  }

  function DigitValue(c: char): nat {
    if IsDigit(c) then c as int - '0' as int else 0
  }

  /** int(s) for a string of decimal digits. */
  function DigitsValue(s: string): nat {
    if s == [] then 0 else DigitsValue(s[..|s| - 1]) * 10 + DigitValue(s[|s| - 1])
  }

  /** Number of characters of class k in s. */
  function Count(s: string, k: Class): nat {
    if s == [] then 0 else (if In(s[0], k) then 1 else 0) + Count(s[1..], k)
  }

  lemma {:induction false} CountAppend(x: string, y: string, k: Class)
    ensures Count(x + y, k) == Count(x, k) + Count(y, k)
  {
    if x != [] {
      assert (x + y)[1..] == x[1..] + y;
      CountAppend(x[1..], y, k);
    } else {
      assert x + y == y;
    }
  }

  /** A string without leading or trailing whitespace. */
  predicate Trimmed(s: string) {
    s == [] || (!IsSpace(s[0]) && !IsSpace(s[|s| - 1]))
  }

  /** s.lstrip() */
  function StripLeft(s: string): string
    decreases |s|
  {
    if |s| > 0 && IsSpace(s[0]) then StripLeft(s[1..]) else s
  }

  /** lstrip removes a run of whitespace from the front and keeps the rest,
      which does not start with whitespace. */
  lemma {:induction false} StripLeftSpec(s: string)
    ensures |StripLeft(s)| <= |s|
    ensures StripLeft(s) == s[|s| - |StripLeft(s)|..]
    ensures All(s, 0, |s| - |StripLeft(s)|, Space)
    ensures StripLeft(s) == [] || !IsSpace(StripLeft(s)[0])
    decreases |s|
  {
    if |s| > 0 && IsSpace(s[0]) {
      var tail := s[1..];
      StripLeftSpec(tail);
      var n := |s| - |StripLeft(tail)|;
      assert tail[n - 1..] == s[n..];
      forall t | 0 <= t < n ensures IsSpace(s[t]) {
        if t > 0 { assert s[t] == tail[t - 1]; }
      }
    }
  }

  /** s.rstrip() */
  function StripRight(s: string): string
    decreases |s|
  {
    if |s| > 0 && IsSpace(s[|s| - 1]) then StripRight(s[..|s| - 1]) else s
  }

  /** rstrip removes a run of whitespace from the back and keeps the rest,
      which does not end with whitespace. */
  lemma {:induction false} StripRightSpec(s: string)
    ensures |StripRight(s)| <= |s|
    ensures StripRight(s) == s[..|StripRight(s)|]
    ensures All(s, |StripRight(s)|, |s|, Space)
    ensures StripRight(s) == [] || !IsSpace(StripRight(s)[|StripRight(s)| - 1])
    decreases |s|
  {
    if |s| > 0 && IsSpace(s[|s| - 1]) {
      var front := s[..|s| - 1];
      StripRightSpec(front);
      var n := |StripRight(front)|;
      assert front[..n] == s[..n];
      forall t | n <= t < |s| ensures IsSpace(s[t]) {
        if t < |s| - 1 { assert s[t] == front[t]; }
      }
    }
  }

  /** s.strip() */
  function Strip(s: string): (r: string)
    ensures Trimmed(r)
  {
    StripLeftSpec(s);
    StripRightSpec(StripLeft(s));
    var t := StripLeft(s);
    var r := StripRight(t);
    assert r != [] ==> r[0] == t[0];
    r
  }

  /** What strip removes is whitespace on both sides, and what it keeps is the
      part of s between them. */
  lemma StripKeepsMiddle(s: string)
    ensures |StripLeft(s)| <= |s|
    ensures var i := |s| - |StripLeft(s)|;
      && i + |Strip(s)| <= |s|
      && Strip(s) == s[i..i + |Strip(s)|]
      && All(s, 0, i, Space)
      && All(s, i + |Strip(s)|, |s|, Space)
  {
    var t := StripLeft(s);
    StripLeftSpec(s);
    StripRightSpec(t);
    var i := |s| - |t|;
    var r := StripRight(t);
    assert s[i..i + |r|] == t[..|r|];
    forall q | i + |r| <= q < |s| ensures IsSpace(s[q]) {
      assert s[q] == t[q - i];
    }
  }

  /** strip gives the empty string exactly when s is all whitespace. */
  lemma StripEmpty(s: string)
    ensures Strip(s) == [] <==> All(s, 0, |s|, Space)
  {
    var t := StripLeft(s);
    StripLeftSpec(s);
    StripRightSpec(t);
    var i := |s| - |t|;
    if StripRight(t) == [] {
      assert t == [];
    } else {
      assert !IsSpace(s[i]) by {
        assert s[i] == t[0];
      }
    }
  }

  /** strip leaves an already trimmed string as it is. */
  lemma StripTrimmed(s: string)
    requires Trimmed(s)
    ensures Strip(s) == s
  {
    assert StripLeft(s) == s;
    assert StripRight(s) == s;
  }

  /** sep.join(parts) */
  function Join(parts: seq<string>, sep: string): string {
    if |parts| == 0 then ""
    else if |parts| == 1 then parts[0]
    else parts[0] + sep + Join(parts[1..], sep)
  }

  /** s.split("\n") */
  function Split(s: string): (r: seq<string>)
    ensures |r| >= 1
    decreases |s|
  {
    var i := SpanEnd(s, 0, NotNewline);
    if i == |s| then [s] else [s[..i]] + Split(s[i + 1..])
  }

  /** No piece of a split holds a newline. */
  lemma {:induction false} SplitPieces(s: string)
    ensures forall k | 0 <= k < |Split(s)| :: '\n' !in Split(s)[k]
    decreases |s|
  {
    var i := SpanEnd(s, 0, NotNewline);
    assert forall t | 0 <= t < i :: s[..i][t] != '\n';
    if i < |s| {
      SplitPieces(s[i + 1..]);
    }
  }

  /** Joining the pieces of a split with "\n" gives back the text. */
  lemma {:induction false} JoinSplit(s: string)
    ensures Join(Split(s), "\n") == s
    decreases |s|
  {
    var i := SpanEnd(s, 0, NotNewline);
    if i < |s| {
      JoinSplit(s[i + 1..]);
      assert s == s[..i] + "\n" + s[i + 1..];
    }
  }

  /** A newline in the text splits the pieces into those before it and those
      after it. */
  lemma {:induction false} SplitAtNewline(a: string, b: string)
    ensures Split(a + "\n" + b) == Split(a) + Split(b)
    decreases |a|
  {
    var s := a + "\n" + b;
    var i := SpanEnd(a, 0, NotNewline);
    assert All(s, 0, i, NotNewline) by {
      forall t | 0 <= t < i ensures s[t] != '\n' { assert s[t] == a[t]; }
    }
    SpanEndUnique(s, 0, i, NotNewline);
    if i == |a| {
      assert s[i + 1..] == b;
      assert s[..i] == a;
    } else {
      assert s[..i] == a[..i];
      assert s[i + 1..] == a[i + 1..] + "\n" + b;
      SplitAtNewline(a[i + 1..], b);
    }
  }

  /** s.replace(" ", ""): drops the space characters and nothing else. */
  function RemoveSpaces(s: string): string {
    if s == [] then [] else (if s[0] == ' ' then [] else [s[0]]) + RemoveSpaces(s[1..])
  }
}

/** The Quantity column: the captured token turned into a number, the way
    float(token.replace(",", ".")) does it, kept as an exact decimal. */
module Quantity {
  import opened Outcomes
  import opened Text

  /** The number mantissa / 10^scale; "96,00" is Decimal(9600, 2). */
  datatype Decimal = Decimal(mantissa: nat, scale: nat)

  /** The default quantity 0 of a record whose quantity was not found. */
  const Zero := Decimal(0, 0)

  /** The ValueError a parser can raise: float() refused this token, or int()
      refused a digit string longer than MaxStrDigits. */
  datatype ConversionError = NotAFloat(token: string) | TooManyDigits(digits: string)

  /** The digits of the token, with a comma as the decimal point, and at least
      one digit: the strings float() accepts once the comma has become a dot,
      among the strings made of digits and commas. */
  predicate WellFormed(body: string) {
    && All(body, 0, |body|, DigitOrComma)
    && Count(body, Comma) <= 1
    && Count(body, Digit) >= 1
  }

  /** float(token.replace(",", ".")) on the tokens the quantity patterns
      capture, which are made of digits, commas and whitespace: the whitespace
      float() skips is ignored at both ends, and what remains must be digits
      with at most one decimal comma and at least one digit ("5", "5,", ",5",
      "96,00"); any other such token is a ValueError. The other forms float()
      reads (a point, a sign, an exponent, inf, nan, underscores) are not
      modelled and give a failure here. */
  function FromToken(token: string): Result<Decimal, ConversionError> {
    match NumberOf(FloatBody(token))
    case Some(d) => Success(d)
    case None => Failure(NotAFloat(token))
  }

  /** The whitespace float() skips around a number, C's isspace: '\t' '\n'
      '\v' '\f' '\r' and ' ', but not the separators 0x1c..0x1f that str.strip
      and \s also count as whitespace. */
  predicate IsFloatSpace(c: char) {
    var n := c as int;
    n == 32 || 9 <= n <= 13
  }

  /** The text float() reads: the token without the float whitespace at either
      end. */
  function FloatBody(token: string): string
    decreases |token|
  {
    if |token| > 0 && IsFloatSpace(token[0]) then FloatBody(token[1..])
    else if |token| > 0 && IsFloatSpace(token[|token| - 1]) then FloatBody(token[..|token| - 1])
    else token
  }

  /** What float() reads is the middle of the token: only float whitespace lies
      before it (i characters) and after it, and it neither starts nor ends with
      float whitespace. */
  lemma {:induction false} FloatBodyMiddle(token: string) returns (i: nat)
    ensures i + |FloatBody(token)| <= |token|
    ensures FloatBody(token) == token[i..i + |FloatBody(token)|]
    ensures forall t | 0 <= t < i :: IsFloatSpace(token[t])
    ensures forall t | i + |FloatBody(token)| <= t < |token| :: IsFloatSpace(token[t])
    ensures FloatBody(token) == [] || (!IsFloatSpace(FloatBody(token)[0]) && !IsFloatSpace(FloatBody(token)[|FloatBody(token)| - 1]))
    decreases |token|
  {
    var b := FloatBody(token);
    if |token| > 0 && IsFloatSpace(token[0]) {
      var rest := token[1..];
      var j := FloatBodyMiddle(rest);
      i := j + 1;
      assert rest[j..j + |b|] == token[i..i + |b|];
      forall t | 0 <= t < i ensures IsFloatSpace(token[t]) {
        if t > 0 { assert token[t] == rest[t - 1]; }
      }
      forall t | i + |b| <= t < |token| ensures IsFloatSpace(token[t]) {
        assert token[t] == rest[t - 1];
      }
    } else if |token| > 0 && IsFloatSpace(token[|token| - 1]) {
      var front := token[..|token| - 1];
      i := FloatBodyMiddle(front);
      if |front| > 0 {
        assert front[0] == token[0];
      }
      assert i == 0;
      assert front[..|b|] == token[..|b|];
      forall t | i + |b| <= t < |token| ensures IsFloatSpace(token[t]) {
        if t < |token| - 1 { assert token[t] == front[t]; }
      }
    } else {
      i := 0;
    }
  }

  /** sys.int_max_str_digits, CPython's default limit on the number of digits
      int() converts from a string. */
  const MaxStrDigits := 4300

  /** int(digits) for a string of ASCII digits: its value, or a ValueError when
      it has more than MaxStrDigits digits. */
  function IntOf(digits: string): Result<nat, ConversionError> {
    if |digits| > MaxStrDigits then Failure(TooManyDigits(digits)) else Success(DigitsValue(digits))
  }

  /** The number written by a string without surrounding whitespace, if any. */
  function NumberOf(body: string): Option<Decimal> {
    var k := SpanEnd(body, 0, Digit);
    if k == |body| then
      if k > 0 then Some(Decimal(DigitsValue(body), 0)) else None
    else if body[k] == ',' && All(body, k + 1, |body|, Digit) && |body| > 1 then
      Some(Decimal(DigitsValue(body[..k] + body[k + 1..]), |body| - k - 1))
    else
      None
  }

  lemma {:induction false} CountAll(s: string, k: Class)
    requires All(s, 0, |s|, k)
    ensures Count(s, k) == |s|
  {
    if s != [] {
      assert All(s[1..], 0, |s| - 1, k);
      CountAll(s[1..], k);
    }
  }

  lemma {:induction false} CountNone(s: string, k: Class)
    requires forall t | 0 <= t < |s| :: !In(s[t], k)
    ensures Count(s, k) == 0
  {
    if s != [] {
      CountNone(s[1..], k);
    }
  }

  lemma CountAt(s: string, t: nat, k: Class)
    requires t < |s|
    ensures Count(s, k) == Count(s[..t], k) + (if In(s[t], k) then 1 else 0) + Count(s[t + 1..], k)
  {
    assert s == s[..t] + [s[t]] + s[t + 1..];
    CountAppend(s[..t] + [s[t]], s[t + 1..], k);
    CountAppend(s[..t], [s[t]], k);
  }

  lemma DigitsHaveNoComma(s: string)
    requires All(s, 0, |s|, Digit)
    ensures Count(s, Comma) == 0 && Count(s, Digit) == |s|
  {
    CountNone(s, Comma);
    CountAll(s, Digit);
  }

  /** On a token of digits, commas and whitespace, float() succeeds exactly
      when the token is well formed once the whitespace float() skips is
      stripped from its ends. */
  lemma FromTokenSucceeds(token: string)
    ensures FromToken(token).Success? <==> WellFormed(FloatBody(token))
  {
    NumberOfDefined(FloatBody(token));
  }

  /** A token holding one of the separators 0x1c..0x1f never converts: str.strip
      and \s treat them as whitespace, but float() does not skip them. */
  lemma SeparatorRejected(token: string, i: nat)
    requires i < |token| && 28 <= token[i] as int <= 31
    ensures FromToken(token).Failure?
  {
    var b := FloatBody(token);
    var l := FloatBodyMiddle(token);
    assert !IsFloatSpace(token[i]);
    assert l <= i < l + |b|;
    assert b[i - l] == token[i];
    assert !WellFormed(b) by {
      assert !In(b[i - l], DigitOrComma);
    }
    FromTokenSucceeds(token);
  }

  /** int() gives back the number whose decimal digits it reads, for every
      number of at most MaxStrDigits digits. */
  lemma IntOfRoundTrip(n: nat)
    requires |NatDigits(n)| <= MaxStrDigits
    ensures IntOf(NatDigits(n)) == Success(n)
  {
  }

  lemma NumberOfDefined(body: string)
    ensures NumberOf(body).Some? <==> WellFormed(body)
  {
    var k := SpanEnd(body, 0, Digit);
    if k == |body| {
      DigitsHaveNoComma(body);
    } else {
      CountAt(body, k, Comma);
      CountAt(body, k, Digit);
      assert All(body[..k], 0, k, Digit);
      DigitsHaveNoComma(body[..k]);
      if body[k] == ',' {
        CommaCase(body, k);
      } else {
        assert !In(body[k], DigitOrComma);
      }
    }
  }

  lemma CommaCase(body: string, k: nat)
    requires k < |body| && body[k] == ',' && All(body, 0, k, Digit)
    requires Count(body, Comma) == Count(body[k + 1..], Comma) + 1
    requires Count(body, Digit) == k + Count(body[k + 1..], Digit)
    ensures WellFormed(body) <==> All(body, k + 1, |body|, Digit) && |body| > 1
  {
    var rest := body[k + 1..];
    if All(body, k + 1, |body|, Digit) {
      assert All(rest, 0, |rest|, Digit);
      DigitsHaveNoComma(rest);
    } else {
      var t :| k + 1 <= t < |body| && !IsDigit(body[t]);
      if body[t] == ',' {
        CountAt(rest, t - k - 1, Comma);
      } else {
        assert !In(body[t], DigitOrComma);
      }
    }
  }

  lemma {:induction false} RemoveSpacesCount(s: string, k: Class)
    requires !In(' ', k)
    ensures Count(RemoveSpaces(s), k) == Count(s, k)
    ensures forall c | c in RemoveSpaces(s) :: c in s && c != ' '
  {
    if s != [] {
      RemoveSpacesCount(s[1..], k);
      var head := if s[0] == ' ' then [] else [s[0]];
      CountAppend(head, RemoveSpaces(s[1..]), k);
    }
  }

  /** The quantity token of layouts A and C, made of digits, commas and spaces,
      converts exactly when it holds at least one digit and at most one comma:
      "1 234,5" converts, "x" and "1,2,3" raise. */
  lemma CleanedTokenConverts(g: string)
    requires forall t | 0 <= t < |g| :: IsDigit(g[t]) || g[t] == ',' || g[t] == ' '
    ensures FromToken(RemoveSpaces(g)).Success? <==> Count(g, Digit) >= 1 && Count(g, Comma) <= 1
  {
    var c := RemoveSpaces(g);
    RemoveSpacesCount(g, Digit);
    RemoveSpacesCount(g, Comma);
    assert All(c, 0, |c|, DigitOrComma) by {
      forall t | 0 <= t < |c| ensures In(c[t], DigitOrComma) {
        assert c[t] in c;
      }
    }
    FromTokenSucceeds(c);
  }

  function DigitChar(d: nat): char
    requires d < 10
  {
    ('0' as int + d) as char
  }

  /** The decimal digits of n, most significant first. */
  function NatDigits(n: nat): (r: string)
    ensures |r| >= 1 && All(r, 0, |r|, Digit) && DigitsValue(r) == n
    decreases n
  {
    if n < 10 then [DigitChar(n)]
    else
      var r := NatDigits(n / 10) + [DigitChar(n % 10)];
      assert r[..|r| - 1] == NatDigits(n / 10);
      r
  }

  function Zeros(n: nat): (r: string)
    ensures |r| == n && All(r, 0, n, Digit)
  {
    seq(n, _ => '0')
  }

  lemma {:induction false} LeadingZeros(n: nat, x: string)
    ensures DigitsValue(Zeros(n) + x) == DigitsValue(x)
    decreases |x|, n
  {
    if x == [] {
      assert Zeros(n) + x == Zeros(n);
      if n > 0 {
        assert Zeros(n)[..n - 1] == Zeros(n - 1);
        LeadingZeros(n - 1, x);
        assert Zeros(n - 1) + x == Zeros(n - 1);
      }
    } else {
      var y := Zeros(n) + x;
      assert y[..|y| - 1] == Zeros(n) + x[..|x| - 1];
      LeadingZeros(n, x[..|x| - 1]);
    }
  }

  /** The digits of the mantissa, padded with leading zeros so that at least
      one digit stands before the last `scale` ones. */
  function PaddedDigits(d: Decimal): (r: string)
    ensures |r| > d.scale && All(r, 0, |r|, Digit) && DigitsValue(r) == d.mantissa
  {
    var ds := NatDigits(d.mantissa);
    if |ds| > d.scale then ds
    else
      var z := Zeros(d.scale + 1 - |ds|);
      LeadingZeros(|z|, ds);
      assert forall i | 0 <= i < |z + ds| :: (z + ds)[i] == if i < |z| then z[i] else ds[i - |z|];
      z + ds
  }

  /** The canonical token of a decimal: its padded digits with a comma before
      the last `scale` of them. Render(Decimal(9600, 2)) is "96,00". */
  function Render(d: Decimal): string {
    WithComma(PaddedDigits(d), d.scale)
  }

  function WithComma(digits: string, scale: nat): string
    requires scale < |digits|
  {
    var point := |digits| - scale;
    if scale == 0 then digits else digits[..point] + "," + digits[point..]
  }

  /** Converting the canonical token gives back the decimal: every quantity has
      a token that float() turns into exactly that number. */
  lemma RenderRoundTrip(d: Decimal)
    ensures FromToken(Render(d)) == Success(d)
  {
    WithCommaReads(PaddedDigits(d), d.scale);
  }

  /** A trimmed token that writes a number converts to that number. */
  lemma TrimmedConverts(t: string, d: Decimal)
    requires Trimmed(t) && NumberOf(t) == Some(d)
    ensures FromToken(t) == Success(d)
  {
    assert FloatBody(t) == t;
  }

  /** The value float() gives a token whose body is a digit run: that run read
      as a whole number, whatever float whitespace surrounds it. */
  lemma DigitTokenValue(token: string, digits: string)
    requires FloatBody(token) == digits
    requires |digits| > 0 && All(digits, 0, |digits|, Digit)
    ensures FromToken(token) == Success(Decimal(DigitsValue(digits), 0))
  {
    SpanEndUnique(digits, 0, |digits|, Digit);
  }

  /** The value float() gives a token whose body has one comma: the digits on
      both sides read together, with as many decimal places as there are
      digits after the comma. Either side may be empty ("5," is 5, ",5" is
      0.5), and float whitespace may surround the body. */
  lemma CommaTokenValue(token: string, left: string, right: string)
    requires FloatBody(token) == left + "," + right
    requires |left| + |right| > 0
    requires All(left, 0, |left|, Digit) && All(right, 0, |right|, Digit)
    ensures FromToken(token) == Success(Decimal(DigitsValue(left + right), |right|))
  {
    FractionNumber(left, right);
  }

  /** A token with nothing before the comma: ",5" is 0.5. */
  lemma EmptyLeftValue()
    ensures FromToken(",5") == Success(Decimal(5, 1))
  {
    assert FloatBody(",5") == "" + "," + "5";
    CommaTokenValue(",5", "", "5");
    assert "" + "5" == "5" && DigitsValue("5") == 5;
  }

  /** A token with nothing after the comma: "5," is 5. */
  lemma EmptyRightValue()
    ensures FromToken("5,") == Success(Decimal(5, 0))
  {
    assert FloatBody("5,") == "5" + "," + "";
    CommaTokenValue("5,", "5", "");
    assert "5" + "" == "5" && DigitsValue("5") == 5;
  }

  /** Float whitespace around the body is skipped: " 12,5\t" is 12.5. */
  lemma PaddedTokenValue()
    ensures FromToken(" 12,5\t") == Success(Decimal(125, 1))
  {
    var t := " 12,5\t";
    assert t[1..] == "12,5\t" && "12,5\t"[..4] == "12,5";
    assert FloatBody("12,5") == "12" + "," + "5";
    assert FloatBody(t) == FloatBody("12,5");
    CommaTokenValue(t, "12", "5");
    var v := "12" + "5";
    assert v[..2] == "12" && v[..2][..1] == "1" && v[..2][..1][..0] == "";
    assert DigitsValue("1") == 1;
    assert DigitsValue("12") == 12;
    assert DigitsValue(v) == 125;
  }

  lemma WithCommaReads(digits: string, scale: nat)
    requires scale < |digits| && All(digits, 0, |digits|, Digit)
    ensures FromToken(WithComma(digits, scale)) == Success(Decimal(DigitsValue(digits), scale))
  {
    if scale == 0 {
      assert NumberOf(digits) == Some(Decimal(DigitsValue(digits), 0)) by {
        SpanEndUnique(digits, 0, |digits|, Digit);
      }
      TrimmedConverts(digits, Decimal(DigitsValue(digits), 0));
    } else {
      var point := |digits| - scale;
      var left, right := digits[..point], digits[point..];
      Rejoin(digits, point);
      assert All(left, 0, |left|, Digit) && All(right, 0, |right|, Digit) by {
        forall i | 0 <= i < |left| ensures IsDigit(left[i]) { assert left[i] == digits[i]; }
        forall i | 0 <= i < |right| ensures IsDigit(right[i]) { assert right[i] == digits[point + i]; }
      }
      FractionReads(left, right);
      assert WithComma(digits, scale) == left + "," + right;
    }
  }

  lemma Rejoin(s: string, n: nat)
    requires n <= |s|
    ensures s[..n] + s[n..] == s
  {
  }

  lemma FractionReads(left: string, right: string)
    requires |left| > 0 && |right| > 0
    requires All(left, 0, |left|, Digit) && All(right, 0, |right|, Digit)
    ensures FromToken(left + "," + right) == Success(Decimal(DigitsValue(left + right), |right|))
  {
    var t := left + "," + right;
    assert Trimmed(t) by {
      assert t[0] == left[0] && t[|t| - 1] == right[|right| - 1];
    }
    FractionNumber(left, right);
    TrimmedConverts(t, Decimal(DigitsValue(left + right), |right|));
  }

  lemma FractionNumber(left: string, right: string)
    requires |left| + |right| > 0
    requires All(left, 0, |left|, Digit) && All(right, 0, |right|, Digit)
    ensures NumberOf(left + "," + right) == Some(Decimal(DigitsValue(left + right), |right|))
  {
    var t := left + "," + right;
    var k := |left|;
    assert SpanEnd(t, 0, Digit) == k by {
      assert All(t, 0, k, Digit) by {
        forall i | 0 <= i < k ensures IsDigit(t[i]) { assert t[i] == left[i]; }
      }
      SpanEndUnique(t, 0, k, Digit);
    }
    assert All(t, k + 1, |t|, Digit) by {
      forall i | k + 1 <= i < |t| ensures IsDigit(t[i]) { assert t[i] == right[i - k - 1]; }
    }
    assert t[..k] == left && t[k + 1..] == right;
  }
}

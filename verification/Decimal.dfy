/** Decimal text: what the generator prints and what the client reads back. */
module Decimal {
  import opened Models

  function Digit(d: nat): char
    requires d < 10
  {
    ('0' as int + d) as char
  }

  predicate IsDigit(c: char) {
    '0' <= c <= '9'
  }

  predicate AllDigits(s: string) {
    forall i :: 0 <= i < |s| ==> IsDigit(s[i])
  }

  function Pow10(k: nat): (p: nat)
    ensures p >= 1
  {
    if k == 0 then 1 else 10 * Pow10(k - 1)
  }

  function DigitsValue(s: string): nat
    requires AllDigits(s)
  {
    if s == [] then 0
    else DigitsValue(s[..|s| - 1]) * 10 + (s[|s| - 1] as int - '0' as int)
  }

  function FormatNat(n: nat): string {
    if n < 10 then [Digit(n)] else FormatNat(n / 10) + [Digit(n % 10)]
  }

  /** Prints at least `width` digits, padding with zeros on the left (`%0*d`). */
  function PadNat(n: nat, width: nat): string {
    if |FormatNat(n)| >= width then FormatNat(n)
    else seq(width - |FormatNat(n)|, _ => '0') + FormatNat(n)
  }

  /** Printing with `%d`. */
  function FormatInt(n: int): string {
    if n < 0 then "-" + FormatNat(-n) else FormatNat(n)
  }

  /** Printing the number `units / 10^places` with `%.<places>f`. */
  function FormatFixed(units: int, places: nat): string
    requires places > 0
  {
    var n: nat := if units < 0 then -units else units;
    var unit := Pow10(places);
    (if units < 0 then "-" else "") + (FormatNat(Quotient(n, unit)) + "." + PadNat(Remainder(n, unit), places))
  }

  function Quotient(n: nat, d: nat): (q: nat)
    requires d > 0
  {
    n / d
  }

  function Remainder(n: nat, d: nat): (r: nat)
    requires d > 0
    ensures r < d
    ensures n == Quotient(n, d) * d + r
  {
    n % d
  }

  /** The position of the first `c` in `s`, or the length of `s`. */
  function IndexOf(s: string, c: char): (i: nat)
    ensures i <= |s|
    ensures forall k :: 0 <= k < i ==> s[k] != c
    ensures i < |s| ==> s[i] == c
  {
    if s == [] || s[0] == c then 0 else 1 + IndexOf(s[1..], c)
  }

  predicate Signed(s: string) {
    |s| > 0 && (s[0] == '-' || s[0] == '+')
  }

  function Unsigned(s: string): string {
    if Signed(s) then s[1..] else s
  }

  /** A base-ten 64-bit integer: sign, digits, nothing else, in range. */
  function ParseInt(s: string): Option<int> {
    var body := Unsigned(s);
    if body == [] || !AllDigits(body) then None
    else
      var magnitude: int := DigitsValue(body);
      var n := if s[0] == '-' then -magnitude else magnitude;
      if INT64_MIN <= n <= INT64_MAX then Some(n) else None
  }

  /** The number `units / 10^places`. */
  datatype Fixed = Fixed(units: int, places: nat) {
    function ToReal(): real {
      units as real / Pow10(places) as real
    }
  }

  /** Digits with an optional point. */
  function ParseUnsigned(body: string): Option<Fixed> {
    var dot := IndexOf(body, '.');
    var digits := if dot == |body| then body else body[..dot] + body[dot + 1..];
    if digits == [] || !AllDigits(digits) then None
    else Some(Fixed(DigitsValue(digits), if dot == |body| then 0 else |body| - dot - 1))
  }

  /** A plain decimal number: sign, digits, optional point, digits. */
  function ParseFixed(s: string): Option<Fixed> {
    match ParseUnsigned(Unsigned(s))
    case None => None
    case Some(x) => Some(if s != [] && s[0] == '-' then Fixed(-x.units, x.places) else x)
  }

  function ParseFloat(s: string): Option<real> {
    var fixed := ParseFixed(s);
    if fixed.None? then None else Some(fixed.value.ToReal())
  }

  lemma {:induction false} DigitsValueAppend(a: string, b: string)
    requires AllDigits(a) && AllDigits(b)
    ensures AllDigits(a + b)
    ensures DigitsValue(a + b) == DigitsValue(a) * Pow10(|b|) + DigitsValue(b)
  {
    if b == [] {
      assert a + b == a;
    } else {
      var front := b[..|b| - 1];
      DigitsValueAppend(a, front);
      assert (a + b)[..|a + b| - 1] == a + front;
      assert Pow10(|b|) == 10 * Pow10(|front|);
      calc {
        DigitsValue(a + b);
        (DigitsValue(a) * Pow10(|front|) + DigitsValue(front)) * 10 + (b[|b| - 1] as int - '0' as int);
        { MulRegroup(DigitsValue(a), Pow10(|front|)); }
        DigitsValue(a) * Pow10(|b|) + DigitsValue(b);
      }
    }
  }

  lemma MulRegroup(x: int, y: int)
    ensures (x * y) * 10 == x * (10 * y)
  {
  }

  lemma {:induction false} FormatNatReads(n: nat)
    ensures FormatNat(n) != [] && AllDigits(FormatNat(n)) && DigitsValue(FormatNat(n)) == n
  {
    if n < 10 {
      assert [Digit(n)][..0] == [];
    } else {
      FormatNatReads(n / 10);
      var s := FormatNat(n);
      assert s[..|s| - 1] == FormatNat(n / 10);
    }
  }

  lemma {:induction false} ZerosValue(k: nat)
    ensures AllDigits(seq(k, _ => '0')) && DigitsValue(seq(k, _ => '0')) == 0
  {
    if k > 0 {
      ZerosValue(k - 1);
      assert seq(k, _ => '0')[..k - 1] == seq(k - 1, _ => '0');
    }
  }

  lemma PadNatReads(n: nat, width: nat)
    ensures PadNat(n, width) != [] && AllDigits(PadNat(n, width)) && DigitsValue(PadNat(n, width)) == n
    ensures |PadNat(n, width)| >= width
  {
    FormatNatReads(n);
    hide FormatNat, DigitsValue, Pow10, AllDigits;
    var digits := FormatNat(n);
    if |digits| < width {
      var zeros := seq(width - |digits|, _ => '0');
      ZerosValue(width - |digits|);
      DigitsValueAppend(zeros, digits);
      assert 0 * Pow10(|digits|) == 0;
      assert PadNat(n, width) == zeros + digits;
    }
  }

  lemma PadNatInjective(m: nat, n: nat, width: nat)
    requires PadNat(m, width) == PadNat(n, width)
    ensures m == n
  {
    PadNatReads(m, width);
    PadNatReads(n, width);
  }

  lemma {:induction false} FormatNatShort(n: nat, k: nat)
    requires k >= 1 && n < Pow10(k)
    ensures |FormatNat(n)| <= k
  {
    if n >= 10 {
      assert Pow10(k) == 10 * Pow10(k - 1) && Pow10(0) == 1;
      FormatNatShort(n / 10, k - 1);
    }
  }

  lemma PointAfter(whole: string, frac: string)
    requires AllDigits(whole)
    ensures IndexOf(whole + "." + frac, '.') == |whole|
  {
    var body := whole + "." + frac;
    assert body[|whole|] == '.';
    assert forall i :: 0 <= i < |whole| ==> body[i] == whole[i] && IsDigit(whole[i]);
  }

  lemma SignPrefix(negative: bool, body: string)
    requires body != [] && IsDigit(body[0])
    ensures
      var s := (if negative then "-" else "") + body;
      s != [] && Unsigned(s) == body && (s[0] == '-') == negative
  {
    assert body[0] != '-' && body[0] != '+';
    if negative {
      assert ("-" + body)[1..] == body;
    } else {
      assert "" + body == body;
      assert ("" + body)[0] == body[0];
      assert Unsigned(body) == body;
    }
  }

  /** Reading back a printed integer gives the integer, if it fits 64 bits. */
  lemma IntRoundTrip(n: int)
    ensures ParseInt(FormatInt(n)) == if INT64_MIN <= n <= INT64_MAX then Some(n) else None
  {
    var m: nat := if n < 0 then -n else n;
    FormatNatReads(m);
    SignPrefix(n < 0, FormatNat(m));
    assert FormatInt(n) == (if n < 0 then "-" else "") + FormatNat(m);
  }

  lemma ParseUnsignedPieces(whole: string, frac: string)
    requires whole + frac != [] && AllDigits(whole) && AllDigits(frac)
    ensures AllDigits(whole + frac)
    ensures ParseUnsigned(whole + "." + frac) == Some(Fixed(DigitsValue(whole + frac), |frac|))
  {
    var body := whole + "." + frac;
    PointAfter(whole, frac);
    assert body[..|whole|] == whole && body[|whole| + 1..] == frac;
  }

  lemma ParseSigned(negative: bool, body: string, x: Fixed)
    requires body != [] && IsDigit(body[0]) && ParseUnsigned(body) == Some(x)
    ensures ParseFixed((if negative then "-" else "") + body)
         == Some(if negative then Fixed(-x.units, x.places) else x)
  {
    SignPrefix(negative, body);
  }

  /** Reading back a number printed with a fixed number of places gives exactly
      that number. */
  lemma FixedRoundTrip(units: int, places: nat)
    requires places > 0
    ensures ParseFixed(FormatFixed(units, places)) == Some(Fixed(units, places))
    ensures ParseFloat(FormatFixed(units, places)) == Some(Fixed(units, places).ToReal())
  {
    hide Quotient, Remainder, ParseUnsigned, PadNat, Fixed.ToReal;
    var n: nat := if units < 0 then -units else units;
    var p := Pow10(places);
    var whole, frac := FormatNat(Quotient(n, p)), PadNat(Remainder(n, p), places);
    PiecesValue(n, places);
    ParseUnsignedPieces(whole, frac);
    assert (whole + "." + frac)[0] == whole[0];
    ParseSigned(units < 0, whole + "." + frac, Fixed(n, places));
  }

  lemma PiecesValue(n: nat, places: nat)
    requires places > 0
    ensures
      var whole := FormatNat(Quotient(n, Pow10(places)));
      var frac := PadNat(Remainder(n, Pow10(places)), places);
      && whole != [] && AllDigits(whole) && AllDigits(frac) && |frac| == places
      && AllDigits(whole + frac) && DigitsValue(whole + frac) == n
  {
    var p := Pow10(places);
    var q, r := Quotient(n, p), Remainder(n, p);
    FormatNatReads(q);
    PadNatReads(r, places);
    FormatNatShort(r, places);
    DigitsValueAppend(FormatNat(q), PadNat(r, places));
  }

  // ----- the texts themselves -----

  /** A printed number has no leading zero, except for zero itself. */
  lemma {:induction false} NoLeadingZero(n: nat)
    ensures FormatNat(n)[0] == '0' <==> n == 0
  {
    if n >= 10 {
      NoLeadingZero(n / 10);
    }
  }

  /** Padding adds zeros up to the width and no further. */
  lemma PadNatText(n: nat, width: nat)
    ensures AllDigits(PadNat(n, width)) && DigitsValue(PadNat(n, width)) == n
    ensures |PadNat(n, width)| >= width && |PadNat(n, width)| >= 1
    ensures |PadNat(n, width)| > width && n > 0 ==> PadNat(n, width)[0] != '0'
  {
    PadNatReads(n, width);
    NoLeadingZero(n);
  }

  /** A fixed-point number is printed with a sign if it is negative, digits, a point, and
      as many digits as there are places. */
  lemma FixedText(units: int, places: nat)
    requires places > 0
    ensures exists whole, frac ::
              && FormatFixed(units, places) == (if units < 0 then "-" else "") + (whole + "." + frac)
              && whole != [] && AllDigits(whole) && AllDigits(frac) && |frac| == places
              && AllDigits(whole + frac) && DigitsValue(whole + frac) == (if units < 0 then -units else units)
  {
    PiecesValue(if units < 0 then -units else units, places);
    hide Pow10, FormatNat, PadNat, DigitsValue, AllDigits;
  }

  /** What the formats print, by example. */
  lemma PrintedExamples()
    ensures FormatNat(1024) == "1024" && FormatInt(-45) == "-45"
    ensures PadNat(7, 3) == "007" && PadNat(1024, 3) == "1024"
    ensures FormatFixed(123_45, 2) == "123.45" && FormatFixed(-5, 3) == "-0.005"
  {
    PrintedNumbers();
    PrintedPadding();
    PrintedFixed();
  }

  lemma PrintedNumbers()
    ensures FormatNat(1024) == "1024" && FormatNat(45) == "45" && FormatNat(123) == "123" && FormatInt(-45) == "-45"
    ensures FormatNat(7) == "7" && FormatNat(5) == "5" && FormatNat(0) == "0"
  {
    FormatOne(0);
    FormatOne(1);
    FormatOne(4);
    FormatOne(5);
    FormatOne(7);
    FormatSmall(1, 0);
    FormatSmall(10, 2);
    FormatSmall(102, 4);
    FormatSmall(4, 5);
    FormatSmall(1, 2);
    FormatSmall(12, 3);
    hide FormatNat;
  }

  lemma PrintedPadding()
    ensures PadNat(7, 3) == "007" && PadNat(5, 3) == "005" && PadNat(1024, 3) == "1024" && PadNat(45, 2) == "45"
  {
    PrintedNumbers();
    hide FormatNat;
    assert seq(2, _ => '0') == "00";
  }

  lemma PrintedFixed()
    ensures FormatFixed(123_45, 2) == "123.45" && FormatFixed(-5, 3) == "-0.005"
  {
    PrintedNumbers();
    PrintedPadding();
    assert Pow10(0) == 1 && Pow10(1) == 10 && Pow10(2) == 100 && Pow10(3) == 1000;
    assert Quotient(123_45, 100) == 123 && Remainder(123_45, 100) == 45;
    assert Quotient(5, 1000) == 0 && Remainder(5, 1000) == 5;
    hide FormatNat, PadNat, Pow10, Quotient, Remainder;
  }

  /** Either sign may stand before the digits, and a plus sign changes nothing. */
  lemma SignsRead(body: string)
    requires body != [] && (IsDigit(body[0]) || body[0] == '.')
    ensures Unsigned("+" + body) == body && Unsigned("-" + body) == body && Unsigned(body) == body
    ensures ParseFixed("+" + body) == ParseFixed(body) && ParseInt("+" + body) == ParseInt(body)
    ensures ParseFixed(body).None? ==> ParseFixed("-" + body).None?
    ensures ParseFixed(body).Some? ==>
              ParseFixed("-" + body) == Some(Fixed(-ParseFixed(body).value.units, ParseFixed(body).value.places))
  {
    hide ParseUnsigned, DigitsValue, AllDigits;
    assert ("+" + body)[1..] == body && ("-" + body)[1..] == body;
    assert Unsigned("+" + body) == body && Unsigned("-" + body) == body && Unsigned(body) == body;
    hide Unsigned;
  }

  /** Exactly the texts of at least one digit, after an optional sign, are read as integers,
      if they fit 64 bits. */
  lemma ParseIntIff(s: string)
    ensures ParseInt(s).Some? <==>
              && Unsigned(s) != [] && AllDigits(Unsigned(s))
              && (s[0] == '-' ==> DigitsValue(Unsigned(s)) <= 0x8000_0000_0000_0000)
              && (s[0] != '-' ==> DigitsValue(Unsigned(s)) < 0x8000_0000_0000_0000)
    ensures ParseInt("") == None && ParseInt("-") == None && ParseFloat("") == None && ParseFloat(".") == None
  {
    assert IndexOf(".", '.') == 0;
    hide DigitsValue;
  }

  lemma FormatSmall(n: nat, d: nat)
    requires n > 0 && d < 10
    ensures FormatNat(10 * n + d) == FormatNat(n) + [Digit(d)]
  {
    assert (10 * n + d) / 10 == n && (10 * n + d) % 10 == d;
  }

  lemma FormatOne(d: nat)
    requires d < 10
    ensures FormatNat(d) == [Digit(d)]
  {
  }

  /** A text without sign that shows a number: digits, or digits around a point, and at
      least one digit. */
  predicate Shows(body: string, whole: string, frac: string) {
    && AllDigits(whole) && AllDigits(frac) && AllDigits(whole + frac) && whole + frac != []
    && (body == whole + "." + frac || (body == whole && frac == []))
  }

  /** The number shown by digits around a point, negative after a minus sign. */
  function Shown(s: string, whole: string, frac: string): real
    requires s != [] && AllDigits(whole + frac)
  {
    var n: int := DigitsValue(whole + frac);
    (if s[0] == '-' then -n else n) as real / Pow10(|frac|) as real
  }

  /** Exactly the texts that show a number, after an optional sign, are read, and as the
      number they show. */
  lemma ParseFloatIff(s: string)
    ensures ParseFloat(s).Some? <==> exists whole, frac :: Shows(Unsigned(s), whole, frac)
    ensures forall whole, frac | Shows(Unsigned(s), whole, frac) ::
              s != [] && AllDigits(whole + frac) && ParseFloat(s) == Some(Shown(s, whole, frac))
  {
    forall whole, frac | Shows(Unsigned(s), whole, frac)
      ensures s != [] && AllDigits(whole + frac) && ParseFloat(s) == Some(Shown(s, whole, frac))
    {
      ShownIsRead(s, whole, frac);
    }
    hide Shows, Shown, AllDigits, ParseFixed, Fixed.ToReal;
    if ParseFloat(s).Some? {
      ParsedBody(s);
      var whole, frac := ReadIsShown(Unsigned(s));
    }
  }

  lemma ParsedBody(s: string)
    requires ParseFloat(s).Some?
    ensures ParseUnsigned(Unsigned(s)).Some?
  {
    hide ParseUnsigned, Fixed.ToReal;
  }

  lemma ShownIsRead(s: string, whole: string, frac: string)
    requires Shows(Unsigned(s), whole, frac)
    ensures s != [] && ParseFloat(s) == Some(Shown(s, whole, frac))
  {
    BodyIsRead(Unsigned(s), whole, frac);
    hide Shows, ParseUnsigned, DigitsValue, Pow10, AllDigits;
  }

  lemma BodyIsRead(body: string, whole: string, frac: string)
    requires Shows(body, whole, frac)
    ensures body != [] && AllDigits(whole + frac)
    ensures ParseUnsigned(body) == Some(Fixed(DigitsValue(whole + frac), |frac|))
  {
    hide DigitsValue, ParseUnsigned, AllDigits;
    if body == whole + "." + frac {
      ParseUnsignedPieces(whole, frac);
    } else {
      DigitsOnly(whole);
      assert whole + frac == whole;
    }
  }

  lemma DigitsOnly(whole: string)
    requires AllDigits(whole) && whole != []
    ensures ParseUnsigned(whole) == Some(Fixed(DigitsValue(whole), 0))
  {
    NoPoint(whole);
    hide DigitsValue;
  }

  lemma ReadIsShown(body: string) returns (whole: string, frac: string)
    requires ParseUnsigned(body).Some?
    ensures Shows(body, whole, frac)
  {
    hide DigitsValue, AllDigits;
    var dot := IndexOf(body, '.');
    if dot == |body| {
      whole, frac := body, [];
      assert whole + frac == body;
      DigitsAround(whole, frac);
    } else {
      whole, frac := body[..dot], body[dot + 1..];
      DigitsAround(whole, frac);
      assert body == whole + "." + frac;
    }
  }

  lemma DigitsAround(whole: string, frac: string)
    requires AllDigits(whole + frac)
    ensures AllDigits(whole) && AllDigits(frac)
  {
    assert forall i :: 0 <= i < |whole| ==> (whole + frac)[i] == whole[i];
    assert forall i :: 0 <= i < |frac| ==> (whole + frac)[|whole| + i] == frac[i];
  }

  lemma NoPoint(digits: string)
    requires AllDigits(digits)
    ensures IndexOf(digits, '.') == |digits|
  {
  }
}

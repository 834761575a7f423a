/**
  Amounts as text: printing cents as yuan (backend/internal/payment/usecase/alipay_page_pay_uc.go) and
  reading yuan back as cents (alipay_notify_uc.go).
 */
module Money {
  import opened Options

  predicate IsDigit(c: char) {
    '0' <= c <= '9'
  }

  function DigitChar(d: int): char
    requires 0 <= d < 10
  {
    '0' + d as char
  }

  function DigitValue(c: char): int
    requires IsDigit(c)
  {
    c as int - '0' as int
  }

  /** %d of a number that is not negative. */
  function Decimal(n: nat): (s: string)
    ensures s != "" && forall i :: 0 <= i < |s| ==> IsDigit(s[i])
  {
    if n < 10 then [DigitChar(n)] else Decimal(n / 10) + [DigitChar(n % 10)]
  }

  /** %02d of a number below 100. */
  function TwoDigits(n: int): string
    requires 0 <= n < 100
  {
    [DigitChar(n / 10), DigitChar(n % 10)]
  }

  /** centsToYuan. */
  function CentsToYuan(total: int): string {
    var sign, t := if total < 0 then "-" else "", if total < 0 then -total else total;
    sign + Decimal(t / 100) + "." + TwoDigits(t % 100)
  }

  // ---------------------------------------------------------------- reading a decimal number

  predicate AllDigits(s: string) {
    forall i :: 0 <= i < |s| ==> IsDigit(s[i])
  }

  function Number(s: string): nat
    requires AllDigits(s)
  {
    if s == "" then 0 else 10 * Number(s[..|s| - 1]) + DigitValue(s[|s| - 1])
  }

  function Power10(n: nat): (p: nat)
    ensures p > 0
  {
    if n == 0 then 1 else 10 * Power10(n - 1)
  }

  /** Position of the first dot, or the length when there is none. */
  function Dot(s: string): (k: nat)
    ensures k <= |s| && '.' !in s[..k] && (k < |s| ==> s[k] == '.')
  {
    if s == "" || s[0] == '.' then 0
    else
      var k := Dot(s[1..]);
      assert s[..k + 1] == [s[0]] + s[1..][..k];
      k + 1
  }

  function Value(whole: string, frac: string): real
    requires AllDigits(whole) && AllDigits(frac)
  {
    Number(whole) as real + Number(frac) as real / Power10(|frac|) as real
  }

  /** The value of an unsigned decimal, digits with at most one dot. */
  function Unsigned(s: string): Option<real> {
    var k := Dot(s);
    var whole, frac := s[..k], if k < |s| then s[k + 1..] else "";
    if AllDigits(whole) && AllDigits(frac) && whole + frac != "" then
      Some(Value(whole, frac))
    else None
  }

  /** The exact value of a decimal with an optional sign; exponents, infinities and the like are not
      part of this model. */
  function ParseDecimal(s: string): Option<real> {
    if s != "" && (s[0] == '-' || s[0] == '+') then
      match Unsigned(s[1..])
      case None => None
      case Some(v) => Some(if s[0] == '-' then -v else v)
    else Unsigned(s)
  }

  /** int64(x): truncation towards zero. */
  function Truncate(x: real): int {
    if x >= 0.0 then x.Floor else -((-x).Floor)
  }

  /** yuanStringToCents. `err` is how far the machine's f * 100 is from the exact value. */
  function YuanStringToCents(s: string, err: real): Option<int> {
    ToCents(ParseDecimal(s), err)
  }

  function ToCents(yuan: Option<real>, err: real): Option<int> {
    match yuan
    case None => None
    case Some(v) => Some(Truncate(v * 100.0 + err + 0.5))
  }

  // ---------------------------------------------------------------- the round trip

  lemma {:induction false} NumberOfDecimal(n: nat)
    ensures Number(Decimal(n)) == n
  {
    if n >= 10 {
      NumberOfDecimal(n / 10);
      var front := Decimal(n / 10);
      assert Decimal(n)[..|Decimal(n)| - 1] == front;
    } else {
      assert Decimal(n)[..0] == "";
    }
  }

  lemma NumberOfTwoDigits(n: int)
    requires 0 <= n < 100
    ensures AllDigits(TwoDigits(n)) && Number(TwoDigits(n)) == n
  {
    var s := TwoDigits(n);
    assert s[..1] == [s[0]] && s[..1][..0] == "";
    assert Number(s[..1]) == DigitValue(s[0]);
  }

  lemma {:induction false} DotAfterDigits(x: string, y: string)
    requires AllDigits(x)
    ensures Dot(x + "." + y) == |x|
  {
    if x == "" {
      assert x + "." + y == "." + y;
    } else {
      DotAfterDigits(x[1..], y);
      assert (x + "." + y)[1..] == x[1..] + "." + y;
    }
  }

  lemma UnsignedOfParts(whole: string, frac: string)
    requires AllDigits(whole) && AllDigits(frac) && whole != ""
    ensures Unsigned(whole + "." + frac) == Some(Value(whole, frac))
  {
    var s := whole + "." + frac;
    DotAfterDigits(whole, frac);
    assert s[..|whole|] == whole && s[|whole| + 1..] == frac;
  }

  lemma UnsignedOfPrinted(t: nat)
    ensures Unsigned(Decimal(t / 100) + "." + TwoDigits(t % 100)) == Some(t as real / 100.0)
  {
    NumberOfTwoDigits(t % 100);
    UnsignedOfParts(Decimal(t / 100), TwoDigits(t % 100));
    PrintedValue(t);
  }

  lemma PrintedValue(t: nat)
    requires AllDigits(TwoDigits(t % 100))
    ensures Value(Decimal(t / 100), TwoDigits(t % 100)) == t as real / 100.0
  {
    NumberOfDecimal(t / 100);
    NumberOfTwoDigits(t % 100);
    assert Power10(2) == 100;
    assert t == t / 100 * 100 + t % 100;
  }

  lemma PrintedStart(t: nat)
    ensures CentsToYuan(t) == Decimal(t / 100) + "." + TwoDigits(t % 100)
    ensures IsDigit(CentsToYuan(t)[0])
  {
    var whole := Decimal(t / 100);
    assert "" + whole == whole;
    assert CentsToYuan(t)[0] == whole[0];
  }

  lemma PrintedNegative(t: int)
    requires t > 0
    ensures CentsToYuan(-t) == "-" + CentsToYuan(t)
  {
    var whole, frac := Decimal(t / 100), TwoDigits(t % 100);
    assert "" + whole == whole;
    assert "-" + whole + "." + frac == "-" + (whole + "." + frac);
  }

  lemma PositiveIsExact(t: nat)
    ensures Unsigned(CentsToYuan(t)) == Some(t as real / 100.0)
    ensures ParseDecimal(CentsToYuan(t)) == Some(t as real / 100.0)
  {
    PrintedStart(t);
    UnsignedOfPrinted(t);
  }

  lemma SignedParse(s: string)
    ensures ParseDecimal("-" + s) == match Unsigned(s) case None => None case Some(v) => Some(-v)
  {
    assert ("-" + s)[1..] == s;
  }

  lemma NegativeIsExact(t: int)
    requires t > 0
    ensures ParseDecimal(CentsToYuan(-t)) == Some(-(t as real / 100.0))
  {
    PositiveIsExact(t);
    PrintedNegative(t);
    SignedParse(CentsToYuan(t));
  }

  /** The printed text denotes the amount exactly, whatever its sign. */
  lemma PrintedIsExact(total: int)
    ensures ParseDecimal(CentsToYuan(total)) == Some(total as real / 100.0)
  {
    if total < 0 {
      var t := -total;
      NegativeIsExact(t);
      assert -t == total && -(t as real) == total as real;
    } else {
      PositiveIsExact(total);
    }
  }

  /** Round trip: an amount that is not negative comes back from its own text, even when the machine's
      product is off by anything less than half a cent. */
  lemma RoundTrip(total: nat, err: real)
    requires -0.5 < err < 0.5
    ensures YuanStringToCents(CentsToYuan(total), err) == Some(total)
  {
    PrintedIsExact(total);
    var x := total as real + err + 0.5;
    assert total as real / 100.0 * 100.0 == total as real;
    assert x.Floor == total;
  }

  /** With exact arithmetic the amounts that come back are exactly those that are not negative; a
      negative one comes back one cent larger. */
  lemma RoundTripIff(total: int)
    ensures YuanStringToCents(CentsToYuan(total), 0.0) == Some(total) <==> total >= 0
    ensures total < 0 ==> YuanStringToCents(CentsToYuan(total), 0.0) == Some(total + 1)
  {
    PrintedIsExact(total);
    assert total as real / 100.0 * 100.0 == total as real;
    if total < 0 {
      var x := -(total as real + 0.5);
      assert x == (-total - 1) as real + 0.5;
      assert x.Floor == -total - 1;
    } else {
      assert (total as real + 0.5).Floor == total;
    }
  }

  /** Two amounts never print as the same text. */
  lemma PrintsDiffer(x: int, y: int)
    requires CentsToYuan(x) == CentsToYuan(y)
    ensures x == y
  {
    PrintedIsExact(x);
    PrintedIsExact(y);
    assert x as real / 100.0 * 100.0 == x as real && y as real / 100.0 * 100.0 == y as real;
  }

  lemma {:induction false} FirstDot(s: string, k: nat)
    requires k < |s| && s[k] == '.' && forall i :: 0 <= i < k ==> s[i] != '.'
    ensures Dot(s) == k
  {
    if k > 0 {
      FirstDot(s[1..], k - 1);
    }
  }

  lemma {:induction false} NoDot(s: string)
    requires '.' !in s
    ensures Dot(s) == |s|
  {
    if s != "" {
      assert s[0] in s && forall c :: c in s[1..] ==> c in s;
      NoDot(s[1..]);
    }
  }

  predicate DottedAt(s: string, k: nat) {
    k < |s| && s[k] == '.' && forall i :: 0 <= i < |s| && i != k ==> '0' <= s[i] <= '9'
  }

  lemma NumberHasForm(s: string)
    requires Unsigned(s).Some?
    ensures s != "" && (AllDigits(s) || (|s| > 1 && DottedAt(s, Dot(s))))
  {
    var k := Dot(s);
    if k < |s| {
      forall i | 0 <= i < |s| && i != k
        ensures IsDigit(s[i])
      {
        assert i < k ==> s[i] == s[..k][i];
        assert i > k ==> s[i] == s[k + 1..][i - k - 1];
      }
    } else {
      assert s[..k] == s && s + "" == s;
    }
  }

  lemma FormIsNumber(s: string, k: nat)
    requires s != "" && if k == |s| then AllDigits(s) else |s| > 1 && DottedAt(s, k)
    ensures Unsigned(s).Some?
  {
    if k == |s| {
      NoDot(s);
      assert s[..k] == s && s + "" == s;
    } else {
      FirstDot(s, k);
      assert |s[..k] + s[k + 1..]| == |s| - 1;
    }
  }

  /** Exactly the digits with at most one dot, and at least one digit, are a number. */
  lemma UnsignedIff(s: string)
    ensures Unsigned(s).Some? <==>
              (s != "" && forall i :: 0 <= i < |s| ==> '0' <= s[i] <= '9') || (|s| > 1 && exists k :: DottedAt(s, k))
  {
    if Unsigned(s).Some? {
      NumberHasForm(s);
    }
    if s != "" && AllDigits(s) {
      FormIsNumber(s, |s|);
    }
    if k :| |s| > 1 && DottedAt(s, k) {
      FormIsNumber(s, k);
    }
  }

  /** A sign may come first: minus negates, plus changes nothing. */
  lemma SignedValue(s: string)
    ensures ParseDecimal("+" + s) == Unsigned(s)
    ensures ParseDecimal("-" + s) == if Unsigned(s).Some? then Some(-Unsigned(s).value) else None
  {
    assert ("+" + s)[1..] == s && ("-" + s)[1..] == s;
  }

  /** How amounts print, written out. */
  lemma PrintsAs()
    ensures CentsToYuan(123406) == "1234.06" && CentsToYuan(-5) == "-0.05"
  {
    assert Decimal(1234) == "1234" by {
      assert Decimal(1) == "1" && Decimal(12) == "12" && Decimal(123) == "123";
    }
    assert Decimal(0) == "0";
  }

  // ---------------------------------------------------------------- the check of a notified amount

  lemma TruncateIs(x: real, n: int)
    ensures Truncate(x) == n <==>
              if n > 0 then n as real <= x < n as real + 1.0
              else if n == 0 then -1.0 < x < 1.0
              else n as real - 1.0 < x <= n as real
  {
    if x < 0.0 {
      assert (-x).Floor as real <= -x < (-x).Floor as real + 1.0;
    }
  }

  lemma ToCentsIff(yuan: Option<real>, stored: int, err: real)
    requires stored > 0
    ensures ToCents(yuan, err) == Some(stored) <==>
              yuan.Some? && -0.5 <= yuan.value * 100.0 + err - stored as real < 0.5
  {
    if yuan.Some? {
      TruncateIs(yuan.value * 100.0 + err + 0.5, stored);
    }
  }

  /** The comparison of a notified amount with the stored one. It accepts a text exactly when that is a
      number within half a cent of the amount, the lower end included: for a positive amount. */
  lemma AcceptsIff(s: string, stored: int, err: real)
    requires stored > 0
    ensures YuanStringToCents(s, err) == Some(stored) <==>
              ParseDecimal(s).Some? && -0.5 <= ParseDecimal(s).value * 100.0 + err - stored as real < 0.5
  {
    ToCentsIff(ParseDecimal(s), stored, err);
  }

  /** Of the texts that the mall itself prints, only that of the stored amount is accepted. */
  lemma AcceptsOwnTextIff(notified: int, stored: int, err: real)
    requires stored > 0 && -0.5 < err < 0.5
    ensures YuanStringToCents(CentsToYuan(notified), err) == Some(stored) <==> notified == stored
  {
    PrintedIsExact(notified);
    assert notified as real / 100.0 * 100.0 == notified as real;
    AcceptsIff(CentsToYuan(notified), stored, err);
  }

  lemma TenAndFourThousandths()
    ensures Unsigned("10" + "." + "004") == Some(10.004)
  {
    UnsignedOfParts("10", "004");
    assert "10"[..1] == "1" && "1"[..0] == "" && Number("1") == 1;
    assert "004"[..2] == "00" && "00"[..1] == "0" && "0"[..0] == "" && Number("0") == 0 && Number("00") == 0;
    assert Power10(2) == 100 && Power10(3) == 1000;
  }

  /** Four tenths of a cent too much pass as the stored amount: 10.004 against 1000 cents. */
  lemma AcceptsTenthsOfCents()
    ensures YuanStringToCents("10.004", 0.0) == Some(1000) && "10.004" != CentsToYuan(1000)
  {
    TenAndFourThousandths();
    assert "10.004" == "10" + "." + "004";
    ToCentsIff(Some(10.004), 1000, 0.0);
    PrintedIsExact(1000);
  }
}

/** JavaScript number behaviour as the bill forms use it, over values held
    as integer hundredths (the forms' inputs step by 0.01): parseFloat,
    parseInt, Number.prototype.toString, toFixed(2), Math.round, and the
    tables' formatNumber. */
module Numbers {
  import opened Base
  import opened Strings

  predicate IsDigit(c: char)
  {
    '0' <= c <= '9'
  }

  /** Every character of s is a decimal digit. */
  predicate AllDigits(s: string)
  {
    forall i :: 0 <= i < |s| ==> IsDigit(s[i])
  }

  lemma AllDigitsConcat(a: string, b: string)
    requires AllDigits(a) && AllDigits(b)
    ensures AllDigits(a + b)
  {
  }

  /** A digit string holds neither '.' nor '-'. */
  lemma AllDigitsNoPunctuation(s: string)
    requires AllDigits(s)
    ensures '.' !in s && '-' !in s
  {
  }

  function DigitChar(d: nat): (c: char)
    requires d < 10
    ensures IsDigit(c)
  {
    ('0' as int + d) as char
  }

  /** The value of a digit character; other characters count as 0. */
  function DigitValue(c: char): (d: nat)
    ensures d < 10
  {
    if IsDigit(c) then c as int - '0' as int else 0
  }

  /** The decimal digits of n, without leading zeros. */
  function NatToString(n: nat): (s: string)
    ensures |s| >= 1 && AllDigits(s)
    ensures n >= 10 ==> s[0] != '0'
  {
    if n < 10 then [DigitChar(n)]
    else
      var d := [DigitChar(n % 10)];
      AllDigitsConcat(NatToString(n / 10), d);
      NatToString(n / 10) + d
  }

  /** The value of a string of decimal digits. */
  function DigitsValue(s: string): nat
  {
    if |s| == 0 then 0 else DigitsValue(s[..|s| - 1]) * 10 + DigitValue(s[|s| - 1])
  }

  /** A digit appended to a digit string: ten times its value plus the digit. */
  lemma DigitsValueAppend(ds: string, c: char)
    ensures DigitsValue(ds + [c]) == DigitsValue(ds) * 10 + DigitValue(c)
  {
    var s := ds + [c];
    assert s[..|s| - 1] == ds && s[|s| - 1] == c;
  }

  lemma {:induction false} DigitsValueOfNatToString(n: nat)
    ensures DigitsValue(NatToString(n)) == n
  {
    if n >= 10 {
      var s := NatToString(n);
      assert s[..|s| - 1] == NatToString(n / 10);
      DigitsValueOfNatToString(n / 10);
    }
  }

  /** Where the run of decimal digits that starts at position i of s ends. */
  function DigitsEnd(s: string, i: nat): (j: nat)
    requires i <= |s|
    ensures i <= j <= |s|
    ensures j < |s| ==> !IsDigit(s[j])
    decreases |s| - i
  {
    if i < |s| && IsDigit(s[i]) then DigitsEnd(s, i + 1) else i
  }

  /** The value of the digits of s from position i up to j. */
  function DigitsBetween(s: string, i: nat, j: nat): nat
    requires i <= j <= |s|
    decreases j - i
  {
    if i == j then 0 else DigitsBetween(s, i, j - 1) * 10 + DigitValue(s[j - 1])
  }

  /** Digits from i up to k, followed by a non-digit or the end of s: the
      scan of digits from i stops at k. */
  lemma {:induction false} DigitsEndAt(s: string, i: nat, k: nat)
    requires i <= k <= |s|
    requires forall j :: i <= j < k ==> IsDigit(s[j])
    requires k == |s| || !IsDigit(s[k])
    ensures DigitsEnd(s, i) == k
    decreases k - i
  {
    if i < k {
      DigitsEndAt(s, i + 1, k);
    }
  }

  /** The digits between two positions are worth what they spell. */
  lemma {:induction false} DigitsBetweenAt(s: string, i: nat, ds: string)
    requires OccursAt(s, i, ds)
    ensures DigitsBetween(s, i, i + |ds|) == DigitsValue(ds)
    decreases |ds|
  {
    if |ds| > 0 {
      var n := |ds| - 1;
      assert s[i + n] == ds[n];
      DigitsBetweenAt(s, i, ds[..n]);
    }
  }

  /** Number.prototype.toString for an integer. */
  function IntToString(i: int): string
  {
    if i < 0 then "-" + NatToString(-i) else NatToString(i)
  }

  /** Whether s starts with '-'. */
  predicate Negative(s: string)
  {
    |s| > 0 && s[0] == '-'
  }

  /** Where the digits start: after an optional leading '+' or '-'. */
  function SignEnd(s: string): (i: nat)
    ensures i <= |s|
  {
    if |s| > 0 && (s[0] == '-' || s[0] == '+') then 1 else 0
  }

  predicate DigitAt(s: string, i: nat)
  {
    i < |s| && IsDigit(s[i])
  }

  /** parseInt(s), None standing for NaN: an optional sign and the longest
      run of digits after it; NaN exactly when no digit follows the sign. */
  function ParseInt(s: string): (r: Option<int>)
    ensures r.None? <==> !DigitAt(s, SignEnd(s))
    ensures r.Some? && !Negative(s) ==> r.value >= 0
  {
    var i := SignEnd(s);
    var k := DigitsEnd(s, i);
    if k == i then None
    else
      var m: int := DigitsBetween(s, i, k);
      Some(if Negative(s) then -m else m)
  }

  /** A sign (or none) and a run of digits ds, with nothing after them. */
  lemma SignedDigits(negative: bool, ds: string)
    requires |ds| > 0 && AllDigits(ds)
    ensures var s := (if negative then "-" else "") + ds;
            SignEnd(s) == |s| - |ds| && Negative(s) == negative
            && DigitsEnd(s, |s| - |ds|) == |s| && DigitsBetween(s, |s| - |ds|, |s|) == DigitsValue(ds)
  {
    var s := (if negative then "-" else "") + ds;
    var i := |s| - |ds|;
    assert IsDigit(ds[0]) && s[i] == ds[0];
    assert forall j :: i <= j < |s| ==> s[j] == ds[j - i];
    DigitsEndAt(s, i, |s|);
    DigitsBetweenAt(s, i, ds);
  }

  /** parseInt of unsigned digits is their decimal value. */
  lemma ParseIntDigits(ds: string)
    requires |ds| > 0 && AllDigits(ds)
    ensures ParseInt(ds) == Some(DigitsValue(ds))
  {
    assert IsDigit(ds[0]);
    DigitsEndAt(ds, 0, |ds|);
    DigitsBetweenAt(ds, 0, ds);
  }

  lemma ParseIntOfIntToString(i: int)
    ensures ParseInt(IntToString(i)) == Some(i)
  {
    var a: nat := if i < 0 then -i else i;
    SignedDigits(i < 0, NatToString(a));
    DigitsValueOfNatToString(a);
    assert IntToString(i) == (if i < 0 then "-" else "") + NatToString(a);
  }

  /** A JavaScript number: NaN, or a finite value in hundredths. */
  datatype Number = NaN | Finite(hundredths: int)

  /** The value in hundredths of up to two fraction digits. */
  function FractionValue(f: string): (v: nat)
    ensures v < 100
  {
    (if |f| > 0 then DigitValue(f[0]) * 10 else 0) + (if |f| > 1 then DigitValue(f[1]) else 0)
  }

  /** Where parseFloat stops after the whole digits that end at k: past a
      '.' and the digits after it, or at k when no '.' follows. */
  function FractionEnd(s: string, k: nat): (f: nat)
    requires k <= |s|
    ensures k <= f <= |s|
  {
    if k < |s| && s[k] == '.' then DigitsEnd(s, k + 1) else k
  }

  /** The hundredths that the fraction digits from position k + 1 up to f
      spell; digits after the second are dropped. */
  function CentsBetween(s: string, k: nat, f: nat): (v: nat)
    requires k <= f <= |s|
    ensures v < 100
  {
    (if k + 1 < f then DigitValue(s[k + 1]) * 10 else 0) + (if k + 2 < f then DigitValue(s[k + 2]) else 0)
  }

  /** parseFloat(s): an optional sign, digits, optionally '.' and more
      digits, with at least one digit somewhere; the rest of s is ignored.
      NaN exactly when neither a digit nor '.' and a digit follow the sign. */
  function Parse(s: string): (r: Number)
    ensures r.NaN? <==> var i := SignEnd(s);
                        !DigitAt(s, i) && !(i < |s| && s[i] == '.' && DigitAt(s, i + 1))
    ensures r.Finite? && !Negative(s) ==> r.hundredths >= 0
  {
    var i := SignEnd(s);
    var k := DigitsEnd(s, i);
    var f := FractionEnd(s, k);
    if k == i && f <= k + 1 then NaN
    else
      var m: int := DigitsBetween(s, i, k) * 100 + CentsBetween(s, k, f);
      Finite(if Negative(s) then -m else m)
  }

  /** parseFloat(s) || 0: NaN reads as 0. */
  function ParseOrZero(s: string): int
  {
    match Parse(s)
    case NaN => 0
    case Finite(v) => v
  }

  function Sign(v: int): string
  {
    if v < 0 then "-" else ""
  }

  function Magnitude(v: int): nat
  {
    if v < 0 then -v else v
  }

  /** The sign and the whole part of a value in hundredths, as toString and
      toFixed both write them. */
  function WholePart(v: int): (s: string)
    ensures '.' !in s
  {
    AllDigitsNoPunctuation(NatToString(Magnitude(v) / 100));
    Sign(v) + NatToString(Magnitude(v) / 100)
  }

  /** Number.prototype.toString of a value in hundredths: no fraction part
      when it is whole, otherwise one or two fraction digits without a
      trailing zero. */
  function NumberToString(v: int): string
  {
    var a := Magnitude(v);
    WholePart(v)
    + (if a % 100 == 0 then ""
       else if a % 10 == 0 then "." + [DigitChar(a % 100 / 10)]
       else "." + [DigitChar(a % 100 / 10), DigitChar(a % 10)])
  }

  /** The two fraction digits toFixed(2) writes. */
  function Cents(v: int): (f: string)
    ensures |f| == 2 && AllDigits(f)
  {
    var a := Magnitude(v);
    [DigitChar(a % 100 / 10), DigitChar(a % 10)]
  }

  /** Number.prototype.toFixed(2) of a value in hundredths. */
  function ToFixed2(v: int): string
  {
    WholePart(v) + "." + Cents(v)
  }

  /** A run of digits ds at position i of s, followed by a non-digit or the
      end of s: the scan from i reads exactly ds. */
  lemma DigitRunAt(s: string, i: nat, ds: string)
    requires OccursAt(s, i, ds) && AllDigits(ds)
    requires i + |ds| == |s| || !IsDigit(s[i + |ds|])
    ensures DigitsEnd(s, i) == i + |ds| && DigitsBetween(s, i, i + |ds|) == DigitsValue(ds)
  {
    forall j | i <= j < i + |ds|
      ensures IsDigit(s[j])
    {
      assert s[i + (j - i)] == ds[j - i];
    }
    DigitsEndAt(s, i, i + |ds|);
    DigitsBetweenAt(s, i, ds);
  }

  /** A '.' at position k and then the digits fraction, up to the end of s. */
  lemma FractionAt(s: string, k: nat, fraction: string)
    requires k + 1 + |fraction| == |s| && s[k] == '.' && OccursAt(s, k + 1, fraction) && AllDigits(fraction)
    ensures FractionEnd(s, k) == |s| && CentsBetween(s, k, |s|) == FractionValue(fraction)
  {
    DigitRunAt(s, k + 1, fraction);
    if |fraction| > 0 {
      assert s[k + 1 + 0] == fraction[0];
    }
    if |fraction| > 1 {
      assert s[k + 1 + 1] == fraction[1];
    }
  }

  /** In sign + ds + tail, with sign "" or "-" and tail empty or starting
      with '.', the scan finds the sign and then exactly the digits ds. */
  lemma WholeDigitsAt(sign: string, ds: string, tail: string)
    requires sign == "" || sign == "-"
    requires |ds| > 0 && AllDigits(ds) && (tail == "" || tail[0] == '.')
    ensures var s := sign + ds + tail;
            SignEnd(s) == |sign| && Negative(s) == (sign == "-")
            && DigitsEnd(s, |sign|) == |sign| + |ds| && DigitsBetween(s, |sign|, |sign| + |ds|) == DigitsValue(ds)
  {
    var s := sign + ds + tail;
    OccursInMiddle(sign, ds, tail);
    assert IsDigit(ds[0]) && s[|sign|] == ds[0];
    assert tail != "" ==> s[|sign| + |ds|] == '.';
    DigitRunAt(s, |sign|, ds);
  }

  /** After whatever comes first, a '.' and the digits fraction (or nothing
      when fraction is empty) are read as FractionValue(fraction). */
  lemma FractionDigitsAt(head: string, fraction: string)
    requires AllDigits(fraction)
    ensures var s := head + (if |fraction| == 0 then "" else "." + fraction);
            CentsBetween(s, |head|, FractionEnd(s, |head|)) == FractionValue(fraction)
  {
    if |fraction| > 0 {
      var s := head + ("." + fraction);
      assert s == (head + ".") + fraction + "";
      OccursInMiddle(head + ".", fraction, "");
      assert s[|head|] == '.';
      FractionAt(s, |head|, fraction);
    }
  }

  /** parseFloat of an optional '-', digits and a '.'-introduced fraction. */
  lemma ParseShape(negative: bool, ds: string, fraction: string)
    requires |ds| > 0 && AllDigits(ds) && AllDigits(fraction)
    ensures var s := (if negative then "-" else "") + ds + (if |fraction| == 0 then "" else "." + fraction);
            var m := DigitsValue(ds) * 100 + FractionValue(fraction);
            Parse(s).Finite? && Parse(s).hundredths == if negative then -m else m
  {
    var sign := if negative then "-" else "";
    var tail := if |fraction| == 0 then "" else "." + fraction;
    WholeDigitsAt(sign, ds, tail);
    FractionDigitsAt(sign + ds, fraction);
  }

  lemma MagnitudeDivisible(v: int)
    ensures v % 100 == 0 <==> Magnitude(v) % 100 == 0
  {
    if v < 0 {
      var a := -v;
      if a % 100 == 0 { assert v == -(a / 100) * 100; }
      if v % 100 == 0 { assert a == -(v / 100) * 100; }
    }
  }

  /** Parsing the whole part followed by a fraction of at most two digits
      gives back the value they spell. */
  lemma ParseDecimal(v: int, fraction: string)
    requires AllDigits(fraction) && |fraction| <= 2
    requires Magnitude(v) == Magnitude(v) / 100 * 100 + FractionValue(fraction)
    ensures Parse(WholePart(v) + (if |fraction| == 0 then "" else "." + fraction)) == Finite(v)
  {
    var ds := NatToString(Magnitude(v) / 100);
    var s := WholePart(v) + (if |fraction| == 0 then "" else "." + fraction);
    ParseShape(v < 0, ds, fraction);
    DigitsValueOfNatToString(Magnitude(v) / 100);
    assert WholePart(v) == (if v < 0 then "-" else "") + ds;
    assert Parse(s).Finite? && Parse(s).hundredths == v;
  }

  /** toString round-trips through parseFloat. */
  lemma ParseNumberToString(v: int)
    ensures Parse(NumberToString(v)) == Finite(v)
  {
    var a := Magnitude(v);
    if a % 100 == 0 {
      ParseDecimal(v, "");
      assert NumberToString(v) == WholePart(v) + "";
    } else {
      var tens, units := a % 100 / 10, a % 10;
      LastTwoDigits(a);
      assert a == a / 100 * 100 + a % 100;
      assert DigitValue(DigitChar(tens)) == tens && DigitValue(DigitChar(units)) == units;
      if units == 0 {
        ParseDecimal(v, [DigitChar(tens)]);
      } else {
        ParseDecimal(v, [DigitChar(tens), DigitChar(units)]);
      }
    }
  }

  lemma LastTwoDigits(a: nat)
    ensures a % 100 == (a % 100 / 10) * 10 + a % 10
  {
    var q, r := a / 100, a % 100;
    assert a == q * 100 + r;
    assert a == (q * 10 + r / 10) * 10 + r % 10;
  }

  /** The two digits toFixed(2) writes spell the value's hundredths. */
  lemma CentsValue(v: int)
    ensures FractionValue(Cents(v)) == Magnitude(v) % 100
  {
    var a := Magnitude(v);
    LastTwoDigits(a);
    assert DigitValue(DigitChar(a % 100 / 10)) == a % 100 / 10;
    assert DigitValue(DigitChar(a % 10)) == a % 10;
  }

  /** toFixed(2) round-trips through parseFloat. */
  lemma ParseToFixed2(v: int)
    ensures Parse(ToFixed2(v)) == Finite(v)
  {
    CentsValue(v);
    ParseDecimal(v, Cents(v));
    assert ToFixed2(v) == WholePart(v) + ("." + Cents(v));
  }

  /** toFixed(2) ends in ".00" exactly for whole values. */
  lemma ToFixed2EndsInZeros(v: int)
    ensures EndsWith(ToFixed2(v), ".00") <==> v % 100 == 0
  {
    var a := Magnitude(v);
    var d1, d2 := a % 100 / 10, a % 10;
    var f := ToFixed2(v);
    assert f[|f| - 3..] == "." + Cents(v);
    MagnitudeDivisible(v);
    if EndsWith(f, ".00") {
      assert ("." + Cents(v))[1] == Cents(v)[0] && ("." + Cents(v))[2] == Cents(v)[1];
      assert Cents(v)[0] == '0' && Cents(v)[1] == '0';
      assert DigitValue(DigitChar(d1)) == d1 && DigitValue(DigitChar(d2)) == d2;
      assert a % 100 == d1 * 10 + d2;
    }
  }

  /** A whole value's integer string is its whole part. */
  lemma WholeValueString(v: int)
    requires v % 100 == 0
    ensures IntToString(v / 100) == WholePart(v)
  {
  }

  lemma NoDotNoZeroSuffix(s: string)
    requires '.' !in s
    ensures !EndsWith(s, ".00")
  {
    if |s| >= 3 {
      assert s[|s| - 3..][0] == s[|s| - 3];
    }
  }

  /** The tables' formatNumber: toFixed(2), with a trailing ".00" removed. */
  function FormatNumber(v: int): (r: string)
    ensures !EndsWith(r, ".00")
    ensures v % 100 == 0 <==> '.' !in r
    ensures v % 100 == 0 ==> r == IntToString(v / 100)
    ensures v % 100 != 0 ==> r == ToFixed2(v)
    ensures Parse(r) == Finite(v)
  {
    var formatted := ToFixed2(v);
    ToFixed2EndsInZeros(v);
    ParseToFixed2(v);
    if EndsWith(formatted, ".00") then
      var r := formatted[..|formatted| - 3];
      assert r == WholePart(v);
      WholeValueString(v);
      MagnitudeDivisible(v);
      assert FractionValue("") == 0;
      assert Magnitude(v) == Magnitude(v) / 100 * 100;
      ParseDecimal(v, "");
      assert r == WholePart(v) + "";
      NoDotNoZeroSuffix(r);
      r
    else
      assert formatted[|formatted| - 3] == '.';
      formatted
  }

  /** Math.round: the nearest integer, halves rounded up. */
  function MathRound(x: real): (n: int)
    ensures x - 0.5 < n as real <= x + 0.5
  {
    (x + 0.5).Floor
  }
}

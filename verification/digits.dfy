/** The amount-field sanitiser: `replace(/[^0-9]/g, '')` followed by
    `Number(...) || 0`, modelled as a filter on characters and an exact
    decimal parser into `nat`. The module also models the en-US digit
    grouping the amount fields display, so that the round trip
    "display a number, read the field back" can be stated. */
module Digits {

  /** The ten ASCII digits: exactly the characters the pattern `[0-9]` keeps. */
  predicate IsDigit(c: char) {
    '0' <= c <= '9'
  }

  predicate AllDigits(s: string) {
    forall i :: 0 <= i < |s| ==> IsDigit(s[i])
  }

  function DigitValue(c: char): (d: nat)
    requires IsDigit(c)
    ensures d < 10
  {
    (c as int - '0' as int) as nat
  }

  function DigitChar(d: nat): (c: char)
    requires d < 10
    ensures IsDigit(c)
  {
    ('0' as int + d) as char
  }

  lemma DigitCharValue(d: nat)
    requires d < 10
    ensures DigitValue(DigitChar(d)) == d
  {
  }

  function Pow10(k: nat): (p: nat)
    ensures p >= 1
  {
    if k == 0 then 1 else 10 * Pow10(k - 1)
  }

  /** `text.replace(/[^0-9]/g, '')`: every non-digit character is dropped,
      every digit is kept, in order. */
  function KeepDigits(s: string): (r: string)
    ensures AllDigits(r)
    ensures |r| <= |s|
    decreases |s|
  {
    if s == [] then []
    else if IsDigit(s[0]) then [s[0]] + KeepDigits(s[1..])
    else KeepDigits(s[1..])
  }

  /** The filter is the identity exactly on strings that are all digits. */
  lemma {:induction false} KeepDigitsIdentity(s: string)
    ensures KeepDigits(s) == s <==> AllDigits(s)
    decreases |s|
  {
    if s != [] {
      KeepDigitsIdentity(s[1..]);
      if !IsDigit(s[0]) {
        assert |KeepDigits(s[1..])| <= |s[1..]| < |s|;
      } else {
        assert AllDigits(s) ==> AllDigits(s[1..]);
        assert AllDigits(s[1..]) ==> AllDigits(s) by {
          if AllDigits(s[1..]) {
            forall i | 0 <= i < |s| ensures IsDigit(s[i]) {
              if i > 0 { assert s[i] == s[1..][i - 1]; }
            }
          }
        }
      }
    }
  }

  /** A character survives the filter exactly when it is a digit of the input. */
  lemma {:induction false} KeepDigitsMembers(s: string, c: char)
    ensures c in KeepDigits(s) <==> c in s && IsDigit(c)
    decreases |s|
  {
    if s != [] {
      KeepDigitsMembers(s[1..], c);
      assert s == [s[0]] + s[1..];
    }
  }

  /** The filter works character by character: filtering a concatenation
      is concatenating the filtered parts. */
  lemma {:induction false} KeepDigitsAppend(a: string, b: string)
    ensures KeepDigits(a + b) == KeepDigits(a) + KeepDigits(b)
    decreases |a|
  {
    if a == [] {
      assert a + b == b;
    } else {
      assert (a + b)[0] == a[0];
      assert (a + b)[1..] == a[1..] + b;
      KeepDigitsAppend(a[1..], b);
    }
  }

  lemma KeepDigitsChar(c: char)
    ensures KeepDigits([c]) == if IsDigit(c) then [c] else []
  {
    assert [c][1..] == [];
  }

  /** Sanitising twice is sanitising once. */
  lemma KeepDigitsIdempotent(s: string)
    ensures KeepDigits(KeepDigits(s)) == KeepDigits(s)
  {
    KeepDigitsIdentity(KeepDigits(s));
  }

  /** The decimal value of a digit string, most significant digit first;
      the empty string is 0, as `Number('') || 0` is. */
  function DigitsValue(s: string): (n: nat)
    requires AllDigits(s)
    ensures n < Pow10(|s|)
    decreases |s|
  {
    if s == [] then 0
    else 10 * DigitsValue(s[..|s| - 1]) + DigitValue(s[|s| - 1])
  }

  lemma AllDigitsAppend(a: string, b: string)
    requires AllDigits(a) && AllDigits(b)
    ensures AllDigits(a + b)
  {
    var ab := a + b;
    forall i | 0 <= i < |ab|
      ensures IsDigit(ab[i])
    {
      if i < |a| { assert ab[i] == a[i]; } else { assert ab[i] == b[i - |a|]; }
    }
  }

  /** Reading `a + b` shifts the value of `a` left by the length of `b`. */
  lemma {:induction false} DigitsValueAppend(a: string, b: string)
    requires AllDigits(a) && AllDigits(b)
    ensures AllDigits(a + b)
    ensures DigitsValue(a + b) == DigitsValue(a) * Pow10(|b|) + DigitsValue(b)
    decreases |b|
  {
    AllDigitsAppend(a, b);
    if b == [] {
      assert a + b == a;
    } else {
      var b' := b[..|b| - 1];
      var c := b[|b| - 1];
      assert AllDigits(b');
      assert (a + b)[..|a + b| - 1] == a + b';
      assert (a + b)[|a + b| - 1] == c;
      DigitsValueAppend(a, b');
      ShiftStep(DigitsValue(a), Pow10(|b'|), DigitsValue(b'), DigitValue(c));
    }
  }

  lemma ShiftStep(va: nat, p: nat, vb: nat, d: nat)
    ensures 10 * (va * p + vb) + d == va * (10 * p) + (10 * vb + d)
  {
  }

  /** Leading zeros do not change the value (`Number('007')` is 7). */
  lemma LeadingZero(s: string)
    requires AllDigits(s)
    ensures AllDigits("0" + s)
    ensures DigitsValue("0" + s) == DigitsValue(s)
  {
    DigitsValueAppend("0", s);
    assert DigitsValue("0") == 10 * DigitsValue("") + DigitValue('0');
  }

  /** What an amount text field yields for the characters typed into it:
      the value of the digits it contains, 0 when there are none. */
  function ParseAmount(text: string): (n: nat)
    ensures AllDigits(text) ==> n == DigitsValue(text)
    ensures n < Pow10(|text|)
  {
    KeepDigitsIdentity(text);
    PowMonotone(|KeepDigits(text)|, |text|);
    DigitsValue(KeepDigits(text))
  }

  lemma {:induction false} PowMonotone(i: nat, j: nat)
    requires i <= j
    ensures Pow10(i) <= Pow10(j)
    decreases j
  {
    if i < j {
      PowMonotone(i, j - 1);
    }
  }

  /** Typing one more character after a text: a non-digit changes nothing,
      a digit is appended to the number as its new last decimal place. */
  lemma ParseAmountTyped(text: string, c: char)
    ensures ParseAmount(text + [c]) ==
      if IsDigit(c) then 10 * ParseAmount(text) + DigitValue(c) else ParseAmount(text)
  {
    KeepDigitsAppend(text, [c]);
    KeepDigitsChar(c);
    var k := KeepDigits(text);
    if IsDigit(c) {
      DigitsValueAppend(k, [c]);
      assert DigitsValue([c]) == 10 * DigitsValue([]) + DigitValue(c) by {
        assert [c][..0] == [];
      }
    } else {
      assert k + [] == k;
    }
  }

  /** The plain decimal spelling of a non-negative integer (no separators,
      no leading zeros). */
  function ToDecimal(n: nat): (s: string)
    ensures AllDigits(s)
    ensures 1 <= |s|
    decreases n
  {
    if n < 10 then [DigitChar(n)] else ToDecimal(n / 10) + [DigitChar(n % 10)]
  }

  lemma {:induction false} ToDecimalRoundTrip(n: nat)
    ensures DigitsValue(ToDecimal(n)) == n
    decreases n
  {
    var s := ToDecimal(n);
    if n < 10 {
      assert s[..0] == [];
      DigitCharValue(n);
    } else {
      ToDecimalRoundTrip(n / 10);
      assert s[..|s| - 1] == ToDecimal(n / 10);
      DigitCharValue(n % 10);
    }
  }

  /** Exactly three digits, with leading zeros: a thousands group. */
  function Group3(m: nat): (s: string)
    requires m < 1000
    ensures AllDigits(s) && |s| == 3
  {
    [DigitChar(m / 100), DigitChar(m / 10 % 10), DigitChar(m % 10)]
  }

  /** `n.toLocaleString('en-US')` for a non-negative integer: the decimal
      digits with a comma between thousands groups ("1,000,000"). */
  function Grouped(n: nat): (s: string)
    ensures forall i :: 0 <= i < |s| ==> IsDigit(s[i]) || s[i] == ','
    ensures KeepDigits(s) == ToDecimal(n)
    decreases n
  {
    if n < 1000 then
      KeepDigitsIdentity(ToDecimal(n));
      ToDecimal(n)
    else
      var hi := Grouped(n / 1000);
      var lo := Group3(n % 1000);
      KeepDigitsAppend(hi + ",", lo);
      KeepDigitsAppend(hi, ",");
      KeepDigitsChar(',');
      KeepDigitsIdentity(lo);
      assert hi + "," + lo == hi + ("," + lo);
      ToDecimalThousands(n);
      hi + "," + lo
  }

  /** Above 999 the decimal spelling ends in the three-digit group of the
      last thousands place. */
  lemma ToDecimalThousands(n: nat)
    requires n >= 1000
    ensures ToDecimal(n) == ToDecimal(n / 1000) + Group3(n % 1000)
  {
    var m := n % 1000;
    assert n / 10 / 10 / 10 == n / 1000;
    assert n / 10 / 10 % 10 == m / 100;
    assert n / 10 % 10 == m / 10 % 10;
    assert n % 10 == m % 10;
    assert ToDecimal(n) == ToDecimal(n / 10) + [DigitChar(n % 10)];
    assert ToDecimal(n / 10) == ToDecimal(n / 10 / 10) + [DigitChar(n / 10 % 10)];
    assert ToDecimal(n / 10 / 10) == ToDecimal(n / 1000) + [DigitChar(n / 10 / 10 % 10)];
  }

  /** Reading the displayed amount back through the sanitiser gives the
      amount: an edit that leaves the text alone leaves the value alone. */
  lemma GroupedRoundTrip(n: nat)
    ensures ParseAmount(Grouped(n)) == n
  {
    ToDecimalRoundTrip(n);
  }

  /** The example of the amount fields: "12a3b4" reads as 1234. */
  lemma KeepDigitsExample()
    ensures KeepDigits("12a3b4") == "1234"
    ensures KeepDigits("abc") == []
  {
    var e: string := [];
    assert KeepDigits("4") == "4" by { KeepDigitsCons('4', e); assert "4" == ['4'] + e; }
    assert KeepDigits("b4") == "4" by { KeepDigitsCons('b', "4"); assert "b4" == ['b'] + "4"; }
    assert KeepDigits("3b4") == "34" by { KeepDigitsCons('3', "b4"); assert "3b4" == ['3'] + "b4"; }
    assert KeepDigits("a3b4") == "34" by { KeepDigitsCons('a', "3b4"); assert "a3b4" == ['a'] + "3b4"; }
    assert KeepDigits("2a3b4") == "234" by { KeepDigitsCons('2', "a3b4"); assert "2a3b4" == ['2'] + "a3b4"; }
    assert KeepDigits("12a3b4") == "1234" by { KeepDigitsCons('1', "2a3b4"); assert "12a3b4" == ['1'] + "2a3b4"; }
    assert KeepDigits("c") == [] by { KeepDigitsCons('c', e); assert "c" == ['c'] + e; }
    assert KeepDigits("bc") == [] by { KeepDigitsCons('b', "c"); assert "bc" == ['b'] + "c"; }
    assert KeepDigits("abc") == [] by { KeepDigitsCons('a', "bc"); assert "abc" == ['a'] + "bc"; }
  }

  lemma KeepDigitsCons(c: char, t: string)
    ensures KeepDigits([c] + t) == (if IsDigit(c) then [c] else []) + KeepDigits(t)
  {
    assert ([c] + t)[1..] == t;
  }

  lemma ValueExample()
    ensures AllDigits("1234") && DigitsValue("1234") == 1234
  {
    var s := "1234";
    assert DigitsValue(s[..1]) == 1 by { assert s[..1][..0] == []; }
    assert DigitsValue(s[..2]) == 12 by { assert s[..2][..1] == s[..1]; }
    assert DigitsValue(s[..3]) == 123 by { assert s[..3][..2] == s[..2]; }
    assert DigitsValue(s) == 1234 by { assert s[..3] == s[..|s| - 1]; }
  }

  /** The example of the amount fields: "12a3b4" reads as 1234, and a
      text without digits reads as 0. */
  lemma SanitiseExample()
    ensures ParseAmount("12a3b4") == 1234
    ensures ParseAmount("") == 0
    ensures ParseAmount("abc") == 0
  {
    KeepDigitsExample();
    ValueExample();
  }
}

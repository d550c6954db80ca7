/** Decimal rendering of naturals as Go's `fmt.Sprintf("%03d", n)` produces it
    for n >= 0: the shortest decimal digits, left-padded with '0' to width 3. */
module Decimal {

  predicate IsDigit(c: char)
  {
    '0' <= c <= '9'
  }

  predicate AllDigits(s: string)
  {
    forall k :: 0 <= k < |s| ==> IsDigit(s[k])
  }

  function DigitValue(c: char): (d: nat)
    requires IsDigit(c)
    ensures d < 10
  {
    c as int - '0' as int
  }

  function DigitChar(d: nat): (c: char)
    requires d < 10
    ensures IsDigit(c) && DigitValue(c) == d
  {
    ('0' as int + d) as char
  }

  /** The number a string of decimal digits denotes (leading zeros allowed). */
  function Value(s: string): nat
    requires AllDigits(s)
    decreases |s|
  {
    if |s| == 0 then 0 else 10 * Value(s[..|s| - 1]) + DigitValue(s[|s| - 1])
  }

  /** Shortest decimal representation of `n` (what `%d` prints). */
  function Digits(n: nat): (s: string)
    ensures 1 <= |s|
    ensures AllDigits(s)
    ensures |s| > 1 ==> s[0] != '0'
    ensures Value(s) == n
    decreases n
  {
    if n < 10 then [DigitChar(n)]
    else
      var prefix := Digits(n / 10);
      var s := prefix + [DigitChar(n % 10)];
      assert s[..|s| - 1] == prefix;
      s
  }

  function Zeros(k: nat): (s: string)
    ensures |s| == k
    ensures forall i :: 0 <= i < k ==> s[i] == '0'
  {
    if k == 0 then [] else Zeros(k - 1) + ['0']
  }

  /** Leading zeros do not change the value of a digit string. */
  lemma {:induction false} ValueIgnoresLeadingZeros(k: nat, s: string)
    requires AllDigits(s)
    ensures AllDigits(Zeros(k) + s)
    ensures Value(Zeros(k) + s) == Value(s)
    decreases |s|
  {
    var z := Zeros(k) + s;
    if |s| == 0 {
      assert z == Zeros(k);
      AllZerosValue(k);
    } else {
      var init := s[..|s| - 1];
      assert z[..|z| - 1] == Zeros(k) + init;
      assert z[|z| - 1] == s[|s| - 1];
      ValueIgnoresLeadingZeros(k, init);
    }
  }

  lemma {:induction false} AllZerosValue(k: nat)
    ensures AllDigits(Zeros(k))
    ensures Value(Zeros(k)) == 0
  {
    if k > 0 {
      assert Zeros(k)[..k - 1] == Zeros(k - 1);
      AllZerosValue(k - 1);
    }
  }

  /** `%03d`: the digits of `n`, zero-padded to at least three characters.
      The four conditions below determine the string: it is all digits, at
      least three long, denotes `n`, and carries no padding beyond width 3. */
  function Pad3(n: nat): (s: string)
    ensures AllDigits(s)
    ensures |s| >= 3
    ensures Value(s) == n
    ensures |s| > 3 ==> s[0] != '0'
    ensures |s| == if |Digits(n)| < 3 then 3 else |Digits(n)|
  {
    var d := Digits(n);
    if |d| < 3 then
      ValueIgnoresLeadingZeros(3 - |d|, d);
      Zeros(3 - |d|) + d
    else d
  }

  lemma Pad3Examples()
    ensures Pad3(7) == "007"
    ensures Pad3(42) == "042"
    ensures Pad3(1234) == "1234"
  {
    Pad3Seven();
    Pad3FortyTwo();
    Pad3Wide();
  }

  lemma Pad3Seven()
    ensures Pad3(7) == "007"
  {
    assert Digits(7) == "7";
    assert Zeros(1) == "0";
    assert Zeros(2) == "00";
  }

  lemma Pad3FortyTwo()
    ensures Pad3(42) == "042"
  {
    assert Digits(4) == "4";
    assert Digits(42) == "4" + "2";
    assert Zeros(1) == "0";
  }

  lemma Pad3Wide()
    ensures Pad3(1234) == "1234"
  {
    assert Digits(1) == "1";
    assert Digits(12) == "1" + "2";
    assert Digits(123) == "12" + "3";
    assert Digits(1234) == "123" + "4";
  }
}

/** Decimal text of integers, as JavaScript's `toString()` writes an integer-valued number. */
module NumberText {
  predicate IsDigit(c: char) { '0' <= c <= '9' }

  /** The decimal digits of `n`, most significant first, without leading zeros. */
  function DigitsOf(n: nat): (s: string)
    ensures |s| > 0 && forall i :: 0 <= i < |s| ==> IsDigit(s[i])
    ensures |s| > 1 ==> s[0] != '0'
    decreases n
  {
    var d := ['0' + (n % 10) as char];
    if n < 10 then d else DigitsOf(n / 10) + d
  }

  function IntToString(n: int): string {
    if n < 0 then "-" + DigitsOf(-n) else DigitsOf(n)
  }

  /** The value of a string of decimal digits. */
  function ValueOf(s: string): nat
    requires forall i :: 0 <= i < |s| ==> IsDigit(s[i])
  {
    if s == [] then 0
    else
      assert IsDigit(s[|s| - 1]);
      ValueOf(s[..|s| - 1]) * 10 + (s[|s| - 1] as int - '0' as int) as nat
  }

  /** Reading the digits back gives the number. */
  lemma {:induction false} DigitsOfRoundTrip(n: nat)
    ensures ValueOf(DigitsOf(n)) == n
    decreases n
  {
    var d := ['0' + (n % 10) as char];
    if n >= 10 {
      DigitsOfRoundTrip(n / 10);
      var s := DigitsOf(n / 10) + d;
      assert s[..|s| - 1] == DigitsOf(n / 10);
    }
  }

  lemma SampleDigits()
    ensures IntToString(1) == "1" && IntToString(12) == "12" && IntToString(-3) == "-3"
  {
  }
}

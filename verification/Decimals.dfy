/** Decimal notation, as number formatting prints it and digit parsing reads it. */
module Decimals {
  import opened Text

  function DigitChar(d: nat): (c: char)
    requires d < 10
    ensures IsDigit(c)
  {
    '0' + d as char
  }

  function DigitValue(c: char): (d: nat)
    requires IsDigit(c)
    ensures d < 10
  {
    (c - '0') as nat
  }

  predicate AllDigits(s: string) {
    forall i :: 0 <= i < |s| ==> IsDigit(s[i])
  }

  function Print(n: nat): (s: string)
    ensures AllDigits(s) && s != ""
  {
    if n < 10 then [DigitChar(n)] else Print(n / 10) + [DigitChar(n % 10)]
  }

  function PrintInt(n: int): string {
    if n < 0 then "-" + Print(-n) else Print(n)
  }

  function Zeros(n: nat): (s: string)
    ensures AllDigits(s) && |s| == n
  {
    seq(n, _ => '0')
  }

  /** `{:0width}`: the digits, padded with zeros on the left to the width. */
  function PrintPadded(n: nat, width: nat): (s: string)
    ensures AllDigits(s) && s != ""
  {
    var digits := Print(n);
    if |digits| < width then Zeros(width - |digits|) + digits else digits
  }

  /** The number a digit string stands for; leading zeros do not matter. */
  function Value(s: string): nat
    requires AllDigits(s)
  {
    if s == "" then 0 else Value(s[..|s| - 1]) * 10 + DigitValue(s[|s| - 1])
  }

  lemma {:induction false} ValueOfPrint(n: nat)
    ensures Value(Print(n)) == n
  {
    if n >= 10 {
      ValueOfPrint(n / 10);
      assert Print(n)[..|Print(n)| - 1] == Print(n / 10);
    } else {
      assert Print(n)[..0] == "";
    }
  }

  lemma {:induction false} ValueOfZeros(n: nat, s: string)
    requires AllDigits(s)
    ensures Value(Zeros(n) + s) == Value(s)
  {
    if s != "" {
      ValueOfZeros(n, s[..|s| - 1]);
      assert (Zeros(n) + s)[..|Zeros(n) + s| - 1] == Zeros(n) + s[..|s| - 1];
    } else if n > 0 {
      ValueOfZeros(n - 1, "");
      assert Zeros(n) + "" == Zeros(n);
      assert Zeros(n)[..n - 1] == Zeros(n - 1) + "";
    }
  }

  lemma ValueOfPadded(n: nat, width: nat)
    ensures Value(PrintPadded(n, width)) == n
  {
    ValueOfPrint(n);
    if |Print(n)| < width {
      ValueOfZeros(width - |Print(n)|, Print(n));
    }
  }
}

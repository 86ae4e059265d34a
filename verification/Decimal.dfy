/** strconv.FormatInt in base ten and fixed-width zero padding, each with its reader. */
module Decimal {

  function Digit(d: nat): (c: char)
    requires d < 10
    ensures '0' <= c <= '9'
  {
    ('0' as int + d) as char
  }

  predicate IsDigit(c: char) { '0' <= c <= '9' }

  predicate Digits(s: string) { forall i :: 0 <= i < |s| ==> IsDigit(s[i]) }

  function FormatNat(n: nat): (s: string)
    ensures |s| >= 1 && Digits(s)
  {
    if n < 10 then [Digit(n)] else FormatNat(n / 10) + [Digit(n % 10)]
  }

  function FormatInt(n: int): string {
    if n < 0 then "-" + FormatNat(-n) else FormatNat(n)
  }

  /** Zero padding on the left up to width w; wider numbers stay as they are. */
  function Pad(n: nat, w: nat): (s: string)
    ensures |s| >= w && |s| >= 1 && Digits(s)
  {
    Zeros(w - |FormatNat(n)|) + FormatNat(n)
  }

  function Zeros(k: int): (s: string)
    ensures |s| == (if k < 0 then 0 else k) && forall i :: 0 <= i < |s| ==> s[i] == '0'
  {
    if k <= 0 then "" else "0" + Zeros(k - 1)
  }

  function ReadNat(s: string): nat
    requires Digits(s)
  {
    if s == "" then 0 else 10 * ReadNat(s[..|s| - 1]) + (s[|s| - 1] as int - '0' as int)
  }

  function ReadInt(s: string): int
    requires Digits(s) || (|s| > 0 && s[0] == '-' && Digits(s[1..]))
  {
    if |s| > 0 && s[0] == '-' then -(ReadNat(s[1..]) as int) else ReadNat(s)
  }

  lemma {:induction false} ReadFormatNat(n: nat)
    ensures ReadNat(FormatNat(n)) == n
  {
    if n >= 10 {
      ReadFormatNat(n / 10);
      assert FormatNat(n)[..|FormatNat(n)| - 1] == FormatNat(n / 10);
    }
  }

  lemma {:induction false} ReadZeros(k: int, s: string)
    requires Digits(s)
    ensures ReadNat(Zeros(k) + s) == ReadNat(s)
    decreases |s|, k
  {
    if s != "" {
      assert (Zeros(k) + s)[..|Zeros(k) + s| - 1] == Zeros(k) + s[..|s| - 1];
      ReadZeros(k, s[..|s| - 1]);
    } else if k > 0 {
      var z := Zeros(k) + s;
      assert z == Zeros(k) && z[..|z| - 1] == Zeros(k - 1) + "" && z[|z| - 1] == '0';
      ReadZeros(k - 1, "");
    } else {
      assert Zeros(k) + s == "";
    }
  }

  lemma ReadPad(n: nat, w: nat)
    ensures ReadNat(Pad(n, w)) == n
  {
    ReadZeros(w - |FormatNat(n)|, FormatNat(n));
    ReadFormatNat(n);
  }

  lemma {:induction false} FormatNatLength(n: nat, w: nat)
    requires w > 0 && n < Pow10(w)
    ensures |FormatNat(n)| <= w
  {
    if n >= 10 {
      assert w > 1;
      assert Pow10(w) == 10 * Pow10(w - 1);
      FormatNatLength(n / 10, w - 1);
    }
  }

  function Pow10(k: nat): nat { if k == 0 then 1 else 10 * Pow10(k - 1) }

  /** Numbers that fit the width print in exactly that width. */
  lemma PadLength(n: nat, w: nat)
    requires w > 0 && n < Pow10(w)
    ensures |Pad(n, w)| == w
  {
    FormatNatLength(n, w);
  }

  /** strconv.FormatInt is injective: the reader gives the number back. */
  lemma ReadFormatInt(n: int)
    ensures Digits(FormatInt(n)) || (FormatInt(n)[0] == '-' && Digits(FormatInt(n)[1..]))
    ensures ReadInt(FormatInt(n)) == n
  {
    if n < 0 {
      ReadFormatNat(-n);
      assert FormatInt(n)[1..] == FormatNat(-n);
    } else {
      ReadFormatNat(n);
    }
  }
}

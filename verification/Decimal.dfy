/** Decimal text: what `%d` prints, the console's own `itoa`, and the reader that undoes both.

    `itoa` works on 64-bit integers, in a fixed buffer of 20 bytes filled from its end, and negates a
    negative number first. The smallest integer has no negation in 64 bits, and there the two differ;
    everywhere else they print the same text, and reading it gives the number back. */
module Decimal {
  import opened Wrappers

  predicate IsDigit(c: char) { '0' <= c <= '9' }

  function DigitChar(d: nat): (c: char)
    requires d < 10
    ensures IsDigit(c)
  {
    ('0' as int + d) as char
  }

  function DigitValue(c: char): nat
    requires IsDigit(c)
  {
    c as int - '0' as int
  }

  /** The decimal digits of n, most significant first, "0" for zero. */
  function Digits(n: nat): (s: string)
    ensures s != ""
    ensures forall c :: c in s ==> IsDigit(c)
  {
    if n < 10 then [DigitChar(n)] else Digits(n / 10) + [DigitChar(n % 10)]
  }

  predicate AllDigits(s: string) { forall c :: c in s ==> IsDigit(c) }

  /** Positional value; leading zeros do not count. */
  function NatValue(s: string): nat
    requires AllDigits(s)
  {
    if s == "" then 0 else 10 * NatValue(s[..|s| - 1]) + DigitValue(s[|s| - 1])
  }

  lemma {:induction false} DigitsReadBack(n: nat)
    ensures NatValue(Digits(n)) == n
  {
    var s := Digits(n);
    if n < 10 {
      assert s[..|s| - 1] == "";
    } else {
      assert s[..|s| - 1] == Digits(n / 10);
      DigitsReadBack(n / 10);
    }
  }

  lemma {:induction false} LeadingZeros(k: nat, s: string)
    requires AllDigits(s)
    ensures AllDigits(Zeros(k) + s) && NatValue(Zeros(k) + s) == NatValue(s)
    decreases |s|, k
  {
    var z := Zeros(k) + s;
    if s == "" {
      assert z == Zeros(k);
      if k > 0 {
        assert Zeros(k)[..k - 1] == Zeros(k - 1) + "";
        LeadingZeros(k - 1, "");
      }
    } else {
      assert z[..|z| - 1] == Zeros(k) + s[..|s| - 1];
      LeadingZeros(k, s[..|s| - 1]);
    }
  }

  function Zeros(k: nat): string { seq(k, _ => '0') }

  /** What Go prints for an integer padded to at least `width` digits, sign first. */
  function Padded(i: int, width: nat): string {
    var s := Digits(if i < 0 then -i else i);
    (if i < 0 then "-" else "") + Zeros(if |s| < width then width - |s| else 0) + s
  }

  function IntText(i: int): string { Padded(i, 0) }

  /** Reads an optional minus sign and digits. */
  function ReadInt(s: string): (r: Option<int>) {
    var neg := s != "" && s[0] == '-';
    var body := if neg then s[1..] else s;
    if body == "" || !AllDigits(body) then None
    else
      var v: int := NatValue(body);
      Some(if neg then -v else v)
  }

  lemma SignedReadsBack(body: string)
    requires body != "" && AllDigits(body)
    ensures ReadInt(body) == Some(NatValue(body)) && ReadInt("-" + body) == Some(0 - NatValue(body) as int)
  {
    assert body[0] in body;
    assert ("-" + body)[1..] == body;
  }

  lemma PaddedBody(i: int, width: nat) returns (body: string)
    ensures body != "" && AllDigits(body) && NatValue(body) == (if i < 0 then -i else i)
    ensures Padded(i, width) == if i < 0 then "-" + body else body
  {
    var d := Digits(if i < 0 then -i else i);
    var k := if |d| < width then width - |d| else 0;
    body := Zeros(k) + d;
    DigitsReadBack(if i < 0 then -i else i);
    LeadingZeros(k, d);
    if i < 0 { assert "-" + Zeros(k) + d == "-" + body; }
  }

  /** What `%d` prints is read back, whatever the padding. */
  lemma PaddedReadsBack(i: int, width: nat)
    ensures ReadInt(Padded(i, width)) == Some(i)
  {
    var body := PaddedBody(i, width);
    SignedReadsBack(body);
  }

  /** The padded form is injective, so text built from it identifies its number. */
  lemma PaddedInjective(i: int, j: int, width: nat)
    ensures Padded(i, width) == Padded(j, width) ==> i == j
  {
    PaddedReadsBack(i, width);
    PaddedReadsBack(j, width);
  }

  // ------------------------------------------------------------------ itoa

  const MIN_INT64: int := -0x8000_0000_0000_0000
  const MAX_INT64: int := 0x7fff_ffff_ffff_ffff
  const BUFFER: nat := 20

  /** Two's complement negation of a 64-bit integer: the minimum is its own negation. */
  function Negate64(i: int): int { if i == MIN_INT64 then MIN_INT64 else -i }

  function Pow10(k: nat): nat { if k == 0 then 1 else 10 * Pow10(k - 1) }

  lemma {:induction false} DigitsLength(n: nat, k: nat)
    requires k > 0 && n < Pow10(k)
    ensures |Digits(n)| <= k
  {
    if n >= 10 {
      DigitsLength(n / 10, k - 1);
    }
  }

  lemma Int64Digits(n: nat)
    requires n <= MAX_INT64
    ensures |Digits(n)| <= 19
  {
    assert Pow10(5) == 100_000;
    assert Pow10(10) == 10_000_000_000;
    assert Pow10(15) == 1_000_000_000_000_000;
    assert Pow10(19) == 10_000_000_000_000_000_000;
    DigitsLength(n, 19);
  }

  /** Prints into a 20-byte buffer from the back. The minimum 64-bit integer negates to itself,
      the digit loop never runs, and "-" comes out. */
  method Itoa(i: int) returns (s: string)
    requires MIN_INT64 <= i <= MAX_INT64
    ensures s == if i == MIN_INT64 then "-" else IntText(i)
  {
    if i == 0 {
      return "0";
    }
    var neg := i < 0;
    var n := i;
    if neg {
      n := Negate64(n);
    }
    var b := new char[BUFFER];
    var p := b.Length;
    if n > 0 { Int64Digits(n); }
    ghost var all := if n > 0 then Digits(n) else "";
    while n > 0
      invariant 1 <= p <= b.Length
      invariant n <= 0 ==> b[p..] == all
      invariant n > 0 ==> all == Digits(n) + b[p..]
      invariant b.Length - p + (if n > 0 then |Digits(n)| else 0) <= 19
      decreases n
    {
      p := p - 1;
      ghost var tail := b[p + 1..];
      b[p] := DigitChar(n % 10);
      assert b[p..] == [DigitChar(n % 10)] + tail;
      assert Digits(n) == if n < 10 then [DigitChar(n)] else Digits(n / 10) + [DigitChar(n % 10)];
      n := n / 10;
    }
    if neg {
      ghost var tail := b[p..];
      p := p - 1;
      b[p] := '-';
      assert b[p..] == ['-'] + tail;
    }
    s := b[p..];
  }

  /** The printed text reads back exactly when the input is not the 64-bit minimum. */
  lemma ItoaReadsBack(i: int)
    requires MIN_INT64 <= i <= MAX_INT64
    ensures ReadInt(if i == MIN_INT64 then "-" else IntText(i)) == Some(i) <==> i != MIN_INT64
  {
    PaddedReadsBack(i, 0);
  }
}

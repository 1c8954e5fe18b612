/** `strconvItoa`, which fills a 20-byte buffer from the back, on 64-bit integers. */
module Itoa {
  import opened Text

  const MAX_INT := 0x7FFF_FFFF_FFFF_FFFF
  const MIN_INT := -0x8000_0000_0000_0000

  /** Negation wraps: the least integer is its own negative. */
  function Negate(v: int): int { if v == MIN_INT then MIN_INT else -v }

  function Pow10(n: nat): nat { if n == 0 then 1 else 10 * Pow10(n - 1) }

  /** What the function returns. */
  function Printed(v: int): string { if v == MIN_INT then "-" else FormatInt(v) }

  lemma NineteenDigits()
    ensures Pow10(19) == 10_000_000_000_000_000_000
  {
    assert Pow10(5) == 100_000;
    assert Pow10(10) == 10_000_000_000;
    assert Pow10(15) == 1_000_000_000_000_000;
  }

  /** What is still to be written once the last digit of `v` is. */
  function Rest(v: nat): string { if v > 0 then Numeral(v) else "" }

  lemma LastDigit(v: nat, n: nat)
    requires 0 < v < Pow10(n)
    ensures n > 0 && Rest(v) == Rest(v / 10) + [Digit(v % 10)] && v / 10 < Pow10(n - 1)
  {
  }

  lemma MoveDigit(rest: string, d: char, tail: string)
    ensures rest + [d] + tail == rest + ([d] + tail)
  {
  }

  /** The digit loop: the numeral ends at the end of the buffer and leaves room for a sign. */
  method FillDigits(buf: array<char>, value: nat) returns (idx: nat)
    requires buf.Length == 20 && 0 < value < Pow10(19)
    modifies buf
    ensures 1 <= idx <= 20 && buf[idx..] == Numeral(value)
  {
    idx := buf.Length;
    var v: nat := value;
    while v > 0
      invariant 1 <= idx <= 20 && v < Pow10(idx - 1)
      invariant Numeral(value) == Rest(v) + buf[idx..]
      decreases v
    {
      LastDigit(v, idx - 1);
      ghost var tail := buf[idx..];
      idx := idx - 1;
      buf[idx] := Digit(v % 10);
      assert buf[idx..] == [Digit(v % 10)] + tail;
      MoveDigit(Rest(v / 10), Digit(v % 10), tail);
      v := v / 10;
    }
  }

  method StrconvItoa(value: int) returns (s: string)
    requires MIN_INT <= value <= MAX_INT
    ensures s == Printed(value)
  {
    var v := value;
    if v == 0 { return "0"; }
    var negative := v < 0;
    if negative {
      v := Negate(v);
    }
    var buf := new char[20](_ => '0');
    var idx: nat := buf.Length;
    if v > 0 {
      NineteenDigits();
      idx := FillDigits(buf, v);
    }
    if negative {
      ghost var tail := buf[idx..];
      idx := idx - 1;
      buf[idx] := '-';
      assert buf[idx..] == ['-'] + tail;
    }
    s := buf[idx..];
  }

  /** The text reads back as the number for every integer except the least, which prints as a bare sign. */
  lemma PrintedReadsBack(v: int)
    ensures ParseInt(Printed(v)) == Some(v) <==> v != MIN_INT
  {
    ParseFormat(v);
  }
}

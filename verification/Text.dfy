/** String operations of the Go standard library that the modelled code relies on. */
module Text {

  datatype Option<+T> = None | Some(value: T)

  /** White space as `unicode.IsSpace` defines it. */
  predicate IsSpace(c: char) {
    || '\t' <= c <= '\r' || c == ' ' || c == '\U{85}' || c == '\U{A0}' || c == '\U{1680}'
    || '\U{2000}' <= c <= '\U{200A}' || '\U{2028}' <= c <= '\U{2029}'
    || c == '\U{202F}' || c == '\U{205F}' || c == '\U{3000}'
  }

  /** No white space at either end. */
  predicate Trimmed(s: string) {
    s == "" || (!IsSpace(s[0]) && !IsSpace(s[|s| - 1]))
  }

  /** `strings.TrimSpace`. */
  function TrimSpace(s: string): string {
    if s == "" then ""
    else if IsSpace(s[0]) then TrimSpace(s[1..])
    else if IsSpace(s[|s| - 1]) then TrimSpace(s[..|s| - 1])
    else s
  }

  lemma {:induction false} TrimSpaceTrims(s: string)
    ensures Trimmed(TrimSpace(s))
    ensures TrimSpace(TrimSpace(s)) == TrimSpace(s)
    decreases |s|
  {
    if s != "" {
      if IsSpace(s[0]) {
        TrimSpaceTrims(s[1..]);
      } else if IsSpace(s[|s| - 1]) {
        TrimSpaceTrims(s[..|s| - 1]);
      }
    }
  }

  predicate AllSpaces(s: string) { forall i :: 0 <= i < |s| ==> IsSpace(s[i]) }

  /** Trimming removes white space at the ends and nothing else. */
  lemma {:induction false} TrimSpaceRemovesOnlySpaces(s: string) returns (before: string, after: string)
    ensures s == before + TrimSpace(s) + after && AllSpaces(before) && AllSpaces(after)
    decreases |s|
  {
    before, after := "", "";
    if s != "" && IsSpace(s[0]) {
      var b, a := TrimSpaceRemovesOnlySpaces(s[1..]);
      Regroup([s[0]], b, TrimSpace(s), a);
      before, after := [s[0]] + b, a;
      assert s == [s[0]] + s[1..];
    } else if s != "" && IsSpace(s[|s| - 1]) {
      var b, a := TrimSpaceRemovesOnlySpaces(s[..|s| - 1]);
      Regroup(b, TrimSpace(s), a, [s[|s| - 1]]);
      before, after := b, a + [s[|s| - 1]];
      assert s == s[..|s| - 1] + [s[|s| - 1]];
    }
  }

  lemma Regroup(a: string, b: string, c: string, d: string)
    ensures a + (b + c + d) == (a + b) + c + d
    ensures (a + b + c) + d == a + b + (c + d)
  {
  }

  /** Blank, tab and line ends are white space, the printable ASCII characters are not. */
  lemma SpacesOfAscii(c: char)
    ensures IsSpace(' ') && IsSpace('\t') && IsSpace('\n') && IsSpace('\r')
    ensures '!' <= c <= '~' ==> !IsSpace(c)
  {
  }

  /** `strings.ToLower`, restricted to the ASCII letters. */
  function LowerChar(c: char): char {
    if 'A' <= c <= 'Z' then (c as int + 32) as char else c
  }

  function ToLower(s: string): (r: string)
    ensures |r| == |s|
    ensures forall i :: 0 <= i < |s| ==> r[i] == LowerChar(s[i])
  {
    seq(|s|, i requires 0 <= i < |s| => LowerChar(s[i]))
  }

  /** Two texts that differ at most in the case of ASCII letters. */
  predicate SameButCase(a: string, b: string) {
    |a| == |b| && forall i :: 0 <= i < |a| ==> LowerChar(a[i]) == LowerChar(b[i])
  }

  /** Trimming does not look at case. */
  lemma {:induction false} TrimSpaceIgnoresCase(a: string, b: string)
    requires SameButCase(a, b)
    ensures SameButCase(TrimSpace(a), TrimSpace(b))
    decreases |a|
  {
    if a != "" {
      assert IsSpace(a[0]) == IsSpace(b[0]) && IsSpace(a[|a| - 1]) == IsSpace(b[|b| - 1]);
      if IsSpace(a[0]) {
        TrimSpaceIgnoresCase(a[1..], b[1..]);
      } else if IsSpace(a[|a| - 1]) {
        TrimSpaceIgnoresCase(a[..|a| - 1], b[..|b| - 1]);
      }
    }
  }

  predicate Contains(s: string, part: string) {
    part <= s || (s != "" && Contains(s[1..], part))
  }

  ghost predicate OccursAt(s: string, part: string, i: int) {
    0 <= i <= |s| - |part| && s[i..i + |part|] == part
  }

  lemma OccursInTail(s: string, part: string, i: nat)
    requires s != ""
    ensures OccursAt(s[1..], part, i) <==> OccursAt(s, part, i + 1)
  {
    if i + |part| < |s| {
      assert s[1..][i..i + |part|] == s[i + 1..i + 1 + |part|];
    }
  }

  lemma OccursAtFront(s: string, part: string)
    ensures OccursAt(s, part, 0) <==> part <= s
  {
  }

  /** `Contains` finds the part wherever it occurs. */
  lemma {:induction false} ContainsIff(s: string, part: string)
    ensures Contains(s, part) <==> exists i :: OccursAt(s, part, i)
    decreases |s|
  {
    OccursAtFront(s, part);
    if s != "" {
      ContainsIff(s[1..], part);
      if i :| OccursAt(s[1..], part, i) {
        OccursInTail(s, part, i);
      }
      if i :| OccursAt(s, part, i) && i > 0 {
        OccursInTail(s, part, i - 1);
      }
    }
  }

  // ---------------------------------------------------------------------------
  // Decimal numerals
  // ---------------------------------------------------------------------------

  predicate IsDigit(c: char) { '0' <= c <= '9' }

  function Digit(n: nat): (c: char)
    requires n < 10
    ensures IsDigit(c)
  {
    ('0' as int + n) as char
  }

  function DigitValue(c: char): (n: nat)
    requires IsDigit(c)
    ensures n < 10
  {
    c as int - '0' as int
  }

  predicate AllDigits(s: string) { forall i :: 0 <= i < |s| ==> IsDigit(s[i]) }

  /** The value a digit string denotes; the empty string denotes zero. */
  function NatOf(s: string): nat
    requires AllDigits(s)
  {
    if s == "" then 0 else 10 * NatOf(s[..|s| - 1]) + DigitValue(s[|s| - 1])
  }

  /** The numeral of `n` without leading zeros. */
  function Numeral(n: nat): (s: string)
    ensures s != ""
  {
    if n < 10 then [Digit(n)] else Numeral(n / 10) + [Digit(n % 10)]
  }

  lemma {:induction false} NumeralDenotes(n: nat)
    ensures AllDigits(Numeral(n)) && NatOf(Numeral(n)) == n
    decreases n
  {
    var s := Numeral(n);
    if n < 10 {
      assert s[..0] == "";
    } else {
      NumeralDenotes(n / 10);
      assert s[..|s| - 1] == Numeral(n / 10);
    }
  }

  /** Numerals have no spare zeros in front. */
  lemma {:induction false} NumeralStartsWell(n: nat)
    ensures Numeral(n)[0] == '0' <==> n == 0
    decreases n
  {
    if n >= 10 {
      NumeralStartsWell(n / 10);
      assert Numeral(n)[0] == Numeral(n / 10)[0];
    }
  }

  /** `strconv.FormatInt(v, 10)`. */
  function FormatInt(v: int): (s: string)
    ensures s != ""
  {
    if v < 0 then "-" + Numeral(-v) else Numeral(v)
  }

  function Signed(negative: bool, n: nat): int { if negative then 0 - (n as int) else n }

  /** Reads a numeral back. */
  function ParseInt(s: string): Option<int> {
    if s != "" && AllDigits(s) then Some(Signed(false, NatOf(s)))
    else if |s| > 1 && s[0] == '-' && AllDigits(s[1..]) then Some(Signed(true, NatOf(s[1..])))
    else None
  }

  lemma ParseFormat(v: int)
    ensures ParseInt(FormatInt(v)) == Some(v)
  {
    if v < 0 {
      NumeralDenotes(-v);
      var s := FormatInt(v);
      assert s[0] == '-' && s[1..] == Numeral(-v);
    } else {
      NumeralDenotes(v);
    }
  }

  /** Version tokens of distinct versions are distinct. */
  lemma FormatIntInjective(v: int, w: int)
    ensures FormatInt(v) == FormatInt(w) ==> v == w
  {
    ParseFormat(v);
    ParseFormat(w);
  }

  lemma PrefixGrows<T>(s: seq<T>, i: nat)
    requires i < |s|
    ensures s[..i + 1] == s[..i] + [s[i]]
  {
  }
}

/**
 * Decimal numerals and small string scanners. The watchdog renders numbers into
 * its messages with template literals (`${n}`); these functions give that
 * rendering and the parsers that read it back.
 */
module Text {
  import opened Options

  predicate IsDigit(c: char) {
    '0' <= c <= '9'
  }

  predicate AllDigits(s: string) {
    forall i :: 0 <= i < |s| ==> IsDigit(s[i])
  }

  function DigitChar(d: nat): char
    requires d < 10
  {
    ('0' as int + d) as char
  }

  function DigitValue(c: char): nat
    requires IsDigit(c)
  {
    c as int - '0' as int
  }

  /** The decimal numeral of n, without sign or leading zeros. */
  function Show(n: nat): (s: string)
    ensures 0 < |s| && AllDigits(s)
    ensures s[0] == '0' <==> n == 0
  {
    if n < 10 then [DigitChar(n)] else Show(n / 10) + [DigitChar(n % 10)]
  }

  /** The number a non-empty run of digits denotes (leading zeros allowed). */
  function ValueOf(s: string): nat
    requires AllDigits(s)
  {
    if s == [] then 0
    else
      ValueOf(s[..|s| - 1]) * 10 + DigitValue(s[|s| - 1])
  }

  /** Reads a whole string as a decimal numeral. */
  function ParseNat(s: string): Option<nat> {
    if 0 < |s| && AllDigits(s) then Some(ValueOf(s)) else None
  }

  lemma {:induction false} ValueOfShow(n: nat)
    ensures ValueOf(Show(n)) == n
  {
    if n >= 10 {
      var s := Show(n);
      assert s[..|s| - 1] == Show(n / 10);
      ValueOfShow(n / 10);
    }
  }

  /** Every numeral `Show` writes is read back as the same number. */
  lemma ParseShow(n: nat)
    ensures ParseNat(Show(n)) == Some(n)
  {
    ValueOfShow(n);
  }

  /** Length of the longest run of digits at the start of s. */
  function DigitRun(s: string): (k: nat)
    ensures k <= |s| && AllDigits(s[..k])
    ensures k < |s| ==> !IsDigit(s[k])
  {
    if s == [] || !IsDigit(s[0]) then 0
    else
      var k := 1 + DigitRun(s[1..]);
      assert s[..k] == [s[0]] + s[1..][..k - 1];
      k
  }

  /** A numeral followed by a non-digit is scanned exactly up to its end. */
  lemma DigitRunOfNumeral(d: string, t: string)
    requires AllDigits(d)
    requires t == [] || !IsDigit(t[0])
    ensures DigitRun(d + t) == |d|
  {
    var s := d + t;
    assert forall i :: 0 <= i < |d| ==> s[i] == d[i];
    assert t != [] ==> s[|d|] == t[0];
  }

  /** Position of the first c in s; |s| when there is none. */
  function IndexOf(s: string, c: char): (k: nat)
    ensures k <= |s|
    ensures k < |s| ==> s[k] == c
    ensures forall i :: 0 <= i < k ==> s[i] != c
  {
    if s == [] || s[0] == c then 0 else 1 + IndexOf(s[1..], c)
  }

  /** In `a + [c] + b`, with no c inside a, the first c is the one after a. */
  lemma IndexOfSeparator(a: string, c: char, b: string)
    requires forall i :: 0 <= i < |a| ==> a[i] != c
    ensures IndexOf(a + [c] + b, c) == |a|
  {
    var s := a + [c] + b;
    assert forall i :: 0 <= i < |a| ==> s[i] == a[i];
    assert s[|a|] == c;
  }
}

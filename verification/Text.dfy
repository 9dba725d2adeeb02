/** ASCII text functions of Go's strings package that several components use. */
module Text {

  function Lower(c: char): char {
    if 'A' <= c <= 'Z' then (c as int + 32) as char else c
  }

  function ToLower(s: string): (r: string)
    ensures |r| == |s| && forall i | 0 <= i < |s| :: r[i] == Lower(s[i])
  {
    seq(|s|, i requires 0 <= i < |s| => Lower(s[i]))
  }

  predicate IsSpace(c: char) { c in {' ', '\t', '\n', '\r', '\U{0B}', '\U{0C}'} }

  predicate Trimmed(s: string) { s == "" || (!IsSpace(s[0]) && !IsSpace(s[|s| - 1])) }

  /** The first position at or after `i` that holds no space. */
  function SkipSpace(s: string, i: nat): (a: nat)
    requires i <= |s|
    ensures i <= a <= |s| && (forall k | i <= k < a :: IsSpace(s[k])) && (a < |s| ==> !IsSpace(s[a]))
    decreases |s| - i
  {
    if i < |s| && IsSpace(s[i]) then SkipSpace(s, i + 1) else i
  }

  /** The end of the last character of `s[a..b]` that is no space. */
  function DropSpace(s: string, a: nat, b: nat): (e: nat)
    requires a <= b <= |s|
    ensures a <= e <= b && (forall k | e <= k < b :: IsSpace(s[k])) && (e > a ==> !IsSpace(s[e - 1]))
  {
    if b > a && IsSpace(s[b - 1]) then DropSpace(s, a, b - 1) else b
  }

  /** strings.TrimSpace: what is left is trimmed, and a trimmed text is left alone. */
  function TrimSpace(s: string): (r: string)
    ensures Trimmed(r)
    ensures Trimmed(s) ==> r == s
  {
    s[SkipSpace(s, 0)..DropSpace(s, SkipSpace(s, 0), |s|)]
  }

  /** Trimming takes away nothing but spaces at either end. */
  lemma TrimLosesOnlySpaces(s: string) returns (a: nat, b: nat)
    ensures a <= b <= |s| && TrimSpace(s) == s[a..b]
    ensures forall k | 0 <= k < |s| && !(a <= k < b) :: IsSpace(s[k])
  {
    a := SkipSpace(s, 0);
    b := DropSpace(s, a, |s|);
  }

  // ----- decimal text -----

  const DIGITS := "0123456789"

  function Digits(n: nat): (s: string)
    ensures s != "" && '|' !in s && '-' !in s
  {
    if n < 10 then [DIGITS[n]] else Digits(n / 10) + [DIGITS[n % 10]]
  }

  function Decimal(n: int): (s: string)
    ensures '|' !in s
  {
    if n < 0 then "-" + Digits(-n) else Digits(n)
  }

  lemma {:induction false} DigitsInjective(m: nat, n: nat)
    requires Digits(m) == Digits(n)
    ensures m == n
    decreases m
  {
    var s, t := Digits(m), Digits(n);
    assert s[|s| - 1] == DIGITS[m % 10] && t[|t| - 1] == DIGITS[n % 10];
    if m >= 10 && n >= 10 {
      assert s[..|s| - 1] == Digits(m / 10) && t[..|t| - 1] == Digits(n / 10);
      DigitsInjective(m / 10, n / 10);
    }
  }

  lemma DecimalInjective(m: int, n: int)
    requires Decimal(m) == Decimal(n)
    ensures m == n
  {
    if m < 0 && n < 0 {
      assert Decimal(m)[1..] == Digits(-m) && Decimal(n)[1..] == Digits(-n);
      DigitsInjective(-m, -n);
    } else if m >= 0 && n >= 0 {
      DigitsInjective(m, n);
    }
  }
}

/** String searching, splitting and decimal numbers, as Go's `strings` and `fmt` packages define them. */
module Text {
  import opened Common

  /******* First occurrence *******/

  predicate IsAt(s: string, pat: string, i: int) {
    0 <= i && i + |pat| <= |s| && s[i..i + |pat|] == pat
  }

  /** `strings.Index`: the first place a pattern occurs, or -1. */
  function IndexOf(s: string, pat: string): (r: int)
    ensures r >= 0 ==> IsAt(s, pat, r) && forall i | 0 <= i < r :: !IsAt(s, pat, i)
    ensures r < 0 ==> r == -1 && forall i :: !IsAt(s, pat, i)
  {
    IndexFrom(s, pat, 0)
  }

  function IndexFrom(s: string, pat: string, k: nat): (r: int)
    requires k <= |s| + 1
    ensures r >= 0 ==> r >= k && IsAt(s, pat, r) && forall i | k <= i < r :: !IsAt(s, pat, i)
    ensures r < 0 ==> r == -1 && forall i | k <= i :: !IsAt(s, pat, i)
    decreases |s| + 1 - k
  {
    if k + |pat| > |s| then -1
    else if s[k..k + |pat|] == pat then k
    else IndexFrom(s, pat, k + 1)
  }

  /** The first occurrence is the only number with these two properties. */
  lemma IndexIs(s: string, pat: string, i: int)
    requires IsAt(s, pat, i) && forall j | 0 <= j < i :: !IsAt(s, pat, j)
    ensures IndexOf(s, pat) == i
  {
  }

  predicate Contains(s: string, pat: string) {
    IndexOf(s, pat) >= 0
  }

  predicate HasPrefix(s: string, p: string) {
    |p| <= |s| && s[..|p|] == p
  }

  predicate HasSuffix(s: string, p: string) {
    |p| <= |s| && s[|s| - |p|..] == p
  }

  /** `strings.Replace(s, old, new, 1)`. */
  function ReplaceFirst(s: string, old_: string, new_: string): string {
    var i := IndexOf(s, old_);
    if i < 0 then s else s[..i] + new_ + s[i + |old_|..]
  }

  /******* Cutting at the first separator *******/

  /** The part before the first occurrence of a character, and the part after it. */
  function Cut(s: string, c: char): (r: Option<(string, string)>)
    ensures r.Some? ==> s == r.value.0 + [c] + r.value.1 && c !in r.value.0
    ensures r.None? ==> c !in s
  {
    if s == [] then None
    else if s[0] == c then Some(([], s[1..]))
    else
      match Cut(s[1..], c)
      case None => None
      case Some((a, b)) => Some(([s[0]] + a, b))
  }

  lemma {:induction false} CutIs(a: string, c: char, b: string)
    requires c !in a
    ensures Cut(a + [c] + b, c) == Some((a, b))
  {
    var s := a + [c] + b;
    if a == [] {
      assert s[1..] == b;
    } else {
      assert s[1..] == a[1..] + [c] + b;
      CutIs(a[1..], c, b);
      assert [a[0]] + a[1..] == a;
    }
  }

  /** The part before the last occurrence of a character, and the part after it. */
  function CutLast(s: string, c: char): (r: Option<(string, string)>)
    ensures r.Some? ==> s == r.value.0 + [c] + r.value.1 && c !in r.value.1
    ensures r.None? ==> c !in s
  {
    if s == [] then None
    else if s[|s| - 1] == c then Some((s[..|s| - 1], []))
    else
      match CutLast(s[..|s| - 1], c)
      case None => None
      case Some((a, b)) => Some((a, b + [s[|s| - 1]]))
  }

  lemma {:induction false} CutLastIs(a: string, c: char, b: string)
    requires c !in b
    ensures CutLast(a + [c] + b, c) == Some((a, b))
  {
    var s := a + [c] + b;
    if b == [] {
      assert s[..|s| - 1] == a;
    } else {
      assert s[..|s| - 1] == a + [c] + b[..|b| - 1];
      CutLastIs(a, c, b[..|b| - 1]);
      assert b[..|b| - 1] + [b[|b| - 1]] == b;
    }
  }

  /** `strings.Split` on one character. */
  function Split(s: string, c: char): (r: seq<string>)
    ensures |r| >= 1
    decreases |s|
  {
    match Cut(s, c)
    case None => [s]
    case Some((a, b)) => [a] + Split(b, c)
  }

  lemma SplitNone(s: string, c: char)
    requires c !in s
    ensures Split(s, c) == [s]
  {
  }

  lemma SplitCons(a: string, c: char, b: string)
    requires c !in a
    ensures Split(a + [c] + b, c) == [a] + Split(b, c)
  {
    CutIs(a, c, b);
  }

  /******* Decimal numbers *******/

  predicate IsDigit(c: char) {
    '0' <= c <= '9'
  }

  predicate AllDigits(s: string) {
    forall i | 0 <= i < |s| :: IsDigit(s[i])
  }

  function Digit(d: nat): char
    requires d < 10
  {
    '0' + d as char
  }

  /** `%d` of a non-negative number. */
  function Decimal(n: nat): (s: string)
    ensures |s| > 0 && AllDigits(s)
  {
    if n < 10 then [Digit(n)] else Decimal(n / 10) + [Digit(n % 10)]
  }

  function Number(s: string): nat
    requires AllDigits(s)
  {
    if s == [] then 0
    else 10 * Number(s[..|s| - 1]) + (s[|s| - 1] - '0') as nat
  }

  lemma {:induction false} NumberOfDecimal(n: nat)
    ensures Number(Decimal(n)) == n
  {
    var s := Decimal(n);
    if n >= 10 {
      NumberOfDecimal(n / 10);
      assert s[..|s| - 1] == Decimal(n / 10);
    } else {
      assert s[..|s| - 1] == [];
    }
  }

  /** Different numbers are spelled differently. */
  lemma DecimalInjective(m: nat, n: nat)
    requires Decimal(m) == Decimal(n)
    ensures m == n
  {
    NumberOfDecimal(m);
    NumberOfDecimal(n);
  }

  /** How many leading characters are digits. */
  function DigitRun(s: string): (k: nat)
    ensures k <= |s| && AllDigits(s[..k]) && (k < |s| ==> !IsDigit(s[k]))
  {
    if s == [] || !IsDigit(s[0]) then 0 else 1 + DigitRun(s[1..])
  }

  lemma {:induction false} DigitRunIs(d: string, rest: string)
    requires AllDigits(d) && (rest == [] || !IsDigit(rest[0]))
    ensures DigitRun(d + rest) == |d|
  {
    if d == [] {
      assert d + rest == rest;
    } else {
      assert (d + rest)[1..] == d[1..] + rest;
      DigitRunIs(d[1..], rest);
    }
  }
}

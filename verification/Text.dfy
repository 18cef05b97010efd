/**
 The pieces of Python's string handling that the lock protocols use on
 received datagrams: `str.strip()`, `str.lower()`, `str.split()`, `int()`
 on one token, and `str()` of a non-negative integer.
 */
module Text {

  datatype Option<+T> = None | Some(value: T)

  /** Python's `str.isspace` for one code point: the set `strip()` and `split()` use. */
  predicate IsSpace(c: char) {
    var n := c as int;
    || n == 0x20 || 0x09 <= n <= 0x0D || 0x1C <= n <= 0x1F
    || n == 0x85 || n == 0xA0 || n == 0x1680 || 0x2000 <= n <= 0x200A
    || n == 0x2028 || n == 0x2029 || n == 0x202F || n == 0x205F || n == 0x3000
  }

  predicate AllSpace(s: string) {
    forall i :: 0 <= i < |s| ==> IsSpace(s[i])
  }

  predicate NoSpace(s: string) {
    forall i :: 0 <= i < |s| ==> !IsSpace(s[i])
  }

  /** Neither end of `s` is whitespace (vacuously true of the empty string). */
  predicate Trimmed(s: string) {
    |s| == 0 || (!IsSpace(s[0]) && !IsSpace(s[|s| - 1]))
  }

  function TrimLeft(s: string): string
    decreases |s|
  {
    if |s| > 0 && IsSpace(s[0]) then TrimLeft(s[1..]) else s
  }

  function TrimRight(s: string): string
    decreases |s|
  {
    if |s| > 0 && IsSpace(s[|s| - 1]) then TrimRight(s[..|s| - 1]) else s
  }

  /** `str.strip()` with no argument. */
  function Strip(s: string): string {
    TrimRight(TrimLeft(s))
  }

  /** U+212A KELVIN SIGN, which `str.lower()` maps to the ASCII letter `k`. */
  const KELVIN_SIGN: char := '\U{212A}'

  /** `str.lower()` on ASCII letters and on the Kelvin sign, the one other code
      point Python lowers to a single ASCII letter; every other code point is kept. */
  function LowerChar(c: char): char {
    if 'A' <= c <= 'Z' then ('a' as int + (c as int - 'A' as int)) as char
    else if c == KELVIN_SIGN then 'k'
    else c
  }

  function Lower(s: string): string {
    seq(|s|, i requires 0 <= i < |s| => LowerChar(s[i]))
  }

  /** Length of the leading run of non-whitespace characters. */
  function WordLength(s: string): (n: nat)
    ensures n <= |s|
    ensures NoSpace(s[..n])
    ensures n < |s| ==> IsSpace(s[n])
    decreases |s|
  {
    if |s| == 0 || IsSpace(s[0]) then 0 else 1 + WordLength(s[1..])
  }

  /** `str.split()` with no argument: maximal runs of non-whitespace, in order. */
  function Split(s: string): (r: seq<string>)
    ensures forall i :: 0 <= i < |r| ==> |r[i]| > 0 && NoSpace(r[i])
    decreases |s|
  {
    if |s| == 0 then []
    else if IsSpace(s[0]) then Split(s[1..])
    else
      var n := WordLength(s);
      [s[..n]] + Split(s[n..])
  }

  predicate IsDigit(c: char) {
    '0' <= c <= '9'
  }

  predicate AllDigits(s: string) {
    forall i :: 0 <= i < |s| ==> IsDigit(s[i])
  }

  function DigitValue(c: char): nat
    requires IsDigit(c)
  {
    c as int - '0' as int
  }

  function DigitChar(d: nat): char
    requires d < 10
  {
    ('0' as int + d) as char
  }

  /** Decimal value of a run of ASCII digits; the empty run has value 0
      (`ParseInt` only applies it to at least one digit). */
  function ParseNat(s: string): nat
    requires AllDigits(s)
    decreases |s|
  {
    if |s| == 0 then 0 else ParseNat(s[..|s| - 1]) * 10 + DigitValue(s[|s| - 1])
  }

  /** `int(token)` on a whitespace-free token: an optional sign and at least one
      ASCII digit; anything else is the `ValueError` case. */
  function ParseInt(s: string): Option<int>
  {
    if |s| >= 2 && s[0] == '-' && AllDigits(s[1..]) then Some(-(ParseNat(s[1..]) as int))
    else if |s| >= 2 && s[0] == '+' && AllDigits(s[1..]) then Some(ParseNat(s[1..]))
    else if |s| >= 1 && AllDigits(s) then Some(ParseNat(s))
    else None
  }

  /** `str(n)` for a non-negative integer: its decimal digits, no leading zero. */
  function NatToString(n: nat): (s: string)
    ensures |s| > 0 && AllDigits(s)
    ensures n > 0 ==> s[0] != '0'
    decreases n
  {
    if n < 10 then [DigitChar(n)] else NatToString(n / 10) + [DigitChar(n % 10)]
  }

  // ----- Lemmas -----

  /** Decimal printing and parsing are inverse. */
  lemma {:induction false} ParseNatToString(n: nat)
    ensures ParseNat(NatToString(n)) == n
    decreases n
  {
    if n >= 10 {
      var s := NatToString(n);
      var prefix := NatToString(n / 10);
      assert s[..|s| - 1] == prefix;
      ParseNatToString(n / 10);
    }
  }

  /** `int(str(n)) == n` for every non-negative `n`. */
  lemma ParseIntOfNatToString(n: nat)
    ensures ParseInt(NatToString(n)) == Some(n)
  {
    ParseNatToString(n);
  }

  lemma {:induction false} TrimLeftSpaces(a: string, x: string)
    requires AllSpace(a)
    requires |x| == 0 || !IsSpace(x[0])
    ensures TrimLeft(a + x) == x
    decreases |a|
  {
    if |a| > 0 {
      assert (a + x)[1..] == a[1..] + x;
      TrimLeftSpaces(a[1..], x);
    } else {
      assert a + x == x;
    }
  }

  lemma {:induction false} TrimRightSpaces(x: string, b: string)
    requires AllSpace(b)
    requires |x| == 0 || !IsSpace(x[|x| - 1])
    ensures TrimRight(x + b) == x
    decreases |b|
  {
    if |b| > 0 {
      assert (x + b)[..|x + b| - 1] == x + b[..|b| - 1];
      TrimRightSpaces(x, b[..|b| - 1]);
    } else {
      assert x + b == x;
    }
  }

  /** `strip()` removes exactly the surrounding whitespace: for any word `w`
      whose ends are not whitespace, padding it on both sides with whitespace
      and stripping gives `w` back. */
  lemma StripPadded(a: string, w: string, b: string)
    requires AllSpace(a) && AllSpace(b) && Trimmed(w)
    ensures Strip(a + w + b) == w
  {
    if |w| == 0 {
      assert a + w + b == (a + b) + [];
      assert AllSpace(a + b);
      TrimLeftSpaces(a + b, []);
    } else {
      assert a + w + b == a + (w + b);
      TrimLeftSpaces(a, w + b);
      TrimRightSpaces(w, b);
    }
  }

  lemma {:induction false} WordLengthOfWord(w: string, rest: string)
    requires NoSpace(w)
    requires |rest| == 0 || IsSpace(rest[0])
    ensures WordLength(w + rest) == |w|
    decreases |w|
  {
    if |w| > 0 {
      assert (w + rest)[1..] == w[1..] + rest;
      WordLengthOfWord(w[1..], rest);
    } else {
      assert w + rest == rest;
    }
  }

  /** A non-empty word followed by whitespace (or by nothing) is split off as the first token. */
  lemma SplitFirstWord(w: string, rest: string)
    requires |w| > 0 && NoSpace(w)
    requires |rest| == 0 || IsSpace(rest[0])
    ensures Split(w + rest) == [w] + Split(rest)
  {
    WordLengthOfWord(w, rest);
    assert (w + rest)[..|w|] == w;
    assert (w + rest)[|w|..] == rest;
  }

  lemma LowerOfLowercase(s: string)
    requires forall i :: 0 <= i < |s| ==> !('A' <= s[i] <= 'Z') && s[i] != KELVIN_SIGN
    ensures Lower(s) == s
  {
  }

  /** The lowered text is "ok" exactly for the four ASCII spellings of "ok" in
      any letter case and the two spellings with a Kelvin sign for the `k`. */
  lemma LowerIsOk(s: string)
    ensures Lower(s) == "ok" <==>
      s in {"ok", "oK", "Ok", "OK", ['o', KELVIN_SIGN], ['O', KELVIN_SIGN]}
  {
    if Lower(s) == "ok" {
      assert |s| == 2;
      assert Lower(s)[0] == 'o' && Lower(s)[1] == 'k';
      assert s[0] == 'o' || s[0] == 'O';
      assert s[1] == 'k' || s[1] == 'K' || s[1] == KELVIN_SIGN;
      assert s == [s[0], s[1]];
    }
  }
}

/** The C string functions the configuration and the input cache rely on. Strings end where their sequence ends. */
module CText {

  const NUL: char := '\0'

  /** The characters before the terminator. */
  function StrLen(s: seq<char>): (n: nat)
    ensures n <= |s|
    ensures forall i :: 0 <= i < n ==> s[i] != NUL
    ensures n < |s| ==> s[n] == NUL
  {
    if s == [] || s[0] == NUL then 0 else 1 + StrLen(s[1..])
  }

  /** The string held in a character array. */
  function CString(s: seq<char>): (r: string)
    ensures |r| <= |s| && NUL !in r
    ensures NUL !in s ==> r == s
  {
    s[..StrLen(s)]
  }

  lemma {:induction false} StrLenIs(s: seq<char>, n: nat)
    requires n < |s| && s[n] == NUL && forall i :: 0 <= i < n ==> s[i] != NUL
    ensures StrLen(s) == n
  {
  }

  predicate IsSpace(c: char) {
    c == ' ' || ('\t' <= c <= '\r')
  }

  predicate IsDigit(c: char) {
    '0' <= c <= '9'
  }

  /** The number read from leading digits, on top of those already read. */
  function Digits(s: string, value: int): int
    decreases |s|
  {
    if s == "" || !IsDigit(s[0]) then value else Digits(s[1..], 10 * value + (s[0] as int - '0' as int))
  }

  /** `atoi`, for numbers that fit. */
  function Atoi(s: string): int
    decreases |s|
  {
    if s == "" then 0
    else if IsSpace(s[0]) then Atoi(s[1..])
    else if s[0] == '-' then -Digits(s[1..], 0)
    else if s[0] == '+' then Digits(s[1..], 0)
    else Digits(s, 0)
  }

  /** The decimal notation of a number. */
  function Decimal(n: nat): (r: string)
    ensures r != "" && IsDigit(r[0])
  {
    if n < 10 then [('0' as int + n) as char] else Decimal(n / 10) + [('0' as int + n % 10) as char]
  }

  predicate AllSpaces(s: string) {
    forall i :: 0 <= i < |s| ==> IsSpace(s[i])
  }

  lemma {:induction false} DigitsOfDecimal(n: nat, rest: string)
    ensures Digits(Decimal(n) + rest, 0) == Digits(rest, n)
  {
    if n < 10 {
      var s := Decimal(n) + rest;
      assert s[1..] == rest;
    } else {
      var d := ('0' as int + n % 10) as char;
      DigitsOfDecimal(n / 10, [d] + rest);
      assert Decimal(n / 10) + ([d] + rest) == Decimal(n) + rest;
      assert ([d] + rest)[1..] == rest;
    }
  }

  lemma AtoiOfSigned(sign: string, n: nat, rest: string)
    requires sign in {"", "-", "+"} && (rest == "" || !IsDigit(rest[0]))
    ensures Atoi(sign + (Decimal(n) + rest)) == var m: int := n; if sign == "-" then -m else m
  {
    hide Decimal;
    var digits := Decimal(n) + rest;
    var s := sign + digits;
    DigitsOfDecimal(n, rest);
    assert Digits(rest, n) == n;
    assert digits[0] == Decimal(n)[0];
    if sign == "" {
      assert s == digits;
    } else {
      assert s[0] == sign[0] && s[1..] == digits;
    }
  }

  /** Reading a number back: leading space is skipped, a sign is read, and reading stops at the first character that is
    no digit. */
  lemma {:induction false} AtoiReadsDecimal(space: string, sign: string, n: nat, rest: string)
    requires AllSpaces(space) && sign in {"", "-", "+"} && (rest == "" || !IsDigit(rest[0]))
    ensures Atoi(space + (sign + (Decimal(n) + rest))) == var m: int := n; if sign == "-" then -m else m
    decreases |space|
  {
    hide Decimal, Digits;
    var signed := sign + (Decimal(n) + rest);
    AtoiOfSigned(sign, n, rest);
    if space == "" {
      assert space + signed == signed;
    } else {
      AtoiReadsDecimal(space[1..], sign, n, rest);
      var s := space + signed;
      assert s[0] == space[0] && s[1..] == space[1..] + signed;
    }
  }

  /** The first n characters. */
  function Cut(s: string, n: nat): (r: string)
    ensures |r| <= n && r <= s
    ensures |s| <= n ==> r == s
    ensures |s| > n ==> |r| == n
  {
    if |s| <= n then s else s[..n]
  }

  /** `strncmp(a, b, n) == 0`. */
  predicate SameUpTo(a: string, b: string, n: nat) {
    Cut(a, n) == Cut(b, n)
  }

  /** At a position both strings have the same character, or none. */
  predicate SameAt(a: string, b: string, i: nat) {
    if i < |a| && i < |b| then a[i] == b[i] else i >= |a| && i >= |b|
  }

  /** Two strings agree up to n characters if and only if they do so at each of these positions. */
  lemma SameUpToIff(a: string, b: string, n: nat)
    ensures SameUpTo(a, b, n) <==> forall i: nat :: i < n ==> SameAt(a, b, i)
  {
    var x, y := Cut(a, n), Cut(b, n);
    assert forall i :: 0 <= i < |x| ==> x[i] == a[i];
    assert forall i :: 0 <= i < |y| ==> y[i] == b[i];
    if SameUpTo(a, b, n) {
      forall i: nat | i < n
        ensures SameAt(a, b, i)
      {
        assert i < |a| <==> i < |x|;
        assert i < |b| <==> i < |y|;
      }
    }
    if forall i: nat :: i < n ==> SameAt(a, b, i) {
      CutsAreEqual(a, b, n);
    }
  }

  lemma CutsAreEqual(a: string, b: string, n: nat)
    requires forall i: nat :: i < n ==> SameAt(a, b, i)
    ensures Cut(a, n) == Cut(b, n)
  {
    var x, y := Cut(a, n), Cut(b, n);
    assert |x| < n ==> SameAt(a, b, |x|);
    assert |y| < n ==> SameAt(a, b, |y|);
    forall i: nat | i < |x| && i < |y|
      ensures x[i] == y[i]
    {
      assert SameAt(a, b, i);
    }
  }
}

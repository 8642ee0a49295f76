/**
 The Python string built-ins the core relies on, over `seq<char>`:
 `str.lower()`, the substring test `t in s`, `str(n)` for an int, `int(s)` for
 a text, and `sep.join(parts)` with its inverse `s.split(sep)`.
 Only the ASCII behaviour of `lower()` and `int()` is modelled.
 */
module PyStr {
  import opened Outcomes

  // ---------------------------------------------------------------- lower()

  function LowerChar(c: char): char {
    if 'A' <= c <= 'Z' then (c as int + 32) as char else c
  }

  /** `s.lower()`: every upper-case ASCII letter is replaced by its lower-case form. */
  function Lower(s: string): (r: string)
    ensures |r| == |s|
    ensures forall i :: 0 <= i < |s| ==> r[i] == LowerChar(s[i])
  {
    seq(|s|, i requires 0 <= i < |s| => LowerChar(s[i]))
  }

  /** Lower-casing commutes with taking a slice. */
  lemma LowerSlice(s: string, i: nat, j: nat)
    requires i <= j <= |s|
    ensures Lower(s)[i..j] == Lower(s[i..j])
  {
    var a, b := Lower(s)[i..j], Lower(s[i..j]);
    forall k | 0 <= k < j - i ensures a[k] == b[k] {
      assert a[k] == LowerChar(s[i + k]);
      assert b[k] == LowerChar(s[i..j][k]);
    }
  }

  // ------------------------------------------------------------ t in s

  /** `t` occurs in `s` starting at index `i`. */
  predicate OccursAt(s: string, t: string, i: int) {
    0 <= i && i + |t| <= |s| && s[i..i + |t|] == t
  }

  /** A slice of `s[1..]` is the slice of `s` one index further on. */
  lemma TailSlice(s: string, i: nat, n: nat)
    requires 1 <= i && i + n <= |s|
    ensures s[1..][i - 1..i - 1 + n] == s[i..i + n]
  {
    var u, w := s[1..][i - 1..i - 1 + n], s[i..i + n];
    forall k | 0 <= k < n ensures u[k] == w[k] {
      assert s[1..][i - 1 + k] == s[i + k];
    }
  }

  /** Python's `t in s` on two texts. */
  function Contains(s: string, t: string): (r: bool)
    ensures r <==> exists i :: OccursAt(s, t, i)
    decreases |s|
  {
    if |t| > |s| then false
    else if s[..|t|] == t then (assert OccursAt(s, t, 0); true)
    else
      var rest := Contains(s[1..], t);
      if rest then
        var i :| OccursAt(s[1..], t, i);
        TailSlice(s, i + 1, |t|);
        assert OccursAt(s, t, i + 1);
        true
      else
        forall i | 0 < i <= |s| - |t| ensures !OccursAt(s, t, i) {
          assert !OccursAt(s[1..], t, i - 1);
          TailSlice(s, i, |t|);
        }
        false
  }

  /** `t` occurs in `a + t + c`. */
  lemma ContainsMiddle(a: string, t: string, c: string)
    ensures Contains(a + t + c, t)
  {
    assert (a + t + c)[|a|..|a| + |t|] == t;
    assert OccursAt(a + t + c, t, |a|);
  }

  /** An occurrence in `x` is an occurrence in `x + y`. */
  lemma ContainsLeft(x: string, y: string, t: string)
    requires Contains(x, t)
    ensures Contains(x + y, t)
  {
    var i :| OccursAt(x, t, i);
    assert (x + y)[i..i + |t|] == x[i..i + |t|];
    assert OccursAt(x + y, t, i);
  }

  /** An occurrence in `y` is an occurrence in `x + y`. */
  lemma ContainsRight(x: string, y: string, t: string)
    requires Contains(y, t)
    ensures Contains(x + y, t)
  {
    var i :| OccursAt(y, t, i);
    assert (x + y)[|x| + i..|x| + i + |t|] == y[i..i + |t|];
    assert OccursAt(x + y, t, |x| + i);
  }

  /** A text that lacks some character of `t` cannot contain `t`. */
  lemma MissingCharNotContained(s: string, t: string, k: nat)
    requires k < |t|
    requires t[k] !in s
    ensures !Contains(s, t)
  {
    forall i | 0 <= i <= |s| - |t| ensures !OccursAt(s, t, i) {
      assert s[i..i + |t|][k] == s[i + k];
    }
  }

  // ------------------------------------------------------------- str(int)

  predicate IsDigit(c: char) {
    '0' <= c <= '9'
  }

  function DigitChar(d: nat): (c: char)
    requires d < 10
    ensures IsDigit(c)
  {
    ('0' as int + d) as char
  }

  /** The decimal digits of `n`, most significant first, with no leading zero. */
  function NatToString(n: nat): string
    decreases n
  {
    if n < 10 then [DigitChar(n)] else NatToString(n / 10) + [DigitChar(n % 10)]
  }

  /** `str(n)` for a Python int: a `-` sign before the digits of a negative number. */
  function IntToString(n: int): string {
    if n < 0 then "-" + NatToString(-n) else NatToString(n)
  }

  // ------------------------------------------------------------- int(text)

  predicate AllDigits(s: string) {
    forall i :: 0 <= i < |s| ==> IsDigit(s[i])
  }

  /** The value of a run of decimal digits. */
  function DigitsValue(s: string): nat
    requires AllDigits(s)
  {
    if s == [] then 0
    else DigitsValue(s[..|s| - 1]) * 10 + (s[|s| - 1] as int - '0' as int)
  }

  /**
   `int(s)` on a text: an optional sign followed by at least one ASCII digit;
   anything else raises ValueError.
   */
  function ParseInt(s: string): (r: Outcome<int>)
    ensures r.Returned? ==> exists k :: 0 <= k < |s| && IsDigit(s[k])
  {
    if |s| > 0 && (s[0] == '-' || s[0] == '+') then
      var digits := s[1..];
      if |digits| > 0 && AllDigits(digits) then
        assert IsDigit(s[1]);
        var value: int := DigitsValue(digits);
        Returned(if s[0] == '-' then -value else value)
      else Raised(ValueError)
    else if |s| > 0 && AllDigits(s) then
      assert IsDigit(s[0]);
      Returned(DigitsValue(s))
    else Raised(ValueError)
  }

  lemma {:induction false} NatToStringDigits(n: nat)
    ensures |NatToString(n)| > 0 && AllDigits(NatToString(n))
    ensures DigitsValue(NatToString(n)) == n
    decreases n
  {
    if n >= 10 {
      NatToStringDigits(n / 10);
      var s := NatToString(n);
      assert s[..|s| - 1] == NatToString(n / 10);
    }
  }

  /**
   `int` accepts exactly an optional sign followed by one or more ASCII digits,
   and reads them as a decimal number. Every text splits uniquely into `sign`
   and `digits` as required here.
   */
  lemma ParseIntSignedDigits(sign: string, digits: string)
    requires sign == "+" || sign == "-" || (sign == "" && (digits == [] || (digits[0] != '+' && digits[0] != '-')))
    ensures ParseInt(sign + digits).Returned? <==> |digits| > 0 && AllDigits(digits)
    ensures ParseInt(sign + digits).Returned? ==>
      ParseInt(sign + digits).value == if sign == "-" then -(DigitsValue(digits) as int) else DigitsValue(digits)
  {
    var s := sign + digits;
    if sign != "" {
      assert s[0] == sign[0] && s[1..] == digits;
    } else {
      assert s == digits;
    }
  }

  /** `int(str(n)) == n`: a year rendered as text reads back as the same int. */
  lemma ParseIntToString(n: int)
    ensures ParseInt(IntToString(n)) == Returned(n)
  {
    var m: nat := if n < 0 then -n else n;
    NatToStringDigits(m);
    var s := IntToString(n);
    if n < 0 {
      assert s[1..] == NatToString(m);
    } else {
      assert IsDigit(s[0]);
    }
  }

  // ------------------------------------------------------- join / split

  /** `sep.join(parts)` for a one-character separator. */
  function Join(parts: seq<string>, sep: char): string
    decreases |parts|
  {
    if |parts| == 0 then ""
    else if |parts| == 1 then parts[0]
    else parts[0] + [sep] + Join(parts[1..], sep)
  }

  /** `s.split(sep)` for a one-character separator: always at least one piece. */
  function Split(s: string, sep: char): (r: seq<string>)
    ensures |r| > 0
    decreases |s|
  {
    if s == [] then [""]
    else if s[0] == sep then [""] + Split(s[1..], sep)
    else
      var rest := Split(s[1..], sep);
      [[s[0]] + rest[0]] + rest[1..]
  }

  lemma {:induction false} SplitNoSeparator(p: string, sep: char)
    requires sep !in p
    ensures Split(p, sep) == [p]
    decreases |p|
  {
    if p != [] {
      SplitNoSeparator(p[1..], sep);
      assert [p[0]] + p[1..] == p;
    }
  }

  lemma {:induction false} SplitAfterPiece(p: string, sep: char, rest: string)
    requires sep !in p
    ensures Split(p + [sep] + rest, sep) == [p] + Split(rest, sep)
    decreases |p|
  {
    var s := p + [sep] + rest;
    if p == [] {
      assert s[1..] == rest;
    } else {
      assert s[1..] == p[1..] + [sep] + rest;
      SplitAfterPiece(p[1..], sep, rest);
      assert [p[0]] + p[1..] == p;
    }
  }

  /** Splitting a join gives back the pieces, when no piece holds the separator. */
  lemma {:induction false} SplitJoin(parts: seq<string>, sep: char)
    requires |parts| > 0
    requires forall i :: 0 <= i < |parts| ==> sep !in parts[i]
    ensures Split(Join(parts, sep), sep) == parts
    decreases |parts|
  {
    if |parts| == 1 {
      SplitNoSeparator(parts[0], sep);
    } else {
      SplitJoin(parts[1..], sep);
      SplitAfterPiece(parts[0], sep, Join(parts[1..], sep));
      assert [parts[0]] + parts[1..] == parts;
    }
  }
}

/**
 * The pieces of Go's `strings`, `strconv` and `regexp` packages that the
 * favicon resolver and the port-forward request use, on `seq<char>`.
 */
module Strs {

  /** strings.TrimLeft(s, cutset): drop the longest prefix made only of characters of `cutset`. */
  function TrimLeft(s: string, cutset: string): (r: string)
    ensures |r| <= |s| && r == s[|s| - |r|..]
    ensures r == [] || r[0] !in cutset
    ensures forall i :: 0 <= i < |s| - |r| ==> s[i] in cutset
  {
    if s != [] && s[0] in cutset then TrimLeft(s[1..], cutset) else s
  }

  /** unicode.IsSpace, which strings.TrimSpace uses. */
  predicate IsSpace(c: char) {
    c == ' ' || c == '\t' || c == '\n' || c == '\r' || c == '\U{000B}' || c == '\U{000C}'
    || c == '\U{0085}' || c == '\U{00A0}' || c == '\U{1680}' || ('\U{2000}' <= c <= '\U{200A}')
    || c == '\U{2028}' || c == '\U{2029}' || c == '\U{202F}' || c == '\U{205F}' || c == '\U{3000}'
  }

  /** Every character of `t` is white space. */
  predicate AllSpace(t: string) {
    forall k :: 0 <= k < |t| ==> IsSpace(t[k])
  }

  function TrimLeadingSpace(s: string): (r: string)
    ensures |r| <= |s| && r == s[|s| - |r|..]
    ensures forall k :: 0 <= k < |s| - |r| ==> IsSpace(s[k])
    ensures r == [] || !IsSpace(r[0])
  {
    if s != [] && IsSpace(s[0]) then TrimLeadingSpace(s[1..]) else s
  }

  function TrimTrailingSpace(s: string): (r: string)
    ensures |r| <= |s| && r == s[..|r|]
    ensures forall k :: |r| <= k < |s| ==> IsSpace(s[k])
    ensures r == [] || !IsSpace(r[|r| - 1])
  {
    if s != [] && IsSpace(s[|s| - 1]) then TrimTrailingSpace(s[..|s| - 1]) else s
  }

  /**
   * strings.TrimSpace: the input with its leading and trailing white space
   * removed, and nothing else.
   */
  function TrimSpace(s: string): (r: string)
    ensures |r| <= |s|
    ensures exists i :: TrimmedAt(s, r, i)
    ensures r == [] || (!IsSpace(r[0]) && !IsSpace(r[|r| - 1]))
  {
    var l := TrimLeadingSpace(s);
    var r := TrimTrailingSpace(l);
    TrimmedAtStart(s, l, r);
    r
  }

  /** `r` sits at position `i` of `s`, with only white space before and after it. */
  predicate TrimmedAt(s: string, r: string, i: int) {
    0 <= i <= |s| - |r| && r == s[i..i + |r|] && AllSpace(s[..i]) && AllSpace(s[i + |r|..])
  }

  /** A suffix `l` after white space, cut to a prefix `r` before white space, sits in `s` with only white space around it. */
  lemma TrimmedAtStart(s: string, l: string, r: string)
    requires |l| <= |s| && l == s[|s| - |l|..] && forall k :: 0 <= k < |s| - |l| ==> IsSpace(s[k])
    requires |r| <= |l| && r == l[..|r|] && forall k :: |r| <= k < |l| ==> IsSpace(l[k])
    ensures TrimmedAt(s, r, |s| - |l|)
  {
    var i := |s| - |l|;
    assert s[i + |r|..] == l[|r|..];
  }

  predicate HasPrefix(s: string, prefix: string) {
    |prefix| <= |s| && s[..|prefix|] == prefix
  }

  /**
   * unicode.ToLower for the characters whose lower-case form is ASCII: the
   * capitals 'A' to 'Z', U+0130 (capital I with dot above, lowered to 'i')
   * and U+212A (the Kelvin sign, lowered to 'k'). Every other character is
   * kept as it is.
   */
  function LowerChar(c: char): char {
    if 'A' <= c <= 'Z' then (c as int + 32) as char
    else if c == '\U{0130}' then 'i'
    else if c == '\U{212A}' then 'k'
    else c
  }

  /**
   * strings.ToLower, as far as a comparison with an ASCII string can tell:
   * every character that Go lowers to ASCII is lowered the same way here,
   * and every other non-ASCII character stays non-ASCII in both.
   */
  function Lower(s: string): (r: string)
    ensures |r| == |s|
  {
    seq(|s|, i requires 0 <= i < |s| => LowerChar(s[i]))
  }

  /** strings.Join(parts, sep) for a one-character separator. */
  function Join(parts: seq<string>, sep: char): string
    requires parts != []
  {
    if |parts| == 1 then parts[0] else parts[0] + [sep] + Join(parts[1..], sep)
  }

  /**
   * strings.Split(s, sep) for a one-character separator: the pieces between
   * the separators, which join back to `s`.
   */
  function Split(s: string, sep: char): (parts: seq<string>)
    ensures |parts| >= 1
    ensures forall p :: p in parts ==> sep !in p
    ensures Join(parts, sep) == s
  {
    if sep !in s then [s]
    else
      var i := IndexOf(s, sep);
      var rest := Split(s[i + 1..], sep);
      assert ([s[..i]] + rest)[1..] == rest;
      assert s == s[..i] + [sep] + s[i + 1..];
      [s[..i]] + rest
  }

  /** Position of the first occurrence of `c` in `s`. */
  function IndexOf(s: string, c: char): (i: nat)
    requires c in s
    ensures i < |s| && s[i] == c && c !in s[..i]
  {
    if s[0] == c then 0 else 1 + IndexOf(s[1..], c)
  }

  /** strings.LastIndex for one character: the position of its last occurrence, or -1 when there is none. */
  function LastIndex(s: string, c: char): (i: int)
    ensures -1 <= i < |s|
    ensures i < 0 <==> c !in s
    ensures 0 <= i ==> s[i] == c && c !in s[i + 1..]
  {
    if s == [] then -1
    else if s[|s| - 1] == c then |s| - 1
    else
      var j := LastIndex(s[..|s| - 1], c);
      assert s == s[..|s| - 1] + [s[|s| - 1]];
      assert 0 <= j ==> s[j + 1..] == s[..|s| - 1][j + 1..] + [s[|s| - 1]];
      j
  }

  /**
   * Go compares strings byte by byte; UTF-8 preserves the order of code
   * points, so the order of `char` sequences below is the same order.
   */
  predicate LexLe(a: string, b: string) {
    a == [] || (b != [] && (a[0] < b[0] || (a[0] == b[0] && LexLe(a[1..], b[1..]))))
  }

  lemma {:induction false} LexTotal(a: string, b: string)
    ensures LexLe(a, b) || LexLe(b, a)
  {
    if a != [] && b != [] && a[0] == b[0] {
      LexTotal(a[1..], b[1..]);
    }
  }

  lemma {:induction false} LexRefl(a: string)
    ensures LexLe(a, a)
  {
    if a != [] { LexRefl(a[1..]); }
  }

  lemma {:induction false} LexTrans(a: string, b: string, c: string)
    requires LexLe(a, b) && LexLe(b, c)
    ensures LexLe(a, c)
  {
    if a != [] && a[0] == b[0] && b[0] == c[0] {
      LexTrans(a[1..], b[1..], c[1..]);
    }
  }

  lemma {:induction false} LexAntisym(a: string, b: string)
    requires LexLe(a, b) && LexLe(b, a)
    ensures a == b
  {
    if a != [] {
      LexAntisym(a[1..], b[1..]);
      assert a == [a[0]] + a[1..] && b == [b[0]] + b[1..];
    }
  }

  /**
   * The first element after sort.Sort(sort.Reverse(sort.StringSlice(ts))):
   * the lexicographically greatest token.
   */
  function Greatest(ts: seq<string>): (g: string)
    requires ts != []
    ensures g in ts
    ensures forall t :: t in ts ==> LexLe(t, g)
  {
    if |ts| == 1 then LexRefl(ts[0]); ts[0]
    else
      var g' := Greatest(ts[1..]);
      assert forall t :: t in ts ==> t == ts[0] || t in ts[1..];
      if LexLe(ts[0], g') then g'
      else
        LexTotal(ts[0], g');
        forall t | t in ts ensures LexLe(t, ts[0]) {
          if t == ts[0] { LexRefl(t); } else { LexTrans(t, g', ts[0]); }
        }
        ts[0]
  }

  predicate IsDigit(c: char) { '0' <= c <= '9' }

  /** Length of the run of decimal digits that starts at position `i`. */
  function DigitRun(s: string, i: nat): (n: nat)
    requires i <= |s|
    ensures i + n <= |s|
    ensures forall k :: i <= k < i + n ==> IsDigit(s[k])
    ensures i + n == |s| || !IsDigit(s[i + n])
    decreases |s| - i
  {
    if i < |s| && IsDigit(s[i]) then 1 + DigitRun(s, i + 1) else 0
  }

  /** No character of `t` is a decimal digit. */
  predicate NoDigit(t: string) {
    forall k :: 0 <= k < |t| ==> !IsDigit(t[k])
  }

  /**
   * `r` sits at position `i` of `s` after a digit-free prefix, and ends at
   * the end of `s` or before a character that is not a digit.
   */
  predicate FirstRunAt(s: string, r: string, i: int) {
    && 0 <= i <= |s| - |r| && r == s[i..i + |r|] && NoDigit(s[..i])
    && (i + |r| == |s| || !IsDigit(s[i + |r|]))
  }

  /** regexp `[0-9]+` FindString: the leftmost, longest run of digits, or "" if there is none. */
  function FirstDigits(s: string): (r: string)
    ensures forall k :: 0 <= k < |r| ==> IsDigit(r[k])
    ensures r == [] <==> NoDigit(s)
    ensures exists i :: FirstRunAt(s, r, i)
  {
    if s == [] then
      assert FirstRunAt(s, [], 0);
      []
    else if IsDigit(s[0]) then
      var r := s[..DigitRun(s, 0)];
      assert FirstRunAt(s, r, 0);
      r
    else
      var r := FirstDigits(s[1..]);
      FirstRunShift(s, r);
      r
  }

  /** A run found after the first character, which is not a digit, is found in the whole string one position later. */
  lemma FirstRunShift(s: string, r: string)
    requires s != [] && !IsDigit(s[0])
    requires exists i :: FirstRunAt(s[1..], r, i)
    ensures exists i :: FirstRunAt(s, r, i)
  {
    var i :| FirstRunAt(s[1..], r, i);
    assert s[..i + 1] == [s[0]] + s[1..][..i];
    assert r == s[i + 1..i + 1 + |r|];
    assert FirstRunAt(s, r, i + 1);
  }

  function DigitsValue(d: string): nat
    requires forall k :: 0 <= k < |d| ==> IsDigit(d[k])
  {
    if d == [] then 0
    else
      assert IsDigit(d[|d| - 1]);
      10 * DigitsValue(d[..|d| - 1]) + (d[|d| - 1] as int - '0' as int)
  }

  /** The decimal form of `n`, as fmt's %d writes a non-negative integer. */
  function Itoa(n: nat): (r: string)
    ensures r != [] && forall k :: 0 <= k < |r| ==> IsDigit(r[k])
    ensures |r| > 1 ==> r[0] != '0'
  {
    if n < 10 then [('0' as int + n) as char]
    else Itoa(n / 10) + [('0' as int + n % 10) as char]
  }

  /** Reading back the decimal form gives the number. */
  lemma {:induction false} ItoaRoundTrip(n: nat)
    ensures DigitsValue(Itoa(n)) == n
  {
    var r := Itoa(n);
    if n >= 10 {
      ItoaRoundTrip(n / 10);
      assert r[..|r| - 1] == Itoa(n / 10);
    } else {
      assert r[..|r| - 1] == [];
    }
  }

  const MaxInt64: nat := 0x7FFF_FFFF_FFFF_FFFF

  /**
   * strconv.Atoi on a string of decimal digits, with the caller's
   * "on error use 0": the empty string and values beyond int64 are errors.
   */
  function AtoiOrZero(d: string): (n: nat)
    requires forall k :: 0 <= k < |d| ==> IsDigit(d[k])
    ensures n <= MaxInt64
    ensures d == [] ==> n == 0
    ensures DigitsValue(d) <= MaxInt64 ==> n == DigitsValue(d)
    ensures DigitsValue(d) > MaxInt64 ==> n == 0
  {
    if d == [] then 0
    else if DigitsValue(d) <= MaxInt64 then DigitsValue(d)
    else 0
  }
}

/** The parts of printf and scanf that src/ice.c uses. */
module Text {
  import opened Basics

  predicate IsSpace(c: char) {
    c == ' ' || '\t' <= c <= '\r'
  }

  predicate IsDigit(c: char) {
    '0' <= c <= '9'
  }

  predicate IsAlpha(c: char) {
    'a' <= c <= 'z' || 'A' <= c <= 'Z'
  }

  function ToUpper(c: char): char {
    if 'a' <= c <= 'z' then 'A' + (c - 'a') else c
  }

  function ToLower(c: char): char {
    if 'A' <= c <= 'Z' then 'a' + (c - 'A') else c
  }

  function Upper(s: string): string {
    seq(|s|, i requires 0 <= i < |s| => ToUpper(s[i]))
  }

  function Lower(s: string): string {
    seq(|s|, i requires 0 <= i < |s| => ToLower(s[i]))
  }

  // ---------- words ----------

  function SkipSpace(s: string): (r: string)
    ensures |r| <= |s|
  {
    if s != [] && IsSpace(s[0]) then SkipSpace(s[1..]) else s
  }

  /** The length of the word at the front, up to a width. */
  function WordLength(s: string, width: nat): (n: nat)
    ensures n <= |s| && n <= width
  {
    if width == 0 || s == [] || IsSpace(s[0]) then 0 else 1 + WordLength(s[1..], width - 1)
  }

  /** A conversion with what it leaves unread. */
  datatype Read<+T> = Read(value: T, rest: string)

  /** A %s conversion: white space is skipped, and an empty word fails. */
  function ScanWord(s: string, width: nat): Option<Read<string>> {
    var t := SkipSpace(s);
    var n := WordLength(t, width);
    if n == 0 then None else Some(Read(t[..n], t[n..]))
  }

  predicate IsWord(w: string, width: nat) {
    0 < |w| <= width && forall i :: 0 <= i < |w| ==> !IsSpace(w[i])
  }

  predicate EndsWord(rest: string) {
    rest == [] || IsSpace(rest[0])
  }

  lemma {:induction false} WordLengthBack(w: string, rest: string, width: nat)
    requires |w| <= width && (forall i :: 0 <= i < |w| ==> !IsSpace(w[i])) && EndsWord(rest)
    ensures WordLength(w + rest, width) == |w|
    decreases |w|
  {
    if w == [] {
      assert w + rest == rest;
    } else {
      assert (w + rest)[1..] == w[1..] + rest;
      WordLengthBack(w[1..], rest, width - 1);
    }
  }

  lemma WordBack(w: string, rest: string, width: nat)
    requires IsWord(w, width) && EndsWord(rest)
    ensures ScanWord(w + rest, width) == Some(Read(w, rest))
    ensures ScanWord(" " + (w + rest), width) == Some(Read(w, rest))
  {
    WordLengthBack(w, rest, width);
    SkipOne(w, rest);
  }

  lemma SkipOne(w: string, rest: string)
    requires w != [] && !IsSpace(w[0])
    ensures SkipSpace(w + rest) == w + rest
    ensures SkipSpace(" " + (w + rest)) == w + rest
  {
    assert (" " + (w + rest))[1..] == w + rest;
  }

  // ---------- numbers ----------

  function Digit(n: nat): (c: char)
    requires n < 10
    ensures IsDigit(c)
  {
    '0' + n as char
  }

  /** A %u conversion when printing. */
  function Decimal(n: nat): (s: string)
    ensures s != [] && forall i :: 0 <= i < |s| ==> IsDigit(s[i])
  {
    if n < 10 then [Digit(n)] else Decimal(n / 10) + [Digit(n % 10)]
  }

  function DigitsLength(s: string): (n: nat)
    ensures n <= |s| && forall i :: 0 <= i < n ==> IsDigit(s[i])
  {
    if s == [] || !IsDigit(s[0]) then 0 else 1 + DigitsLength(s[1..])
  }

  function ValueOf(s: string): nat
    requires forall i :: 0 <= i < |s| ==> IsDigit(s[i])
  {
    if s == [] then 0
    else
      assert IsDigit(s[|s| - 1]);
      ValueOf(s[..|s| - 1]) * 10 + (s[|s| - 1] - '0') as nat
  }

  /** A %d or %u conversion: white space, a sign, digits. */
  function ScanNumber(s: string): Option<Read<int>> {
    var t := SkipSpace(s);
    var signed := t != [] && (t[0] == '-' || t[0] == '+');
    var u := if signed then t[1..] else t;
    var n := DigitsLength(u);
    if n == 0 then None
    else
      var v: int := ValueOf(u[..n]);
      Some(Read(if signed && t[0] == '-' then 0 - v else v, u[n..]))
  }

  lemma {:induction false} DecimalValue(n: nat)
    ensures ValueOf(Decimal(n)) == n
  {
    if n < 10 {
      assert [Digit(n)][..0] == [];
    } else {
      DecimalValue(n / 10);
      assert Decimal(n)[..|Decimal(n)| - 1] == Decimal(n / 10);
    }
  }

  lemma {:induction false} DigitsLengthBack(d: string, rest: string)
    requires (forall i :: 0 <= i < |d| ==> IsDigit(d[i])) && (rest == [] || !IsDigit(rest[0]))
    ensures DigitsLength(d + rest) == |d|
    decreases |d|
  {
    if d == [] {
      assert d + rest == rest;
    } else {
      assert (d + rest)[1..] == d[1..] + rest;
      DigitsLengthBack(d[1..], rest);
    }
  }

  lemma NumberBack(n: nat, rest: string)
    requires EndsWord(rest)
    ensures ScanNumber(" " + (Decimal(n) + rest)) == Some(Read(n, rest))
  {
    hide Decimal, ValueOf;
    DecimalDigits(n);
    var d := Decimal(n);
    SkipOne(d, rest);
    DigitsLengthBack(d, rest);
    DecimalValue(n);
    assert (d + rest)[..|d|] == d && (d + rest)[|d|..] == rest;
  }

  lemma DecimalDigits(n: nat)
    ensures Decimal(n) != [] && forall i :: 0 <= i < |Decimal(n)| ==> IsDigit(Decimal(n)[i])
  {
  }

  // ---------- prefixes ----------

  /** skip_prefix. */
  function SkipPrefix(s: string, prefix: string): string {
    if prefix <= s then s[|prefix|..] else s
  }

  lemma PrefixSkipped(prefix: string, s: string)
    ensures prefix <= prefix + s && SkipPrefix(prefix + s, prefix) == s
  {
  }

  /** White space and then fixed characters. */
  function ScanLiteral(s: string, literal: string): Option<string> {
    var t := SkipSpace(s);
    if literal <= t then Some(t[|literal|..]) else None
  }

  lemma LiteralBack(literal: string, rest: string)
    requires literal != [] && !IsSpace(literal[0])
    ensures ScanLiteral(" " + (literal + rest), literal) == Some(rest)
  {
    SkipOne(literal, rest);
  }
}

/** The conversions of `sscanf` and `strtoul` that the text formats are read with. */
module Scan {
  import opened Bytes
  import opened Options

  const SPACE: Byte := 32
  const NEWLINE: Byte := 10

  predicate IsSpace(c: Byte) {
    c == SPACE || 9 <= c <= 13
  }

  predicate NoSpace(s: seq<Byte>) {
    forall i :: 0 <= i < |s| ==> !IsSpace(s[i])
  }

  function SkipSpaces(s: seq<Byte>): seq<Byte> {
    if s != [] && IsSpace(s[0]) then SkipSpaces(s[1..]) else s
  }

  /** How many of the first `max` bytes come before a space. */
  function WordRun(s: seq<Byte>, max: nat): (n: nat)
    ensures n <= |s| && n <= max && NoSpace(s[..n]) && (n < |s| && n < max ==> IsSpace(s[n]))
  {
    if s == [] || max == 0 || IsSpace(s[0]) then 0 else 1 + WordRun(s[1..], max - 1)
  }

  /** `%<max>s`: the word, and the text after it. */
  function Word(s: seq<Byte>, max: nat): Option<(seq<Byte>, seq<Byte>)> {
    var t := SkipSpaces(s);
    var n := WordRun(t, max);
    if n == 0 then None else Some((t[..n], t[n..]))
  }

  /** Digits in base `b`, whatever their value; base 16 may be prefixed. */
  function Digits(t: seq<Byte>, b: nat): Option<(nat, seq<Byte>)> {
    var prefixed := b == 16 && |t| > 2 && t[0] == 48 && (t[1] == 120 || t[1] == 88) && IsDigit(t[2], 16);
    var body := if prefixed then t[2..] else t;
    var n := DigitRun(body, b);
    if n == 0 then None else Some((ValueOf(body[..n], b), body[n..]))
  }

  /** `%lu`, `%lx` and `strtoul`: 64 bits or more saturate, and a minus sign negates anything less in 64 bits. */
  function Number(s: seq<Byte>, b: nat): Option<(Word64, seq<Byte>)> {
    var t := SkipSpaces(s);
    var negative := t != [] && t[0] == 45;
    match Digits(if t != [] && (t[0] == 45 || t[0] == 43) then t[1..] else t, b)
    case None => None
    case Some((v, rest)) => Some((if v >= U64 then U64 - 1 else if negative then (U64 - v) % U64 else v, rest))
  }

  /** `strtoll` in base 10, saturating at 63 bits. */
  function Signed(s: seq<Byte>): Option<(int, seq<Byte>)> {
    var t := SkipSpaces(s);
    var negative := t != [] && t[0] == 45;
    match Digits(if t != [] && (t[0] == 45 || t[0] == 43) then t[1..] else t, 10)
    case None => None
    case Some((n, rest)) =>
      var v: int, top := n, U64 / 2;
      Some((if negative then (if v < top then -v else -top) else if v < top then v else top - 1, rest))
  }

  // ---------------------------------------------------------------- reading what was printed

  lemma SkipLead(lead: seq<Byte>, s: seq<Byte>)
    requires (lead == [] || lead == [SPACE]) && (s == [] || !IsSpace(s[0]))
    ensures SkipSpaces(lead + s) == s
  {
    assert lead == [] ==> lead + s == s;
    assert lead == [SPACE] ==> (lead + s)[1..] == s;
  }

  lemma {:induction false} WordRunOf(w: seq<Byte>, rest: seq<Byte>, max: nat)
    requires NoSpace(w) && |w| <= max && (rest == [] || IsSpace(rest[0]))
    ensures WordRun(w + rest, max) == |w|
    decreases |w|
  {
    if w == [] {
      assert w + rest == rest;
    } else {
      assert (w + rest)[1..] == w[1..] + rest;
      WordRunOf(w[1..], rest, max - 1);
    }
  }

  lemma WordRead(lead: seq<Byte>, w: seq<Byte>, rest: seq<Byte>, max: nat)
    requires (lead == [] || lead == [SPACE]) && (rest == [] || IsSpace(rest[0]))
    requires w != [] && NoSpace(w) && |w| <= max
    ensures Word(lead + (w + rest), max) == Some((w, rest))
  {
    hide WordRun, SkipSpaces, NoSpace;
    assert !IsSpace(w[0]) by { FirstSolid(w); }
    SkipLead(lead, w + rest);
    WordRunOf(w, rest, max);
    assert (w + rest)[..|w|] == w && (w + rest)[|w|..] == rest;
  }

  lemma FirstSolid(w: seq<Byte>)
    requires w != [] && NoSpace(w)
    ensures !IsSpace(w[0])
  {
  }

  /** Nothing after the digits that would be read as part of them. */
  predicate Ends(rest: seq<Byte>, b: nat) {
    rest == [] || (!IsDigit(rest[0], b) && rest[0] != 120 && rest[0] != 88)
  }

  predicate AllDigits(d: seq<Byte>, b: nat) {
    forall i :: 0 <= i < |d| ==> IsDigit(d[i], b)
  }

  lemma DigitsRead(d: seq<Byte>, rest: seq<Byte>, b: nat)
    requires d != [] && AllDigits(d, b) && ValueOf(d, b) < U64 && Ends(rest, b)
    ensures Digits(d + rest, b) == Some((ValueOf(d, b), rest))
  {
    hide ValueOf, DigitRun;
    var t := d + rest;
    assert |d| > 1 ==> t[1] == d[1] && IsDigit(d[1], b);
    assert |t| > 1 ==> t[1] != 120 && t[1] != 88;
    DigitRunOf(d, rest, b);
    assert t[..|d|] == d && t[|d|..] == rest;
  }

  lemma NumberRead(lead: seq<Byte>, d: seq<Byte>, rest: seq<Byte>, b: nat)
    requires lead == [] || lead == [SPACE]
    requires d != [] && AllDigits(d, b) && ValueOf(d, b) < U64 && Ends(rest, b)
    ensures Number(lead + (d + rest), b) == Some((ValueOf(d, b), rest))
  {
    hide ValueOf, Digits, SkipSpaces, Ends;
    assert IsDigit(d[0], b) && (d + rest)[0] == d[0];
    SkipLead(lead, d + rest);
    DigitsRead(d, rest, b);
  }

  /** A printed number is read back, whatever follows it. */
  lemma NumeralRead(lead: seq<Byte>, n: Word64, rest: seq<Byte>, b: nat)
    requires (lead == [] || lead == [SPACE]) && 2 <= b <= 16 && Ends(rest, b)
    ensures Number(lead + (Numeral(n, b) + rest), b) == Some((n, rest))
  {
    hide Number, Ends, ValueOf;
    NumeralDigits(n, b);
    NumeralValue(n, b);
    NumberRead(lead, Numeral(n, b), rest, b);
  }

  lemma NumeralDigits(n: nat, b: nat)
    requires 2 <= b <= 16
    ensures Numeral(n, b) != [] && AllDigits(Numeral(n, b), b)
  {
    hide Numeral;
  }

  function Pow10(k: nat): nat {
    if k == 0 then 1 else 10 * Pow10(k - 1)
  }

  lemma {:induction false} NumeralLength(n: nat, k: nat)
    requires n < Pow10(k) && k > 0
    ensures |Numeral(n, 10)| <= k
    decreases k
  {
    if n >= 10 { NumeralLength(n / 10, k - 1); }
  }

  // ---------------------------------------------------------------- lines

  /** The first newline among the first `n` bytes, or `n`. */
  function NewlineAt(s: seq<Byte>, n: nat): (i: nat)
    requires n <= |s|
    ensures i <= n && (i < n ==> s[i] == NEWLINE) && forall j :: 0 <= j < i ==> s[j] != NEWLINE
    decreases n
  {
    if n == 0 then 0
    else
      var i := NewlineAt(s, n - 1);
      if i < n - 1 || s[n - 1] == NEWLINE then i else n
  }

  lemma {:induction false} NewlineStays(s: seq<Byte>, m: nat, n: nat)
    requires m <= n <= |s| && NewlineAt(s, m) < m
    ensures NewlineAt(s, n) == NewlineAt(s, m)
    decreases n
  {
    if m < n { NewlineStays(s, m, n - 1); }
  }

  lemma SameNewline(line: seq<Byte>, rest: seq<Byte>, n: nat)
    requires line != [] && NewlineAt(line, |line|) == |line| - 1 && |line| <= n <= |line + rest|
    ensures NewlineAt(line + rest, n) == |line| - 1
  {
    hide NewlineAt;
    var s := line + rest;
    assert forall j :: 0 <= j < |line| ==> s[j] == line[j];
  }
}

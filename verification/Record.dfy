/**
 * The record of the memory a successor keeps for its own successor (lib/memblock.c), and the
 * file it is written to (`file_write` of lib/file.c).
 */
module Records {
  import opened Bytes
  import opened Options
  import opened Ranges
  import Scan

  // ---------------------------------------------------------------- the file

  /** How writing a file went: it could not be opened, failed after `n` bytes, or was written whole. */
  datatype Written = Unopened | Cut(n: nat) | Whole

  /** A failure comes before the last byte. */
  predicate WrittenOf(w: Written, text: seq<Byte>) {
    w.Cut? ==> w.n < |text|
  }

  /** What the file holds then; opening it truncates it. */
  function AfterWrite(file: Option<seq<Byte>>, text: seq<Byte>, w: Written): Option<seq<Byte>> {
    match w
    case Unopened => file
    case Cut(n) => Some(if n < |text| then text[..n] else text)
    case Whole => Some(text)
  }

  class File {
    var text: Option<seq<Byte>>

    constructor (text: Option<seq<Byte>>)
      ensures this.text == text
    {
      this.text := text;
    }

    /** `file_write`: writes may be short; interrupted ones are repeated and leave no trace. */
    method Write(buf: seq<Byte>) returns (ret: int, w: Written)
      modifies this
      ensures WrittenOf(w, buf) && text == AfterWrite(old(text), buf, w)
      ensures ret <= 0 && (ret == 0 <==> w == Whole)
    {
      var granted: bool := *;
      if !granted {
        ret :| ret < 0;
        return ret, Unopened;
      }
      text := Some([]);
      var p := 0;
      while p < |buf|
        invariant p <= |buf| && text == Some(buf[..p])
      {
        var n :| n <= |buf| - p && n != 0;
        if n < 0 {
          return n, Cut(p);
        }
        p := p + n;
        text := Some(buf[..p]);
      }
      assert buf[..p] == buf;
      return 0, Whole;
    }

    /** `unlink`, which may fail. */
    method Remove() returns (removed: bool)
      modifies this
      ensures text == if removed then None else old(text)
    {
      removed := *;
      if removed {
        text := None;
      }
    }
  }

  // ---------------------------------------------------------------- the text

  /** `%#x`: no prefix on zero. */
  function AltHex(n: Word64): seq<Byte> {
    if n == 0 then [48] else [48, 120] + Numeral(n, 16)
  }

  /** `pool_claim_write`: base and size on one line. */
  function ClaimText(r: Range): seq<Byte> {
    AltHex(r.base) + [32] + AltHex(r.size) + [10]
  }

  /** `file_read_string` drops trailing newlines. */
  function Chomp(s: seq<Byte>): seq<Byte> {
    if s != [] && s[|s| - 1] == 10 then Chomp(s[..|s| - 1]) else s
  }

  /** `pool_claim_read`: two numbers, the second not zero. */
  function ParseClaim(text: seq<Byte>): Option<Range> {
    match Scan.Number(Chomp(text), 16)
    case None => None
    case Some((base, rest)) =>
      match Scan.Number(rest, 16)
      case None => None
      case Some((size, _)) => if size == 0 then None else Some(Range(base, size))
  }

  /** The range the record names, if there is one. */
  function Named(file: Option<seq<Byte>>): Option<Range> {
    if file.None? then None else ParseClaim(file.value)
  }

  lemma AltHexRead(lead: seq<Byte>, n: Word64, rest: seq<Byte>)
    requires (lead == [] || lead == [32]) && Scan.Ends(rest, 16)
    ensures Scan.Number(lead + (AltHex(n) + rest), 16) == Some((n, rest))
  {
    if n == 0 {
      assert AltHex(n) == Numeral(0, 16);
      Scan.NumeralRead(lead, 0, rest, 16);
    } else {
      hide Scan.Digits, Scan.SkipSpaces, Numeral, Scan.Ends;
      PrefixedRead(n, rest);
      Scan.SkipLead(lead, AltHex(n) + rest);
    }
  }

  lemma PrefixedRead(n: Word64, rest: seq<Byte>)
    requires Scan.Ends(rest, 16)
    ensures Scan.Digits([48, 120] + Numeral(n, 16) + rest, 16) == Some((n, rest))
  {
    hide Numeral, ValueOf, Scan.Ends, Scan.Digits;
    NumeralValue(n, 16);
    Scan.NumeralDigits(n, 16);
    PrefixedDigits(Numeral(n, 16), rest);
  }

  lemma PrefixedDigits(d: seq<Byte>, rest: seq<Byte>)
    requires d != [] && Scan.AllDigits(d, 16) && ValueOf(d, 16) < U64 && Scan.Ends(rest, 16)
    ensures Scan.Digits([48, 120] + d + rest, 16) == Some((ValueOf(d, 16), rest))
  {
    hide DigitRun, ValueOf;
    var t := [48, 120] + d + rest;
    assert t[2..] == d + rest && t[0] == 48 && t[1] == 120 && t[2] == d[0] && IsDigit(d[0], 16);
    DigitRunOf(d, rest, 16);
    assert (d + rest)[..|d|] == d && (d + rest)[|d|..] == rest;
  }

  /** What is recorded is what is read back, and a record of no memory reads as none. */
  lemma ClaimRoundTrip(r: Range)
    ensures ParseClaim(ClaimText(r)) == if r.size == 0 then None else Some(r)
  {
    var a, b := AltHex(r.base), AltHex(r.size);
    AltHexEnds(r.size);
    hide AltHex, Chomp, Scan.Number;
    ChompLine(a, b);
    AltHexRead([], r.base, [32] + b);
    assert [] + (a + ([32] + b)) == a + ([32] + b);
    AltHexRead([32], r.size, []);
    assert [32] + (b + []) == [32] + b;
  }

  lemma ChompLine(a: seq<Byte>, b: seq<Byte>)
    requires b != [] && b[|b| - 1] != 10
    ensures Chomp(a + [32] + b + [10]) == a + ([32] + b)
  {
    hide Chomp;
    var line := a + ([32] + b);
    assert line[|line| - 1] == b[|b| - 1];
    assert a + [32] + b + [10] == line + [10];
    ChompStep(line, 10);
    ChompEnd(line);
  }

  lemma ChompStep(s: seq<Byte>, c: Byte)
    requires c == 10
    ensures Chomp(s + [c]) == Chomp(s)
  {
    assert (s + [c])[..|s|] == s;
  }

  lemma ChompEnd(s: seq<Byte>)
    requires s != [] && s[|s| - 1] != 10
    ensures Chomp(s) == s
  {
  }

  lemma AltHexEnds(n: Word64)
    ensures AltHex(n) != [] && AltHex(n)[|AltHex(n)| - 1] != 10
  {
    if n != 0 {
      var d := Numeral(n, 16);
      assert AltHex(n)[|AltHex(n)| - 1] == d[|d| - 1];
      assert IsDigit(d[|d| - 1], 16);
    }
  }

  // ---------------------------------------------------------------- a record cut short

  /** The number the first `m` digits of `n` show. */
  function Shown(n: Word64, m: nat): nat
    requires m <= |Numeral(n, 16)|
  {
    ValueOf(Numeral(n, 16)[..m], 16)
  }

  /** Some digits of a number, but not none, show a number that is neither zero nor larger. */
  lemma {:induction false} ShownBounds(n: Word64, m: nat)
    requires 0 < n && 0 < m <= |Numeral(n, 16)|
    ensures 0 < Shown(n, m) <= n
    decreases n
  {
    var s := Numeral(n, 16);
    if m == |s| {
      assert s[..m] == s;
      NumeralValue(n, 16);
    } else {
      assert n >= 16;
      assert s[..m] == Numeral(n / 16, 16)[..m];
      ShownBounds(n / 16, m);
    }
  }

  /** How many bytes of a record are needed before it names a range: the base, a space, and `0x` with a digit. */
  function Names(r: Range): nat {
    |AltHex(r.base)| + 4
  }

  /** What the first `m` bytes of a printed number read as. */
  lemma AltHexCut(lead: seq<Byte>, n: Word64, m: nat)
    requires (lead == [] || lead == [32]) && m <= |AltHex(n)|
    ensures Scan.Number(lead + AltHex(n)[..m], 16) ==
            if m == 0 then None
            else if m <= 2 then Some((0, [48, 120][1..m]))
            else Some((Shown(n, m - 2), []))
  {
    hide Numeral, Scan.Digits, Scan.SkipSpaces, ValueOf;
    var s := AltHex(n)[..m];
    Scan.SkipLead(lead, s);
    if m == 0 {
      NoDigits();
    } else if m <= 2 {
      assert s == [48, 120][..m];
      ZeroDigits(m);
    } else {
      var d := Numeral(n, 16)[..m - 2];
      Scan.NumeralDigits(n, 16);
      ShownBounds(n, m - 2);
      assert s == [48, 120] + d + [];
      PrefixedDigits(d, []);
    }
  }

  lemma NoDigits()
    ensures Scan.Digits([], 16) == None && Scan.Digits([120], 16) == None
  {
  }

  lemma ZeroDigits(m: nat)
    requires 1 <= m <= 2
    ensures Scan.Digits([48, 120][..m], 16) == Some((0, [48, 120][1..m]))
  {
    var s, rest := [48, 120][..m], [48, 120][1..m];
    assert s == [48] + rest;
    DigitRunOf([48], rest, 16);
    assert s[..1] == [48] && s[1..] == rest;
    assert ValueOf([48], 16) == 0 by { assert [48][..0] == []; }
  }

  /** After such a part of a number no other number follows. */
  lemma NothingFollows(m: nat)
    requires 1 <= m <= 2
    ensures Scan.Number([48, 120][1..m], 16) == None && Scan.Number([], 16) == None
  {
    hide Scan.Digits;
    NoDigits();
    assert [48, 120][1..m] == if m == 1 then [] else [120];
  }

  lemma AltHexSolid(n: Word64, i: nat)
    requires i < |AltHex(n)|
    ensures AltHex(n)[i] != 10
  {
    if i >= 2 { assert IsDigit(AltHex(n)[i], 16); }
  }

  /**
   * What a record cut short reads as: nothing, until a digit of the size is there, and from
   * then on a range that starts where the recorded one does and is no longer.
   */
  lemma CutReads(r: Range, n: nat)
    requires n < |ClaimText(r)|
    ensures var read := ParseClaim(ClaimText(r)[..n]);
            && (read.Some? <==> r.size != 0 && n >= Names(r))
            && (read.Some? ==> read.value.base == r.base && 0 < read.value.size <= r.size)
  {
    hide AltHex, ParseClaim;
    if n <= |AltHex(r.base)| { CutInBase(r, n); } else { CutInSize(r, n - |AltHex(r.base)| - 1); }
  }

  lemma CutInBase(r: Range, n: nat)
    requires n <= |AltHex(r.base)|
    ensures ParseClaim(ClaimText(r)[..n]) == None
  {
    hide AltHex, Chomp, Scan.Number, Shown;
    CutSolid(r, n);
    NothingFollows(1);
    NothingFollows(2);
    var a := AltHex(r.base);
    assert ClaimText(r)[..n] == [] + a[..n];
    AltHexCut([], r.base, n);
  }

  lemma CutInSize(r: Range, m: nat)
    requires m <= |AltHex(r.size)|
    ensures var read := ParseClaim(ClaimText(r)[..|AltHex(r.base)| + 1 + m]);
            && (read.Some? <==> r.size != 0 && m >= 3)
            && (read.Some? ==> read.value.base == r.base && 0 < read.value.size <= r.size)
  {
    hide AltHex, Chomp, Scan.Number, Shown;
    var a, b := AltHex(r.base), AltHex(r.size);
    var t := [32] + b[..m];
    CutSolid(r, |a| + 1 + m);
    CutIs(a, b, m);
    AltHexRead([], r.base, t);
    AltHexCut([32], r.size, m);
    if m > 2 { SizeShown(r, m); }
  }

  lemma CutIs(a: seq<Byte>, b: seq<Byte>, m: nat)
    requires m <= |b|
    ensures (a + [32] + b + [10])[..|a| + 1 + m] == a + ([32] + b[..m]) == [] + (a + ([32] + b[..m]))
  {
  }

  lemma SizeShown(r: Range, m: nat)
    requires 2 < m <= |AltHex(r.size)|
    ensures r.size != 0 && 0 < Shown(r.size, m - 2) <= r.size
  {
    ShownBounds(r.size, m - 2);
  }

  /** No newline comes before the last byte. */
  lemma CutSolid(r: Range, n: nat)
    requires n < |ClaimText(r)|
    ensures Chomp(ClaimText(r)[..n]) == ClaimText(r)[..n]
  {
    hide AltHex;
    var a, b, i := AltHex(r.base), AltHex(r.size), n - 1;
    if n > 0 {
      if i < |a| {
        AltHexSolid(r.base, i);
        assert ClaimText(r)[i] == a[i];
      } else if i > |a| {
        AltHexSolid(r.size, i - |a| - 1);
        assert ClaimText(r)[i] == b[i - |a| - 1];
      }
      assert ClaimText(r)[..n][n - 1] != 10;
    }
  }
}

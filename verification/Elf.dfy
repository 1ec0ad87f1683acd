/** The shape of a vmcore (lib/elfcore.c): note records, program headers and file offsets. */
module Elf {
  import opened Errno
  import opened Bytes
  import opened Options
  import opened Ranges

  const PAGE: int := 4096

  // ---------------------------------------------------------------- note records

  /** The sizes a note header starts with, in the little-endian order of the machine. */
  function NameSize(h: seq<Byte>): nat
    requires |h| >= 12
  {
    FromLittle(h[..4])
  }

  function DescSize(h: seq<Byte>): nat
    requires |h| >= 12
  {
    FromLittle(h[4..8])
  }

  /** The length of the record a buffer starts with: header, padded name, padded description. */
  function RecordSize(b: seq<Byte>): (n: nat)
    requires |b| >= 12
    ensures n >= 12
  {
    12 + Align4(NameSize(b)) + Align4(DescSize(b))
  }

  /** A whole record lies at the start of `b`: not the terminating empty note, and not cut short. */
  predicate StartsRecord(b: seq<Byte>): (s: bool)
    ensures s ==> |b| >= 12 && 12 <= RecordSize(b) <= |b|
  {
    |b| >= 12 && !(NameSize(b) == 0 && DescSize(b) == 0) && RecordSize(b) <= |b|
  }

  /** The records of a buffer, each as its own bytes. */
  function Records(b: seq<Byte>): seq<seq<Byte>>
    decreases |b|
  {
    if StartsRecord(b) then [b[..RecordSize(b)]] + Records(b[RecordSize(b)..]) else []
  }

  function Flatten(s: seq<seq<Byte>>): seq<Byte> {
    if s == [] then [] else s[0] + Flatten(s[1..])
  }

  /** `b` is a whole number of records. */
  ghost predicate WholeRecords(b: seq<Byte>) {
    Flatten(Records(b)) == b
  }

  lemma RecordsStep(b: seq<Byte>)
    requires StartsRecord(b)
    ensures var r := RecordSize(b);
            Records(b)[1..] == Records(b[r..]) && Flatten(Records(b)) == b[..r] + Flatten(Records(b[r..]))
  {
    hide StartsRecord, RecordSize;
    var r := RecordSize(b);
    assert Records(b) == [b[..r]] + Records(b[r..]);
    assert Records(b)[1..] == Records(b[r..]);
  }

  lemma {:induction false} RecordsArePrefix(b: seq<Byte>)
    ensures var n := |Flatten(Records(b))|;
            n <= |b| && Flatten(Records(b)) == b[..n] && !StartsRecord(b[n..])
    decreases |b|
  {
    hide StartsRecord, RecordSize;
    if StartsRecord(b) {
      var r := RecordSize(b);
      RecordsStep(b);
      RecordsArePrefix(b[r..]);
      hide Records, Flatten;
      var m := |Flatten(Records(b[r..]))|;
      assert b[..r + m] == b[..r] + b[r..][..m];
      assert b[r + m..] == b[r..][m..];
    } else {
      assert b[0..] == b;
    }
  }

  lemma PrefixStarts(b: seq<Byte>, n: nat)
    requires StartsRecord(b) && RecordSize(b) <= n <= |b|
    ensures StartsRecord(b[..n]) && RecordSize(b[..n]) == RecordSize(b)
  {
    hide FromLittle;
    assert b[..n][..4] == b[..4] && b[..n][4..8] == b[4..8];
  }

  lemma ExtendedStarts(a: seq<Byte>, b: seq<Byte>)
    requires StartsRecord(a)
    ensures StartsRecord(a + b) && RecordSize(a + b) == RecordSize(a)
  {
    hide FromLittle;
    assert (a + b)[..4] == a[..4] && (a + b)[4..8] == a[4..8];
  }

  /** Reading a buffer cut down to its records finds the same records. */
  lemma {:induction false} TrimmedRecords(b: seq<Byte>, n: nat)
    requires n <= |b| && n == |Flatten(Records(b))|
    ensures Records(b[..n]) == Records(b)
    decreases |b|
  {
    if StartsRecord(b) {
      var r := RecordSize(b);
      assert 12 <= r <= |b|;
      RecordsStep(b);
      var m := n - r;
      RecordsArePrefix(b[r..]);
      TrimmedRecords(b[r..], m);
      PrefixStarts(b, n);
      hide StartsRecord, RecordSize, Flatten;
      assert b[..n][..r] == b[..r] && b[..n][r..] == b[r..][..m];
    } else {
      assert b[..n] == [];
    }
  }

  /** After a whole number of records, reading just goes on. */
  lemma {:induction false} RecordsConcat(a: seq<Byte>, b: seq<Byte>)
    requires WholeRecords(a)
    ensures Records(a + b) == Records(a) + Records(b)
    decreases |a|
  {
    if a == [] {
      assert a + b == b;
      NoRecords(a);
    } else {
      WholeStarts(a);
      RestWhole(a);
      var r := RecordSize(a);
      RecordsConcat(a[r..], b);
      ExtendedStarts(a, b);
      ConcatStep(a, b, r);
    }
  }

  lemma WholeStarts(a: seq<Byte>)
    requires WholeRecords(a) && a != []
    ensures StartsRecord(a)
  {
    hide StartsRecord, RecordSize;
  }

  lemma ConcatStep(a: seq<Byte>, b: seq<Byte>, r: nat)
    requires StartsRecord(a) && StartsRecord(a + b) && r == RecordSize(a) == RecordSize(a + b)
    requires Records(a[r..] + b) == Records(a[r..]) + Records(b)
    ensures Records(a + b) == Records(a) + Records(b)
  {
    hide StartsRecord, RecordSize;
    assert (a + b)[..r] == a[..r] && (a + b)[r..] == a[r..] + b;
    assert Records(a + b) == [a[..r]] + Records(a[r..] + b);
    assert Records(a) == [a[..r]] + Records(a[r..]);
  }

  lemma RestWhole(a: seq<Byte>)
    requires WholeRecords(a) && StartsRecord(a)
    ensures WholeRecords(a[RecordSize(a)..])
  {
    RecordsStep(a);
    hide StartsRecord, RecordSize, Records, Flatten;
    var r := RecordSize(a);
    assert a == a[..r] + Flatten(Records(a[r..]));
    assert a[r..] == Flatten(Records(a[r..]));
  }

  /** `elfcore_notes_len`: the bytes of whole records at the start of a buffer. */
  method NotesLen(b: seq<Byte>) returns (off: nat)
    ensures off <= |b| && b[..off] == Flatten(Records(b))
    ensures WholeRecords(b[..off]) && Records(b[..off]) == Records(b)
    ensures !StartsRecord(b[off..])
  {
    hide FromLittle, Flatten;
    off := 0;
    assert b[0..] == b;
    while off + 12 <= |b|
      invariant off <= |b| && Flatten(Records(b)) == b[..off] + Flatten(Records(b[off..]))
      decreases |b| - off
    {
      var h := b[off..];
      if NameSize(h) == 0 && DescSize(h) == 0 {
        break;
      }
      var rec := 12 + Align4(NameSize(h)) + Align4(DescSize(h));
      if off + rec > |b| {
        break;
      }
      NextRecord(b, off, rec);
      off := off + rec;
    }
    NoRecords(b[off..]);
    assert Flatten(Records(b)) == b[..off];
    TrimmedRecords(b, off);
  }

  lemma NextRecord(b: seq<Byte>, off: nat, rec: nat)
    requires off <= |b| && StartsRecord(b[off..]) && rec == RecordSize(b[off..])
    requires Flatten(Records(b)) == b[..off] + Flatten(Records(b[off..]))
    ensures off + rec <= |b| && Flatten(Records(b)) == b[..off + rec] + Flatten(Records(b[off + rec..]))
  {
    hide StartsRecord, RecordSize, Records, Flatten;
    RecordsStep(b[off..]);
    var h := b[off..];
    assert h[rec..] == b[off + rec..];
    Regroup(b, off, rec, Flatten(Records(h[rec..])));
  }

  lemma Regroup(b: seq<Byte>, off: nat, rec: nat, t: seq<Byte>)
    requires off + rec <= |b|
    ensures b[..off] + (b[off..][..rec] + t) == b[..off + rec] + t
  {
    assert b[..off + rec] == b[..off] + b[off..][..rec];
  }

  lemma NoRecords(b: seq<Byte>)
    requires !StartsRecord(b)
    ensures Records(b) == [] && Flatten(Records(b)) == []
  {
  }

  /** The records of all buffers, in order. */
  function AllRecords(notes: seq<seq<Byte>>): seq<seq<Byte>> {
    if notes == [] then [] else Records(notes[0]) + AllRecords(notes[1..])
  }

  /** A segment made of trimmed buffers reads as the records of all of them, none lost at a seam. */
  lemma {:induction false} SegmentRecords(notes: seq<seq<Byte>>)
    requires forall i :: 0 <= i < |notes| ==> WholeRecords(notes[i])
    ensures WholeRecords(Flatten(notes)) && Records(Flatten(notes)) == AllRecords(notes)
    decreases |notes|
  {
    if notes != [] {
      SegmentRecords(notes[1..]);
      RecordsConcat(notes[0], Flatten(notes[1..]));
      FlattenConcat(Records(notes[0]), Records(Flatten(notes[1..])));
    }
  }

  lemma {:induction false} FlattenConcat(s: seq<seq<Byte>>, t: seq<seq<Byte>>)
    ensures Flatten(s + t) == Flatten(s) + Flatten(t)
    decreases |s|
  {
    if s == [] {
      assert s + t == t;
    } else {
      assert (s + t)[1..] == s[1..] + t;
      FlattenConcat(s[1..], t);
    }
  }

  // ---------------------------------------------------------------- offsets

  /** `(v + PAGE - 1) & ~(PAGE - 1)` in 64 bits. */
  function PageAlign(v: Word64): Word64 {
    Plus(v, PAGE - 1) / PAGE * PAGE
  }

  /** The same without a width. */
  function RoundPage(v: nat): (r: nat)
    ensures v <= r < v + PAGE && r % PAGE == 0
  {
    (v + PAGE - 1) / PAGE * PAGE
  }

  lemma PageAlignExact(v: Word64)
    requires RoundPage(v) < U64
    ensures PageAlign(v) == RoundPage(v)
  {
    if v + PAGE - 1 >= U64 { TopPage(v); }
  }

  lemma TopPage(v: Word64)
    requires v + PAGE - 1 >= U64
    ensures RoundPage(v) >= U64
  {
    assert U64 / PAGE * PAGE == U64;
    assert (v + PAGE - 1) / PAGE >= U64 / PAGE;
  }

  /** Where each range's data goes, as the loop computes it, and the size of the file. */
  function Offsets(cur: Word64, ranges: seq<Range>): seq<Word64>
    decreases |ranges|
  {
    if ranges == [] then [] else [cur] + Offsets(PageAlign(Plus(cur, ranges[0].size)), ranges[1..])
  }

  function Total(cur: Word64, ranges: seq<Range>): Word64
    decreases |ranges|
  {
    if ranges == [] then cur else Total(PageAlign(Plus(cur, ranges[0].size)), ranges[1..])
  }

  /** Where it ends when no addition wraps. */
  function TrueTotal(cur: nat, ranges: seq<Range>): (t: nat)
    ensures t >= cur
    decreases |ranges|
  {
    if ranges == [] then cur else TrueTotal(RoundPage(cur + ranges[0].size), ranges[1..])
  }

  /** The loads lie in the file in order, page aligned, disjoint, from `cur` up to `total`. */
  ghost predicate Laid(cur: nat, total: nat, ranges: seq<Range>, offsets: seq<Word64>) {
    && |offsets| == |ranges|
    && cur <= total
    && (forall i :: 0 <= i < |ranges| ==>
          cur <= offsets[i] && offsets[i] % PAGE == 0 && offsets[i] + ranges[i].size <= total)
    && (forall i, j :: 0 <= i < j < |ranges| ==> offsets[i] + ranges[i].size <= offsets[j])
  }

  lemma {:induction false} OffsetsLaid(cur: Word64, ranges: seq<Range>)
    requires cur % PAGE == 0 && TrueTotal(cur, ranges) < U64
    ensures Laid(cur, Total(cur, ranges), ranges, Offsets(cur, ranges))
    ensures Total(cur, ranges) == TrueTotal(cur, ranges)
    decreases |ranges|
  {
    if ranges != [] {
      var next := RoundPage(cur + ranges[0].size);
      assert next <= TrueTotal(cur, ranges);
      PageAlignExact(cur + ranges[0].size);
      OffsetsLaid(next, ranges[1..]);
      LaidCons(cur, next, Total(cur, ranges), ranges, Offsets(cur, ranges));
    }
  }

  lemma LaidCons(cur: nat, next: nat, total: nat, ranges: seq<Range>, offsets: seq<Word64>)
    requires ranges != [] && offsets != [] && offsets[0] == cur && cur % PAGE == 0
    requires cur + ranges[0].size <= next && Laid(next, total, ranges[1..], offsets[1..])
    ensures Laid(cur, total, ranges, offsets)
  {
    forall i | 0 < i < |ranges|
      ensures next <= offsets[i] && offsets[i] % PAGE == 0 && offsets[i] + ranges[i].size <= total
    {
      assert offsets[i] == offsets[1..][i - 1] && ranges[i] == ranges[1..][i - 1];
    }
    forall i, j | 0 <= i < j < |ranges| ensures offsets[i] + ranges[i].size <= offsets[j] {
      if i > 0 {
        assert offsets[i] == offsets[1..][i - 1] && offsets[j] == offsets[1..][j - 1];
        assert ranges[i] == ranges[1..][i - 1];
      }
    }
  }

  /** The computed size is the true one exactly when that fits in 64 bits. */
  lemma TotalExact(cur: Word64, ranges: seq<Range>)
    requires cur % PAGE == 0
    ensures Total(cur, ranges) == TrueTotal(cur, ranges) <==> TrueTotal(cur, ranges) < U64
  {
    if TrueTotal(cur, ranges) < U64 { OffsetsLaid(cur, ranges); }
  }

  // ---------------------------------------------------------------- the header

  const EHDR: nat := 64
  const PHDR: nat := 56  // written out where it multiplies
  const PT_LOAD: Word32 := 1
  const PT_NOTE: Word32 := 4
  const RWX: Word32 := 7
  const NO_VADDR: Word64 := U64 - 1

  /** A program header, chapter 5 of the System V gABI. */
  datatype Phdr = Phdr(
    kind: Word32, flags: Word32, offset: Word64, vaddr: Word64, paddr: Word64, filesz: Word64, memsz: Word64,
    align: Word64)

  function EncodePhdr(p: Phdr): (s: seq<Byte>)
    ensures |s| == PHDR
  {
    Little(p.kind, 4) + Little(p.flags, 4) + Little(p.offset, 8) + Little(p.vaddr, 8) + Little(p.paddr, 8)
    + Little(p.filesz, 8) + Little(p.memsz, 8) + Little(p.align, 8)
  }

  /** Reading the field of width `w` at `at`. */
  function Field(s: seq<Byte>, at: nat, w: nat): nat
    requires at + w <= |s|
  {
    FromLittle(s[at..at + w])
  }

  lemma FieldAt(pre: seq<Byte>, n: nat, w: nat, post: seq<Byte>)
    requires n < Pow256(w)
    ensures Field(pre + Little(n, w) + post, |pre|, w) == n
  {
    LittleRoundTrip(n, w);
    hide Little, FromLittle, Pow256;
    assert (pre + Little(n, w) + post)[|pre|..|pre| + w] == Little(n, w);
  }

  /** The bytes of a header say what it says. */
  lemma PhdrRoundTrip(p: Phdr)
    ensures var s := EncodePhdr(p);
            && Field(s, 0, 4) == p.kind && Field(s, 4, 4) == p.flags && Field(s, 8, 8) == p.offset
            && Field(s, 16, 8) == p.vaddr && Field(s, 24, 8) == p.paddr && Field(s, 32, 8) == p.filesz
            && Field(s, 40, 8) == p.memsz && Field(s, 48, 8) == p.align
  {
    Pow256Words();
    hide Little, Pow256, Field;
    var s := EncodePhdr(p);
    var k, f, o, v := Little(p.kind, 4), Little(p.flags, 4), Little(p.offset, 8), Little(p.vaddr, 8);
    var a, z, m, g := Little(p.paddr, 8), Little(p.filesz, 8), Little(p.memsz, 8), Little(p.align, 8);
    assert Field(s, 0, 4) == p.kind by {
      assert s == [] + k + (f + o + v + a + z + m + g);
      FieldAt([], p.kind, 4, f + o + v + a + z + m + g);
    }
    assert Field(s, 4, 4) == p.flags by {
      assert s == k + f + (o + v + a + z + m + g);
      FieldAt(k, p.flags, 4, o + v + a + z + m + g);
    }
    assert Field(s, 8, 8) == p.offset by {
      assert s == k + f + o + (v + a + z + m + g);
      FieldAt(k + f, p.offset, 8, v + a + z + m + g);
    }
    assert Field(s, 16, 8) == p.vaddr by {
      assert s == k + f + o + v + (a + z + m + g);
      FieldAt(k + f + o, p.vaddr, 8, a + z + m + g);
    }
    assert Field(s, 24, 8) == p.paddr by {
      assert s == k + f + o + v + a + (z + m + g);
      FieldAt(k + f + o + v, p.paddr, 8, z + m + g);
    }
    assert Field(s, 32, 8) == p.filesz by {
      assert s == k + f + o + v + a + z + (m + g);
      FieldAt(k + f + o + v + a, p.filesz, 8, m + g);
    }
    assert Field(s, 40, 8) == p.memsz by {
      assert s == k + f + o + v + a + z + m + g;
      FieldAt(k + f + o + v + a + z, p.memsz, 8, g);
    }
    assert Field(s, 48, 8) == p.align by {
      assert s == k + f + o + v + a + z + m + g + [];
      FieldAt(k + f + o + v + a + z + m, p.align, 8, []);
    }
  }

  /** The ELF64 header of a core file with `phnum` program headers right after it. */
  function Ehdr(machine: Word32, phnum: nat): (s: seq<Byte>)
    ensures |s| == EHDR
  {
    [0x7f, 0x45, 0x4c, 0x46, 2, 1, 1, 0] + Zeros(8) + Little(4, 2) + Little(machine, 2) + Little(1, 4) + Zeros(8)
    + Little(EHDR, 8) + Zeros(8) + Zeros(4) + Little(EHDR, 2) + Little(PHDR, 2) + Little(phnum, 2) + Zeros(6)
  }

  function NoteHeader(count: nat, notes: seq<seq<Byte>>): Phdr
    requires NoteOffset(count) < U64 && |Flatten(notes)| < U64
  {
    Phdr(PT_NOTE, 0, NoteOffset(count), 0, 0, |Flatten(notes)|, |Flatten(notes)|, 4)
  }

  function NoteOffset(count: nat): nat { EHDR + (1 + count) * 56 }

  function LoadHeader(r: Range, offset: Word64, pageOffset: Option<Word64>): Phdr {
    Phdr(PT_LOAD, RWX, offset, if pageOffset.Some? then Plus(pageOffset.value, r.base) else NO_VADDR,
         r.base, r.size, r.size, PAGE)
  }

  function LoadHeaders(ranges: seq<Range>, offsets: seq<Word64>, v: Option<Word64>, n: nat): (s: seq<Phdr>)
    requires n <= |ranges| && n <= |offsets|
    ensures |s| == n
  {
    seq(n, i requires 0 <= i < n => LoadHeader(ranges[i], offsets[i], v))
  }

  function EncodeAll(phs: seq<Phdr>): (s: seq<Byte>)
    ensures |s| == |phs| * 56
  {
    if phs == [] then [] else EncodeAll(phs[..|phs| - 1]) + EncodePhdr(phs[|phs| - 1])
  }

  /** A header being filled: `phs` of `n` program headers written, then the notes, then padding. */
  function HeaderBytes(machine: Word32, phs: seq<Phdr>, n: nat, notes: seq<Byte>, pad: nat): (s: seq<Byte>)
    requires |phs| <= n
    ensures |s| == EHDR + n * 56 + |notes| + pad
  {
    Ehdr(machine, n) + EncodeAll(phs) + Zeros((n - |phs|) * 56) + notes + Zeros(pad)
  }

  lemma EncodeAllAppend(phs: seq<Phdr>, p: Phdr)
    ensures EncodeAll(phs + [p]) == EncodeAll(phs) + EncodePhdr(p)
  {
    assert (phs + [p])[..|phs|] == phs;
  }

  /** Program header `i` of the finished header is found where the gABI says. */
  lemma {:induction false} EncodeAllAt(phs: seq<Phdr>, i: nat)
    requires i < |phs|
    ensures (i + 1) * 56 <= |EncodeAll(phs)| && EncodeAll(phs)[i * 56..(i + 1) * 56] == EncodePhdr(phs[i])
    decreases |phs|
  {
    hide EncodePhdr;
    var most := phs[..|phs| - 1];
    if i == |phs| - 1 {
      assert EncodeAll(phs)[i * 56..] == EncodePhdr(phs[i]);
    } else {
      EncodeAllAt(most, i);
      assert EncodeAll(phs)[i * 56..(i + 1) * 56] == EncodeAll(most)[i * 56..(i + 1) * 56];
    }
  }

  /** Writing the next program header over its zeros. */
  lemma HeaderStep(machine: Word32, phs: seq<Phdr>, p: Phdr, n: nat, notes: seq<Byte>, pad: nat)
    requires |phs| < n
    ensures var h, at := HeaderBytes(machine, phs, n, notes, pad), EHDR + |phs| * 56;
            && at + PHDR <= |h|
            && h[..at] + EncodePhdr(p) + h[at + PHDR..] == HeaderBytes(machine, phs + [p], n, notes, pad)
  {
    hide Ehdr, EncodePhdr;
    EncodeAllAppend(phs, p);
    hide EncodeAll;
    var h, at := HeaderBytes(machine, phs, n, notes, pad), EHDR + |phs| * 56;
    var done, e, rest := Ehdr(machine, n) + EncodeAll(phs), EncodePhdr(p), notes + Zeros(pad);
    var left := (n - |phs| - 1) * 56;
    assert (n - |phs|) * 56 == PHDR + left;
    assert Zeros((n - |phs|) * 56) == Zeros(PHDR) + Zeros(left);
    assert h == done + (Zeros(PHDR) + Zeros(left)) + rest;
    Splice(done, Zeros(PHDR), Zeros(left) + rest, e);
    assert h == done + Zeros(PHDR) + (Zeros(left) + rest);
    assert done + e + (Zeros(left) + rest) ==
           Ehdr(machine, n) + (EncodeAll(phs) + e) + Zeros(left) + notes + Zeros(pad);
  }

  /** Writing the next note over its zeros. */
  method PutNotes(a: array<Byte>, at: nat, notes: seq<seq<Byte>>, ghost pre: seq<Byte>, ghost post: seq<Byte>)
    requires a[..] == pre + Zeros(|Flatten(notes)|) + post && at == |pre|
    modifies a
    ensures a[..] == pre + Flatten(notes) + post
  {
    hide Flatten;
    var p, i := at, 0;
    NoNotes();
    assert notes[0..] == notes && notes[..0] == [];
    while i < |notes|
      invariant i <= |notes| && p == at + |Flatten(notes[..i])|
      invariant a[..] == pre + Flatten(notes[..i]) + Zeros(|Flatten(notes[i..])|) + post
    {
      NoteStep(notes, i, pre, post);
      Put(a, p, notes[i]);
      p := p + |notes[i]|;
      i := i + 1;
    }
    assert notes[..i] == notes && notes[i..] == [];
  }

  lemma NoteStep(notes: seq<seq<Byte>>, i: nat, pre: seq<Byte>, post: seq<Byte>)
    requires i < |notes|
    ensures var h, at := pre + Flatten(notes[..i]) + Zeros(|Flatten(notes[i..])|) + post, |pre| + |Flatten(notes[..i])|;
            && at + |notes[i]| <= |h| && |Flatten(notes[..i + 1])| == |Flatten(notes[..i])| + |notes[i]|
            && h[..at] + notes[i] + h[at + |notes[i]|..] ==
               pre + Flatten(notes[..i + 1]) + Zeros(|Flatten(notes[i + 1..])|) + post
  {
    hide Flatten;
    FlattenCut(notes, i);
    var f, x := Flatten(notes[..i]), notes[i];
    var z, left := Zeros(|x|), Zeros(|Flatten(notes[i + 1..])|);
    assert Zeros(|Flatten(notes[i..])|) == z + left;
    Assoc(pre + f, z, left, post);
    Splice(pre + f, z, left + post, x);
    Assoc(pre + f, x, left, post);
    ConcatAssoc(pre, f, x);
  }

  lemma NoNotes()
    ensures Flatten([]) == []
  {
  }

  lemma FlattenCut(notes: seq<seq<Byte>>, i: nat)
    requires i < |notes|
    ensures Flatten(notes[i..]) == notes[i] + Flatten(notes[i + 1..])
    ensures Flatten(notes[..i + 1]) == Flatten(notes[..i]) + notes[i]
  {
    assert notes[i..][1..] == notes[i + 1..];
    assert notes[..i + 1] == notes[..i] + [notes[i]];
    FlattenConcat(notes[..i], [notes[i]]);
    assert Flatten([notes[i]]) == notes[i] + Flatten([notes[i]][1..]);
  }

  /** All program headers of a core file: the notes first, then one load per range. */
  function Headers(ranges: seq<Range>, notes: seq<seq<Byte>>, offsets: seq<Word64>, v: Option<Word64>): seq<Phdr>
    requires |offsets| == |ranges| && NoteOffset(|ranges|) + |Flatten(notes)| + PAGE < U64
  {
    [NoteHeader(|ranges|, notes)] + LoadHeaders(ranges, offsets, v, |ranges|)
  }

  function HeaderLen(ranges: seq<Range>, notes: seq<seq<Byte>>): (n: nat)
    ensures NoteOffset(|ranges|) + |Flatten(notes)| <= n < NoteOffset(|ranges|) + |Flatten(notes)| + PAGE
    ensures n % PAGE == 0
  {
    RoundPage(NoteOffset(|ranges|) + |Flatten(notes)|)
  }

  /** The offset of range `i` depends on the ranges before it. */
  function OffsetOf(cur: Word64, ranges: seq<Range>, i: nat): Word64
    requires i <= |ranges|
    decreases i
  {
    if i == 0 then cur else PageAlign(Plus(OffsetOf(cur, ranges, i - 1), ranges[i - 1].size))
  }

  lemma {:induction false} OffsetOfTail(cur: Word64, ranges: seq<Range>, i: nat)
    requires 0 < i <= |ranges|
    ensures OffsetOf(cur, ranges, i) == OffsetOf(PageAlign(Plus(cur, ranges[0].size)), ranges[1..], i - 1)
    decreases i
  {
    if i > 1 { OffsetOfTail(cur, ranges, i - 1); }
  }

  lemma {:induction false} OffsetsAre(cur: Word64, ranges: seq<Range>)
    ensures |Offsets(cur, ranges)| == |ranges| && Total(cur, ranges) == OffsetOf(cur, ranges, |ranges|)
    ensures forall i :: 0 <= i < |ranges| ==> Offsets(cur, ranges)[i] == OffsetOf(cur, ranges, i)
    decreases |ranges|
  {
    if ranges != [] {
      hide PageAlign;
      var next := PageAlign(Plus(cur, ranges[0].size));
      OffsetsAre(next, ranges[1..]);
      OffsetOfTail(cur, ranges, |ranges|);
      forall i | 0 < i < |ranges| ensures Offsets(cur, ranges)[i] == OffsetOf(cur, ranges, i) {
        OffsetOfTail(cur, ranges, i);
      }
    }
  }

  /** `elfcore_layout`; if `calm`, the memory it asks for is granted. */
  method Layout(ranges: seq<Range>, notes: seq<seq<Byte>>, v: Option<Word64>, machine: Word32, calm: bool)
    returns (ret: int, header: array<Byte>, offsets: array<Word64>, total: Word64)
    requires Fits(ranges, notes)
    ensures fresh(header) && fresh(offsets) && ret in {0, -E2BIG, -ENOMEM} && (calm ==> ret != -ENOMEM)
    ensures ret == -E2BIG <==> |ranges| > 0xFFFE
    ensures ret == 0 ==> header[..] == CoreHeader(machine, ranges, notes, v)
    ensures ret == 0 ==> offsets[..] == OffsetsFor(ranges, notes) && total == Total(HeaderLen(ranges, notes), ranges)
  {
    hide Flatten, PageAlign, RoundPage, EncodePhdr, EncodeAll, Ehdr, HeaderBytes, Offsets, Total;
    header, offsets, total := new Byte[0], new Word64[0], 0;
    if |ranges| > 0xFFFE {
      return -E2BIG, header, offsets, total;
    }
    var granted: bool :| calm ==> granted;
    if !granted {
      return -ENOMEM, header, offsets, total;
    }
    ret := 0;
    var len := NotesTotal(notes);
    var noteOff := NoteOffset(|ranges|);
    var n := 1 + |ranges|;
    header := new Byte[RoundPage(noteOff + len)](i => 0);
    offsets := new Word64[|ranges|](i => 0);
    ghost var pad := header.Length - noteOff - len;
    FillStart(header, machine, n, notes, noteOff, pad);
    total := FillLoads(header, offsets, machine, ranges, notes, v, pad);
  }

  method NotesTotal(notes: seq<seq<Byte>>) returns (len: nat)
    ensures len == |Flatten(notes)|
  {
    hide Flatten;
    len := 0;
    NoNotes();
    assert notes[..0] == [];
    var i := 0;
    while i < |notes|
      invariant i <= |notes| && len == |Flatten(notes[..i])|
    {
      FlattenCut(notes, i);
      len := len + |notes[i]|;
      i := i + 1;
    }
    assert notes[..i] == notes;
  }

  /** The ELF header, the note header and the notes, into a zeroed buffer. */
  method FillStart(header: array<Byte>, machine: Word32, n: nat, notes: seq<seq<Byte>>, noteOff: nat, ghost pad: nat)
    requires 0 < n && noteOff == NoteOffset(n - 1) && noteOff + |Flatten(notes)| < U64
    requires header[..] == Zeros(noteOff + |Flatten(notes)| + pad)
    modifies header
    ensures header[..] == HeaderBytes(machine, [NoteHeader(n - 1, notes)], n, Flatten(notes), pad)
  {
    hide Flatten, EncodePhdr, Ehdr;
    var len := NotesTotal(notes);
    var e := Ehdr(machine, n);
    Put(header, 0, e);
    assert header[..] == HeaderBytes(machine, [], n, Zeros(len), pad) by {
      assert header[..] == e + Zeros(n * 56 + len + pad);
      assert Zeros(n * 56 + len + pad) == Zeros(n * 56) + Zeros(len) + Zeros(pad);
    }
    var p := NoteHeader(n - 1, notes);
    HeaderStep(machine, [], p, n, Zeros(len), pad);
    assert [] + [p] == [p];
    Put(header, EHDR, EncodePhdr(p));
    ghost var pre := e + EncodeAll([p]) + Zeros((n - 1) * 56);
    assert header[..] == pre + Zeros(len) + Zeros(pad);
    PutNotes(header, noteOff, notes, pre, Zeros(pad));
  }

  method PutPhdr(header: array<Byte>, i: nat, p: Phdr, ghost machine: Word32, ghost phs: seq<Phdr>, ghost n: nat,
                 ghost notes: seq<Byte>, ghost pad: nat)
    requires i == |phs| < n && header[..] == HeaderBytes(machine, phs, n, notes, pad)
    modifies header
    ensures header[..] == HeaderBytes(machine, phs + [p], n, notes, pad)
  {
    hide EncodePhdr, HeaderBytes;
    HeaderStep(machine, phs, p, n, notes, pad);
    Put(header, EHDR + i * 56, EncodePhdr(p));
  }

  lemma NoLoads(ranges: seq<Range>, offs: seq<Word64>, v: Option<Word64>, first: Phdr)
    ensures [first] + LoadHeaders(ranges, offs, v, 0) == [first]
  {
  }

  lemma NextLoad(ranges: seq<Range>, offs: seq<Word64>, v: Option<Word64>, i: nat, first: Phdr)
    requires i < |ranges| && i < |offs|
    ensures ([first] + LoadHeaders(ranges, offs, v, i)) + [LoadHeader(ranges[i], offs[i], v)] ==
            [first] + LoadHeaders(ranges, offs, v, i + 1)
  {
  }

  /** One load header and one offset per range. */
  method FillLoads(header: array<Byte>, offsets: array<Word64>, machine: Word32, ranges: seq<Range>,
                   notes: seq<seq<Byte>>, v: Option<Word64>, ghost pad: nat)
    returns (total: Word64)
    requires NoteOffset(|ranges|) + |Flatten(notes)| + PAGE < U64 && header.Length < U64
    requires offsets.Length == |ranges| && header as object != offsets
    requires header[..] == HeaderBytes(machine, [NoteHeader(|ranges|, notes)], 1 + |ranges|, Flatten(notes), pad)
    modifies header, offsets
    ensures offsets[..] == Offsets(header.Length, ranges) && total == Total(header.Length, ranges)
    ensures |offsets[..]| == |ranges|
    ensures header[..] ==
            HeaderBytes(machine, Headers(ranges, notes, offsets[..], v), 1 + |ranges|, Flatten(notes), pad)
  {
    hide Flatten, PageAlign, EncodePhdr, EncodeAll, Ehdr, HeaderBytes, Offsets, Total, NoteHeader, LoadHeader,
      LoadHeaders;
    ghost var start: Word64 := header.Length;
    OffsetsAre(start, ranges);
    ghost var offs := Offsets(start, ranges);
    ghost var first := NoteHeader(|ranges|, notes);
    var cur: Word64 := header.Length;
    var i := 0;
    NoLoads(ranges, offs, v, first);
    while i < |ranges|
      invariant i <= |ranges| && cur == OffsetOf(start, ranges, i)
      invariant forall j :: 0 <= j < i ==> offsets[j] == offs[j]
      invariant header[..] ==
                HeaderBytes(machine, [first] + LoadHeaders(ranges, offs, v, i), 1 + |ranges|, Flatten(notes), pad)
    {
      ghost var phs := [first] + LoadHeaders(ranges, offs, v, i);
      var p := LoadHeader(ranges[i], cur, v);
      NextLoad(ranges, offs, v, i, first);
      PutPhdr(header, 1 + i, p, machine, phs, 1 + |ranges|, Flatten(notes), pad);
      offsets[i] := cur;
      cur := PageAlign(Plus(cur, ranges[i].size));
      i := i + 1;
    }
    total := cur;
    assert offsets[..] == offs;
  }

  /** The notes of a finished header, and each program header at its place. */
  lemma HeaderReads(machine: Word32, phs: seq<Phdr>, notes: seq<Byte>, pad: nat, i: nat)
    requires i < |phs|
    ensures var h, at := HeaderBytes(machine, phs, |phs|, notes, pad), EHDR + |phs| * 56;
            && at + |notes| + pad == |h| && EHDR + (i + 1) * 56 <= at
            && h[EHDR + i * 56..EHDR + (i + 1) * 56] == EncodePhdr(phs[i])
            && h[at..at + |notes|] == notes
  {
    EncodeAllAt(phs, i);
    hide Ehdr, EncodePhdr, EncodeAll;
    var h := HeaderBytes(machine, phs, |phs|, notes, pad);
    var e, a := Ehdr(machine, |phs|), EncodeAll(phs);
    var lo, hi := i * 56, (i + 1) * 56;
    assert Zeros(0) == [];
    assert h == e + a + notes + Zeros(pad);
    PieceOf(e, a, notes, Zeros(pad), lo, hi);
  }

  lemma PieceOf(e: seq<Byte>, a: seq<Byte>, n: seq<Byte>, z: seq<Byte>, lo: nat, hi: nat)
    requires lo <= hi <= |a|
    ensures (e + a + n + z)[|e| + lo..|e| + hi] == a[lo..hi]
    ensures (e + a + n + z)[|e| + |a|..|e| + |a| + |n|] == n
  {
  }

  /** The header fits in memory: its length is computed without wrap-around. */
  predicate Fits(ranges: seq<Range>, notes: seq<seq<Byte>>) {
    NoteOffset(|ranges|) + |Flatten(notes)| + PAGE < U64
  }

  function OffsetsFor(ranges: seq<Range>, notes: seq<seq<Byte>>): (s: seq<Word64>)
    requires Fits(ranges, notes)
    ensures |s| == |ranges|
  {
    OffsetsAre(HeaderLen(ranges, notes), ranges);
    Offsets(HeaderLen(ranges, notes), ranges)
  }

  /** The header `Layout` produces. */
  function CoreHeader(machine: Word32, ranges: seq<Range>, notes: seq<seq<Byte>>, v: Option<Word64>): (h: seq<Byte>)
    requires Fits(ranges, notes)
    ensures |h| == HeaderLen(ranges, notes)
  {
    HeaderBytes(machine, Headers(ranges, notes, OffsetsFor(ranges, notes), v), 1 + |ranges|, Flatten(notes),
                HeaderLen(ranges, notes) - NoteOffset(|ranges|) - |Flatten(notes)|)
  }

  lemma PhdrFields(h: seq<Byte>, i: nat, p: Phdr)
    requires EHDR + (i + 1) * 56 <= |h| && h[EHDR + i * 56..EHDR + (i + 1) * 56] == EncodePhdr(p)
    ensures var ph := EHDR + i * 56;
            && Field(h, ph, 4) == p.kind && Field(h, ph + 8, 8) == p.offset
            && Field(h, ph + 24, 8) == p.paddr && Field(h, ph + 32, 8) == p.filesz
  {
    PhdrRoundTrip(p);
    hide EncodePhdr, FromLittle;
    var ph, s := EHDR + i * 56, EncodePhdr(p);
    assert h[ph..ph + PHDR] == s;
    SubSlice(h, ph, s, 0, 4);
    SubSlice(h, ph, s, 8, 16);
    SubSlice(h, ph, s, 24, 32);
    SubSlice(h, ph, s, 32, 40);
  }

  lemma SubSlice(h: seq<Byte>, at: nat, s: seq<Byte>, lo: nat, hi: nat)
    requires lo <= hi <= |s| && at + |s| <= |h| && h[at..at + |s|] == s
    ensures h[at + lo..at + hi] == s[lo..hi]
  {
    forall k | 0 <= k < hi - lo ensures h[at + lo..at + hi][k] == s[lo..hi][k] {
      assert h[at..at + |s|][lo + k] == h[at + lo + k];
    }
  }

  lemma NoteReads(h: seq<Byte>, machine: Word32, phs: seq<Phdr>, flat: seq<Byte>, pad: nat)
    requires phs != [] && h == HeaderBytes(machine, phs, |phs|, flat, pad)
    requires phs[0].offset == EHDR + |phs| * 56 && phs[0].filesz == |flat|
    ensures EHDR + 56 <= |h| && Field(h, EHDR, 4) == phs[0].kind
    ensures var at, n := Field(h, EHDR + 8, 8), Field(h, EHDR + 32, 8);
            at + n <= |h| && h[at..at + n] == flat
  {
    hide EncodePhdr, HeaderBytes, Field;
    HeaderReads(machine, phs, flat, pad, 0);
    PhdrFields(h, 0, phs[0]);
  }

  lemma LoadReads(h: seq<Byte>, machine: Word32, phs: seq<Phdr>, flat: seq<Byte>, pad: nat, i: nat)
    requires i < |phs| && h == HeaderBytes(machine, phs, |phs|, flat, pad)
    ensures var ph := EHDR + i * 56;
            && ph + 56 <= |h| && Field(h, ph, 4) == phs[i].kind && Field(h, ph + 8, 8) == phs[i].offset
            && Field(h, ph + 24, 8) == phs[i].paddr && Field(h, ph + 32, 8) == phs[i].filesz
  {
    hide EncodePhdr, HeaderBytes, Field;
    HeaderReads(machine, phs, flat, pad, i);
    PhdrFields(h, i, phs[i]);
  }

  /** The header is the bytes of its program headers, its notes and padding. */
  lemma CoreHeaderParts(machine: Word32, ranges: seq<Range>, notes: seq<seq<Byte>>, v: Option<Word64>)
    returns (phs: seq<Phdr>, pad: nat)
    requires Fits(ranges, notes)
    ensures |phs| == 1 + |ranges|
    ensures CoreHeader(machine, ranges, notes, v) == HeaderBytes(machine, phs, |phs|, Flatten(notes), pad)
    ensures phs[0] == NoteHeader(|ranges|, notes)
    ensures forall i :: 0 <= i < |ranges| ==> phs[1 + i] == LoadHeader(ranges[i], OffsetsFor(ranges, notes)[i], v)
  {
    hide OffsetsFor, Flatten, HeaderBytes, HeaderLen, NoteHeader, LoadHeader;
    phs := Headers(ranges, notes, OffsetsFor(ranges, notes), v);
    pad := HeaderLen(ranges, notes) - NoteOffset(|ranges|) - |Flatten(notes)|;
  }

  /** Read from the header bytes alone, the note segment parses as the records of every buffer in order. */
  lemma NoteSegmentReads(machine: Word32, ranges: seq<Range>, notes: seq<seq<Byte>>, v: Option<Word64>)
    requires Fits(ranges, notes) && forall j :: 0 <= j < |notes| ==> WholeRecords(notes[j])
    ensures var h := CoreHeader(machine, ranges, notes, v);
            && EHDR + 56 <= |h| && Field(h, EHDR, 4) == PT_NOTE
            && (var at, n := Field(h, EHDR + 8, 8), Field(h, EHDR + 32, 8);
                at + n <= |h| && Records(h[at..at + n]) == AllRecords(notes))
  {
    hide Flatten, Records, AllRecords, HeaderBytes, Field, CoreHeader, WholeRecords, Fits;
    SegmentRecords(notes);
    var phs, pad := CoreHeaderParts(machine, ranges, notes, v);
    NoteReads(CoreHeader(machine, ranges, notes, v), machine, phs, Flatten(notes), pad);
  }

  /** Load `i` describes range `i`: where it is in the file, where it was in memory, and how long. */
  lemma LoadsRead(machine: Word32, ranges: seq<Range>, notes: seq<seq<Byte>>, v: Option<Word64>, i: nat)
    requires Fits(ranges, notes) && i < |ranges|
    ensures var h, ph := CoreHeader(machine, ranges, notes, v), EHDR + (1 + i) * 56;
            && ph + 56 <= |h|
            && Field(h, ph, 4) == PT_LOAD && Field(h, ph + 8, 8) == OffsetsFor(ranges, notes)[i]
            && Field(h, ph + 24, 8) == ranges[i].base && Field(h, ph + 32, 8) == ranges[i].size
  {
    hide OffsetsFor, Flatten, HeaderBytes, HeaderLen, Field, CoreHeader, NoteHeader;
    var phs, pad := CoreHeaderParts(machine, ranges, notes, v);
    assert phs[1 + i] == LoadHeader(ranges[i], OffsetsFor(ranges, notes)[i], v);
    LoadReads(CoreHeader(machine, ranges, notes, v), machine, phs, Flatten(notes), pad, 1 + i);
  }

  /** The loads lie page aligned, in order and disjoint, between the header and the end of the file. */
  lemma LoadsLaid(ranges: seq<Range>, notes: seq<seq<Byte>>)
    requires Fits(ranges, notes) && TrueTotal(HeaderLen(ranges, notes), ranges) < U64
    ensures Laid(HeaderLen(ranges, notes), Total(HeaderLen(ranges, notes), ranges), ranges, OffsetsFor(ranges, notes))
  {
    OffsetsLaid(HeaderLen(ranges, notes), ranges);
  }
}

/** Writing the predecessor's memory as a core file (lib/dump.c). */
module Dumps {
  import opened Errno
  import opened Bytes
  import opened Ranges
  import opened Vmcores
  import opened Elf

  const CHUNK: nat := 0x10_0000
  const NOTE_MAX: nat := 0x10_0000

  // ---------------------------------------------------------------- the file that is meant

  /** Memory as the source sees it: a byte per address, readable below `limit`. */
  datatype Source = Source(byte: nat -> Byte, limit: nat) {
    function Read(base: nat, n: nat): (s: seq<Byte>)
      ensures |s| == n
    {
      seq<Byte>(n, i requires 0 <= i => byte(base + i))
    }

    /** `size` bytes from `base` on are there to be read. */
    predicate Reaches(base: nat, size: nat) {
      size == 0 || base + size <= limit
    }

    predicate ReachesAll(ranges: seq<Range>) {
      forall i :: 0 <= i < |ranges| ==> Reaches(ranges[i].base, ranges[i].size)
    }
  }

  /** The byte of the file at `k` that range data supplies, zero where none does. */
  function DataAt(src: Source, ranges: seq<Range>, offsets: seq<Word64>, k: nat): Byte
    requires |offsets| == |ranges|
  {
    if ranges == [] then 0
    else if offsets[0] <= k < offsets[0] + ranges[0].size then src.byte(ranges[0].base + (k - offsets[0]))
    else DataAt(src, ranges[1..], offsets[1..], k)
  }

  /** The whole file: the header, the data of each range at its offset, zeros elsewhere. */
  function Image(src: Source, header: seq<Byte>, ranges: seq<Range>, offsets: seq<Word64>, total: nat): (f: seq<Byte>)
    requires |offsets| == |ranges|
    ensures |f| == total
  {
    seq(total, k requires 0 <= k < total =>
      if k < |header| then header[k] else DataAt(src, ranges, offsets, k))
  }

  lemma {:induction false} DataIn(src: Source, ranges: seq<Range>, offsets: seq<Word64>, cur: nat, total: nat, i: nat,
                                  k: nat)
    requires Laid(cur, total, ranges, offsets) && i < |ranges| && offsets[i] <= k < offsets[i] + ranges[i].size
    ensures DataAt(src, ranges, offsets, k) == src.byte(ranges[i].base + (k - offsets[i]))
    decreases |ranges|
  {
    if i > 0 {
      assert offsets[0] + ranges[0].size <= offsets[i];
      LaidTail(cur, total, ranges, offsets);
      DataIn(src, ranges[1..], offsets[1..], cur, total, i - 1, k);
    }
  }

  lemma {:induction false} DataOut(src: Source, ranges: seq<Range>, offsets: seq<Word64>, k: nat)
    requires |offsets| == |ranges|
    requires forall i :: 0 <= i < |ranges| ==> !(offsets[i] <= k < offsets[i] + ranges[i].size)
    ensures DataAt(src, ranges, offsets, k) == 0
    decreases |ranges|
  {
    if ranges != [] {
      forall i | 0 <= i < |ranges[1..]| ensures !(offsets[1..][i] <= k < offsets[1..][i] + ranges[1..][i].size) {
        assert offsets[1..][i] == offsets[i + 1] && ranges[1..][i] == ranges[i + 1];
      }
      DataOut(src, ranges[1..], offsets[1..], k);
    }
  }

  lemma LaidTail(cur: nat, total: nat, ranges: seq<Range>, offsets: seq<Word64>)
    requires Laid(cur, total, ranges, offsets) && ranges != []
    ensures Laid(cur, total, ranges[1..], offsets[1..])
  {
  }

  // ---------------------------------------------------------------- the two kinds of output

  /**
   * The output: a regular file already cut to its length, or a stream that only grows. Calls
   * of the kernel and the allocator may fail here, unless `calm`.
   */
  class Sink {
    const seekable: bool
    var pos: nat
    var file: seq<Byte>

    constructor (seekable: bool, total: nat)
      ensures this.seekable == seekable && pos == 0 && file == if seekable then Zeros(total) else []
    {
      this.seekable, pos, file := seekable, 0, if seekable then Zeros(total) else [];
    }

    /**
     * `write_all`: writes until everything is out, however short the writes and however
     * often they are interrupted; the interruptions are finitely many.
     */
    method WriteAll(buf: seq<Byte>, off: nat, calm: bool) returns (ret: int)
      requires seekable ==> off + |buf| <= |file|
      modifies this`file
      ensures calm ==> ret == 0
      ensures ret == 0 ==> file == if seekable then Over(old(file), off, buf) else old(file) + buf
    {
      var done := 0;
      var patience: nat := *;
      ghost var f := file;
      assert seekable ==> Over(f, off, buf[..0]) == f;
      while done < |buf|
        invariant done <= |buf|
        invariant seekable ==> |file| == |f| && file == Over(f, off, buf[..done])
        invariant !seekable ==> file == f + buf[..done]
        decreases |buf| - done, patience
      {
        var interrupted: bool := *;
        if interrupted && patience > 0 {
          patience := patience - 1;
        } else {
          var n: int :| calm ==> n > 0;
          if n <= 0 {
            return if n < 0 then n else -EIO;
          }
          if n > |buf| - done {
            n := |buf| - done;
          }
          if seekable {
            OverStep(f, off, buf, done, n);
            file := Over(file, off + done, buf[done..done + n]);
          } else {
            assert buf[..done + n] == buf[..done] + buf[done..done + n];
            file := file + buf[done..done + n];
          }
          done := done + n;
        }
      }
      assert buf[..done] == buf;
      return 0;
    }

    /** Everything of `image` before `f` is written, or is zeros that need not be written yet. */
    ghost predicate Holds(image: seq<Byte>, f: nat)
      reads this
    {
      && f <= |image|
      && if seekable then |file| == |image| && file[..f] == image[..f] && AllZero(file, f, |file|)
         else pos == |file| <= f && file == image[..pos] && AllZero(image, pos, f)
    }

    /** `sink_write`: a gap on sequential output is filled, it cannot be seeked over. */
    method Write(buf: seq<Byte>, off: nat, calm: bool, ghost image: seq<Byte>) returns (ret: int)
      requires Holds(image, off) && off + |buf| <= |image| && buf == image[off..off + |buf|]
      modifies this
      ensures calm ==> ret == 0
      ensures ret == 0 ==> Holds(image, off + |buf|) && (seekable || pos == off + |buf|)
    {
      if !seekable {
        ret := FillGap(off, calm, image);
        if ret != 0 {
          return;
        }
        pos := pos + |buf|;
      }
      ghost var f := file;
      ret := WriteAll(buf, off, calm);
      if ret == 0 {
        if seekable {
          OverHolds(f, image, off, buf);
        } else {
          assert image[..off + |buf|] == image[..off] + image[off..off + |buf|];
        }
      }
    }

    method FillGap(off: nat, calm: bool, ghost image: seq<Byte>) returns (ret: int)
      requires !seekable && Holds(image, off)
      modifies this
      ensures calm ==> ret == 0
      ensures ret == 0 ==> Holds(image, off) && pos == off
    {
      ret := 0;
      while pos < off
        invariant Holds(image, off) && ret == 0
        decreases off - pos
      {
        var gap := if off - pos < PAGE then off - pos else PAGE;
        ghost var p := pos;
        ret := WriteAll(Zeros(gap), 0, calm);
        if ret != 0 {
          return;
        }
        assert image[p..p + gap] == Zeros(gap);
        assert image[..p + gap] == image[..p] + image[p..p + gap];
        pos := pos + gap;
      }
    }

    /** `write_chunk`: on a regular file only the runs between zero pages are written; the rest stays a hole. */
    method WriteChunk(buf: seq<Byte>, off: nat, calm: bool, ghost image: seq<Byte>) returns (ret: int)
      requires Holds(image, off) && off + |buf| <= |image| && buf == image[off..off + |buf|]
      modifies this
      ensures calm ==> ret == 0
      ensures ret == 0 ==> Holds(image, off + |buf|)
    {
      hide Holds;
      if !seekable {
        ret := Write(buf, off, calm, image);
        return;
      }
      var start: nat, i: nat := 0, 0;
      while i < |buf|
        invariant start <= i && start <= |buf| && Holds(image, off + start)
        decreases |buf| - i
      {
        var page := if |buf| - i < PAGE then |buf| - i else PAGE;
        var zero := page == PAGE && buf[i..i + PAGE] == Zeros(PAGE);
        if zero && i > start {
          RunOf(buf, image, off, start, i);
          ret := Write(buf[start..i], off + start, calm, image);
          if ret != 0 {
            return;
          }
        }
        if zero {
          SkipZeros(this, image, off, buf, i);
          start := i + page;
        }
        i := i + page;
      }
      if start < |buf| {
        RunOf(buf, image, off, start, |buf|);
        ret := Write(buf[start..|buf|], off + start, calm, image);
      } else {
        ret := 0;
      }
    }

    /** `copy_range`: memory goes out chunk by chunk; reading past its end or a refused mapping ends it. */
    method CopyRange(src: Source, base: nat, size: nat, off: nat, calm: bool, ghost image: seq<Byte>)
      returns (ret: int)
      requires Holds(image, off) && off + size <= |image| && image[off..off + size] == src.Read(base, size)
      modifies this
      ensures ret == 0 ==> src.Reaches(base, size)
      ensures calm && src.Reaches(base, size) ==> ret == 0
      ensures ret == 0 ==> Holds(image, off + size)
    {
      ret := 0;
      var done := 0;
      while done < size
        invariant done <= size && Holds(image, off + done) && ret == 0
        invariant done == 0 || base + done <= src.limit
      {
        var want := if size - done < CHUNK then size - done else CHUNK;
        if base + done > src.limit || want > src.limit - (base + done) {
          return -EIO;
        }
        ret :| ret <= 0 && (calm ==> ret == 0);
        if ret != 0 {
          return;
        }
        var buf := src.Read(base + done, want);
        ChunkOf(src, base, size, off, image, done, want);
        ret := WriteChunk(buf, off + done, calm, image);
        if ret != 0 {
          return;
        }
        done := done + want;
      }
    }
  }

  ghost predicate AllZero(s: seq<Byte>, lo: nat, hi: nat) {
    forall k :: lo <= k < hi && k < |s| ==> s[k] == 0
  }

  lemma OverHolds(f: seq<Byte>, image: seq<Byte>, off: nat, buf: seq<Byte>)
    requires |f| == |image| && off + |buf| <= |image| && f[..off] == image[..off] && AllZero(f, off, |f|)
    requires buf == image[off..off + |buf|]
    ensures var g, e := Over(f, off, buf), off + |buf|; g[..e] == image[..e] && AllZero(g, e, |g|)
  {
    var g, e := Over(f, off, buf), off + |buf|;
    assert g[..e] == f[..off] + buf;
    assert image[..e] == image[..off] + image[off..e];
    forall k | e <= k < |g| ensures g[k] == 0 { assert g[k] == f[k]; }
  }

  lemma RunOf(buf: seq<Byte>, image: seq<Byte>, off: nat, a: nat, b: nat)
    requires off + |buf| <= |image| && buf == image[off..off + |buf|] && a <= b <= |buf|
    ensures buf[a..b] == image[off + a..off + b]
  {
    forall k | 0 <= k < b - a ensures buf[a..b][k] == image[off + a..off + b][k] {
      assert buf[a + k] == image[off..off + |buf|][a + k];
    }
  }

  /** A zero page already reads as zeros in the hole that is there. */
  lemma SkipZeros(s: Sink, image: seq<Byte>, off: nat, buf: seq<Byte>, i: nat)
    requires s.seekable && s.Holds(image, off + i) && off + |buf| <= |image| && buf == image[off..off + |buf|]
    requires i + PAGE <= |buf| && buf[i..i + PAGE] == Zeros(PAGE)
    ensures s.Holds(image, off + (i + PAGE))
  {
    var e := off + i + PAGE;
    forall k | 0 <= k < e ensures s.file[k] == image[k] {
      if k < off + i {
        assert s.file[..off + i][k] == image[..off + i][k];
      } else {
        assert image[k] == buf[k - off] == buf[i..i + PAGE][k - off - i];
      }
    }
    assert s.file[..e] == image[..e];
  }

  lemma ChunkOf(src: Source, base: nat, size: nat, off: nat, image: seq<Byte>, done: nat, want: nat)
    requires done + want <= size && off + size <= |image| && image[off..off + size] == src.Read(base, size)
    ensures image[off + done..off + done + want] == src.Read(base + done, want)
  {
    var r, s := src.Read(base, size), src.Read(base + done, want);
    forall k | 0 <= k < want ensures image[off + done..off + done + want][k] == s[k] {
      assert image[off..off + size][done + k] == r[done + k];
    }
  }

  /** `file` with `s` written at `off`. */
  function Over(file: seq<Byte>, off: nat, s: seq<Byte>): (f: seq<Byte>)
    requires off + |s| <= |file|
    ensures |f| == |file|
  {
    file[..off] + s + file[off + |s|..]
  }

  lemma OverStep(f: seq<Byte>, off: nat, buf: seq<Byte>, done: nat, n: nat)
    requires off + |buf| <= |f| && done + n <= |buf|
    ensures Over(Over(f, off, buf[..done]), off + done, buf[done..done + n]) == Over(f, off, buf[..done + n])
  {
    assert buf[..done + n] == buf[..done] + buf[done..done + n];
  }

  // ---------------------------------------------------------------- the whole dump

  /** The image from the end of one range to the start of the next is zeros. */
  lemma GapIsZero(src: Source, header: seq<Byte>, ranges: seq<Range>, offsets: seq<Word64>, total: nat, i: nat)
    requires Laid(|header|, total, ranges, offsets) && i <= |ranges|
    ensures var lo := if i == 0 then |header| else offsets[i - 1] + ranges[i - 1].size;
            var hi := if i == |ranges| then total else offsets[i];
            lo <= hi && AllZero(Image(src, header, ranges, offsets, total), lo, hi)
  {
    var lo := if i == 0 then |header| else offsets[i - 1] + ranges[i - 1].size;
    var hi := if i == |ranges| then total else offsets[i];
    forall k | lo <= k < hi ensures Image(src, header, ranges, offsets, total)[k] == 0 {
      forall j | 0 <= j < |ranges| ensures !(offsets[j] <= k < offsets[j] + ranges[j].size) {
        if j + 1 < i { assert offsets[j] + ranges[j].size <= offsets[i - 1]; }
        if i < j { assert offsets[i] + ranges[i].size <= offsets[j]; }
      }
      DataOut(src, ranges, offsets, k);
    }
  }

  /** The image at a range's offset is that range's memory. */
  lemma DataIsMemory(src: Source, header: seq<Byte>, ranges: seq<Range>, offsets: seq<Word64>, total: nat, i: nat)
    requires Laid(|header|, total, ranges, offsets) && i < |ranges|
    ensures var image := Image(src, header, ranges, offsets, total);
            var o: nat, n: nat := offsets[i], ranges[i].size;
            o + n <= |image| && image[o..o + n] == src.Read(ranges[i].base, n)
  {
    var image := Image(src, header, ranges, offsets, total);
    var o: nat, n: nat := offsets[i], ranges[i].size;
    var r := src.Read(ranges[i].base, n);
    forall k | 0 <= k < n ensures image[o..o + n][k] == r[k] {
      DataIn(src, ranges, offsets, |header|, total, i, o + k);
    }
  }

  lemma HeaderInImage(src: Source, header: seq<Byte>, ranges: seq<Range>, offsets: seq<Word64>, total: nat)
    requires |offsets| == |ranges| && |header| <= total
    ensures Image(src, header, ranges, offsets, total)[0..|header|] == header
  {
  }

  /** Zeros may count as written on either kind of output. */
  lemma OverGap(s: Sink, image: seq<Byte>, lo: nat, hi: nat)
    requires s.Holds(image, lo) && lo <= hi <= |image| && AllZero(image, lo, hi)
    ensures s.Holds(image, hi)
  {
    if s.seekable {
      forall k | 0 <= k < hi ensures s.file[k] == image[k] {
        if k < lo { assert s.file[..lo][k] == image[..lo][k]; }
      }
      assert s.file[..hi] == image[..hi];
    }
  }

  /** Nothing written yet. */
  lemma StartHolds(s: Sink, image: seq<Byte>)
    requires s.pos == 0 && s.file == if s.seekable then Zeros(|image|) else []
    ensures s.Holds(image, 0)
  {
  }

  /** The header and every range, in order, as `dump_vmcore` writes them once the core is laid out. */
  method WriteCore(src: Source, s: Sink, header: seq<Byte>, ranges: seq<Range>, offsets: seq<Word64>, total: nat,
                   calm: bool)
    returns (ret: int)
    requires Laid(|header|, total, ranges, offsets)
    requires s.pos == 0 && s.file == if s.seekable then Zeros(total) else []
    modifies s
    ensures ret == 0 ==> s.file == Image(src, header, ranges, offsets, total) && src.ReachesAll(ranges)
    ensures calm && src.ReachesAll(ranges) ==> ret == 0
  {
    hide Laid, Image, Sink.Holds, AllZero;
    LaidBounds(|header|, total, ranges, offsets);
    ghost var image := Image(src, header, ranges, offsets, total);
    HeaderInImage(src, header, ranges, offsets, total);
    StartHolds(s, image);
    ret := s.Write(header, 0, calm, image);
    ghost var at := |header|;
    var i := 0;
    while i < |ranges| && ret == 0
      invariant i <= |ranges| && at == if i == 0 then |header| else offsets[i - 1] + ranges[i - 1].size
      invariant ret == 0 ==> s.Holds(image, at) && src.ReachesAll(ranges[..i])
      invariant calm && src.ReachesAll(ranges) ==> ret == 0
    {
      assert ranges[..i + 1] == ranges[..i] + [ranges[i]];
      GapIsZero(src, header, ranges, offsets, total, i);
      DataIsMemory(src, header, ranges, offsets, total, i);
      OverGap(s, image, at, offsets[i]);
      ret := s.CopyRange(src, ranges[i].base, ranges[i].size, offsets[i], calm, image);
      at := offsets[i] + ranges[i].size;
      i := i + 1;
    }
    if ret == 0 {
      assert ranges[..i] == ranges;
      GapIsZero(src, header, ranges, offsets, total, i);
      OverGap(s, image, at, total);
      if !s.seekable && s.pos < total {
        assert [] == image[total..total + 0];
        ret := s.Write([], total, calm, image);
      }
      if ret == 0 { Complete(s, image, total); }
    }
  }

  lemma LaidBounds(cur: nat, total: nat, ranges: seq<Range>, offsets: seq<Word64>)
    requires Laid(cur, total, ranges, offsets)
    ensures |offsets| == |ranges| && cur <= total
  {
  }

  lemma Complete(s: Sink, image: seq<Byte>, total: nat)
    requires s.Holds(image, total) && total == |image| && (s.seekable || s.pos >= total)
    ensures s.file == image
  {
    assert image[..total] == image;
    if s.seekable { assert s.file[..total] == s.file; }
  }

  // ---------------------------------------------------------------- notes

  /** The whole records a buffer in memory starts with. */
  function Trimmed(src: Source, r: Range): seq<Byte> {
    Flatten(Records(src.Read(r.base, r.size)))
  }

  /** What `read_note` gets from a buffer: nothing if it is absent, oversized, out of reach or not mapped. */
  function NoteOf(src: Source, r: Range, mapped: bool): seq<Byte> {
    if r.size == 0 || r.size > NOTE_MAX || r.base + r.size > src.limit || !mapped then [] else Trimmed(src, r)
  }

  /** The notes of the first `n` buffers, without the empty ones; `mapped` says which could be mapped. */
  function Notes(src: Source, buffers: seq<Range>, mapped: nat -> bool, n: nat): seq<seq<Byte>>
    requires n <= |buffers|
  {
    if n == 0 then []
    else
      var note := NoteOf(src, buffers[n - 1], mapped(n - 1));
      Notes(src, buffers, mapped, n - 1) + if note != [] then [note] else []
  }

  method ReadNote(src: Source, r: Range, mapped: bool, calm: bool) returns (ret: int, note: seq<Byte>)
    ensures ret in {0, -ENOMEM} && (ret == 0 ==> note == NoteOf(src, r, mapped)) && (calm ==> ret == 0)
  {
    hide Flatten, Records, StartsRecord;
    ret, note := 0, [];
    if r.size == 0 || r.size > NOTE_MAX {
      return;
    }
    var granted: bool :| calm ==> granted;
    if !granted {
      return -ENOMEM, [];
    }
    if r.base > src.limit || r.size > src.limit - r.base || !mapped {
      return;
    }
    var buf := src.Read(r.base, r.size);
    var n := NotesLen(buf);
    note := buf[..n];
  }

  /** `collect_notes`: the CPUs' notes, then the VMCOREINFO note. */
  method CollectNotes(src: Source, vi: VmcoreInfo, mapped: nat -> bool, calm: bool)
    returns (ret: int, notes: seq<seq<Byte>>, cpus: nat)
    ensures ret in {0, -ENOMEM} && (calm ==> ret == 0)
    ensures ret == 0 ==> notes == Notes(src, vi.Buffers(), mapped, |vi.Buffers()|)
    ensures ret == 0 ==> cpus == |Notes(src, vi.Buffers(), mapped, |vi.cpuNotes|)|
  {
    hide NoteOf;
    notes, cpus, ret := [], 0, 0;
    var granted: bool :| calm ==> granted;
    if !granted {
      return -ENOMEM, notes, cpus;
    }
    var buffers := vi.Buffers();
    var i := 0;
    while i < |buffers|
      invariant i <= |buffers| && ret == 0 && notes == Notes(src, buffers, mapped, i)
      invariant i >= |vi.cpuNotes| ==> cpus == |Notes(src, buffers, mapped, |vi.cpuNotes|)|
      invariant i < |vi.cpuNotes| ==> cpus == |notes|
    {
      var note;
      ret, note := ReadNote(src, buffers[i], mapped(i), calm);
      if ret != 0 {
        return;
      }
      if note != [] {
        notes := notes + [note];
        if i < |vi.cpuNotes| {
          cpus := cpus + 1;
        }
      }
      i := i + 1;
    }
  }

  /** Every note is a whole number of records and no larger than a buffer may be. */
  lemma {:induction false} NotesWhole(src: Source, buffers: seq<Range>, mapped: nat -> bool, n: nat)
    requires n <= |buffers|
    ensures forall k :: 0 <= k < |Notes(src, buffers, mapped, n)| ==> WholeRecords(Notes(src, buffers, mapped, n)[k])
    ensures |Flatten(Notes(src, buffers, mapped, n))| <= n * NOTE_MAX
    decreases n
  {
    hide Flatten, WholeRecords, Trimmed;
    if n == 0 {
      NoNotes();
    } else {
      var before, note := Notes(src, buffers, mapped, n - 1), NoteOf(src, buffers[n - 1], mapped(n - 1));
      NotesWhole(src, buffers, mapped, n - 1);
      TrimmedWhole(src, buffers[n - 1]);
      FlattenAppend(before, note);
      assert |note| <= NOTE_MAX;
      assert Notes(src, buffers, mapped, n) == if note != [] then before + [note] else before;
    }
  }

  lemma TrimmedWhole(src: Source, r: Range)
    ensures WholeRecords(Trimmed(src, r)) && |Trimmed(src, r)| <= r.size
  {
    hide Records, StartsRecord, Flatten;
    var b := src.Read(r.base, r.size);
    RecordsArePrefix(b);
    TrimmedRecords(b, |Flatten(Records(b))|);
  }

  lemma FlattenAppend(notes: seq<seq<Byte>>, note: seq<Byte>)
    ensures |Flatten(notes + [note])| == |Flatten(notes)| + |note|
  {
    FlattenConcat(notes, [note]);
    assert Flatten([note]) == note + Flatten([note][1..]);
  }

  // ---------------------------------------------------------------- dump_vmcore

  /** The size of the dump fits 64 bits. */
  predicate Dumpable(src: Source, ranges: seq<Range>, vi: VmcoreInfo, mapped: nat -> bool) {
    var notes := Notes(src, vi.Buffers(), mapped, |vi.Buffers()|);
    Fits(ranges, notes) && TrueTotal(HeaderLen(ranges, notes), ranges) < U64
  }

  lemma {:induction false} TotalBound(cur: nat, ranges: seq<Range>)
    ensures TrueTotal(cur, ranges) <= cur + SizeSum(ranges) + |ranges| * PAGE
    decreases |ranges|
  {
    hide RoundPage;
    if ranges != [] { TotalBound(RoundPage(cur + ranges[0].size), ranges[1..]); }
  }

  /** Every range set with its memory in the lower half of the address space can be dumped. */
  lemma LowerHalfDumpable(src: Source, ranges: seq<Range>, vi: VmcoreInfo, mapped: nat -> bool)
    requires Canonical(ranges) && |ranges| <= 0xFFFE && |vi.cpuNotes| < U32
    requires forall i :: 0 <= i < |ranges| ==> ranges[i].End() <= U64 / 2
    ensures Dumpable(src, ranges, vi, mapped)
  {
    hide Canonical, Flatten, Notes, TrueTotal;
    var notes := Notes(src, vi.Buffers(), mapped, |vi.Buffers()|);
    NotesWhole(src, vi.Buffers(), mapped, |vi.Buffers()|);
    SizeSumBelow(ranges, U64 / 2);
    TotalBound(HeaderLen(ranges, notes), ranges);
  }

  /** The dump of `ranges`, with the notes that can be read. */
  function DumpFile(src: Source, ranges: seq<Range>, vi: VmcoreInfo, mapped: nat -> bool, machine: Word32): seq<Byte>
    requires Dumpable(src, ranges, vi, mapped)
  {
    var notes := Notes(src, vi.Buffers(), mapped, |vi.Buffers()|);
    Image(src, CoreHeader(machine, ranges, notes, vi.pageOffset), ranges, OffsetsFor(ranges, notes),
          TrueTotal(HeaderLen(ranges, notes), ranges))
  }

  /**
   * `dump_vmcore`: for every memory, every set of ranges, every pattern of short and
   * interrupted writes, a dump that succeeds is the same file on either kind of output,
   * header, memory at the laid-out offsets, zeros elsewhere. If no call of the kernel or the
   * allocator fails it succeeds exactly when the ranges can be numbered and read.
   */
  method DumpVmcore(src: Source, ranges: seq<Range>, vi: VmcoreInfo, mapped: nat -> bool, seekable: bool,
                    machine: Word32, calm: bool)
    returns (ret: int, out: Sink)
    requires Dumpable(src, ranges, vi, mapped)
    ensures ret == 0 ==> out.file == DumpFile(src, ranges, vi, mapped, machine)
    ensures ret == 0 ==> |ranges| <= 0xFFFE && src.ReachesAll(ranges)
    ensures calm && |ranges| <= 0xFFFE && src.ReachesAll(ranges) ==> ret == 0
  {
    hide Flatten, CoreHeader, HeaderLen, TrueTotal, Total, Laid, Image, OffsetsFor, WholeRecords, Fits, Notes;
    out := new Sink(seekable, 0);
    ret :| ret <= 0 && (calm ==> ret == 0);
    if ret != 0 {
      return;
    }
    var notes, cpus;
    ret, notes, cpus := CollectNotes(src, vi, mapped, calm);
    if ret != 0 {
      return;
    }
    var header, offsets, total;
    ret, header, offsets, total := Layout(ranges, notes, vi.pageOffset, machine, calm);
    if ret != 0 {
      return;
    }
    ret :| ret <= 0 && (calm ==> ret == 0);
    if ret != 0 {
      return;
    }
    OffsetsLaid(HeaderLen(ranges, notes), ranges);
    LoadsLaid(ranges, notes);
    out := new Sink(seekable, total);
    ret := WriteCore(src, out, header[..], ranges, offsets[..], total, calm);
    if ret == 0 {
      ret :| ret <= 0 && (calm ==> ret == 0);
    }
  }

  // ---------------------------------------------------------------- reading the dump

  /** Read from the file alone: load `i` has address `a`, and the file has `b` where the load says. */
  predicate LoadShows(file: seq<Byte>, i: nat, a: nat, b: Byte) {
    var ph := EHDR + (1 + i) * 56;
    && ph + 56 <= |file| && Field(file, ph, 4) == PT_LOAD
    && var offset, base, size := Field(file, ph + 8, 8), Field(file, ph + 24, 8), Field(file, ph + 32, 8);
       base <= a < base + size && offset + (a - base) < |file| && file[offset + (a - base)] == b
  }

  lemma PrefixField(h: seq<Byte>, file: seq<Byte>, at: nat, w: nat)
    requires |h| <= |file| && file[..|h|] == h && at + w <= |h|
    ensures Field(file, at, w) == Field(h, at, w)
  {
    PrefixSlice(file, |h|, at, at + w);
  }

  /** Every byte of a range is in the dump, at the place its load says. */
  lemma DumpShows(src: Source, ranges: seq<Range>, vi: VmcoreInfo, mapped: nat -> bool, machine: Word32, i: nat, a: nat)
    requires Dumpable(src, ranges, vi, mapped) && i < |ranges| && ranges[i].Has(a)
    ensures LoadShows(DumpFile(src, ranges, vi, mapped, machine), i, a, src.byte(a))
  {
    hide Notes, CoreHeader, OffsetsFor, HeaderLen, TrueTotal, Total, Image, Fits, Laid, Field;
    var notes := Notes(src, vi.Buffers(), mapped, |vi.Buffers()|);
    var h, offsets := CoreHeader(machine, ranges, notes, vi.pageOffset), OffsetsFor(ranges, notes);
    var file, ph := DumpFile(src, ranges, vi, mapped, machine), EHDR + (1 + i) * 56;
    LoadsRead(machine, ranges, notes, vi.pageOffset, i);
    LoadsLaid(ranges, notes);
    OffsetsLaid(HeaderLen(ranges, notes), ranges);
    LaidBounds(|h|, |file|, ranges, offsets);
    HeaderInImage(src, h, ranges, offsets, |file|);
    DataIsMemory(src, h, ranges, offsets, |file|, i);
    assert file[..|h|] == file[0..|h|];
    PrefixField(h, file, ph, 4);
    PrefixField(h, file, ph + 8, 8);
    PrefixField(h, file, ph + 24, 8);
    PrefixField(h, file, ph + 32, 8);
    var o: nat := offsets[i];
    assert file[o..o + ranges[i].size][a - ranges[i].base] == file[o + (a - ranges[i].base)];
  }

  /** And the note segment holds every record of every note that could be read. */
  lemma DumpNotes(src: Source, ranges: seq<Range>, vi: VmcoreInfo, mapped: nat -> bool, machine: Word32)
    requires Dumpable(src, ranges, vi, mapped)
    ensures var file := DumpFile(src, ranges, vi, mapped, machine);
            && EHDR + 56 <= |file| && Field(file, EHDR, 4) == PT_NOTE
            && (var at, n := Field(file, EHDR + 8, 8), Field(file, EHDR + 32, 8);
                && at + n <= |file|
                && Records(file[at..at + n]) == AllRecords(Notes(src, vi.Buffers(), mapped, |vi.Buffers()|)))
  {
    hide Notes, CoreHeader, OffsetsFor, HeaderLen, TrueTotal, Total, Image, Fits, Laid, Field, Records, AllRecords,
      WholeRecords, Flatten;
    var notes := Notes(src, vi.Buffers(), mapped, |vi.Buffers()|);
    var h, offsets := CoreHeader(machine, ranges, notes, vi.pageOffset), OffsetsFor(ranges, notes);
    var file := DumpFile(src, ranges, vi, mapped, machine);
    NotesWhole(src, vi.Buffers(), mapped, |vi.Buffers()|);
    NoteSegmentReads(machine, ranges, notes, vi.pageOffset);
    LoadsLaid(ranges, notes);
    OffsetsLaid(HeaderLen(ranges, notes), ranges);
    LaidBounds(|h|, |file|, ranges, offsets);
    HeaderInImage(src, h, ranges, offsets, |file|);
    assert file[..|h|] == file[0..|h|];
    PrefixField(h, file, EHDR, 4);
    PrefixField(h, file, EHDR + 8, 8);
    PrefixField(h, file, EHDR + 32, 8);
    var at, n := Field(h, EHDR + 8, 8), Field(h, EHDR + 32, 8);
    PrefixSlice(file, |h|, at, at + n);
  }
}

/**
 * Building a packed tree (lib/fdtutil.c, `fdt_pack` of lib/fdt/fdt_rw.c) and reading it
 * back: the blob depends on what was emitted alone.
 */
module FdtBuild {
  import opened Errno
  import opened Bytes
  import opened FdtFormat
  import opened FdtStrings
  import opened FdtWriter

  const MAGIC: Word32 := 0xd00d_feed

  // ---------------------------------------------------------------- packing

  lemma {:induction false} ZerosRead(n: nat)
    ensures FromBig(Zeros(n)) == 0
    decreases n
  {
    if n > 0 {
      assert Zeros(n)[..n - 1] == Zeros(n - 1);
      ZerosRead(n - 1);
    }
  }

  /** `fdt_num_mem_rsv`: entries before the one of size zero. */
  method NumMemRsv(w: Writer) returns (n: int)
    requires w.totalsize <= w.buf.Length
    ensures n == TRUNCATED || 0 <= n
    ensures n >= 0 ==> IsTerminator(w.buf[..w.totalsize], w.offRsv, n)
    ensures forall k :: 0 <= k && (k < n || n < 0) ==> !IsTerminator(w.buf[..w.totalsize], w.offRsv, k)
  {
    n := 0;
    while w.offRsv + 16 * n + 16 <= w.totalsize
      invariant n >= 0 && forall k :: 0 <= k < n ==> !IsTerminator(w.buf[..w.totalsize], w.offRsv, k)
      decreases w.totalsize - 16 * n
    {
      var at := w.offRsv + 16 * n;
      assert w.buf[..w.totalsize][at + 8..at + 16] == w.buf[at + 8..at + 16];
      if FromBig64(w.buf[at + 8..at + 16]) == 0 {
        return;
      }
      n := n + 1;
    }
    return TRUNCATED;
  }

  /** Entry `k` lies in the tree and has size zero. */
  predicate IsTerminator(tree: seq<Byte>, off: nat, k: nat) {
    off + 16 * k + 16 <= |tree| && FromBig64(tree[off + 16 * k + 8..off + 16 * k + 16]) == 0
  }

  /** Everything behind the 40 bytes of header in a packed tree. */
  function Body(st: seq<Byte>, tab: seq<Byte>): (s: seq<Byte>)
    ensures |s| == 16 + |st| + |tab|
  {
    Zeros(16) + st + tab
  }

  /** The tree occupies the buffer without holes. */
  ghost predicate Packed(w: Writer)
    reads w, w.buf
  {
    && w.finished && AllEmittable(w.emitted) && AllWellFormed(Finals(w.emitted)) && |Table(w.emitted)| < U32
    && w.sizeStruct == |Block(Finals(w.emitted))| && w.sizeStrings == |Table(w.emitted)|
    && w.offRsv == 40 && w.offStruct == 56 && w.offStrings == 56 + w.sizeStruct
    && w.totalsize == w.offStrings + w.sizeStrings <= w.buf.Length < 0x8000_0000
    && w.buf[40..w.totalsize] == Body(Block(Finals(w.emitted)), Table(w.emitted))
  }

  /** `fdt_pack`: reservations, structure and strings each move down over their predecessor's tail. */
  method Pack(w: Writer)
    requires w.Done()
    modifies w, w.buf
    ensures Packed(w) && w.emitted == old(w.emitted)
  {
    hide Block, Finals, Table, Joined, Body, Moved, IsTerminator;
    ghost var st, tab := Block(Finals(w.emitted)), Table(w.emitted);
    ghost var junk := w.buf[w.totalsize..];
    assert w.buf[..] == Joined(st, tab) + junk;
    JoinedStart(st, tab);
    var n := NumMemRsv(w);
    assert IsTerminator(w.buf[..w.totalsize], w.offRsv, 0);
    assert n == 0;
    var rsv := (n + 1) * 16;
    MovesDown(st, tab, junk);
    Move(w.buf, 40, w.offRsv, rsv);
    w.offRsv := 40;
    Move(w.buf, 40 + rsv, w.offStruct, w.sizeStruct);
    w.offStruct := 40 + rsv;
    Move(w.buf, 40 + rsv + w.sizeStruct, w.offStrings, w.sizeStrings);
    w.offStrings := 40 + rsv + w.sizeStruct;
    w.totalsize := w.offStrings + w.sizeStrings;
    assert w.buf[40..w.totalsize] == w.buf[..][40..w.totalsize];
  }

  lemma JoinedStart(st: seq<Byte>, tab: seq<Byte>)
    ensures IsTerminator(Joined(st, tab), 48, 0)
  {
    assert Joined(st, tab)[56..64] == Zeros(8);
    ZerosRead(8);
  }

  /** The three overlapping moves of packing leave the packed body. */
  lemma MovesDown(st: seq<Byte>, tab: seq<Byte>, junk: seq<Byte>)
    ensures var s0 := Joined(st, tab) + junk;
            var s1 := Moved(s0, 40, 48, 16);
            var s2 := Moved(s1, 56, 64, |st|);
            var s3 := Moved(s2, 56 + |st|, 64 + |st|, |tab|);
            s3[40..56 + |st| + |tab|] == Body(st, tab)
  {
    var s0 := Joined(st, tab) + junk;
    var s1 := Moved(s0, 40, 48, 16);
    assert s1 == s0 by {
      forall i | 0 <= i < |s0| ensures s1[i] == s0[i] {}
    }
    var s2 := Moved(s1, 56, 64, |st|);
    MovedStruct(st, tab, junk);
    var s3 := Moved(s2, 56 + |st|, 64 + |st|, |tab|);
    assert s3[40..56 + |st|] == Zeros(16) + st;
    assert s3[56 + |st|..56 + |st| + |tab|] == tab;
    assert s3[40..56 + |st| + |tab|] == s3[40..56 + |st|] + s3[56 + |st|..56 + |st| + |tab|];
  }

  lemma MovedStruct(st: seq<Byte>, tab: seq<Byte>, junk: seq<Byte>)
    ensures var s := Moved(Joined(st, tab) + junk, 56, 64, |st|);
            s[40..56 + |st|] == Zeros(16) + st && s[64 + |st|..64 + |st| + |tab|] == tab
  {
    var s0 := Joined(st, tab) + junk;
    var s := Moved(s0, 56, 64, |st|);
    assert s0[64..64 + |st|] == st && s0[64 + |st|..64 + |st| + |tab|] == tab;
    assert s[..56] == s0[..56] == Zeros(56);
    assert s[40..56 + |st|] == s[..56][40..] + s[56..56 + |st|];
    assert s[64 + |st|..64 + |st| + |tab|] == s0[64 + |st|..64 + |st| + |tab|];
  }

  // ---------------------------------------------------------------- the blob

  /** The header, section 5.2 of the Devicetree Specification v0.4: ten big-endian cells. */
  function Header(total: Word32, offStruct: Word32, offStrings: Word32, offRsv: Word32, sizeStrings: Word32,
                  sizeStruct: Word32): (c: seq<Word32>)
    ensures |c| == 10
  {
    [MAGIC, total, offStruct, offStrings, offRsv, 17, 16, 0, sizeStrings, sizeStruct]
  }

  /** The header of a packed tree. */
  function HeaderCells(structSize: Word32, stringsSize: Word32): (c: seq<Word32>)
    requires 56 + structSize + stringsSize < U32
    ensures |c| == 10
  {
    Header(56 + structSize + stringsSize, 56, 56 + structSize, 40, stringsSize, structSize)
  }

  function EncodeCells(c: seq<Word32>): (s: seq<Byte>)
    ensures |s| == 4 * |c|
  {
    if c == [] then [] else EncodeCells(c[..|c| - 1]) + Big32(c[|c| - 1])
  }

  lemma {:induction false} CellsRead(c: seq<Word32>, i: nat, post: seq<Byte>)
    requires i < |c|
    ensures Cell(EncodeCells(c) + post, 4 * i) == c[i]
    decreases |c|
  {
    hide Cell, Big32;
    var most, last := c[..|c| - 1], c[|c| - 1];
    if i == |c| - 1 {
      CellIn(EncodeCells(most), last, post);
    } else {
      CellsRead(most, i, Big32(last) + post);
      ConcatAssoc(EncodeCells(most), Big32(last), post);
    }
  }

  predicate Buildable(es: seq<Emit>) {
    AllEmittable(es) && Need(es) < 0x8000_0000
  }

  /** The packed tree of `es`. */
  function Blob(es: seq<Emit>): seq<Byte>
    requires Buildable(es)
  {
    FinalSizes(es);
    var st, tab := Block(Finals(es)), Table(es);
    EncodeCells(HeaderCells(|st|, |tab|)) + Body(st, tab)
  }

  lemma {:induction false} RelocatedSize(items: seq<Item>, size: nat)
    requires AllWellFormed(items)
    ensures |EncodeItems(RelocateAll(items, size))| == |EncodeItems(items)|
    decreases |items|
  {
    MixedOffsets(items, size, |items|, |items|);
    MixedEnd(items, size);
    assert items[..|items|] == items;
    var r := RelocateAll(items, size);
    assert r[..|r|] == r;
  }

  lemma FinalSizes(es: seq<Emit>)
    requires AllEmittable(es)
    ensures AllWellFormed(Drafts(es)) && AllWellFormed(Finals(es))
    ensures 60 + |EncodeItems(Drafts(es))| + |Table(es)| == 56 + |Block(Finals(es))| + |Table(es)| == Need(es) - 4
  {
    DraftsWellFormed(es);
    hide EncodeItems;
    RelocatedSize(Drafts(es), |Table(es)|);
  }

  /** The blob a packed writer holds, its header words written out. */
  method TakeBlob(w: Writer) returns (blob: seq<Byte>)
    requires Packed(w) && Need(w.emitted) < 0x8000_0000
    ensures blob == Blob(w.emitted)
  {
    hide EncodeCells, Block, Finals, Table, Body, Header;
    FinalSizes(w.emitted);
    blob := EncodeCells(Header(w.totalsize, w.offStruct, w.offStrings, w.offRsv, w.sizeStrings, w.sizeStruct))
            + w.buf[40..w.totalsize];
  }

  // ---------------------------------------------------------------- building

  lemma {:induction false} NeedGrows(es: seq<Emit>, i: nat)
    requires AllEmittable(es) && i <= |es|
    ensures AllEmittable(es[..i]) && Need(es[..i]) <= Need(es)
    decreases |es| - i
  {
    hide Need;
    if i == |es| {
      assert es[..i] == es;
    } else {
      NeedGrows(es, i + 1);
      assert es[..i + 1] == es[..i] + [es[i]];
      NeedStep(es[..i], es[i]);
    }
  }

  lemma NeedStep(es: seq<Emit>, e: Emit)
    requires AllEmittable(es) && Emittable(e)
    ensures AllEmittable(es + [e]) && Need(es) <= Need(es + [e])
  {
    DraftsWellFormed(es);
    EmitStep(es, e);
    hide Encode, EncodeItems, Table, Drafts, Need;
  }

  /** One emission. */
  method Do(w: Writer, e: Emit) returns (ret: int)
    requires w.Valid() && Emittable(e)
    modifies w, w.buf
    ensures ret in {0, NOSPACE, OUTSIDE} && w.totalsize == old(w.totalsize)
    ensures ret == 0 <==> Need(old(w.emitted) + [e]) <= w.totalsize
    ensures ret == OUTSIDE <==> Overruns(old(w.emitted), e, w.totalsize)
    ensures ret == 0 ==> w.Valid() && w.emitted == old(w.emitted) + [e]
  {
    hide Need, Image, Encode, EncodeItems, Drafts, Table, IsNew;
    match e {
      case Open(name) => ret := w.BeginNode(name);
      case Property(name, value) => ret := w.Property(name, value);
      case Close => ret := w.EndNode();
    }
  }

  /**
   * `fdtutil_try_build`: the calls of the builder one after the other, stopping at the first
   * error. It succeeds exactly when the buffer holds the header, the structure block with
   * its final tag, and the strings, and leaves the buffer exactly when the first call that
   * does not fit has a new name longer than what is before the strings.
   */
  method TryBuild(es: seq<Emit>, size: nat) returns (ret: int, w: Writer?)
    requires AllEmittable(es) && size < 0x8000_0000
    ensures ret in {0, NOSPACE, OUTSIDE} && (ret == 0 <==> Need(es) + 4 <= size)
    ensures ret == OUTSIDE <==> LeavesBuffer(es, size)
    ensures ret == 0 ==> w != null && fresh(w) && fresh(w.buf) && w.Done() && w.emitted == es
  {
    hide Need, Writer.Valid, Writer.Done, AllEmittable, Overruns, LeavesBuffer;
    w := null;
    NeedAtLeast(es);
    if size < STRUCT {
      TooSmall(es, size);
      return NOSPACE, w;
    }
    var b := new Writer(size);
    assert b.emitted == es[..0];
    var i := 0;
    while i < |es|
      invariant i <= |es| && b.Valid() && b.emitted == es[..i] && b.totalsize == size
      invariant fresh(b) && fresh(b.buf)
    {
      assert es[..i + 1] == es[..i] + [es[i]];
      NeedGrows(es, i + 1);
      EmittableAt(es, i);
      FitsSoFar(b);
      ret := Do(b, es[i]);
      if ret != 0 {
        StopsAt(es, i, size);
        return ret, w;
      }
      i := i + 1;
    }
    assert es[..i] == es;
    FitsSoFar(b);
    AllFit(es, size);
    ret := b.Finish();
    w := b;
  }

  /** Some call does not fit, although all before it do, and its name overruns the buffer. */
  ghost predicate LeavesBuffer(es: seq<Emit>, size: nat)
    requires AllEmittable(es)
  {
    exists i :: 0 <= i < |es| && Need(es[..i]) <= size && Overruns(es[..i], es[i], size)
  }

  lemma FitsSoFar(w: Writer)
    requires w.Valid()
    ensures AllEmittable(w.emitted) && Need(w.emitted) <= w.totalsize
  {
    hide EncodeItems, Drafts, Table;
  }

  lemma TooSmall(es: seq<Emit>, size: nat)
    requires AllEmittable(es) && size < STRUCT
    ensures !LeavesBuffer(es, size)
  {
    hide Need, Overruns;
    forall i | 0 <= i < |es| ensures Need(es[..i]) > size { NeedAtLeast(es[..i]); }
  }

  /** A call that overruns the buffer does not fit it. */
  lemma OverrunNeeds(es: seq<Emit>, e: Emit, size: nat)
    requires AllEmittable(es) && Emittable(e) && Overruns(es, e, size)
    ensures AllEmittable(es + [e]) && Need(es + [e]) > size
  {
    DraftsWellFormed(es);
    EmitStep(es, e);
    NameFits(Table(es), e.name);
    hide EncodeItems, Encode, Table, Drafts, Draft, Need, IsNew, Named;
  }

  lemma AllFit(es: seq<Emit>, size: nat)
    requires AllEmittable(es) && Need(es) <= size
    ensures !LeavesBuffer(es, size)
  {
    hide Need, Overruns;
    forall i | 0 <= i < |es| ensures !Overruns(es[..i], es[i], size) {
      NeedGrows(es, i + 1);
      assert es[..i + 1] == es[..i] + [es[i]];
      if Overruns(es[..i], es[i], size) { OverrunNeeds(es[..i], es[i], size); }
    }
  }

  /** The first call that does not fit decides. */
  lemma StopsAt(es: seq<Emit>, i: nat, size: nat)
    requires AllEmittable(es) && i < |es| && Need(es[..i]) <= size < Need(es[..i] + [es[i]])
    ensures LeavesBuffer(es, size) <==> Overruns(es[..i], es[i], size)
  {
    hide Need, Overruns;
    assert es[..i + 1] == es[..i] + [es[i]];
    forall j | 0 <= j < |es| && j != i && Need(es[..j]) <= size ensures !Overruns(es[..j], es[j], size) {
      if j < i {
        AllFit(es[..i], size);
        assert es[..i][..j] == es[..j] && es[..i][j] == es[j];
      } else {
        assert es[..j][..i + 1] == es[..i + 1];
        NeedGrows(es[..j], i + 1);
      }
    }
  }

  /** With names of up to 63 characters no call ever leaves the buffer, whatever its size. */
  lemma ShortNamesStay(es: seq<Emit>, size: nat)
    requires AllEmittable(es) && forall i :: 0 <= i < |es| && es[i].Property? ==> |es[i].name| <= 63
    ensures !LeavesBuffer(es, size)
  {
    hide Drafts, EncodeItems, Table, IsNew;
  }

  /** A 64-byte buffer, just enough for an empty tree, and a name of 64 characters. */
  lemma LongNameLeaves(name: seq<Byte>, value: seq<Byte>)
    requires Emittable(Property(name, value)) && |name| == 64
    ensures AllEmittable([Property(name, value)]) && LeavesBuffer([Property(name, value)], 64)
  {
    var es := [Property(name, value)];
    assert es[..0] == [];
    assert AllEmittable(es) && Need([]) == 64;
    assert Overruns(es[..0], es[0], 64);
  }

  lemma NeedAtLeast(es: seq<Emit>)
    requires AllEmittable(es)
    ensures Need(es) >= STRUCT
  {
  }

  lemma EmittableAt(es: seq<Emit>, i: nat)
    requires AllEmittable(es) && i < |es|
    ensures Emittable(es[i])
  {
  }

  const FIRST: nat := 0x4000
  const LAST: nat := 0x40_0000

  /** Growing the buffer from `size` on, the first attempt that does not fail for want of room leaves it. */
  ghost predicate LeavesSome(es: seq<Emit>, size: nat)
    requires AllEmittable(es)
    decreases LAST - size
  {
    if LeavesBuffer(es, size) then true
    else if Need(es) + 4 <= size || size >= LAST || size == 0 then false
    else LeavesSome(es, 2 * size)
  }

  /**
   * `fdtutil_build`: the buffer doubles until the tree fits, up to 4 MB. Whatever size it
   * succeeds at, the blob is the one of the emissions, so no two sizes give different bytes.
   * It leaves a buffer exactly when the first size that does not just lack room does.
   */
  method Build(es: seq<Emit>) returns (ret: int, blob: seq<Byte>)
    requires AllEmittable(es)
    ensures ret in {0, -ENOMEM, -ENOSPC, OUTSIDE}
    ensures ret != -ENOMEM ==> (ret == OUTSIDE <==> LeavesSome(es, FIRST))
    ensures ret == 0 ==> Buildable(es) && blob == Blob(es)
    ensures ret == 0 ==> Need(es) + 4 <= LAST
    ensures ret == -ENOSPC ==> Need(es) + 4 > LAST
  {
    hide Need, Writer.Valid, Writer.Done, Packed, AllEmittable, Blob, LeavesBuffer;
    blob := [];
    var size := FIRST;
    while true
      invariant LeavesSome(es, FIRST) <==> LeavesSome(es, size)
      invariant size in {0x4000, 0x8000, 0x1_0000, 0x2_0000, 0x4_0000, 0x8_0000, 0x10_0000, 0x20_0000, LAST}
      decreases LAST - size
    {
      var granted: bool := *;
      if !granted {
        return -ENOMEM, blob;
      }
      var w;
      ret, w := TryBuild(es, size);
      if ret == 0 {
        Pack(w);
        blob := TakeBlob(w);
        return;
      }
      if ret == OUTSIDE {
        return;
      }
      if size >= LAST {
        return -ENOSPC, blob;
      }
      size := size * 2;
    }
  }

  // ---------------------------------------------------------------- reading the blob

  /** The part of a blob that two header cells, an offset and a size, say. */
  function Section(blob: seq<Byte>, off: nat, size: nat): seq<Byte> {
    if off + size <= |blob| then blob[off..off + size] else []
  }

  /** The structure block and the strings block as the header places them. */
  function StructOfBlob(blob: seq<Byte>): seq<Byte>
    requires |blob| >= 40
  {
    Section(blob, Cell(blob, 8), Cell(blob, 36))
  }

  function StringsOfBlob(blob: seq<Byte>): seq<Byte>
    requires |blob| >= 40
  {
    Section(blob, Cell(blob, 12), Cell(blob, 32))
  }

  /** Everything a walk over a blob comes across, with names looked up in its strings. */
  function ReadTree(blob: seq<Byte>): seq<Emit>
    requires |blob| >= 40
  {
    var items := Scan(StructOfBlob(blob), 0);
    seq(|items|, i requires 0 <= i < |items| => Undraft(items[i], StringsOfBlob(blob)))
  }

  lemma BlobSections(es: seq<Emit>)
    requires Buildable(es)
    ensures AllWellFormed(Finals(es)) && |Blob(es)| == Need(es) - 4
    ensures Cell(Blob(es), 0) == MAGIC && Cell(Blob(es), 4) == |Blob(es)|
    ensures StructOfBlob(Blob(es)) == Block(Finals(es)) && StringsOfBlob(Blob(es)) == Table(es)
  {
    FinalSizes(es);
    hide Block, Finals, Table, Need, EncodeCells, Body, StructOfBlob, StringsOfBlob;
    SectionsOf(Block(Finals(es)), Table(es));
  }

  lemma SectionsOf(st: seq<Byte>, tab: seq<Byte>)
    requires 56 + |st| + |tab| < 0x8000_0000
    ensures var blob := EncodeCells(HeaderCells(|st|, |tab|)) + Body(st, tab);
            && |blob| == 56 + |st| + |tab| && Cell(blob, 0) == MAGIC && Cell(blob, 4) == |blob|
            && StructOfBlob(blob) == st && StringsOfBlob(blob) == tab
  {
    hide Cell, EncodeCells, Body;
    var c := HeaderCells(|st|, |tab|);
    var blob := EncodeCells(c) + Body(st, tab);
    CellsRead(c, 0, Body(st, tab));
    CellsRead(c, 1, Body(st, tab));
    assert StructOfBlob(blob) == st by {
      CellsRead(c, 2, Body(st, tab));
      CellsRead(c, 9, Body(st, tab));
      SliceOf(EncodeCells(c), st, tab);
    }
    assert StringsOfBlob(blob) == tab by {
      CellsRead(c, 3, Body(st, tab));
      CellsRead(c, 8, Body(st, tab));
      SliceOf(EncodeCells(c), st, tab);
    }
  }

  lemma SliceOf(h: seq<Byte>, st: seq<Byte>, tab: seq<Byte>)
    requires |h| == 40
    ensures var blob := h + Body(st, tab);
            blob[56..56 + |st|] == st && blob[56 + |st|..56 + |st| + |tab|] == tab
  {
  }

  /**
   * The sequential-write round trip: for every sequence of emissions that fits, walking the
   * packed blob finds exactly those emissions, names and values included, despite shared
   * suffixes, relocated offsets and packing.
   */
  lemma TreeRoundTrip(es: seq<Emit>)
    requires Buildable(es)
    ensures |Blob(es)| >= 40 && ReadTree(Blob(es)) == es
  {
    BlobSections(es);
    ScanBlock(Finals(es));
    hide Scan, Block, Finals, Table, Undraft, Blob, StructOfBlob, StringsOfBlob, Need;
    forall i | 0 <= i < |es| ensures Undraft(Finals(es)[i], Table(es)) == es[i] { TableBound(es); FinalIs(es, i); }
  }

  lemma TableBound(es: seq<Emit>)
    requires Buildable(es)
    ensures |Table(es)| < U32
  {
  }
}

/**
 * The sequential tree writer (lib/fdt/fdt_sw.c): the structure block grows up and the
 * strings block down in one buffer until `Finish` joins them.
 */
module FdtWriter {
  import opened Bytes
  import opened FdtFormat
  import opened FdtStrings

  const STRUCT: nat := 64  // after the header, aligned to 48, and the empty reservation entry

  /** Not a result of the source: the place where it writes before its buffer. */
  const OUTSIDE: int := 1

  /** The name of `e` is new after `es` and longer than what a buffer of `size` bytes has before the strings. */
  predicate Overruns(es: seq<Emit>, e: Emit, size: nat) {
    e.Property? && IsNew(Table(es), e.name) && |Table(es)| + |e.name| + 1 > size
  }

  /** The unsigned test says there is no room where there is none, exactly when the subtraction does not wrap. */
  lemma RoomTest(total: nat, top: nat, offset: nat)
    requires top <= total < 0x8000_0000 && offset <= total + 0x8000_0000
    ensures ((total - offset) % U32 < top <==> top + offset > total) <==> offset <= total
  {
  }

  /** A buffer being written: header and reservations, structure, room, strings. */
  function Image(st: seq<Byte>, gap: nat, tab: seq<Byte>): (s: seq<Byte>)
    ensures |s| == STRUCT + |st| + gap + |tab|
  {
    Zeros(STRUCT) + st + (Zeros(gap) + tab)
  }

  /** Bytes written at the bottom of the room. */
  lemma GrowUp(st: seq<Byte>, gap: nat, tab: seq<Byte>, s: seq<Byte>)
    requires |s| <= gap
    ensures var b, at := Image(st, gap, tab), STRUCT + |st|;
            b[..at] + s + b[at + |s|..] == Image(st + s, gap - |s|, tab)
  {
    assert Zeros(gap) == Zeros(|s|) + Zeros(gap - |s|);
    var rest := Zeros(gap - |s|) + tab;
    assert Zeros(gap) + tab == Zeros(|s|) + rest;
    ConcatAssoc(Zeros(STRUCT) + st, Zeros(|s|), rest);
    Splice(Zeros(STRUCT) + st, Zeros(|s|), rest, s);
    ConcatAssoc(Zeros(STRUCT), st, s);
  }

  /** Bytes written at the top of the room. */
  lemma GrowDown(st: seq<Byte>, gap: nat, tab: seq<Byte>, s: seq<Byte>)
    requires |s| <= gap
    ensures var b, at := Image(st, gap, tab), STRUCT + |st| + gap - |s|;
            b[..at] + s + b[at + |s|..] == Image(st, gap - |s|, s + tab)
  {
    assert Zeros(gap) == Zeros(gap - |s|) + Zeros(|s|);
    var a, z, y := Zeros(STRUCT) + st, Zeros(gap - |s|), Zeros(|s|);
    ConcatAssoc(z, y, tab);
    ConcatAssoc(a, z, y + tab);
    ConcatAssoc(a + z, y, tab);
    Splice(a + z, y, tab, s);
    ConcatAssoc(a + z, s, tab);
    ConcatAssoc(a, z, s + tab);
  }

  /** Zeros already in the room may count as written. */
  lemma TakeZeros(st: seq<Byte>, gap: nat, tab: seq<Byte>, n: nat)
    requires n <= gap
    ensures Image(st, gap, tab) == Image(st + Zeros(n), gap - n, tab)
  {
    assert Zeros(gap) == Zeros(n) + Zeros(gap - n);
  }

  class Writer {
    const buf: array<Byte>
    var totalsize: nat
    var offRsv: nat
    var offStruct: nat
    var offStrings: nat
    var sizeStruct: nat
    var sizeStrings: nat
    var finished: bool
    ghost var emitted: seq<Emit>

    /** The buffer holds exactly the drafts of what was emitted, their names, and zeros between. */
    ghost predicate Valid()
      reads this, buf
    {
      && !finished && totalsize == buf.Length < 0x8000_0000 && offRsv == 48 && offStruct == STRUCT
      && AllEmittable(emitted) && AllWellFormed(Drafts(emitted))
      && sizeStruct == |EncodeItems(Drafts(emitted))| && sizeStrings == |Table(emitted)|
      && STRUCT + sizeStruct + sizeStrings <= totalsize
      && buf[..] == Image(EncodeItems(Drafts(emitted)), totalsize - STRUCT - sizeStruct - sizeStrings, Table(emitted))
    }

    /** `fdt_create` and `fdt_finish_reservemap`; a buffer too small for the two is refused. */
    constructor (size: nat)
      requires STRUCT <= size < 0x8000_0000
      ensures Valid() && emitted == [] && totalsize == size && fresh(buf)
    {
      buf := new Byte[size](i => 0);
      totalsize, offRsv, offStruct, offStrings, sizeStruct, sizeStrings := size, 48, STRUCT, size, 0, 0;
      finished, emitted := false, [];
      new;
      assert buf[..] == Image([], size - STRUCT, []);
    }

    /** `fdt_grab_space_`. */
    method GrabSpace(len: nat) returns (ok: bool, offset: nat)
      requires STRUCT + sizeStruct + sizeStrings <= totalsize
      modifies this`sizeStruct
      ensures ok <==> STRUCT + old(sizeStruct) + len + sizeStrings <= totalsize
      ensures offset == old(sizeStruct) && sizeStruct == if ok then old(sizeStruct) + len else old(sizeStruct)
    {
      offset := sizeStruct;
      ok := offset + len <= totalsize - STRUCT - sizeStrings;
      if ok {
        sizeStruct := offset + len;
      }
    }

    /** Grabs `len` bytes of structure and writes `s` at their start; the rest stays zero. */
    method Append(s: seq<Byte>, len: nat, ghost st: seq<Byte>, ghost gap: nat, ghost tab: seq<Byte>) returns (ok: bool)
      requires |s| <= len && totalsize == buf.Length && buf[..] == Image(st, gap, tab)
      requires sizeStruct == |st| && sizeStrings == |tab|
      modifies this`sizeStruct, buf
      ensures ok <==> len <= gap
      ensures !ok ==> sizeStruct == old(sizeStruct) && buf[..] == old(buf[..])
      ensures ok ==> sizeStruct == |st| + len && buf[..] == Image(st + (s + Zeros(len - |s|)), gap - len, tab)
    {
      hide Image;
      var offset;
      ok, offset := GrabSpace(len);
      if ok {
        GrowUp(st, gap, tab, s);
        Put(buf, STRUCT + offset, s);
        TakeZeros(st + s, gap - |s|, tab, len - |s|);
        ConcatAssoc(st, s, Zeros(len - |s|));
      }
    }

    /** `fdt_begin_node`. */
    method BeginNode(name: seq<Byte>) returns (ret: int)
      requires Valid() && NoNul(name)
      modifies this`sizeStruct, this`emitted, buf
      ensures Valid() && ret in {0, NOSPACE}
      ensures ret == 0 <==> Need(old(emitted) + [Open(name)]) <= totalsize
      ensures emitted == if ret == 0 then old(emitted) + [Open(name)] else old(emitted)
    {
      hide Image, Encode, EncodeItems, Table, Drafts, Need, Align4;
      var s := Big32(TAG_BEGIN) + name + [0];
      var len := 4 + Align4(|name| + 1);
      NodeBytes(name);
      EmitStep(emitted, Open(name));
      var ok := Append(s, len, EncodeItems(Drafts(emitted)),
                       totalsize - STRUCT - sizeStruct - sizeStrings, Table(emitted));
      if !ok {
        return NOSPACE;
      }
      emitted := emitted + [Open(name)];
      return 0;
    }

    /** `fdt_end_node`. */
    method EndNode() returns (ret: int)
      requires Valid()
      modifies this`sizeStruct, this`emitted, buf
      ensures Valid() && ret in {0, NOSPACE}
      ensures ret == 0 <==> Need(old(emitted) + [Close]) <= totalsize
      ensures emitted == if ret == 0 then old(emitted) + [Close] else old(emitted)
    {
      hide Image, EncodeItems, Table, Drafts, Need;
      EmitStep(emitted, Close);
      assert Big32(TAG_END) + Zeros(0) == Encode(End);
      var ok := Append(Big32(TAG_END), 4, EncodeItems(Drafts(emitted)),
                       totalsize - STRUCT - sizeStruct - sizeStrings, Table(emitted));
      if !ok {
        return NOSPACE;
      }
      emitted := emitted + [Close];
      return 0;
    }

    /**
     * `fdt_add_string_`: the distance of the new string from the end, or 0 without room. The test
     * for room is unsigned, so a string longer than what the buffer has before the strings
     * passes it; `inside` is false where the source then writes before the buffer.
     */
    method AddString(s: seq<Byte>, ghost st: seq<Byte>, ghost gap: nat, ghost tab: seq<Byte>)
      returns (k: nat, inside: bool)
      requires totalsize == buf.Length < 0x8000_0000 && buf[..] == Image(st, gap, tab)
      requires sizeStruct == |st| && sizeStrings == |tab| && |s| < 0x8000_0000
      modifies this`sizeStrings, buf
      ensures inside <==> |tab| + |s| + 1 <= totalsize
      ensures inside ==> (k == 0 <==> |s| + 1 > gap)
      ensures k == 0 || !inside ==> sizeStrings == old(sizeStrings) && buf[..] == old(buf[..])
      ensures k != 0 && inside ==>
                k == sizeStrings == |tab| + |s| + 1 && buf[..] == Image(st, gap - |s| - 1, s + [0] + tab)
    {
      hide Image, NoNul;
      ghost var b := Image(st, gap, tab);
      assert |b| == totalsize;
      var offset := sizeStrings + |s| + 1;
      RoomTest(totalsize, STRUCT + sizeStruct, offset);
      if (totalsize - offset) % U32 < STRUCT + sizeStruct {
        return 0, true;
      }
      if offset > totalsize {
        return offset, false;
      }
      GrowDown(st, gap, tab, s + [0]);
      Put(buf, totalsize - offset, s + [0]);
      sizeStrings := offset;
      return offset, true;
    }

    /** `fdt_find_add_string_`. */
    method FindAddString(s: seq<Byte>, ghost st: seq<Byte>, ghost gap: nat, ghost tab: seq<Byte>)
      returns (k: nat, allocated_: bool, inside: bool)
      requires totalsize == buf.Length < 0x8000_0000 && buf[..] == Image(st, gap, tab)
      requires sizeStruct == |st| && sizeStrings == |tab| && |s| < 0x8000_0000
      modifies this`sizeStrings, buf
      ensures allocated_ <==> IsNew(tab, s)
      ensures inside <==> !(IsNew(tab, s) && |tab| + |s| + 1 > totalsize)
      ensures inside ==> (k == 0 <==> IsNew(tab, s) && |s| + 1 > gap)
      ensures k == 0 || !inside ==> sizeStrings == old(sizeStrings) && buf[..] == old(buf[..])
      ensures k != 0 && inside ==> k == Distance(tab, s) && sizeStrings == |Named(tab, s)|
      ensures k != 0 && inside ==> buf[..] == Image(st, gap + |tab| - |Named(tab, s)|, Named(tab, s))
    {
      StringsOf(st, gap, tab);
      hide Image;
      var p := FindString(buf[totalsize - sizeStrings..totalsize], s);
      if p < sizeStrings {
        return sizeStrings - p, false, true;
      }
      k, inside := AddString(s, st, gap, tab);
      allocated_ := true;
    }

    /**
     * `fdt_property`: the name first; without room for the rest the new name is taken back.
     * Where the name would be written before the buffer the model stops with `OUTSIDE`.
     */
    method Property(name: seq<Byte>, value: seq<Byte>) returns (ret: int)
      requires Valid() && Emittable(Emit.Property(name, value))
      modifies this`sizeStruct, this`sizeStrings, this`emitted, buf
      ensures ret in {0, NOSPACE, OUTSIDE}
      ensures ret == 0 <==> Need(old(emitted) + [Emit.Property(name, value)]) <= totalsize
      ensures ret == OUTSIDE <==> Overruns(old(emitted), Emit.Property(name, value), totalsize)
      ensures ret == 0 ==> Valid() && emitted == old(emitted) + [Emit.Property(name, value)]
      ensures ret != 0 ==> sizeStruct == old(sizeStruct) && sizeStrings == old(sizeStrings) && emitted == old(emitted)
    {
      hide Image, Encode, EncodeItems, Table, Drafts, Need, Align4, Distance, Named;
      ghost var st, tab := EncodeItems(Drafts(emitted)), Table(emitted);
      ghost var gap := totalsize - STRUCT - sizeStruct - sizeStrings;
      ghost var e := Emit.Property(name, value);
      EmitStep(emitted, e);
      NameFits(tab, name);
      PropBytes(tab, name, value);
      var k, allocated_, inside := FindAddString(name, st, gap, tab);
      if !inside {
        return OUTSIDE;
      }
      if k == 0 {
        return NOSPACE;
      }
      var s := Big32(TAG_PROP) + (Big32(|value|) + (Big32(Negative(k)) + value));
      var ok := Append(s, 12 + Align4(|value|), st, gap + |tab| - |Named(tab, name)|, Named(tab, name));
      if !ok {
        if allocated_ {
          sizeStrings := sizeStrings - (|name| + 1);
        }
        return NOSPACE;
      }
      emitted := emitted + [e];
      return 0;
    }

    /** `fdt_finish`: the final tag, the strings moved down behind it, and every name offset made positive. */
    method Finish() returns (ret: int)
      requires Valid()
      modifies this, buf
      ensures ret in {0, NOSPACE} && emitted == old(emitted)
      ensures ret == 0 <==> Need(emitted) + 4 <= old(totalsize)
      ensures ret != 0 ==> Valid()
      ensures ret == 0 ==> Done()
    {
      hide Image, Encode, EncodeItems, Table, Drafts, Big32, Block, Moved, Joined, RelocateAll;
      ghost var items, tab := Drafts(emitted), Table(emitted);
      ghost var gap := totalsize - STRUCT - sizeStruct - sizeStrings;
      assert Big32(TAG_FINISH) + Zeros(0) == Big32(TAG_FINISH);
      var ok := Append(Big32(TAG_FINISH), 4, EncodeItems(items), gap, tab);
      if !ok {
        return NOSPACE;
      }
      BlockIs(items);
      var oldStrings, newStrings := totalsize - sizeStrings, STRUCT + sizeStruct;
      MovedDown(Block(items), gap - 4, tab);
      Move(buf, newStrings, oldStrings, sizeStrings);
      offStrings := newStrings;
      RelocateNames(items, tab);
      totalsize := newStrings + sizeStrings;
      finished := true;
      return 0;
    }

    /** The finished tree: structure and strings back to back, offsets and sizes saying so. */
    ghost predicate Done()
      reads this, buf
    {
      && finished && offRsv == 48 && offStruct == STRUCT
      && AllEmittable(emitted) && AllWellFormed(Finals(emitted)) && |Table(emitted)| < U32
      && sizeStruct == |Block(Finals(emitted))| && sizeStrings == |Table(emitted)|
      && offStrings == STRUCT + sizeStruct && totalsize == offStrings + sizeStrings <= buf.Length < 0x8000_0000
      && buf[..totalsize] == Joined(Block(Finals(emitted)), Table(emitted))
    }

    /** The walk at the end of `fdt_finish`. */
    method RelocateNames(ghost items: seq<Item>, ghost tab: seq<Byte>)
      requires AllWellFormed(items) && sizeStruct == |Block(items)| && sizeStrings == |tab| < U32
      requires STRUCT + sizeStruct + sizeStrings <= buf.Length
      requires buf[..STRUCT + sizeStruct + sizeStrings] == Joined(Block(items), tab)
      modifies buf
      ensures buf[..STRUCT + sizeStruct + sizeStrings] == Joined(Block(RelocateAll(items, |tab|)), tab)
    {
      hide Joined, Block, NextTag, RelocateAll, Mixed, OffsetOf;
      MixedStart(items, |tab|);
      ghost var i := 0;
      var offset: nat := 0;
      ghost var top := STRUCT + sizeStruct + sizeStrings;
      var tag, next := WalkStep(items, tab, i, offset);
      while tag != TAG_FINISH
        invariant i <= |items| && offset == OffsetOf(items, i)
        invariant buf[..top] == Joined(Block(Mixed(items, |tab|, i)), tab)
        invariant i < |items| ==> tag == TagOf(items[i]) && next == OffsetOf(items, i + 1)
        invariant i == |items| <==> tag == TAG_FINISH
        decreases |items| - i
      {
        RelocateStep(items, |tab|, i);
        if tag == TAG_PROP {
          RelocateOne(items, tab, i, offset);
        }
        offset, i := next, i + 1;
        tag, next := WalkStep(items, tab, i, offset);
      }
      MixedEnd(items, |tab|);
    }

    /** One `fdt_next_tag` of the walk. */
    method WalkStep(ghost items: seq<Item>, ghost tab: seq<Byte>, ghost i: nat, offset: nat)
      returns (tag: Word32, next: int)
      requires AllWellFormed(items) && i <= |items| && offset == OffsetOf(items, i)
      requires sizeStruct == |Block(items)| && STRUCT + sizeStruct + sizeStrings <= buf.Length
      requires buf[..STRUCT + sizeStruct + sizeStrings] == Joined(Block(Mixed(items, |tab|, i)), tab)
      ensures i < |items| ==> tag == TagOf(items[i]) && next == OffsetOf(items, i + 1)
      ensures i == |items| <==> tag == TAG_FINISH
    {
      hide Block, NextTag, RelocateAll, Mixed, OffsetOf, Joined;
      MixedStep(items, |tab|, i);
      var st := buf[STRUCT..STRUCT + sizeStruct];
      StructOf(buf[..STRUCT + sizeStruct + sizeStrings], Block(Mixed(items, |tab|, i)), tab);
      PrefixSlice(buf[..], STRUCT + sizeStruct + sizeStrings, STRUCT, STRUCT + sizeStruct);
      tag, next := FdtNextTag(st, offset);
    }

    /** Rewrites one name offset in place. */
    method RelocateOne(ghost items: seq<Item>, ghost tab: seq<Byte>, ghost i: nat, offset: nat)
      requires AllWellFormed(items) && i < |items| && items[i].Prop? && offset == OffsetOf(items, i)
      requires sizeStruct == |Block(items)| && sizeStrings == |tab| < U32
      requires STRUCT + sizeStruct + sizeStrings <= buf.Length
      requires buf[..STRUCT + sizeStruct + sizeStrings] == Joined(Block(Mixed(items, |tab|, i)), tab)
      modifies buf
      ensures buf[..STRUCT + sizeStruct + sizeStrings] == Joined(Block(Mixed(items, |tab|, i + 1)), tab)
    {
      hide Block, RelocateAll, Mixed, OffsetOf, Joined, Big32, FromBig32;
      ghost var top := STRUCT + sizeStruct + sizeStrings;
      ghost var b := Block(Mixed(items, |tab|, i));
      RelocateStep(items, |tab|, i);
      var at := STRUCT + offset + 8;
      CellOf(buf[..top], b, tab, offset + 8);
      assert buf[at..at + 4] == buf[..top][at..at + 4];
      var nameoff := FromBig32(buf[at..at + 4]);
      var new_: Word32 := (nameoff + sizeStrings) % U32;
      JoinedPut(b, tab, offset + 8, Big32(new_));
      PutPrefix(buf[..], at, Big32(new_), top);
      Put(buf, at, Big32(new_));
    }
  }

  lemma PutPrefix(s: seq<Byte>, at: nat, c: seq<Byte>, top: nat)
    requires at + |c| <= top <= |s|
    ensures (s[..at] + c + s[at + |c|..])[..top] == s[..top][..at] + c + s[..top][at + |c|..]
  {
  }

  /** Structure and strings back to back behind the header and reservations. */
  function Joined(st: seq<Byte>, tab: seq<Byte>): (s: seq<Byte>)
    ensures |s| == STRUCT + |st| + |tab|
  {
    Zeros(STRUCT) + st + tab
  }

  lemma StructOf(s: seq<Byte>, st: seq<Byte>, tab: seq<Byte>)
    requires s == Joined(st, tab)
    ensures s[STRUCT..STRUCT + |st|] == st
  {
    Middle(Zeros(STRUCT), st, tab);
  }

  lemma CellOf(s: seq<Byte>, st: seq<Byte>, tab: seq<Byte>, at: nat)
    requires s == Joined(st, tab) && at + 4 <= |st|
    ensures s[STRUCT + at..STRUCT + at + 4] == st[at..at + 4]
  {
  }

  lemma JoinedPut(st: seq<Byte>, tab: seq<Byte>, at: nat, c: seq<Byte>)
    requires at + |c| <= |st|
    ensures var s, p := Joined(st, tab), STRUCT + at;
            s[..p] + c + s[p + |c|..] == Joined(st[..at] + c + st[at + |c|..], tab)
  {
  }

  lemma MovedDown(st: seq<Byte>, gap: nat, tab: seq<Byte>)
    ensures var b := Image(st, gap, tab);
            var to, from := STRUCT + |st|, |b| - |tab|;
            Moved(b, to, from, |tab|)[..to + |tab|] == Joined(st, tab)
  {
    var b := Image(st, gap, tab);
    StringsOf(st, gap, tab);
    assert b[..STRUCT + |st|] == Zeros(STRUCT) + st;
  }

  lemma BlockIs(items: seq<Item>)
    requires AllWellFormed(items)
    ensures Block(items) == EncodeItems(items) + Big32(TAG_FINISH)
  {
  }

  /** The items with the first `i` relocated. */
  function Mixed(items: seq<Item>, size: nat, i: nat): (m: seq<Item>)
    requires i <= |items|
    ensures |m| == |items| && (AllWellFormed(items) ==> AllWellFormed(m))
  {
    RelocateAll(items, size)[..i] + items[i..]
  }

  lemma MixedStart(items: seq<Item>, size: nat)
    requires AllWellFormed(items)
    ensures Mixed(items, size, 0) == items && OffsetOf(items, 0) == 0
  {
    OffsetZero(items);
  }

  lemma MixedEnd(items: seq<Item>, size: nat)
    ensures Mixed(items, size, |items|) == RelocateAll(items, size)
  {
  }

  lemma RelocatedLength(it: Item, size: nat)
    requires WellFormed(it)
    ensures |Encode(Relocate(it, size))| == |Encode(it)| && TagOf(Relocate(it, size)) == TagOf(it)
  {
  }

  lemma MixedAt(items: seq<Item>, size: nat, i: nat, j: nat)
    requires AllWellFormed(items) && i <= |items| && j < |items|
    ensures WellFormed(items[j]) && WellFormed(Mixed(items, size, i)[j])
    ensures |Encode(Mixed(items, size, i)[j])| == |Encode(items[j])|
  {
    RelocatedLength(items[j], size);
    hide Encode;
  }

  /** Relocation keeps every item where it is. */
  lemma {:induction false} MixedOffsets(items: seq<Item>, size: nat, i: nat, j: nat)
    requires AllWellFormed(items) && i <= |items| && j <= |items|
    ensures OffsetOf(Mixed(items, size, i), j) == OffsetOf(items, j)
    decreases j
  {
    hide Encode, OffsetOf, Mixed, AllWellFormed;
    var m := Mixed(items, size, i);
    if j > 0 {
      MixedOffsets(items, size, i, j - 1);
      OffsetNext(m, j - 1);
      OffsetNext(items, j - 1);
      MixedAt(items, size, i, j - 1);
    } else {
      OffsetZero(m);
      OffsetZero(items);
    }
  }

  lemma OffsetZero(items: seq<Item>)
    requires AllWellFormed(items)
    ensures OffsetOf(items, 0) == 0
  {
    assert items[..0] == [];
  }

  lemma OffsetNext(items: seq<Item>, j: nat)
    requires AllWellFormed(items) && j < |items|
    ensures OffsetOf(items, j + 1) == OffsetOf(items, j) + |Encode(items[j])|
  {
    hide Block;
    BlockSplit(items, j);
  }

  lemma BlockLength(items: seq<Item>)
    requires AllWellFormed(items)
    ensures |Block(items)| == OffsetOf(items, |items|) + 4
  {
    assert items[..|items|] == items;
  }

  /** What the walk finds at item `i` while the items before it are relocated. */
  lemma MixedStep(items: seq<Item>, size: nat, i: nat)
    requires AllWellFormed(items) && i <= |items|
    ensures var b := Block(Mixed(items, size, i));
            && |b| == |Block(items)|
            && NextTag(b, OffsetOf(items, i)) ==
               if i < |items| then Step(TagOf(items[i]), OffsetOf(items, i + 1))
               else Step(TAG_FINISH, OffsetOf(items, i) + 4)
  {
    var m := Mixed(items, size, i);
    assert i < |items| ==> m[i] == items[i];
    MixedOffsets(items, size, i, i);
    MixedOffsets(items, size, i, |items|);
    BlockLength(m);
    BlockLength(items);
    hide Block, OffsetOf, NextTag, Mixed;
    if i < |items| {
      MixedOffsets(items, size, i, i + 1);
      BlockStep(m, i);
    } else {
      BlockEnd(m);
    }
  }

  /** Rewriting the name offset of property `i` relocates that item; other items are as they were. */
  lemma RelocateStep(items: seq<Item>, size: nat, i: nat)
    requires AllWellFormed(items) && i < |items|
    ensures !items[i].Prop? ==> Mixed(items, size, i + 1) == Mixed(items, size, i)
    ensures items[i].Prop? ==>
              var b, o := Block(Mixed(items, size, i)), OffsetOf(items, i);
              && o + 12 <= |b| == |Block(items)| && FromBig32(b[o + 8..o + 12]) == items[i].nameoff
              && Block(Mixed(items, size, i + 1)) ==
                 b[..o + 8] + Big32((items[i].nameoff + size) % U32) + b[o + 12..]
  {
    hide EncodeItems, Block, Mixed, Encode, RelocateAll;
    var m, n := Mixed(items, size, i), Mixed(items, size, i + 1);
    MixedNeighbours(items, size, i);
    if items[i].Prop? {
      MixedOffsets(items, size, i, i);
      BlockSplit(m, i);
      BlockSplit(n, i);
      MixedStep(items, size, i);
      var pre, rest := EncodeItems(m[..i]), EncodeItems(m[i + 1..]) + Big32(TAG_FINISH);
      hide OffsetOf, NextTag, Big32, FromBig32;
      assert |pre| == OffsetOf(items, i) by { OffsetIs(m, i); }
      PropRewrite(pre, items[i].nameoff, (items[i].nameoff + size) % U32, items[i].value, rest);
    }
  }

  lemma OffsetIs(items: seq<Item>, i: nat)
    requires AllWellFormed(items) && i <= |items|
    ensures AllWellFormed(items[..i]) && OffsetOf(items, i) == |EncodeItems(items[..i])|
  {
  }

  lemma MixedNeighbours(items: seq<Item>, size: nat, i: nat)
    requires AllWellFormed(items) && i < |items|
    ensures var m, n := Mixed(items, size, i), Mixed(items, size, i + 1);
            && m[..i] == n[..i] && m[i + 1..] == n[i + 1..] && m[i] == items[i] && n[i] == Relocate(items[i], size)
            && (!items[i].Prop? ==> m == n)
  {
    var m, n := Mixed(items, size, i), Mixed(items, size, i + 1);
    if !items[i].Prop? { assert m[i] == n[i]; assert m == n; }
  }

  lemma PropRewrite(pre: seq<Byte>, old_: Word32, new_: Word32, value: seq<Byte>, post: seq<Byte>)
    requires |value| < 0x8000_0000
    ensures var b, o := pre + Encode(Prop(old_, value)) + post, |pre|;
            && o + 12 <= |b| && FromBig32(b[o + 8..o + 12]) == old_
            && pre + Encode(Prop(new_, value)) + post == b[..o + 8] + Big32(new_) + b[o + 12..]
  {
    PropParts(pre, old_, value, post);
    var a, l, p := Big32(TAG_PROP), Big32(|value|), Padded(value, |value|);
    assert Encode(Prop(old_, value)) == a + (l + (Big32(old_) + p));
    assert Encode(Prop(new_, value)) == a + (l + (Big32(new_) + p));
    hide Encode, Big32, Padded;
    Unnest(pre, a, l, Big32(old_), p, post);
    Unnest(pre, a, l, Big32(new_), p, post);
    Splice(pre + a + l, Big32(old_), p + post, Big32(new_));
  }

  lemma Unnest(pre: seq<Byte>, a: seq<Byte>, b: seq<Byte>, c: seq<Byte>, d: seq<Byte>, post: seq<Byte>)
    ensures pre + (a + (b + (c + d))) + post == (pre + a + b) + c + (d + post)
  {
    Assoc(pre, a, b + (c + d), post);
    Assoc(pre + a, b, c + d, post);
    Assoc(pre + a + b, c, d, post);
  }

  lemma StringsOf(st: seq<Byte>, gap: nat, tab: seq<Byte>)
    ensures var b := Image(st, gap, tab); b[|b| - |tab|..|b|] == tab
  {
  }

  lemma NameFits(tab: seq<Byte>, s: seq<Byte>)
    ensures |Named(tab, s)| == if IsNew(tab, s) then |tab| + |s| + 1 else |tab|
    ensures !IsNew(tab, s) ==> Distance(tab, s) > 0
  {
  }

  lemma PropBytes(tab: seq<Byte>, name: seq<Byte>, value: seq<Byte>)
    requires |value| < 0x8000_0000
    ensures var it := Draft(tab, Emit.Property(name, value));
            var s := Big32(TAG_PROP) + (Big32(|value|) + (Big32(Negative(Distance(tab, name))) + value));
            && WellFormed(it) && |Encode(it)| == 12 + Align4(|value|)
            && s + Zeros(12 + Align4(|value|) - |s|) == Encode(it)
  {
    hide Big32, Distance, Negative, Align4;
    var it := Draft(tab, Emit.Property(name, value));
    var a, b, c := Big32(TAG_PROP), Big32(|value|), Big32(Negative(Distance(tab, name)));
    var z := Zeros(Align4(|value|) - |value|);
    ConcatAssoc(a, b + (c + value), z);
    ConcatAssoc(b, c + value, z);
    ConcatAssoc(c, value, z);
  }

  /** The room `es` takes: everything before the structure block, the block, and the strings. */
  function Need(es: seq<Emit>): nat
    requires AllEmittable(es)
  {
    DraftsWellFormed(es);
    STRUCT + |EncodeItems(Drafts(es))| + |Table(es)|
  }

  lemma NodeBytes(name: seq<Byte>)
    requires NoNul(name)
    ensures var s := Big32(TAG_BEGIN) + name + [0];
            s + Zeros(4 + Align4(|name| + 1) - |s|) == Encode(Begin(name))
  {
    EncodeBegin(name);
    hide Encode, Big32;
    var t, z := Big32(TAG_BEGIN), Zeros(Align4(|name| + 1) - |name| - 1);
    ConcatAssoc(t, name, [0]);
    ConcatAssoc(t, name + [0], z);
    ConcatAssoc(name, [0], z);
  }

  /** What one more emission does to the two blocks. */
  lemma EmitStep(es: seq<Emit>, e: Emit)
    requires AllEmittable(es) && Emittable(e) && AllWellFormed(Drafts(es))
    ensures AllEmittable(es + [e]) && AllWellFormed(Drafts(es + [e]))
    ensures WellFormed(Draft(Table(es), e))
    ensures EncodeItems(Drafts(es + [e])) == EncodeItems(Drafts(es)) + Encode(Draft(Table(es), e))
    ensures Table(es + [e]) == if e.Property? then Named(Table(es), e.name) else Table(es)
    ensures Need(es + [e]) == STRUCT + |EncodeItems(Drafts(es))| + |Encode(Draft(Table(es), e))| + |Table(es + [e])|
    ensures Need(es) == STRUCT + |EncodeItems(Drafts(es))| + |Table(es)|
  {
    hide Encode, Draft, Named;
    var t := es + [e];
    assert t[..|t| - 1] == es && t[|t| - 1] == e;
    assert Drafts(t) == Drafts(es) + [Draft(Table(es), e)];
    assert Drafts(t)[..|es|] == Drafts(es);
    assert AllWellFormed(Drafts(t));
  }
}

/**
 * The structure block of a flattened device tree (chapter 5 of the Devicetree
 * Specification v0.4, section 5.4) and the walk over its tags (lib/fdt/fdt.c).
 */
module FdtFormat {
  import opened Bytes

  const TAG_BEGIN: Word32 := 1
  const TAG_END: Word32 := 2
  const TAG_PROP: Word32 := 3
  const TAG_NOP: Word32 := 4
  const TAG_FINISH: Word32 := 9

  const NOTFOUND: int := -1
  const NOSPACE: int := -3
  const BADOFFSET: int := -4
  const TRUNCATED: int := -8
  const BADSTRUCTURE: int := -11
  const INTERNAL: int := -13

  /** One token of the structure block. A property names its name by an offset. */
  datatype Item = Begin(name: seq<Byte>) | Prop(nameoff: Word32, value: seq<Byte>) | End

  /** Names hold no NUL, and a length fits its 32-bit cell with room to spare. */
  predicate WellFormed(it: Item) {
    match it
    case Begin(name) => NoNul(name)
    case Prop(_, value) => |value| < 0x8000_0000
    case End => true
  }

  function TagOf(it: Item): Word32 {
    match it
    case Begin(_) => TAG_BEGIN
    case Prop(_, _) => TAG_PROP
    case End => TAG_END
  }

  function Encode(it: Item): (s: seq<Byte>)
    requires WellFormed(it)
    ensures |s| >= 4 && |s| % 4 == 0
  {
    match it
    case Begin(name) => Big32(TAG_BEGIN) + Padded(name, |name| + 1)
    case Prop(nameoff, value) => Big32(TAG_PROP) + (Big32(|value|) + (Big32(nameoff) + Padded(value, |value|)))
    case End => Big32(TAG_END)
  }

  predicate AllWellFormed(items: seq<Item>) {
    forall i :: 0 <= i < |items| ==> WellFormed(items[i])
  }

  function EncodeItems(items: seq<Item>): seq<Byte>
    requires AllWellFormed(items)
  {
    if items == [] then [] else EncodeItems(items[..|items| - 1]) + Encode(items[|items| - 1])
  }

  lemma {:induction false} ItemsAligned(items: seq<Item>)
    requires AllWellFormed(items)
    ensures |EncodeItems(items)| % 4 == 0
    decreases |items|
  {
    hide Encode;
    if items != [] {
      ItemsAligned(items[..|items| - 1]);
      SumOfFours(|EncodeItems(items[..|items| - 1])|, |Encode(items[|items| - 1])|);
    }
  }

  // ---------------------------------------------------------------- fdt_next_tag

  /** The big-endian cell at `off`. */
  function Cell(st: seq<Byte>, off: nat): Word32
    requires off + 4 <= |st|
  {
    FromBig32(st[off..off + 4])
  }

  /** A tag and the offset of the next one; a negative offset is an error. */
  datatype Step = Step(tag: Word32, next: int)

  /** `fdt_next_tag` over a structure block. */
  function NextTag(st: seq<Byte>, off: int): (r: Step)
    ensures r.tag != TAG_FINISH ==> 0 <= off < r.next && r.next % 4 == 0 && r.next < |st| + 4
  {
    if off < 0 || off + 4 > |st| then Step(TAG_FINISH, TRUNCATED)
    else
      var tag := Cell(st, off);
      if tag == TAG_BEGIN then
        var z := NulAt(st, off + 4);
        if z == |st| then Step(TAG_FINISH, BADSTRUCTURE) else Step(tag, Align4(z + 1))
      else if tag == TAG_PROP then
        if off + 8 > |st| then Step(TAG_FINISH, BADSTRUCTURE)
        else
          var len := Cell(st, off + 4);
          if off + 12 + len > |st| then Step(TAG_FINISH, BADSTRUCTURE) else Step(tag, Align4(off + 12 + len))
      else if tag == TAG_FINISH || tag == TAG_END || tag == TAG_NOP then Step(tag, Align4(off + 4))
      else Step(TAG_FINISH, BADSTRUCTURE)
  }

  /** The loop over the name, as the code runs it. */
  method FdtNextTag(st: seq<Byte>, startoffset: int) returns (tag: Word32, nextoffset: int)
    ensures Step(tag, nextoffset) == NextTag(st, startoffset)
  {
    nextoffset := TRUNCATED;
    var offset := startoffset;
    if offset < 0 || offset + 4 > |st| {
      return TAG_FINISH, nextoffset;
    }
    tag := Cell(st, offset);
    offset := offset + 4;
    nextoffset := BADSTRUCTURE;
    if tag == TAG_BEGIN {
      var found := false;
      while offset < |st| && !found
        invariant startoffset + 4 <= offset <= |st|
        invariant !found ==> NulAt(st, startoffset + 4) == NulAt(st, offset)
        invariant found ==> NulAt(st, startoffset + 4) == offset - 1 < |st|
      {
        found := st[offset] == 0;
        offset := offset + 1;
      }
      if !found {
        return TAG_FINISH, nextoffset;
      }
    } else if tag == TAG_PROP {
      if offset + 4 > |st| {
        return TAG_FINISH, nextoffset;
      }
      offset := offset + 8 + Cell(st, offset);
    } else if tag != TAG_FINISH && tag != TAG_END && tag != TAG_NOP {
      return TAG_FINISH, nextoffset;
    }
    if offset > |st| {
      return TAG_FINISH, nextoffset;
    }
    nextoffset := Align4(offset);
  }

  // ---------------------------------------------------------------- reading what was encoded

  lemma CellIn(pre: seq<Byte>, n: Word32, post: seq<Byte>)
    ensures Cell(pre + Big32(n) + post, |pre|) == n
  {
    var st := pre + Big32(n) + post;
    assert st[|pre|..|pre| + 4] == Big32(n);
    Big32RoundTrip(n);
  }

  lemma NulIn(pre: seq<Byte>, name: seq<Byte>, post: seq<Byte>)
    requires NoNul(name) && post != [] && post[0] == 0
    ensures NulAt(pre + name + post, |pre|) == |pre| + |name|
  {
    var st := pre + name + post;
    assert forall i :: |pre| <= i < |pre| + |name| ==> st[i] == name[i - |pre|] != 0;
    assert st[|pre| + |name|] == 0;
  }

  /** The item at `off`, given the tag there. */
  function ItemAt(st: seq<Byte>, off: nat): Item
    requires NextTag(st, off).tag != TAG_FINISH
  {
    var tag := NextTag(st, off).tag;
    if tag == TAG_BEGIN then Begin(st[off + 4..NulAt(st, off + 4)])
    else if tag == TAG_PROP then
      Prop(Cell(st, off + 8), st[off + 12..off + 12 + Cell(st, off + 4)])
    else End
  }

  lemma BeginRead(pre: seq<Byte>, name: seq<Byte>, post: seq<Byte>)
    requires |pre| % 4 == 0 && NoNul(name)
    ensures var st := pre + Encode(Begin(name)) + post;
            && NextTag(st, |pre|) == Step(TAG_BEGIN, |pre| + |Encode(Begin(name))|)
            && ItemAt(st, |pre|) == Begin(name)
  {
    assert |Encode(Begin(name))| == 4 + Align4(|name| + 1);
    hide Encode, Cell, NulAt, NoNul, Align4;
    BeginParts(pre, name, post);
    AlignedSum(|pre| + 4, |name| + 1);
  }

  lemma BeginParts(pre: seq<Byte>, name: seq<Byte>, post: seq<Byte>)
    requires NoNul(name)
    ensures var st := pre + Encode(Begin(name)) + post;
            && |pre| + 4 + |name| < |st|
            && Cell(st, |pre|) == TAG_BEGIN
            && NulAt(st, |pre| + 4) == |pre| + 4 + |name|
            && st[|pre| + 4..|pre| + 4 + |name|] == name
  {
    EncodeBegin(name);
    hide Big32, Encode, Align4, Cell, NulAt;
    var t, rest := Big32(TAG_BEGIN), [0] + Zeros(Align4(|name| + 1) - |name| - 1);
    Assoc(pre, t, name + rest, post);
    CellIn(pre, TAG_BEGIN, name + rest + post);
    Assoc(pre + t, name, rest, post);
    NulIn(pre + t, name, rest + post);
    Middle(pre + t, name, rest + post);
  }

  lemma EncodeBegin(name: seq<Byte>)
    requires NoNul(name)
    ensures Encode(Begin(name)) == Big32(TAG_BEGIN) + (name + ([0] + Zeros(Align4(|name| + 1) - |name| - 1)))
  {
    hide Big32;
    assert Zeros(Align4(|name| + 1) - |name|) == [0] + Zeros(Align4(|name| + 1) - |name| - 1);
  }

  lemma PropParts(pre: seq<Byte>, nameoff: Word32, value: seq<Byte>, post: seq<Byte>)
    requires |value| < 0x8000_0000
    ensures var st := pre + Encode(Prop(nameoff, value)) + post;
            && |pre| + 12 + |value| <= |st|
            && Cell(st, |pre|) == TAG_PROP && Cell(st, |pre| + 4) == |value| && Cell(st, |pre| + 8) == nameoff
            && st[|pre| + 12..|pre| + 12 + |value|] == value
  {
    var a, b, c, pad := Big32(TAG_PROP), Big32(|value|), Big32(nameoff), Zeros(Align4(|value|) - |value|);
    assert Encode(Prop(nameoff, value)) == a + (b + (c + (value + pad)));
    hide Big32, Encode, Align4, Cell;
    Assoc(pre, a, b + (c + (value + pad)), post);
    CellIn(pre, TAG_PROP, b + (c + (value + pad)) + post);
    Assoc(pre + a, b, c + (value + pad), post);
    CellIn(pre + a, |value|, c + (value + pad) + post);
    Assoc(pre + a + b, c, value + pad, post);
    CellIn(pre + a + b, nameoff, value + pad + post);
    Assoc(pre + a + b + c, value, pad, post);
    Middle(pre + a + b + c, value, pad + post);
  }

  lemma PropRead(pre: seq<Byte>, nameoff: Word32, value: seq<Byte>, post: seq<Byte>)
    requires |pre| % 4 == 0 && |value| < 0x8000_0000
    ensures var st := pre + Encode(Prop(nameoff, value)) + post;
            && NextTag(st, |pre|) == Step(TAG_PROP, |pre| + |Encode(Prop(nameoff, value))|)
            && ItemAt(st, |pre|) == Prop(nameoff, value)
  {
    var st := pre + Encode(Prop(nameoff, value)) + post;
    PropParts(pre, nameoff, value, post);
    AlignedSum(|pre| + 12, |value|);
    assert |Encode(Prop(nameoff, value))| == 12 + Align4(|value|);
    hide Encode, Cell;
  }

  lemma EndRead(pre: seq<Byte>, post: seq<Byte>)
    requires |pre| % 4 == 0
    ensures var st := pre + Encode(End) + post;
            NextTag(st, |pre|) == Step(TAG_END, |pre| + 4) && ItemAt(st, |pre|) == End
  {
    hide Big32, FromBig32;
    CellIn(pre, TAG_END, post);
  }

  /** At the start of an encoded item the walk finds that item and steps over exactly its bytes. */
  lemma ItemRead(pre: seq<Byte>, it: Item, post: seq<Byte>)
    requires |pre| % 4 == 0 && WellFormed(it)
    ensures var st := pre + Encode(it) + post;
            && NextTag(st, |pre|) == Step(TagOf(it), |pre| + |Encode(it)|)
            && ItemAt(st, |pre|) == it
  {
    match it {
      case Begin(name) => BeginRead(pre, name, post);
      case Prop(nameoff, value) => PropRead(pre, nameoff, value, post);
      case End => EndRead(pre, post);
    }
  }

  // ---------------------------------------------------------------- a whole block

  /** A finished structure block: the items and the final tag. */
  function Block(items: seq<Item>): seq<Byte>
    requires AllWellFormed(items)
  {
    EncodeItems(items) + Big32(TAG_FINISH)
  }

  /** The offset of item `i`. */
  function OffsetOf(items: seq<Item>, i: nat): nat
    requires AllWellFormed(items) && i <= |items|
  {
    |EncodeItems(items[..i])|
  }

  lemma {:induction false} EncodeConcat(s: seq<Item>, t: seq<Item>)
    requires AllWellFormed(s) && AllWellFormed(t)
    ensures AllWellFormed(s + t) && EncodeItems(s + t) == EncodeItems(s) + EncodeItems(t)
    decreases |t|
  {
    hide Encode;
    assert AllWellFormed(s + t);
    if t == [] {
      assert s + t == s;
    } else {
      var most, last := t[..|t| - 1], t[|t| - 1];
      assert (s + t)[..|s + t| - 1] == s + most;
      EncodeConcat(s, most);
      ConcatAssoc(EncodeItems(s), EncodeItems(most), Encode(last));
    }
  }

  lemma EncodeOne(it: Item)
    requires WellFormed(it)
    ensures AllWellFormed([it]) && EncodeItems([it]) == Encode(it)
  {
    hide Encode;
    assert EncodeItems([it]) == EncodeItems([it][..0]) + Encode(it);
  }

  /** A block around item `i`. */
  lemma BlockSplit(items: seq<Item>, i: nat)
    requires AllWellFormed(items) && i < |items|
    ensures var rest := EncodeItems(items[i + 1..]) + Big32(TAG_FINISH);
            Block(items) == EncodeItems(items[..i]) + Encode(items[i]) + rest
    ensures OffsetOf(items, i + 1) == OffsetOf(items, i) + |Encode(items[i])|
  {
    hide Encode, Big32;
    var a, b, c := items[..i], [items[i]], items[i + 1..];
    EncodeOne(items[i]);
    EncodeConcat(a, b);
    EncodeConcat(a + b, c);
    assert items == a + b + c && items[..i + 1] == a + b;
    hide EncodeItems;
    ConcatAssoc(EncodeItems(a) + Encode(items[i]), EncodeItems(c), Big32(TAG_FINISH));
  }

  /** Walking a block steps from each item to the next, finding every one of them. */
  lemma BlockStep(items: seq<Item>, i: nat)
    requires AllWellFormed(items) && i < |items|
    ensures NextTag(Block(items), OffsetOf(items, i)) == Step(TagOf(items[i]), OffsetOf(items, i + 1))
    ensures ItemAt(Block(items), OffsetOf(items, i)) == items[i]
    ensures OffsetOf(items, i) % 4 == 0
  {
    BlockSplit(items, i);
    ItemsAligned(items[..i]);
    hide Encode, EncodeItems, Block, NextTag, ItemAt;
    ItemRead(EncodeItems(items[..i]), items[i], EncodeItems(items[i + 1..]) + Big32(TAG_FINISH));
  }

  lemma BlockEnd(items: seq<Item>)
    requires AllWellFormed(items)
    ensures NextTag(Block(items), OffsetOf(items, |items|)) == Step(TAG_FINISH, OffsetOf(items, |items|) + 4)
  {
    assert items[..|items|] == items;
    ItemsAligned(items);
    hide EncodeItems, NextTag;
    FinishRead(EncodeItems(items));
  }

  lemma FinishRead(pre: seq<Byte>)
    requires |pre| % 4 == 0
    ensures NextTag(pre + Big32(TAG_FINISH), |pre|) == Step(TAG_FINISH, |pre| + 4)
  {
    hide Cell, Big32, NulAt;
    var st := pre + Big32(TAG_FINISH);
    CellIn(pre, TAG_FINISH, []);
    assert st + [] == st;
    AlignedSum(|pre|, 4);
  }

  /** Everything a walk from `off` to the final tag comes across. */
  function Scan(st: seq<Byte>, off: int): seq<Item>
    decreases |st| + 4 - off
  {
    var s := NextTag(st, off);
    if s.tag == TAG_FINISH then []
    else if s.tag == TAG_NOP then Scan(st, s.next)
    else [ItemAt(st, off)] + Scan(st, s.next)
  }

  lemma {:induction false} ScanFrom(items: seq<Item>, i: nat)
    requires AllWellFormed(items) && i <= |items|
    ensures Scan(Block(items), OffsetOf(items, i)) == items[i..]
    decreases |items| - i
  {
    hide Block, NextTag, ItemAt, OffsetOf;
    if i == |items| {
      BlockEnd(items);
    } else {
      BlockStep(items, i);
      ScanFrom(items, i + 1);
      assert items[i..] == [items[i]] + items[i + 1..];
    }
  }

  /** Scanning a finished block yields exactly the items that were written. */
  lemma ScanBlock(items: seq<Item>)
    requires AllWellFormed(items)
    ensures Scan(Block(items), 0) == items
  {
    ScanFrom(items, 0);
    assert items[..0] == [] && items[0..] == items;
  }
}

/**
 * Reading a finished tree (lib/fdt/fdt.c, lib/fdt/fdt_ro.c): node iteration and property
 * lookup find exactly what was emitted.
 */
module FdtReader {
  import opened Bytes
  import opened FdtFormat
  import opened FdtStrings
  import opened FdtBuild

  // ---------------------------------------------------------------- nodes

  /** `fdt_check_node_offset_`: where the node's content starts, or an error. */
  function CheckNode(st: seq<Byte>, off: int): (r: int)
    ensures r >= 0 ==> 0 <= off < r < |st| + 4
  {
    if off < 0 || off % 4 != 0 || NextTag(st, off).tag != TAG_BEGIN then BADOFFSET else NextTag(st, off).next
  }

  /** The loop of `fdt_next_node` from `off`: the next node, or where the walk left the tree, and the depth there. */
  function Walk(st: seq<Byte>, off: int, depth: int): (r: (int, int))
    ensures r.1 >= 0 && r.0 >= 0 ==> off <= r.0 < |st|
    decreases |st| + 4 - off
  {
    var s := NextTag(st, off);
    if s.tag == TAG_PROP || s.tag == TAG_NOP then Walk(st, s.next, depth)
    else if s.tag == TAG_BEGIN then (off, depth + 1)
    else if s.tag == TAG_END then
      if depth - 1 < 0 then (s.next, depth - 1) else Walk(st, s.next, depth - 1)
    else (if s.next >= 0 then NOTFOUND else s.next, depth)
  }

  /** `fdt_next_node` from a node. */
  function NextNode(st: seq<Byte>, off: int, depth: int): (r: (int, int))
    ensures r.0 >= 0 && r.1 >= 0 ==> off < r.0 < |st|
  {
    if off >= 0 && CheckNode(st, off) < 0 then (CheckNode(st, off), depth)
    else Walk(st, if off >= 0 then CheckNode(st, off) else 0, depth)
  }

  method FdtNextNode(st: seq<Byte>, start: int, depth0: int) returns (offset: int, depth: int)
    ensures (offset, depth) == NextNode(st, start, depth0)
  {
    hide NextTag;
    depth := depth0;
    var next := 0;
    if start >= 0 {
      next := CheckNode(st, start);
      if next < 0 {
        return next, depth;
      }
    }
    offset := next;
    var tag;
    tag, next := FdtNextTag(st, offset);
    while tag == TAG_PROP || tag == TAG_NOP || (tag == TAG_END && depth > 0)
      invariant Step(tag, next) == NextTag(st, offset)
      invariant NextNode(st, start, depth0) == Walk(st, offset, depth)
      decreases |st| + 4 - offset
    {
      if tag == TAG_END {
        depth := depth - 1;
      }
      offset := next;
      tag, next := FdtNextTag(st, offset);
    }
    if tag == TAG_BEGIN {
      return offset, depth + 1;
    } else if tag == TAG_END {
      return next, depth - 1;
    }
    return if next >= 0 then NOTFOUND else next, depth;
  }

  /** `fdt_first_subnode`. */
  function FirstSubnode(st: seq<Byte>, off: int): int {
    var (o, d) := NextNode(st, off, 0);
    if o < 0 || d != 1 then NOTFOUND else o
  }

  /** `fdt_next_subnode` once the content of the current node starts at `off`. */
  function SubFrom(st: seq<Byte>, off: int, depth: int): int
    decreases |st| + 4 - off
  {
    var (o, d) := Walk(st, off, depth);
    if o < 0 || d < 1 then NOTFOUND
    else if d > 1 then
      if CheckNode(st, o) < 0 then NOTFOUND else SubFrom(st, CheckNode(st, o), d)
    else o
  }

  /** `fdt_next_subnode`. */
  function NextSubnode(st: seq<Byte>, off: int): int {
    if off >= 0 && CheckNode(st, off) < 0 then NOTFOUND
    else SubFrom(st, if off >= 0 then CheckNode(st, off) else 0, 1)
  }

  method FdtNextSubnode(st: seq<Byte>, start: int) returns (offset: int)
    requires start >= 0
    ensures offset == NextSubnode(st, start)
  {
    hide NextTag, Walk;
    var depth;
    offset, depth := FdtNextNode(st, start, 1);
    while offset >= 0 && depth > 1
      invariant NextSubnode(st, start) ==
                if offset < 0 || depth < 1 then NOTFOUND
                else if depth > 1 then
                  if CheckNode(st, offset) < 0 then NOTFOUND else SubFrom(st, CheckNode(st, offset), depth)
                else offset
      invariant offset >= 0 && depth > 1 ==> offset < |st|
      decreases if offset < 0 || depth <= 1 then 0 else |st| + 5 - offset
    {
      offset, depth := FdtNextNode(st, offset, depth);
    }
    if offset < 0 || depth < 1 {
      offset := NOTFOUND;
    }
  }

  // ---------------------------------------------------------------- properties

  /** `nextprop_`: the property at `off`, if that is what is there. */
  function PropAt(st: seq<Byte>, off: int): (r: int)
    ensures r >= 0 ==> off <= r < |st| && NextTag(st, r).tag == TAG_PROP && (off % 4 == 0 ==> r % 4 == 0)
    decreases |st| + 4 - off
  {
    var s := NextTag(st, off);
    if s.tag == TAG_FINISH then if s.next >= 0 then BADSTRUCTURE else s.next
    else if s.tag == TAG_PROP then off
    else if s.tag == TAG_NOP then PropAt(st, s.next)
    else NOTFOUND
  }

  /** `fdt_first_property_offset`. */
  function FirstProperty(st: seq<Byte>, node: int): (r: int)
    ensures r >= 0 ==> r < |st| && r % 4 == 0 && NextTag(st, r).tag == TAG_PROP
  {
    if CheckNode(st, node) < 0 then CheckNode(st, node) else PropAt(st, CheckNode(st, node))
  }

  /** `fdt_next_property_offset`. */
  function NextProperty(st: seq<Byte>, off: int): (r: int)
    ensures r >= 0 ==> off < r < |st| && r % 4 == 0 && NextTag(st, r).tag == TAG_PROP
  {
    if off < 0 || off % 4 != 0 || NextTag(st, off).tag != TAG_PROP then BADOFFSET
    else PropAt(st, NextTag(st, off).next)
  }

  /** The result of a lookup: the bytes found, or an error. */
  datatype Found = Text(value: seq<Byte>) | Missing(err: int)

  /** `fdt_get_string` on a finished tree: the string at `off`, if it ends inside the strings block. */
  function GetString(strings: seq<Byte>, off: nat): Found {
    if off >= |strings| then Missing(BADOFFSET)
    else if NulAt(strings, off) == |strings| then Missing(TRUNCATED)
    else Text(NameOf(strings, off))
  }

  /** `fdt_get_property_namelen_` from the property at `off` on: where the property is, or an error. */
  function Lookup(st: seq<Byte>, strings: seq<Byte>, off: int, name: seq<Byte>): (r: int)
    requires off >= 0 ==> off < |st| && NextTag(st, off).tag == TAG_PROP
    ensures r >= 0 ==> r < |st| && NextTag(st, r).tag == TAG_PROP
    decreases if off < 0 then 0 else |st| + 1 - off
  {
    if off < 0 || GetString(strings, ItemAt(st, off).nameoff) == Text(name) then off
    else Lookup(st, strings, NextProperty(st, off), name)
  }

  /** Where a node has the property called `name`. */
  function FindProp(st: seq<Byte>, strings: seq<Byte>, node: int, name: seq<Byte>): (r: int)
    ensures r >= 0 ==> r < |st| && NextTag(st, r).tag == TAG_PROP
  {
    Lookup(st, strings, FirstProperty(st, node), name)
  }

  /** `fdt_getprop`. */
  function GetProp(st: seq<Byte>, strings: seq<Byte>, node: int, name: seq<Byte>): Found {
    var off := FindProp(st, strings, node, name);
    if off < 0 then Missing(off) else Text(ItemAt(st, off).value)
  }

  method FdtGetProp(st: seq<Byte>, strings: seq<Byte>, node: int, name: seq<Byte>) returns (r: Found)
    ensures r == GetProp(st, strings, node, name)
  {
    hide NextTag, PropAt, GetString, FirstProperty, NextProperty;
    var off := FirstProperty(st, node);
    while off >= 0
      invariant off >= 0 ==> off < |st| && NextTag(st, off).tag == TAG_PROP
      invariant FindProp(st, strings, node, name) == Lookup(st, strings, off, name)
      decreases if off < 0 then 0 else |st| + 1 - off
    {
      var prop := ItemAt(st, off);
      if GetString(strings, prop.nameoff) == Text(name) {
        return Text(prop.value);
      }
      off := NextProperty(st, off);
    }
    return Missing(off);
  }

  // ---------------------------------------------------------------- what belongs to a node

  /** How an emission changes the depth. */
  function Delta(e: Emit): int {
    match e
    case Open(_) => 1
    case Property(_, _) => 0
    case Close => -1
  }

  /** How many nodes `es[a..b]` opens and leaves open; negative if it closes more. */
  function Depth(es: seq<Emit>, a: nat, b: nat): int
    requires a <= b <= |es|
    decreases b - a
  {
    if a == b then 0 else Delta(es[a]) + Depth(es, a + 1, b)
  }

  /** Emission `k` stands directly in the node whose content starts at `j`, `d` levels up. */
  ghost predicate Direct(es: seq<Emit>, j: nat, d: nat, k: nat)
    requires j <= k <= |es|
  {
    d + Depth(es, j, k) == 0 && forall m :: j <= m <= k ==> d + Depth(es, j, m) >= 0
  }

  /** A node opened at `k` stands directly there. */
  ghost predicate Opens(es: seq<Emit>, j: nat, d: nat, k: int) {
    j <= k < |es| && es[k].Open? && Direct(es, j, d, k)
  }

  /** Emission `c` opens a child of the node opened at `i`. */
  ghost predicate IsChild(es: seq<Emit>, i: nat, c: int) {
    Opens(es, i + 1, 0, c)
  }

  /** Emission `p` is a property of the node opened at `i`. */
  ghost predicate IsOwn(es: seq<Emit>, i: nat, p: int) {
    i < p < |es| && es[p].Property? && Direct(es, i + 1, 0, p)
  }

  lemma {:induction false} DepthSplit(es: seq<Emit>, a: nat, b: nat, c: nat)
    requires a <= b <= c <= |es|
    ensures Depth(es, a, c) == Depth(es, a, b) + Depth(es, b, c)
    decreases b - a
  {
    if a < b { DepthSplit(es, a + 1, b, c); }
  }

  lemma DirectStep(es: seq<Emit>, j: nat, d: nat, k: nat)
    requires j < k <= |es|
    ensures Direct(es, j, d, k) <==> d + Delta(es[j]) >= 0 && Direct(es, j + 1, d + Delta(es[j]), k)
  {
    var j' := j + 1;
    forall m | j' <= m <= k ensures Depth(es, j, m) == Delta(es[j]) + Depth(es, j', m) {}
    assert Depth(es, j', j') == 0 && Depth(es, j, j) == 0;
  }

  lemma OpensStep(es: seq<Emit>, j: nat, d: nat, k: int)
    requires j < |es|
    ensures Opens(es, j, d, k) <==>
            (k == j && d == 0 && es[j].Open?) || (d + Delta(es[j]) >= 0 && Opens(es, j + 1, d + Delta(es[j]), k))
  {
    if k == j {
      assert Depth(es, j, j) == 0;
    } else if j < k < |es| {
      hide Direct;
      DirectStep(es, j, d, k);
    }
  }

  /** The next node standing directly in the content at `j`, `d` levels up, or minus one. */
  function SubIndex(es: seq<Emit>, j: nat, d: nat): (k: int)
    requires j <= |es|
    ensures k < |es|
    decreases |es| - j
  {
    if j == |es| then -1
    else if es[j].Property? then SubIndex(es, j + 1, d)
    else if es[j].Open? then if d == 0 then j else SubIndex(es, j + 1, d + 1)
    else if d == 0 then -1 else SubIndex(es, j + 1, d - 1)
  }

  /** It is the first such node, and minus one means there is none. */
  lemma {:induction false} SubIndexIsFirst(es: seq<Emit>, j: nat, d: nat, k: int)
    requires j <= |es|
    ensures SubIndex(es, j, d) >= 0 ==> Opens(es, j, d, SubIndex(es, j, d))
    ensures Opens(es, j, d, k) ==> 0 <= SubIndex(es, j, d) <= k
    decreases |es| - j
  {
    hide Direct;
    if j < |es| {
      OpensStep(es, j, d, k);
      OpensStep(es, j, d, SubIndex(es, j, d));
      if d + Delta(es[j]) >= 0 { SubIndexIsFirst(es, j + 1, d + Delta(es[j]), k); }
    }
  }

  // ---------------------------------------------------------------- reading a block

  function TagFor(e: Emit): Word32 {
    match e
    case Open(_) => TAG_BEGIN
    case Property(_, _) => TAG_PROP
    case Close => TAG_END
  }

  /** Emission `i` is found at `offs[i]`, followed by emission `i + 1`. */
  predicate Shows(st: seq<Byte>, strings: seq<Byte>, e: Emit, off: nat, next: nat) {
    && off % 4 == 0
    && NextTag(st, off) == Step(TagFor(e), next)
    && match e
       case Open(name) => ItemAt(st, off) == Begin(name)
       case Property(name, value) =>
         && ItemAt(st, off).Prop? && ItemAt(st, off).value == value
         && GetString(strings, ItemAt(st, off).nameoff) == Text(name)
       case Close => true
  }

  /** A block and its strings present the emissions `es`, at the offsets `offs`. */
  ghost predicate Presents(st: seq<Byte>, strings: seq<Byte>, es: seq<Emit>, offs: seq<nat>) {
    && |offs| == |es| + 1
    && (forall i :: 0 <= i < |es| ==> Shows(st, strings, es[i], offs[i], offs[i + 1]))
    && NextTag(st, offs[|es|]).tag == TAG_FINISH && NextTag(st, offs[|es|]).next >= 0
  }

  function OffsetAt(offs: seq<nat>, k: int): int
    requires k < |offs|
  {
    if k < 0 then NOTFOUND else offs[k]
  }

  lemma {:induction false} SubFromIs(st: seq<Byte>, strings: seq<Byte>, es: seq<Emit>, offs: seq<nat>, j: nat, d: nat)
    requires Presents(st, strings, es, offs) && j <= |es|
    ensures SubFrom(st, offs[j], d) == OffsetAt(offs, SubIndex(es, j, d))
    decreases |es| - j
  {
    hide NextTag, GetString, ItemAt;
    if j < |es| {
      assert Shows(st, strings, es[j], offs[j], offs[j + 1]);
      var deeper := if es[j].Property? then d else if es[j].Open? then d + 1 else if d > 0 then d - 1 else 0;
      SubFromIs(st, strings, es, offs, j + 1, deeper);
    }
  }

  // ---------------------------------------------------------------- what readers find

  lemma ContentStarts(st: seq<Byte>, strings: seq<Byte>, es: seq<Emit>, offs: seq<nat>, i: nat)
    requires Presents(st, strings, es, offs) && i < |es| && es[i].Open?
    ensures CheckNode(st, offs[i]) == offs[i + 1]
  {
    hide NextTag, GetString;
    assert Shows(st, strings, es[i], offs[i], offs[i + 1]);
  }

  /** The first subnode is what a search for subnodes finds from the content of the node on. */
  lemma FirstIsSub(st: seq<Byte>, off: int)
    requires CheckNode(st, off) >= 0
    ensures FirstSubnode(st, off) == SubFrom(st, CheckNode(st, off), 0)
  {
    hide CheckNode, NextTag;
    ShallowWalk(st, CheckNode(st, off), 0);
  }

  lemma {:induction false} ShallowWalk(st: seq<Byte>, off: int, depth: int)
    ensures Walk(st, off, depth).1 <= depth + 1
    decreases |st| + 4 - off
  {
    var s := NextTag(st, off);
    if s.tag == TAG_PROP || s.tag == TAG_NOP {
      ShallowWalk(st, s.next, depth);
    } else if s.tag == TAG_END && depth > 0 {
      ShallowWalk(st, s.next, depth - 1);
    }
  }

  /** For every sequence of emissions, `fdt_first_subnode` finds the first child, or that there is none. */
  lemma FirstChild(st: seq<Byte>, strings: seq<Byte>, es: seq<Emit>, offs: seq<nat>, i: nat) returns (c: int)
    requires Presents(st, strings, es, offs) && i < |es| && es[i].Open?
    ensures c < |es| && FirstSubnode(st, offs[i]) == OffsetAt(offs, c)
    ensures c >= 0 ==> IsChild(es, i, c)
    ensures forall k :: IsChild(es, i, k) ==> 0 <= c <= k
  {
    hide Direct, CheckNode, SubFrom, SubIndex, FirstSubnode;
    c := SubIndex(es, i + 1, 0);
    ContentStarts(st, strings, es, offs, i);
    FirstIsSub(st, offs[i]);
    SubFromIs(st, strings, es, offs, i + 1, 0);
    SubIndexIsFirst(es, i + 1, 0, c);
    forall k | IsChild(es, i, k) ensures 0 <= c <= k { SubIndexIsFirst(es, i + 1, 0, k); }
  }

  /** Behind a child, its later siblings are what stands directly around it. */
  lemma LaterSibling(es: seq<Emit>, i: nat, c: nat, k: int)
    requires IsChild(es, i, c)
    ensures k > c ==> (IsChild(es, i, k) <==> Opens(es, c + 1, 1, k))
  {
    if c < k < |es| {
      var j, j' := i + 1, c + 1;
      forall m | j' <= m <= k ensures Depth(es, j, m) == 1 + Depth(es, j', m) { DepthSplit(es, j, c, m); }
    }
  }

  /** For every sequence of emissions, `fdt_next_subnode` goes from a child to the next one, if there is one. */
  lemma NextChild(st: seq<Byte>, strings: seq<Byte>, es: seq<Emit>, offs: seq<nat>, i: nat, c: nat) returns (n: int)
    requires Presents(st, strings, es, offs) && IsChild(es, i, c)
    ensures NextTag(st, offs[c]).tag == TAG_BEGIN && ItemAt(st, offs[c]) == Begin(es[c].name)
    ensures n < |es| && NextSubnode(st, offs[c]) == OffsetAt(offs, n)
    ensures n >= 0 ==> c < n && IsChild(es, i, n)
    ensures forall k :: k > c && IsChild(es, i, k) ==> 0 <= n <= k
  {
    hide Direct, CheckNode, SubFrom, SubIndex, NextTag, GetString, ItemAt;
    n := SubIndex(es, c + 1, 1);
    assert Shows(st, strings, es[c], offs[c], offs[c + 1]);
    ContentStarts(st, strings, es, offs, c);
    SubFromIs(st, strings, es, offs, c + 1, 1);
    SubIndexIsFirst(es, c + 1, 1, n);
    LaterSibling(es, i, c, n);
    forall k | k > c && IsChild(es, i, k) ensures 0 <= n <= k {
      LaterSibling(es, i, c, k);
      SubIndexIsFirst(es, c + 1, 1, k);
    }
  }

  // ---------------------------------------------------------------- properties of a node

  /** The end of the properties that stand at `j`. */
  function RunEnd(es: seq<Emit>, j: nat): (k: nat)
    requires j <= |es|
    ensures j <= k <= |es| && (forall m :: j <= m < k ==> es[m].Property?) && (k < |es| ==> !es[k].Property?)
    decreases |es| - j
  {
    if j < |es| && es[j].Property? then RunEnd(es, j + 1) else j
  }

  /** The first property called `name` from `j` on, or where the properties end. */
  function FirstNamed(es: seq<Emit>, j: nat, name: seq<Byte>): (k: nat)
    requires j <= |es|
    ensures j <= k <= RunEnd(es, j) && (k < RunEnd(es, j) ==> es[k].name == name)
    ensures forall m :: j <= m < k ==> es[m].name != name
    decreases |es| - j
  {
    if j < |es| && es[j].Property? && es[j].name != name then FirstNamed(es, j + 1, name) else j
  }

  lemma {:induction false} LookupIs(st: seq<Byte>, strings: seq<Byte>, es: seq<Emit>, offs: seq<nat>, j: nat,
                                    name: seq<Byte>)
    requires Presents(st, strings, es, offs) && j <= |es|
    ensures var k := FirstNamed(es, j, name);
            Lookup(st, strings, PropAt(st, offs[j]), name) ==
            if k < RunEnd(es, j) then offs[k] else if k < |es| then NOTFOUND else BADSTRUCTURE
    decreases |es| - j
  {
    hide NextTag, ItemAt, GetString;
    if j < |es| {
      assert Shows(st, strings, es[j], offs[j], offs[j + 1]);
      if es[j].Property? { LookupIs(st, strings, es, offs, j + 1, name); }
    }
  }

  /**
   * For every sequence of emissions, a property is looked up among those before the first
   * subnode only: the first of that name there is found, and nothing else ever is.
   */
  lemma GetPropIs(st: seq<Byte>, strings: seq<Byte>, es: seq<Emit>, offs: seq<nat>, i: nat, name: seq<Byte>)
    requires Presents(st, strings, es, offs) && i < |es| && es[i].Open?
    ensures var k, end := FirstNamed(es, i + 1, name), RunEnd(es, i + 1);
            && FindProp(st, strings, offs[i], name) ==
               (if k < end then offs[k] else if end < |es| then NOTFOUND else BADSTRUCTURE)
            && GetProp(st, strings, offs[i], name) ==
               (if k < end then Text(es[k].value) else Missing(if end < |es| then NOTFOUND else BADSTRUCTURE))
  {
    hide NextTag, CheckNode, PropAt, Lookup, ItemAt, GetString;
    ContentStarts(st, strings, es, offs, i);
    LookupIs(st, strings, es, offs, i + 1, name);
    var k := FirstNamed(es, i + 1, name);
    if k < RunEnd(es, i + 1) { assert Shows(st, strings, es[k], offs[k], offs[k + 1]); }
  }

  /** No property of the node comes behind one of its subnodes. */
  ghost predicate PropertiesFirst(es: seq<Emit>, i: nat) {
    forall p, c :: IsOwn(es, i, p) && IsChild(es, i, c) ==> p < c
  }

  /** No two properties of the node have one name. */
  ghost predicate DistinctNames(es: seq<Emit>, i: nat) {
    forall p, q :: IsOwn(es, i, p) && IsOwn(es, i, q) && p != q ==> es[p].name != es[q].name
  }

  lemma {:induction false} RunDepth(es: seq<Emit>, j: nat, m: nat)
    requires j <= |es| && j <= m <= RunEnd(es, j)
    ensures Depth(es, j, m) == 0
    decreases m - j
  {
    if j < m { RunDepth(es, j + 1, m); }
  }

  /** The properties before the first subnode are the node's own. */
  lemma RunIsOwn(es: seq<Emit>, i: nat, p: nat)
    requires i < |es| && i < p < RunEnd(es, i + 1)
    ensures IsOwn(es, i, p)
  {
    var j := i + 1;
    forall m | j <= m <= p ensures Depth(es, j, m) == 0 { RunDepth(es, j, m); }
  }

  /** Any other own property has a subnode before it. */
  lemma OwnBehindChild(es: seq<Emit>, i: nat, p: int)
    requires i < |es| && IsOwn(es, i, p) && p >= RunEnd(es, i + 1)
    ensures IsChild(es, i, RunEnd(es, i + 1)) && RunEnd(es, i + 1) < p
  {
    var j, e := i + 1, RunEnd(es, i + 1);
    forall m | j <= m <= e ensures Depth(es, j, m) == 0 { RunDepth(es, j, m); }
    DepthSplit(es, j, e, e + 1);
    assert Depth(es, e, e + 1) == Delta(es[e]) + Depth(es, e + 1, e + 1);
    assert Depth(es, j, e + 1) >= 0;
  }

  lemma {:induction false} OffsetsAscend(st: seq<Byte>, strings: seq<Byte>, es: seq<Emit>, offs: seq<nat>, a: nat,
                                         b: nat)
    requires Presents(st, strings, es, offs) && a < b <= |es|
    ensures offs[a] < offs[b]
    decreases b - a
  {
    hide NextTag, ItemAt, GetString;
    assert Shows(st, strings, es[a], offs[a], offs[a + 1]);
    if a + 1 < b { OffsetsAscend(st, strings, es, offs, a + 1, b); }
  }

  /** Looking up the name of own property `p` finds `p` itself. */
  ghost predicate Finds(st: seq<Byte>, strings: seq<Byte>, es: seq<Emit>, offs: seq<nat>, i: nat, p: int)
    requires i < |es| && |offs| == |es| + 1 && IsOwn(es, i, p)
  {
    FindProp(st, strings, offs[i], es[p].name) == offs[p]
  }

  lemma FindsIff(st: seq<Byte>, strings: seq<Byte>, es: seq<Emit>, offs: seq<nat>, i: nat, p: int)
    requires Presents(st, strings, es, offs) && i < |es| && es[i].Open? && IsOwn(es, i, p)
    ensures Finds(st, strings, es, offs, i, p) <==> p == FirstNamed(es, i + 1, es[p].name) < RunEnd(es, i + 1)
  {
    hide Direct, FindProp;
    GetPropIs(st, strings, es, offs, i, es[p].name);
    var k := FirstNamed(es, i + 1, es[p].name);
    if k < p { OffsetsAscend(st, strings, es, offs, k, p); }
  }

  /**
   * Every property emitted for a node is found under its name if and only if none comes behind
   * a subnode and no two have one name.
   */
  lemma AllFoundIff(st: seq<Byte>, strings: seq<Byte>, es: seq<Emit>, offs: seq<nat>, i: nat)
    requires Presents(st, strings, es, offs) && i < |es| && es[i].Open?
    ensures (forall p :: IsOwn(es, i, p) ==> Finds(st, strings, es, offs, i, p)) <==>
            PropertiesFirst(es, i) && DistinctNames(es, i)
  {
    PresentsLength(st, strings, es, offs);
    hide Presents, Direct, Finds;
    forall p | IsOwn(es, i, p)
      ensures Finds(st, strings, es, offs, i, p) <==> p == FirstNamed(es, i + 1, es[p].name) < RunEnd(es, i + 1)
    {
      FindsIff(st, strings, es, offs, i, p);
    }
    if PropertiesFirst(es, i) && DistinctNames(es, i) {
      forall p | IsOwn(es, i, p) ensures Finds(st, strings, es, offs, i, p) { FirstAndOnly(es, i, p); }
    }
    if forall p :: IsOwn(es, i, p) ==> Finds(st, strings, es, offs, i, p) {
      AllFirst(es, i);
    }
  }

  lemma PresentsLength(st: seq<Byte>, strings: seq<Byte>, es: seq<Emit>, offs: seq<nat>)
    requires Presents(st, strings, es, offs)
    ensures |offs| == |es| + 1
  {
  }

  lemma FirstAndOnly(es: seq<Emit>, i: nat, p: int)
    requires i < |es| && IsOwn(es, i, p) && PropertiesFirst(es, i) && DistinctNames(es, i)
    ensures p == FirstNamed(es, i + 1, es[p].name) < RunEnd(es, i + 1)
  {
    hide Direct;
    if p >= RunEnd(es, i + 1) {
      OwnBehindChild(es, i, p);
      assert false;
    }
    var k := FirstNamed(es, i + 1, es[p].name);
    assert k <= p;
    RunIsOwn(es, i, k);
  }

  lemma AllFirst(es: seq<Emit>, i: nat)
    requires i < |es|
    requires forall p :: IsOwn(es, i, p) ==> p == FirstNamed(es, i + 1, es[p].name) < RunEnd(es, i + 1)
    ensures PropertiesFirst(es, i) && DistinctNames(es, i)
  {
    forall p, c | IsOwn(es, i, p) && IsChild(es, i, c) ensures p < c {
      assert forall m :: i + 1 <= m < RunEnd(es, i + 1) ==> es[m].Property?;
    }
  }

  /** A node with a subnode and behind it a property. */
  function Late(a: seq<Byte>, b: seq<Byte>, name: seq<Byte>, value: seq<Byte>): seq<Emit> {
    [Open(a), Open(b), Close, Property(name, value), Close]
  }

  lemma LateShape(a: seq<Byte>, b: seq<Byte>, name: seq<Byte>, value: seq<Byte>)
    ensures var es := Late(a, b, name, value); IsOwn(es, 0, 3) && RunEnd(es, 1) == 1 && FirstNamed(es, 1, name) == 1
  {
    var es := Late(a, b, name, value);
    assert Depth(es, 1, 1) == 0 && Depth(es, 1, 2) == 1 && Depth(es, 2, 3) == -1;
    DepthSplit(es, 1, 2, 3);
    forall m | 1 <= m <= 3 ensures Depth(es, 1, m) >= 0 { assert m in {1, 2, 3}; }
  }

  /** That property is not found. */
  lemma LatePropertyLost(a: seq<Byte>, b: seq<Byte>, name: seq<Byte>, value: seq<Byte>)
    requires Buildable(Late(a, b, name, value))
    ensures var es := Late(a, b, name, value);
            && |Blob(es)| >= 40 && IsOwn(es, 0, 3)
            && GetProp(StructOfBlob(Blob(es)), StringsOfBlob(Blob(es)), Offsets(es)[0], name) == Missing(NOTFOUND)
  {
    var es := Late(a, b, name, value);
    hide Blob, Offsets, StructOfBlob, StringsOfBlob, GetProp, FindProp, AllEmittable, RunEnd, FirstNamed, IsOwn,
      Presents;
    LateShape(a, b, name, value);
    BlobPresents(es);
    GetPropIs(StructOfBlob(Blob(es)), StringsOfBlob(Blob(es)), es, Offsets(es), 0, name);
  }

  // ---------------------------------------------------------------- finished trees

  function Offsets(es: seq<Emit>): (offs: seq<nat>)
    requires AllEmittable(es)
    ensures |offs| == |es| + 1
  {
    DraftsWellFormed(es);
    seq(|es| + 1, i requires 0 <= i <= |es| => OffsetOf(Finals(es), i))
  }

  /** What the writer leaves presents what was emitted. */
  lemma FinishedPresents(es: seq<Emit>)
    requires AllEmittable(es) && |Table(es)| < U32
    ensures AllWellFormed(Finals(es)) && Presents(Block(Finals(es)), Table(es), es, Offsets(es))
  {
    hide Finals, Table, Block, NextTag, OffsetOf, Shows, AllEmittable, AllWellFormed;
    FinalsWellFormed(es);
    BlockEnd(Finals(es));
    forall i | 0 <= i < |es|
      ensures Shows(Block(Finals(es)), Table(es), es[i], Offsets(es)[i], Offsets(es)[i + 1])
    {
      FinishedShows(es, i);
    }
  }

  lemma FinalsWellFormed(es: seq<Emit>)
    requires AllEmittable(es)
    ensures AllWellFormed(Finals(es))
  {
    DraftsWellFormed(es);
  }

  lemma FinishedShows(es: seq<Emit>, i: nat)
    requires AllEmittable(es) && |Table(es)| < U32 && i < |es| && AllWellFormed(Finals(es))
    ensures Shows(Block(Finals(es)), Table(es), es[i], OffsetOf(Finals(es), i), OffsetOf(Finals(es), i + 1))
  {
    BlockStep(Finals(es), i);
    FinalIs(es, i);
    hide Finals, Table, Block, NextTag, OffsetOf, ItemAt;
  }

  /** So does a built and packed blob, which is what the readers are given. */
  lemma BlobPresents(es: seq<Emit>)
    requires Buildable(es)
    ensures |Blob(es)| >= 40
    ensures Presents(StructOfBlob(Blob(es)), StringsOfBlob(Blob(es)), es, Offsets(es))
  {
    hide Finals, Table, Block, Presents, Blob, StructOfBlob, StringsOfBlob, Offsets;
    BlobSections(es);
    TableBound(es);
    FinishedPresents(es);
  }
}

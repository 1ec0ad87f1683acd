/**
 * The strings block of a device tree being written (lib/fdt/fdt_sw.c, lib/fdt/fdt.c): it
 * grows downwards, shares suffixes, and is named from its end until the tree is finished.
 */
module FdtStrings {
  import opened Bytes
  import opened FdtFormat

  /** `s`, terminated, lies in the table at `p`. */
  predicate StringAt(tab: seq<Byte>, p: nat, s: seq<Byte>) {
    p + |s| + 1 <= |tab| && tab[p..p + |s|] == s && tab[p + |s|] == 0
  }

  /** `fdt_find_string_`: the lowest place at or after `p` where `s` lies, or the end of the table. */
  function FindFrom(tab: seq<Byte>, s: seq<Byte>, p: nat): (q: nat)
    requires p <= |tab|
    ensures q <= |tab| && (q < |tab| ==> StringAt(tab, q, s))
    decreases |tab| - p
  {
    if p == |tab| then p else if StringAt(tab, p, s) then p else FindFrom(tab, s, p + 1)
  }

  method FindString(tab: seq<Byte>, s: seq<Byte>) returns (p: nat)
    ensures p == FindFrom(tab, s, 0)
    ensures p < |tab| ==> StringAt(tab, p, s) && forall q :: 0 <= q < p ==> !StringAt(tab, q, s)
    ensures p == |tab| ==> forall q :: 0 <= q < |tab| ==> !StringAt(tab, q, s)
  {
    p := 0;
    while p < |tab|
      invariant p <= |tab| && FindFrom(tab, s, 0) == FindFrom(tab, s, p)
      invariant forall q :: 0 <= q < p ==> !StringAt(tab, q, s)
    {
      if StringAt(tab, p, s) {
        return;
      }
      p := p + 1;
    }
  }

  /** Whether the name needs room of its own. */
  predicate IsNew(tab: seq<Byte>, s: seq<Byte>) {
    FindFrom(tab, s, 0) == |tab|
  }

  /** The table after naming `s`: unchanged if `s` is already there, possibly as a suffix. */
  function Named(tab: seq<Byte>, s: seq<Byte>): (r: seq<Byte>)
    ensures |tab| <= |r| <= |tab| + |s| + 1
  {
    if IsNew(tab, s) then s + [0] + tab else tab
  }

  /** How far before the end of the table `s` is found then. */
  function Distance(tab: seq<Byte>, s: seq<Byte>): (k: nat)
    ensures k <= |Named(tab, s)|
  {
    if IsNew(tab, s) then |s| + 1 + |tab| else |tab| - FindFrom(tab, s, 0)
  }

  /** `s` lies `k` bytes before the end of the table. */
  predicate Names(tab: seq<Byte>, k: nat, s: seq<Byte>) {
    k <= |tab| && StringAt(tab, |tab| - k, s)
  }

  lemma NamedNames(tab: seq<Byte>, s: seq<Byte>)
    ensures Names(Named(tab, s), Distance(tab, s), s)
  {
    if IsNew(tab, s) {
      var r := Named(tab, s);
      assert r[0..0 + |s|] == s;
    }
  }

  /** Names counted from the end survive growth at the front. */
  lemma NamesGrow(front: seq<Byte>, tab: seq<Byte>, k: nat, s: seq<Byte>)
    requires Names(tab, k, s)
    ensures Names(front + tab, k, s)
  {
    var r, p := front + tab, |tab| - k;
    assert r[|front| + p..|front| + p + |s|] == tab[p..p + |s|];
  }

  lemma NamesKept(tab: seq<Byte>, t: seq<Byte>, k: nat, s: seq<Byte>)
    requires Names(tab, k, s)
    ensures Names(Named(tab, t), k, s)
  {
    if IsNew(tab, t) { NamesGrow(t + [0], tab, k, s); }
  }

  // ---------------------------------------------------------------- what is emitted

  /** A call on the sequential writer. */
  datatype Emit = Open(name: seq<Byte>) | Property(name: seq<Byte>, value: seq<Byte>) | Close

  /** Names hold no NUL; the lengths of property names and values fit an `int`. */
  predicate Emittable(e: Emit) {
    match e
    case Open(name) => NoNul(name)
    case Property(name, value) => NoNul(name) && |name| < 0x8000_0000 && |value| < 0x8000_0000
    case Close => true
  }

  predicate AllEmittable(es: seq<Emit>) {
    forall i :: 0 <= i < |es| ==> Emittable(es[i])
  }

  /** The strings block after `es`. */
  function Table(es: seq<Emit>): seq<Byte> {
    if es == [] then []
    else
      var t, e := Table(es[..|es| - 1]), es[|es| - 1];
      if e.Property? then Named(t, e.name) else t
  }

  /** `-k` as a 32-bit cell. */
  function Negative(k: int): Word32 {
    (-k) % U32
  }

  /** The item written for `e` while the strings block is `tab`: its name offset is negative. */
  function Draft(tab: seq<Byte>, e: Emit): (it: Item)
    ensures Emittable(e) ==> WellFormed(it)
  {
    match e
    case Open(name) => Begin(name)
    case Property(name, value) => Prop(Negative(Distance(tab, name)), value)
    case Close => End
  }

  function Drafts(es: seq<Emit>): (items: seq<Item>)
    ensures |items| == |es|
  {
    if es == [] then [] else Drafts(es[..|es| - 1]) + [Draft(Table(es[..|es| - 1]), es[|es| - 1])]
  }

  lemma {:induction false} DraftsWellFormed(es: seq<Emit>)
    requires AllEmittable(es)
    ensures AllWellFormed(Drafts(es))
    decreases |es|
  {
    if es != [] { DraftsWellFormed(es[..|es| - 1]); }
  }

  /** The name offset after `fdt_finish` added the size of the strings block to it. */
  function Relocate(it: Item, size: nat): (r: Item)
    ensures WellFormed(it) ==> WellFormed(r)
  {
    match it
    case Prop(nameoff, value) => Prop((nameoff + size) % U32, value)
    case _ => it
  }

  function RelocateAll(items: seq<Item>, size: nat): (r: seq<Item>)
    ensures |r| == |items| && forall i :: 0 <= i < |r| ==> r[i] == Relocate(items[i], size)
    ensures AllWellFormed(items) ==> AllWellFormed(r)
  {
    seq(|items|, i requires 0 <= i < |items| => Relocate(items[i], size))
  }

  /** The items of the finished tree. */
  function Finals(es: seq<Emit>): (items: seq<Item>)
    ensures |items| == |es|
  {
    RelocateAll(Drafts(es), |Table(es)|)
  }

  // ---------------------------------------------------------------- names of the finished tree

  /** The terminated string at `off`. */
  function NameOf(strings: seq<Byte>, off: nat): seq<Byte>
    requires off <= |strings|
  {
    strings[off..NulAt(strings, off)]
  }

  lemma StringNames(tab: seq<Byte>, p: nat, s: seq<Byte>)
    requires StringAt(tab, p, s) && NoNul(s)
    ensures NameOf(tab, p) == s && NulAt(tab, p) < |tab|
  {
    assert forall i :: p <= i < p + |s| ==> tab[i] == tab[p..p + |s|][i - p] != 0;
  }

  /** The emission a finished item stands for. */
  function Undraft(it: Item, strings: seq<Byte>): Emit {
    match it
    case Begin(name) => Open(name)
    case Prop(nameoff, value) => Property(if nameoff <= |strings| then NameOf(strings, nameoff) else [], value)
    case End => Close
  }

  /** Property `i` keeps its name in every later strings block. */
  lemma {:induction false} NameStays(es: seq<Emit>, i: nat)
    requires i < |es| && es[i].Property?
    ensures Names(Table(es), Distance(Table(es[..i]), es[i].name), es[i].name)
    decreases |es|
  {
    hide Names, Named, Distance;
    var n := |es| - 1;
    if i == n {
      NamedNames(Table(es[..n]), es[n].name);
    } else {
      assert es[..n][..i] == es[..i];
      NameStays(es[..n], i);
      if es[n].Property? { NamesKept(Table(es[..n]), es[n].name, Distance(Table(es[..i]), es[i].name), es[i].name); }
    }
  }

  lemma {:induction false} DraftsAt(es: seq<Emit>, i: nat)
    requires i < |es|
    ensures Drafts(es)[i] == Draft(Table(es[..i]), es[i])
    decreases |es|
  {
    hide Draft, Table;
    var n := |es| - 1;
    if i < n {
      assert es[..n][..i] == es[..i];
      DraftsAt(es[..n], i);
    }
  }

  lemma NegativeOffset(k: nat, size: nat)
    requires k <= size < U32
    ensures (Negative(k) + size) % U32 == size - k
  {
  }

  /** Despite shared suffixes and relocation, item `i` of the finished tree is what was emitted as `i`. */
  lemma FinalIs(es: seq<Emit>, i: nat)
    requires AllEmittable(es) && i < |es| && |Table(es)| < U32
    ensures Undraft(Finals(es)[i], Table(es)) == es[i]
    ensures es[i].Property? ==>
              Finals(es)[i].nameoff < |Table(es)| && NulAt(Table(es), Finals(es)[i].nameoff) < |Table(es)|
  {
    DraftsAt(es, i);
    hide Drafts, Table, Distance;
    if es[i].Property? {
      NameStays(es, i);
      PropertyResolves(Table(es), Distance(Table(es[..i]), es[i].name), es[i].name, es[i].value);
    }
  }

  lemma PropertyResolves(tab: seq<Byte>, k: nat, name: seq<Byte>, value: seq<Byte>)
    requires Names(tab, k, name) && NoNul(name) && |tab| < U32
    ensures var it := Relocate(Prop(Negative(k), value), |tab|);
            && it.nameoff == |tab| - k < |tab| && NulAt(tab, it.nameoff) < |tab|
            && Undraft(it, tab) == Property(name, value)
  {
    hide NameOf, Negative, NulAt, StringAt, NoNul;
    NegativeOffset(k, |tab|);
    StringNames(tab, |tab| - k, name);
  }
}

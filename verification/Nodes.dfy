/** Trees of named nodes with properties, and the writer calls that emit them. */
module Nodes {
  import opened Bytes
  import opened Options
  import opened FdtStrings

  /** A node: properties first, then subnodes, as section 5.4.2 of the Devicetree Specification v0.4 asks. */
  datatype Node = Node(name: seq<Byte>, props: seq<(seq<Byte>, seq<Byte>)>, children: seq<Node>)

  function PropEmits(props: seq<(seq<Byte>, seq<Byte>)>): (es: seq<Emit>)
    ensures |es| == |props|
  {
    seq(|props|, i requires 0 <= i < |props| => Property(props[i].0, props[i].1))
  }

  function Emits(n: Node): seq<Emit>
    decreases n, 0
  {
    [Open(n.name)] + PropEmits(n.props) + EmitsAll(n.children) + [Close]
  }

  function EmitsAll(ns: seq<Node>): seq<Emit>
    decreases ns
  {
    if ns == [] then [] else Emits(ns[0]) + EmitsAll(ns[1..])
  }

  lemma {:induction false} EmitsAllConcat(s: seq<Node>, t: seq<Node>)
    ensures EmitsAll(s + t) == EmitsAll(s) + EmitsAll(t)
    decreases |s|
  {
    hide Emits;
    if s == [] {
      assert s + t == t;
    } else {
      assert (s + t)[1..] == s[1..] + t;
      EmitsAllConcat(s[1..], t);
    }
  }

  lemma NextNode(ns: seq<Node>, k: nat)
    requires k < |ns|
    ensures EmitsAll(ns[..k + 1]) == EmitsAll(ns[..k]) + Emits(ns[k])
  {
    hide Emits, EmitsAll;
    assert ns[..k + 1] == ns[..k] + [ns[k]];
    EmitsAllConcat(ns[..k], [ns[k]]);
    EmitsOne(ns[k]);
  }

  lemma EmitsOne(c: Node)
    ensures EmitsAll([c]) == Emits(c)
  {
    hide Emits;
    assert [c][1..] == [];
    assert Emits(c) + [] == Emits(c);
  }

  /** The value of the first property called `name`. */
  function Value(props: seq<(seq<Byte>, seq<Byte>)>, name: seq<Byte>): Option<seq<Byte>> {
    if props == [] then None
    else if props[0].0 == name then Some(props[0].1)
    else Value(props[1..], name)
  }

  lemma {:induction false} ValueAt(props: seq<(seq<Byte>, seq<Byte>)>, k: nat, name: seq<Byte>)
    requires k <= |props| && forall j :: 0 <= j < k ==> props[j].0 != name
    requires k < |props| ==> props[k].0 == name
    ensures Value(props, name) == if k < |props| then Some(props[k].1) else None
    decreases k
  {
    if k > 0 { ValueAt(props[1..], k - 1, name); }
  }

  /** The first subnode called `name`, or the number of subnodes. */
  function ChildNamed(ns: seq<Node>, name: seq<Byte>): (i: nat)
    ensures i <= |ns| && (i < |ns| ==> ns[i].name == name) && forall j :: 0 <= j < i ==> ns[j].name != name
  {
    if ns == [] || ns[0].name == name then 0 else 1 + ChildNamed(ns[1..], name)
  }

  function Sub(dir: Node, name: seq<Byte>): Option<Node> {
    var i := ChildNamed(dir.children, name);
    if i < |dir.children| then Some(dir.children[i]) else None
  }

  lemma SubIs(dir: Node, k: nat, name: seq<Byte>)
    requires k <= |dir.children| && forall j :: 0 <= j < k ==> dir.children[j].name != name
    requires k < |dir.children| ==> dir.children[k].name == name
    ensures Sub(dir, name) == if k < |dir.children| then Some(dir.children[k]) else None
  {
    hide ChildNamed;
  }
}

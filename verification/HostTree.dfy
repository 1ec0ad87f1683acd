/**
 * The host tree (lib/host_tree.c): what the machine holds, emitted into a device tree by
 * the predecessor and read back from the directory the successor's kernel shows it as.
 */
module HostTrees {
  import opened Errno
  import opened Bytes
  import opened Options
  import opened Ranges
  import opened RangeSets
  import opened Vmcores
  import opened FdtStrings
  import opened Nodes
  import FdtFormat
  import FdtWriter
  import FdtBuild

  const ADDRESS_CELLS: seq<Byte> :=  // #address-cells
    [35, 97, 100, 100, 114, 101, 115, 115, 45, 99, 101, 108, 108, 115]
  const SIZE_CELLS: seq<Byte> := [35, 115, 105, 122, 101, 45, 99, 101, 108, 108, 115]  // #size-cells
  const CPUS: seq<Byte> := [99, 112, 117, 115]  // cpus
  const MEMORY_AT: seq<Byte> := [109, 101, 109, 111, 114, 121, 64]  // memory@
  const DEVICE_TYPE: seq<Byte> := [100, 101, 118, 105, 99, 101, 95, 116, 121, 112, 101]  // device_type
  const REG: seq<Byte> := [114, 101, 103]  // reg
  const VMCORE: seq<Byte> := [118, 109, 99, 111, 114, 101]  // vmcore
  const PAGE_OFFSET: seq<Byte> := [112, 97, 103, 101, 45, 111, 102, 102, 115, 101, 116]  // page-offset
  const VMCOREINFO: seq<Byte> := [118, 109, 99, 111, 114, 101, 105, 110, 102, 111]  // vmcoreinfo
  const CPU_NOTES: seq<Byte> := [99, 112, 117, 45, 110, 111, 116, 101, 115]  // cpu-notes
  const MEMORY: seq<Byte> := [109, 101, 109, 111, 114, 121, 0]  // "memory", terminated
  const DEVICES: seq<Byte> := [100, 101, 118, 105, 99, 101, 115]  // devices
  const PCI_AT: seq<Byte> := [112, 99, 105, 95]  // pci_
  const KIND: seq<Byte> := [100, 101, 118, 105, 99, 101, 45, 116, 121, 112, 101]  // device-type
  const PCI: seq<Byte> := [112, 99, 105, 0]  // "pci", terminated
  const PCI_ID: seq<Byte> := [112, 99, 105, 45, 105, 100]  // pci-id
  const VENDOR_ID: seq<Byte> := [118, 101, 110, 100, 111, 114, 45, 105, 100]  // vendor-id
  const DEVICE_ID: seq<Byte> := [100, 101, 118, 105, 99, 101, 45, 105, 100]  // device-id
  const CLASS_CODE: seq<Byte> := [99, 108, 97, 115, 115, 45, 99, 111, 100, 101]  // class-code
  const IOMMU_BASE: seq<Byte> :=  // multikernel,iommu-base
    [109, 117, 108, 116, 105, 107, 101, 114, 110, 101, 108, 44, 105, 111, 109, 109, 117, 45, 98, 97, 115, 101]

  /** `struct pci_ids`: a function's address, its identity, and the register base of its IOMMU, zero for none. */
  datatype PciIds = PciIds(id: seq<Byte>, vendor: Word32, device: Word32, class_: Word32, iommu: Word64)

  datatype Host = Host(cpus: seq<Word64>, ram: seq<Range>, devices: seq<PciIds>, vmcore: VmcoreInfo)

  // ---------------------------------------------------------------- cells

  function Cells(ws: seq<Word64>): (s: seq<Byte>)
    ensures |s| == 8 * |ws|
  {
    if ws == [] then [] else Big64(ws[0]) + Cells(ws[1..])
  }

  function FromCells(s: seq<Byte>): (ws: seq<Word64>)
    requires |s| % 8 == 0
    ensures 8 * |ws| == |s|
  {
    if s == [] then [] else [FromBig64(s[..8])] + FromCells(s[8..])
  }

  lemma {:induction false} CellsRoundTrip(ws: seq<Word64>)
    ensures FromCells(Cells(ws)) == ws
    decreases |ws|
  {
    hide Big64, FromBig64;
    if ws != [] {
      var s := Cells(ws);
      assert s[..8] == Big64(ws[0]) && s[8..] == Cells(ws[1..]);
      Big64RoundTrip(ws[0]);
      CellsRoundTrip(ws[1..]);
    }
  }

  /** Base and size of each range. */
  function Pairs(rs: seq<Range>): (ws: seq<Word64>)
    ensures |ws| == 2 * |rs|
  {
    if rs == [] then [] else [rs[0].base, rs[0].size] + Pairs(rs[1..])
  }

  function FromPairs(ws: seq<Word64>): seq<Range>
    requires |ws| % 2 == 0
  {
    if ws == [] then [] else [Range(ws[0], ws[1])] + FromPairs(ws[2..])
  }

  lemma {:induction false} PairsRoundTrip(rs: seq<Range>)
    ensures FromPairs(Pairs(rs)) == rs
    decreases |rs|
  {
    if rs != [] {
      assert Pairs(rs)[2..] == Pairs(rs[1..]);
      PairsRoundTrip(rs[1..]);
      assert rs == [rs[0]] + rs[1..];
    }
  }

  // ---------------------------------------------------------------- what is emitted

  function CellSizes(): seq<(seq<Byte>, seq<Byte>)> { [(ADDRESS_CELLS, Big32(2)), (SIZE_CELLS, Big32(2))] }

  function RegProp(rs: seq<Range>): (seq<Byte>, seq<Byte>) { (REG, Cells(Pairs(rs))) }

  function MemoryNode(r: Range): Node {
    Node(MEMORY_AT + Numeral(r.base, 16), [(DEVICE_TYPE, MEMORY), RegProp([r])], [])
  }

  function MemoryNodes(ram: seq<Range>): (ns: seq<Node>)
    ensures |ns| == |ram|
  {
    seq(|ram|, i requires 0 <= i < |ram| => MemoryNode(ram[i]))
  }

  function VmcoreNode(vi: VmcoreInfo): Node {
    Node(VMCORE,
         CellSizes() + if vi.pageOffset.Some? then [(PAGE_OFFSET, Big64(vi.pageOffset.value))] else [],
         (if vi.vmcoreinfo.size != 0 then [Node(VMCOREINFO, [RegProp([vi.vmcoreinfo])], [])] else [])
         + if vi.cpuNotes != [] then [Node(CPU_NOTES, [RegProp(vi.cpuNotes)], [])] else [])
  }

  /** An address as part of a node name: colons and dots become underscores. */
  function Mangled(id: seq<Byte>): (s: seq<Byte>)
    ensures |s| == |id|
  {
    seq(|id|, i requires 0 <= i < |id| => if id[i] in {58, 46} then 95 else id[i])
  }

  function PciProps(d: PciIds): seq<(seq<Byte>, seq<Byte>)> {
    [(KIND, PCI), (PCI_ID, d.id + [0]), (VENDOR_ID, Big32(d.vendor)), (DEVICE_ID, Big32(d.device)),
     (CLASS_CODE, Big32(d.class_))] + if d.iommu != 0 then [(IOMMU_BASE, Big64(d.iommu))] else []
  }

  function PciNode(d: PciIds): Node { Node(PCI_AT + Mangled(d.id), PciProps(d), []) }

  function DevicesNode(ds: seq<PciIds>): (n: Node)
    ensures |n.children| == |ds|
  {
    Node(DEVICES, [], seq(|ds|, i requires 0 <= i < |ds| => PciNode(ds[i])))
  }

  function HostProps(h: Host): seq<(seq<Byte>, seq<Byte>)> { CellSizes() + [(CPUS, Cells(h.cpus))] }

  function HostChildren(h: Host): seq<Node> {
    MemoryNodes(h.ram) + (if h.devices != [] then [DevicesNode(h.devices)] else [])
    + if h.vmcore.Present() then [VmcoreNode(h.vmcore)] else []
  }

  // ---------------------------------------------------------------- reading a directory

  /** The file `prop` of an optional directory; a missing one reads as nothing. */
  function Optional(dir: Option<Node>, prop: seq<Byte>): Option<seq<Byte>> {
    match dir
    case None => None
    case Some(d) => Value(d.props, prop)
  }

  /** `read_vmcore`; `None` is `-EINVAL`. */
  function ReadVmcore(dir: Node): Option<VmcoreInfo> {
    ReadVmcoreDir(Sub(dir, VMCORE))
  }

  function ReadVmcoreDir(vmcore: Option<Node>): Option<VmcoreInfo> {
    var page := Optional(vmcore, PAGE_OFFSET);
    var info := if vmcore.Some? then Optional(Sub(vmcore.value, VMCOREINFO), REG) else None;
    var notes := if vmcore.Some? then Optional(Sub(vmcore.value, CPU_NOTES), REG) else None;
    if page.Some? && |page.value| != 8 then None
    else if info.Some? && |info.value| != 16 then None
    else if notes.Some? && |notes.value| % 16 != 0 then None
    else
      Some(VmcoreInfo(
             if page.Some? then Some(FromBig64(page.value)) else None,
             if info.Some? then FromReg(info.value) else Range(0, 0),
             if notes.Some? then FromRegs(notes.value) else []))
  }

  function FromRegs(t: seq<Byte>): seq<Range>
    requires |t| % 16 == 0
  {
    EvenCells(|t|);
    FromPairs(FromCells(t))
  }

  lemma EvenCells(n: nat)
    requires n % 16 == 0
    ensures n % 8 == 0 && forall k :: 8 * k == n ==> k % 2 == 0
  {
    assert n == n / 16 * 16;
  }

  function FromReg(t: seq<Byte>): Range
    requires |t| == 16
  {
    Range(FromBig64(t[..8]), FromBig64(t[8..]))
  }

  predicate IsMemory(n: Node) {
    MEMORY_AT <= n.name
  }

  /** The memory directories, in the order they are listed. */
  predicate IsListing(dir: Node, order: seq<nat>) {
    && (forall i :: 0 <= i < |order| ==> order[i] < |dir.children| && IsMemory(dir.children[order[i]]))
    && (forall c :: 0 <= c < |dir.children| && IsMemory(dir.children[c]) ==> c in order)
  }

  /** The range a memory directory describes, or nothing. */
  function RegOf(n: Node): Range {
    match Value(n.props, REG)
    case Some(t) => if |t| == 16 then FromReg(t) else Range(0, 0)
    case None => Range(0, 0)
  }

  function Regs(dir: Node, order: seq<nat>): (rs: seq<Range>)
    requires IsListing(dir, order)
    ensures |rs| == |order|
  {
    seq(|order|, i requires 0 <= i < |order| => RegOf(dir.children[order[i]]))
  }

  /**
   * The errors of a read. `fault` is the error with which the file system or the allocator
   * fails where it does, zero if it never does; the first failure ends the read, so there is
   * only one.
   */
  predicate ReadResult(ret: int, fault: int) {
    ret in {0, -ENOENT, -EINVAL, -ENOMEM, fault}
  }

  /** `read_reg_file`. */
  method ReadReg(n: Node, ram: RangeSet, fault: int) returns (ret: int)
    requires ram.Valid()
    modifies ram, ram.r
    ensures ram.Valid() && (ram.r == old(ram.r) || fresh(ram.r)) && ReadResult(ret, fault)
    ensures ret == 0 ==> IsUnion(ram.Contents(), old(ram.Contents()), RegOf(n).base, RegOf(n).End())
    ensures ret in {-ENOENT, -EINVAL} && ret != fault ==> Unusable(RegOf(n))
  {
    var fails: bool := *;
    if fails && fault != 0 {
      return fault;
    }
    match Value(n.props, REG) {
      case None => ret := -ENOENT;
      case Some(t) =>
        if |t| != 16 {
          ret := -EINVAL;
        } else {
          var reg := FromReg(t);
          ret := ram.Add(reg.base, reg.size);
        }
    }
  }

  /** The memory directories, one after the other. */
  method ReadMemory(dir: Node, order: seq<nat>, ram: RangeSet, fault: int) returns (ret: int)
    requires IsListing(dir, order) && ram.Valid() && ram.Contents() == []
    modifies ram, ram.r
    ensures ram.Valid() && ReadResult(ret, fault)
    ensures ret == 0 ==> SameAddresses(ram.Contents(), Regs(dir, order))
    ensures ret in {-ENOENT, -EINVAL} && ret != fault ==>
              exists i :: 0 <= i < |order| && Unusable(Regs(dir, order)[i])
  {
    hide Covers, Canonical, RegOf, IsMemory;
    var fails: bool := *;
    if fails && fault != 0 {
      return fault;
    }
    ghost var rs := Regs(dir, order);
    NothingCovered(ram.Contents());
    NothingCovered(rs[..0]);
    var i := 0;
    while i < |order|
      invariant i <= |order| && ram.Valid() && (ram.r == old(ram.r) || fresh(ram.r))
      invariant SameAddresses(ram.Contents(), rs[..i])
    {
      ghost var c := ram.Contents();
      assert rs[i] == RegOf(dir.children[order[i]]);
      ret := ReadReg(dir.children[order[i]], ram, fault);
      if ret != 0 {
        return;
      }
      CopyStep(c, ram.Contents(), rs, i);
      i := i + 1;
    }
    assert rs[..i] == rs;
    return 0;
  }

  // ---------------------------------------------------------------- reading the devices

  /** A 32-bit file of a device, zero if it is missing; `None` is `-EINVAL`. */
  function Number(n: Node, prop: seq<Byte>): Option<Word32> {
    match Value(n.props, prop)
    case None => Some(0)
    case Some(t) => if |t| == 4 then Some(FromBig32(t)) else None
  }

  datatype PciRead = Refused(ret: int) | Got(d: PciIds)

  /** `read_pci_device`. */
  function ReadPci(n: Node): PciRead {
    match Value(n.props, PCI_ID)
    case None => Refused(-ENOENT)
    case Some(t) =>
      if t == [] || |t| > 16 || t[|t| - 1] != 0 then Refused(-EINVAL)
      else
        var vendor, device, class_ := Number(n, VENDOR_ID), Number(n, DEVICE_ID), Number(n, CLASS_CODE);
        if vendor.None? || device.None? || class_.None? then Refused(-EINVAL)
        else Got(PciIds(t[..NulAt(t, 0)], vendor.value, device.value, class_.value, 0))
  }

  /** The functions in the devices directory, each once, in the order they are listed. */
  predicate IsPciListing(devices: Option<Node>, order: seq<nat>) {
    if devices.None? then order == []
    else
      var ns := devices.value.children;
      && (forall i :: 0 <= i < |order| ==> order[i] < |ns| && PCI_AT <= ns[order[i]].name)
      && (forall c :: 0 <= c < |ns| && PCI_AT <= ns[c].name ==> c in order)
      && (forall i, j :: 0 <= i < j < |order| ==> order[i] != order[j])
  }

  /** What the listed directories read as, one by one. */
  function PciReads(devices: Option<Node>, order: seq<nat>): (rs: seq<PciRead>)
    requires IsPciListing(devices, order)
    ensures |rs| == |order|
  {
    seq(|order|, i requires 0 <= i < |order| => ReadPci(devices.value.children[order[i]]))
  }

  /** `read_devices`: every listed function, or the first error. */
  method ReadDevices(devices: Option<Node>, order: seq<nat>, fault: int) returns (ret: int, ds: seq<PciIds>)
    requires IsPciListing(devices, order)
    ensures ReadResult(ret, fault)
    ensures ret == 0 ==> |ds| == |order| && forall i :: 0 <= i < |order| ==> PciReads(devices, order)[i] == Got(ds[i])
    ensures ret in {-ENOENT, -EINVAL} && ret != fault ==>
              |ds| < |order| && PciReads(devices, order)[|ds|] == Refused(ret)
  {
    hide ReadPci;
    ret, ds := 0, [];
    var fails: bool := *;
    if fails && fault != 0 {
      return fault, ds;
    }
    if devices.None? {
      return;
    }
    while |ds| < |order|
      invariant |ds| <= |order| && forall i :: 0 <= i < |ds| ==> PciReads(devices, order)[i] == Got(ds[i])
      decreases |order| - |ds|
    {
      fails := *;
      if fails && fault != 0 {
        return fault, ds;
      }
      var r := ReadPci(devices.value.children[order[|ds|]]);
      if r.Refused? {
        RefusedWith(devices.value.children[order[|ds|]]);
        return r.ret, ds;
      }
      ds := ds + [r.d];
    }
  }

  lemma RefusedWith(n: Node)
    ensures ReadPci(n).Refused? ==> ReadPci(n).ret in {-ENOENT, -EINVAL}
  {
  }

  /**
   * `host_tree_read`: the processors, the memory and the devices, each listed in any order,
   * and the vmcore description.
   */
  method Read(dir: Node, order: seq<nat>, pci: seq<nat>, fault: int)
    returns (ret: int, cpus: seq<Word64>, ram: RangeSet, ds: seq<PciIds>, vi: VmcoreInfo)
    requires IsListing(dir, order) && IsPciListing(Sub(dir, DEVICES), pci)
    ensures ram.Valid() && ReadResult(ret, fault)
    ensures ret == 0 ==> Value(dir.props, CPUS).Some? && |Value(dir.props, CPUS).value| % 8 == 0
    ensures ret == 0 ==> cpus == FromCells(Value(dir.props, CPUS).value)
    ensures ret == 0 ==> SameAddresses(ram.Contents(), Regs(dir, order)) && ReadVmcore(dir) == Some(vi)
    ensures ret == 0 ==>
              |ds| == |pci| && forall i :: 0 <= i < |pci| ==> PciReads(Sub(dir, DEVICES), pci)[i] == Got(ds[i])
    ensures ret in {-ENOENT, -EINVAL} && ret != fault ==>
              || Value(dir.props, CPUS).None? || |Value(dir.props, CPUS).value| % 8 != 0
              || (exists i :: 0 <= i < |order| && Unusable(Regs(dir, order)[i])) || ReadVmcore(dir).None?
              || (exists i :: 0 <= i < |pci| && PciReads(Sub(dir, DEVICES), pci)[i] == Refused(ret))
  {
    hide ReadVmcore, FromCells, Covers, Canonical, Value, Regs, IsListing, Unusable, IsPciListing, PciReads, Sub;
    cpus, ds, vi := [], [], VmcoreInfo(None, Range(0, 0), []);
    ram := new RangeSet();
    var fails: bool := *;
    if fails && fault != 0 {
      return fault, cpus, ram, ds, vi;
    }
    match Value(dir.props, CPUS) {
      case None => return -ENOENT, cpus, ram, ds, vi;
      case Some(t) =>
        if |t| % 8 != 0 {
          return -EINVAL, cpus, ram, ds, vi;
        }
        cpus := FromCells(t);
    }
    ret := ReadMemory(dir, order, ram, fault);
    if ret != 0 {
      return;
    }
    ret, ds := ReadDevices(Sub(dir, DEVICES), pci, fault);
    if ret != 0 {
      return;
    }
    fails := *;
    if fails && fault != 0 {
      return fault, cpus, ram, ds, vi;
    }
    var read := ReadVmcore(dir);
    if read.None? {
      return -EINVAL, cpus, ram, ds, vi;
    }
    return 0, cpus, ram, ds, read.value;
  }

  predicate Unusable(r: Range) {
    r.size == 0 || r.End() >= U64
  }

  // ---------------------------------------------------------------- reading what was emitted

  lemma RegRead(rs: seq<Range>)
    ensures FromRegs(Cells(Pairs(rs))) == rs
    ensures |rs| == 1 ==> FromReg(Cells(Pairs(rs))) == rs[0]
  {
    hide FromPairs, FromCells, Cells, Pairs, FromReg;
    CellsRoundTrip(Pairs(rs));
    PairsRoundTrip(rs);
    if |rs| == 1 { OneReg(rs); }
  }

  lemma OneReg(rs: seq<Range>)
    requires |rs| == 1
    ensures FromReg(Cells(Pairs(rs))) == rs[0]
  {
    hide Big64, FromBig64;
    var ws := Pairs(rs);
    assert ws == [rs[0].base, rs[0].size];
    var s := Cells(ws);
    assert ws[1..] == [ws[1]];
    CellsOne(ws[1]);
    assert s == Big64(ws[0]) + Big64(ws[1]);
    Big64RoundTrip(ws[0]);
    Big64RoundTrip(ws[1]);
  }

  lemma CellsOne(w: Word64)
    ensures Cells([w]) == Big64(w)
  {
    hide Big64;
    assert [w][1..] == [];
    assert Big64(w) + [] == Big64(w);
  }

  lemma MemoryRead(r: Range)
    ensures IsMemory(MemoryNode(r)) && RegOf(MemoryNode(r)) == r
  {
    hide Cells, Pairs, Numeral, FromReg;
    RegRead([r]);
    assert REG[0] == 114 && DEVICE_TYPE[0] == 100;
    ValueAt(MemoryNode(r).props, 1, REG);
  }

  lemma OtherNames()
    ensures !(MEMORY_AT <= VMCORE) && VMCOREINFO != CPU_NOTES && !(MEMORY_AT <= DEVICES) && DEVICES != VMCORE
  {
    assert DEVICES[0] == 100;
    assert VMCORE[0] == 118 && MEMORY_AT[0] == 109 && VMCOREINFO[0] == 118 && CPU_NOTES[0] == 99;
  }

  /** The node as it is emitted under `name`. */
  function HostNode(name: seq<Byte>, h: Host): Node { Node(name, HostProps(h), HostChildren(h)) }

  /** The memory nodes come first, and nothing else looks like one. */
  lemma ChildrenAre(h: Host, c: nat)
    requires c < |HostChildren(h)|
    ensures c < |h.ram| ==> HostChildren(h)[c] == MemoryNode(h.ram[c])
    ensures IsMemory(HostChildren(h)[c]) <==> c < |h.ram|
  {
    hide VmcoreNode, IsMemory, MemoryNode, DevicesNode;
    if c < |h.ram| {
      MemoryRead(h.ram[c]);
    } else {
      assert !IsMemory(VmcoreNode(h.vmcore)) by { VmcoreIsNot(h.vmcore); }
      assert !IsMemory(DevicesNode(h.devices)) by { DevicesIsNot(h.devices); }
    }
  }

  lemma VmcoreIsNot(vi: VmcoreInfo)
    ensures !IsMemory(VmcoreNode(vi)) && VmcoreNode(vi).name == VMCORE
  {
    OtherNames();
  }

  lemma DevicesIsNot(ds: seq<PciIds>)
    ensures !IsMemory(DevicesNode(ds)) && DevicesNode(ds).name == DEVICES
  {
    OtherNames();
  }

  /** In whatever order its directories are listed, the emitted memory is the memory. */
  lemma EmittedMemory(name: seq<Byte>, h: Host, order: seq<nat>)
    requires IsListing(HostNode(name, h), order)
    ensures SameAddresses(Regs(HostNode(name, h), order), h.ram)
  {
    var dir := HostNode(name, h);
    var rs := Regs(dir, order);
    hide IsMemory, MemoryNode, RegOf, HostChildren;
    forall i | 0 <= i < |order| ensures order[i] < |h.ram| && rs[i] == h.ram[order[i]] {
      ChildrenAre(h, order[i]);
      MemoryRead(h.ram[order[i]]);
    }
    forall c | 0 <= c < |h.ram| ensures c in order {
      ChildCount(h);
      ChildrenAre(h, c);
      assert IsMemory(dir.children[c]);
    }
    Reordered(rs, h.ram, order);
  }

  lemma ChildCount(h: Host)
    ensures |HostChildren(h)| >= |h.ram|
  {
  }

  lemma Reordered(rs: seq<Range>, ram: seq<Range>, order: seq<nat>)
    requires |rs| == |order| && forall i :: 0 <= i < |order| ==> order[i] < |ram| && rs[i] == ram[order[i]]
    requires forall c :: 0 <= c < |ram| ==> c in order
    ensures SameAddresses(rs, ram)
  {
    forall a ensures Covers(rs, a) <==> Covers(ram, a) {
      if Covers(rs, a) {
        var i :| 0 <= i < |rs| && rs[i].Has(a);
        assert ram[order[i]].Has(a);
      }
      if Covers(ram, a) {
        var c :| 0 <= c < |ram| && ram[c].Has(a);
        assert c in order;
        var i :| 0 <= i < |order| && order[i] == c;
        assert rs[i].Has(a);
      }
    }
  }

  /** Hence the set read is, range for range, the set emitted. */
  lemma MemoryRecovered(name: seq<Byte>, h: Host, order: seq<nat>, read: seq<Range>)
    requires Canonical(h.ram) && IsListing(HostNode(name, h), order)
    requires Canonical(read) && SameAddresses(read, Regs(HostNode(name, h), order))
    ensures read == h.ram
  {
    hide Canonical, Covers, Regs, HostNode, IsListing;
    EmittedMemory(name, h, order);
    CanonicalUnique(read, h.ram);
  }

  lemma CpusRecovered(h: Host)
    ensures var v := Value(HostProps(h), CPUS); v.Some? && |v.value| % 8 == 0 && FromCells(v.value) == h.cpus
  {
    hide Cells, FromCells, Big32, Value;
    CellsRoundTrip(h.cpus);
    assert ADDRESS_CELLS[0] == 35 && SIZE_CELLS[0] == 35 && CPUS[0] == 99;
    ValueAt(HostProps(h), 2, CPUS);
  }

  lemma VmcoreFound(name: seq<Byte>, h: Host)
    ensures Sub(HostNode(name, h), VMCORE) == if h.vmcore.Present() then Some(VmcoreNode(h.vmcore)) else None
  {
    hide Sub, VmcoreNode, MemoryNode, DevicesNode;
    VmcoreIsNot(h.vmcore);
    DevicesIsNot(h.devices);
    var dir := HostNode(name, h);
    var k := |dir.children| - if h.vmcore.Present() then 1 else 0;
    forall j | 0 <= j < k ensures dir.children[j].name != VMCORE {
      ChildrenAre(h, j);
      OtherNames();
    }
    SubIs(dir, k, VMCORE);
  }

  lemma PageRead(vi: VmcoreInfo)
    ensures Optional(Some(VmcoreNode(vi)), PAGE_OFFSET) ==
            if vi.pageOffset.Some? then Some(Big64(vi.pageOffset.value)) else None
  {
    hide Value, Big32, Big64, RegProp;
    assert PAGE_OFFSET[0] == 112 && ADDRESS_CELLS[0] == 35 && SIZE_CELLS[0] == 35;
    ValueAt(VmcoreNode(vi).props, 2, PAGE_OFFSET);
  }

  lemma RegNode(name: seq<Byte>, rs: seq<Range>)
    ensures Optional(Some(Node(name, [RegProp(rs)], [])), REG) == Some(Cells(Pairs(rs)))
  {
    hide Value, Cells, Pairs;
    ValueAt([RegProp(rs)], 0, REG);
  }

  lemma InfoRead(vi: VmcoreInfo)
    ensures Optional(Sub(VmcoreNode(vi), VMCOREINFO), REG) ==
            if vi.vmcoreinfo.size != 0 then Some(Cells(Pairs([vi.vmcoreinfo]))) else None
  {
    hide Sub, Cells, Pairs, RegProp, CellSizes;
    OtherNames();
    var vn := VmcoreNode(vi);
    if vi.vmcoreinfo.size != 0 {
      SubIs(vn, 0, VMCOREINFO);
      RegNode(VMCOREINFO, [vi.vmcoreinfo]);
    } else {
      SubIs(vn, |vn.children|, VMCOREINFO);
    }
  }

  lemma NotesRead(vi: VmcoreInfo)
    ensures Optional(Sub(VmcoreNode(vi), CPU_NOTES), REG) ==
            if vi.cpuNotes != [] then Some(Cells(Pairs(vi.cpuNotes))) else None
  {
    hide Sub, Cells, Pairs, RegProp, CellSizes;
    OtherNames();
    var vn := VmcoreNode(vi);
    if vi.cpuNotes != [] {
      SubIs(vn, |vn.children| - 1, CPU_NOTES);
      RegNode(CPU_NOTES, vi.cpuNotes);
    } else {
      SubIs(vn, |vn.children|, CPU_NOTES);
    }
  }

  /** An absent note range has no place. */
  function Normal(vi: VmcoreInfo): VmcoreInfo {
    if vi.vmcoreinfo.size == 0 then vi.(vmcoreinfo := Range(0, 0)) else vi
  }

  /** The vmcore description read is the one emitted. */
  lemma VmcoreRecovered(name: seq<Byte>, h: Host)
    ensures ReadVmcore(HostNode(name, h)) == Some(Normal(h.vmcore))
  {
    hide Sub, ReadVmcoreDir, HostNode, VmcoreNode;
    VmcoreFound(name, h);
    if h.vmcore.Present() { VmcoreDirRead(h.vmcore); } else { NoVmcore(h.vmcore); }
  }

  lemma NoVmcore(vi: VmcoreInfo)
    requires !vi.Present()
    ensures ReadVmcoreDir(None) == Some(Normal(vi))
  {
  }

  lemma VmcoreDirRead(vi: VmcoreInfo)
    ensures ReadVmcoreDir(Some(VmcoreNode(vi))) == Some(Normal(vi))
  {
    hide Optional, Sub, VmcoreNode, Cells, Pairs, FromReg, FromRegs, Big64, FromBig64;
    PageRead(vi);
    InfoRead(vi);
    NotesRead(vi);
    RegRead([vi.vmcoreinfo]);
    RegRead(vi.cpuNotes);
    if vi.pageOffset.Some? { Big64RoundTrip(vi.pageOffset.value); }
  }

  // ---------------------------------------------------------------- devices read back

  /** The address fits `char id[16]`. */
  predicate GoodId(d: PciIds) {
    NoNul(d.id) && |d.id| <= 15
  }

  lemma DevicesFound(name: seq<Byte>, h: Host)
    ensures Sub(HostNode(name, h), DEVICES) == if h.devices != [] then Some(DevicesNode(h.devices)) else None
  {
    hide Sub, VmcoreNode, MemoryNode, DevicesNode;
    VmcoreIsNot(h.vmcore);
    DevicesIsNot(h.devices);
    OtherNames();
    var dir := HostNode(name, h);
    forall j | 0 <= j < |h.ram| ensures dir.children[j].name != DEVICES { ChildrenAre(h, j); }
    SubIs(dir, if h.devices != [] then |h.ram| else |dir.children|, DEVICES);
  }

  lemma PciNames()
    ensures PCI_ID != KIND && VENDOR_ID !in [KIND, PCI_ID] && DEVICE_ID !in [KIND, PCI_ID, VENDOR_ID]
    ensures CLASS_CODE !in [KIND, PCI_ID, VENDOR_ID, DEVICE_ID]
  {
    assert PCI_ID[0] == 112 && KIND[0] == 100 && VENDOR_ID[0] == 118 && DEVICE_ID[0] == 100 && CLASS_CODE[0] == 99;
    assert |KIND| != |DEVICE_ID|;
  }

  lemma PciFiles(d: PciIds)
    ensures var p := PciProps(d);
            && Value(p, PCI_ID) == Some(d.id + [0]) && Value(p, VENDOR_ID) == Some(Big32(d.vendor))
            && Value(p, DEVICE_ID) == Some(Big32(d.device)) && Value(p, CLASS_CODE) == Some(Big32(d.class_))
  {
    hide Value, Big32, Big64;
    PciNames();
    ValueAt(PciProps(d), 1, PCI_ID);
    ValueAt(PciProps(d), 2, VENDOR_ID);
    ValueAt(PciProps(d), 3, DEVICE_ID);
    ValueAt(PciProps(d), 4, CLASS_CODE);
  }

  lemma PciRecovered(d: PciIds)
    requires GoodId(d)
    ensures ReadPci(PciNode(d)) == Got(d.(iommu := 0))
  {
    hide Value, Big32, FromBig32, Big64, PciProps;
    PciFiles(d);
    Big32RoundTrip(d.vendor);
    Big32RoundTrip(d.device);
    Big32RoundTrip(d.class_);
    IdRead(d.id);
  }

  lemma IdRead(id: seq<Byte>)
    requires NoNul(id)
    ensures NulAt(id + [0], 0) == |id| && (id + [0])[..|id|] == id
  {
    var t := id + [0];
    assert forall i :: 0 <= i < |id| ==> t[i] == id[i] != 0;
    assert t[|id|] == 0;
  }

  /** The devices read are those emitted, in the order listed, but for their IOMMUs, which are not read. */
  lemma DevicesRecovered(name: seq<Byte>, h: Host, pci: seq<nat>)
    requires (forall i :: 0 <= i < |h.devices| ==> GoodId(h.devices[i]))
    requires IsPciListing(Sub(HostNode(name, h), DEVICES), pci)
    ensures forall c :: 0 <= c < |h.devices| ==> c in pci
    ensures forall i :: 0 <= i < |pci| ==>
              && pci[i] < |h.devices|
              && PciReads(Sub(HostNode(name, h), DEVICES), pci)[i] == Got(h.devices[pci[i]].(iommu := 0))
  {
    hide Sub, HostNode, ReadPci, PciNode;
    DevicesFound(name, h);
    forall i | 0 <= i < |pci|
      ensures pci[i] < |h.devices|
      ensures PciReads(Sub(HostNode(name, h), DEVICES), pci)[i] == Got(h.devices[pci[i]].(iommu := 0))
    {
      PciRecovered(h.devices[pci[i]]);
    }
    forall c | 0 <= c < |h.devices| ensures c in pci { PciNamed(h.devices, c); }
  }

  lemma PciNamed(ds: seq<PciIds>, c: nat)
    requires c < |ds|
    ensures PCI_AT <= DevicesNode(ds).children[c].name
  {
  }

  // ---------------------------------------------------------------- the whole tree read back

  /** Every range emitted can be read. */
  lemma UsableRam(name: seq<Byte>, h: Host, order: seq<nat>, i: nat)
    requires Canonical(h.ram) && IsListing(HostNode(name, h), order) && i < |order|
    ensures !Unusable(Regs(HostNode(name, h), order)[i])
  {
    hide IsMemory, MemoryNode, RegOf, HostChildren;
    ChildrenAre(h, order[i]);
    MemoryRead(h.ram[order[i]]);
  }

  /**
   * A host tree read back from the directory it shows as is the one emitted, whatever the
   * order of the listings, but for the bases of the IOMMUs; nothing but a failure of the file
   * system or the allocator can prevent that.
   */
  method ReadBack(name: seq<Byte>, h: Host, order: seq<nat>, pci: seq<nat>, fault: int)
    returns (ret: int, cpus: seq<Word64>, ram: RangeSet, ds: seq<PciIds>, vi: VmcoreInfo)
    requires Canonical(h.ram) && forall i :: 0 <= i < |h.devices| ==> GoodId(h.devices[i])
    requires IsListing(HostNode(name, h), order) && IsPciListing(Sub(HostNode(name, h), DEVICES), pci)
    ensures ret in {0, -ENOMEM, fault} && ram.Valid()
    ensures ret == 0 ==> cpus == h.cpus && ram.Contents() == h.ram && vi == Normal(h.vmcore)
    ensures ret == 0 ==> |ds| == |pci| && forall c :: 0 <= c < |h.devices| ==> c in pci
    ensures ret == 0 ==>
              forall i :: 0 <= i < |pci| ==> pci[i] < |h.devices| && ds[i] == h.devices[pci[i]].(iommu := 0)
  {
    hide Canonical, Covers, Regs, PciReads, IsListing, IsPciListing, Sub, Value, FromCells, ReadVmcore, HostChildren,
      HostProps, GoodId, Unusable, SameAddresses;
    ghost var dir := HostNode(name, h);
    ret, cpus, ram, ds, vi := Read(HostNode(name, h), order, pci, fault);
    CpusRecovered(h);
    VmcoreRecovered(name, h);
    DevicesRecovered(name, h, pci);
    forall i | 0 <= i < |order| ensures !Unusable(Regs(dir, order)[i]) { UsableRam(name, h, order, i); }
    if ret == 0 {
      assert Canonical(ram.Contents()) by { ValidIsCanonical(ram); }
      MemoryRecovered(name, h, order, ram.Contents());
    }
  }

  lemma ValidIsCanonical(s: RangeSet)
    requires s.Valid()
    ensures Canonical(s.Contents())
  {
  }

  // ---------------------------------------------------------------- emitting into an open node

  /** Emittable, with names so short that no buffer is ever left. */
  predicate Plain(es: seq<Emit>) {
    AllEmittable(es) && forall i :: 0 <= i < |es| && es[i].Property? ==> |es[i].name| <= 63
  }

  lemma StaysInside(w: FdtWriter.Writer, e: Emit)
    requires w.Valid() && (e.Property? ==> |e.name| <= 63)
    ensures !FdtWriter.Overruns(w.emitted, e, w.totalsize)
  {
    hide IsNew, Table;
  }

  /** A run of writer calls, stopping at the first that fails; calls in `allocs` first need memory. */
  method EmitRun(w: FdtWriter.Writer, es: seq<Emit>, allocs: set<nat>) returns (ret: int)
    requires w.Valid() && Plain(es)
    modifies w, w.buf
    ensures ret in {0, FdtFormat.NOSPACE, FdtFormat.INTERNAL} && (ret == FdtFormat.INTERNAL ==> allocs != {})
    ensures ret == 0 ==> w.Valid() && w.emitted == old(w.emitted) + es
  {
    hide FdtWriter.Writer.Valid, FdtWriter.Need, FdtWriter.Overruns;
    ret := 0;
    var i := 0;
    while i < |es| && ret == 0
      invariant i <= |es| && ret in {0, FdtFormat.NOSPACE, FdtFormat.INTERNAL}
      invariant ret == FdtFormat.INTERNAL ==> allocs != {}
      invariant ret == 0 ==> w.Valid() && w.emitted == old(w.emitted) + es[..i]
    {
      var granted: bool := *;
      if i in allocs && !granted {
        return FdtFormat.INTERNAL;
      }
      StaysInside(w, es[i]);
      ret := FdtBuild.Do(w, es[i]);
      assert es[..i + 1] == es[..i] + [es[i]];
      i := i + 1;
    }
    assert ret == 0 ==> es[..i] == es;
  }

  /** Property values have lengths an `int` can hold. */
  predicate Writable(h: Host) {
    && |h.cpus| < 0x1000_0000 && |h.vmcore.cpuNotes| < 0x800_0000
    && forall i :: 0 <= i < |h.devices| ==> GoodId(h.devices[i])
  }

  predicate GoodProps(props: seq<(seq<Byte>, seq<Byte>)>) {
    forall i :: 0 <= i < |props| ==> NoNul(props[i].0) && |props[i].0| <= 31 && |props[i].1| < 0x8000_0000
  }

  lemma JoinEmittable(a: seq<Emit>, b: seq<Emit>)
    requires Plain(a) && Plain(b)
    ensures Plain(a + b)
  {
  }

  lemma NodeEmittable(n: Node)
    requires NoNul(n.name) && GoodProps(n.props) && Plain(EmitsAll(n.children))
    ensures Plain(Emits(n))
  {
    hide EmitsAll, NoNul;
    JoinEmittable([Open(n.name)], PropEmits(n.props));
    JoinEmittable([Open(n.name)] + PropEmits(n.props), EmitsAll(n.children));
    JoinEmittable([Open(n.name)] + PropEmits(n.props) + EmitsAll(n.children), [Close]);
  }

  lemma LeafEmittable(name: seq<Byte>, props: seq<(seq<Byte>, seq<Byte>)>)
    requires NoNul(name) && GoodProps(props)
    ensures Plain(Emits(Node(name, props, [])))
  {
    NodeEmittable(Node(name, props, []));
  }

  lemma MemoryEmittable(r: Range)
    ensures Plain(Emits(MemoryNode(r)))
  {
    hide Cells, Pairs, Numeral, Emits, Plain;
    var name := MEMORY_AT + Numeral(r.base, 16);
    assert NoNul(name) by {
      forall i | 0 <= i < |name| ensures name[i] != 0 {
        if i >= 7 { assert IsDigit(name[i], 16); }
      }
    }
    LeafEmittable(name, [(DEVICE_TYPE, MEMORY), RegProp([r])]);
  }

  lemma VmcoreEmittable(vi: VmcoreInfo)
    requires |vi.cpuNotes| < 0x800_0000
    ensures Plain(Emits(VmcoreNode(vi)))
  {
    hide VmcoreNode, Emits, EmitsAll, Plain, GoodProps, NoNul;
    VmcoreProps(vi);
    VmcoreChildren(vi);
    NodeEmittable(VmcoreNode(vi));
  }

  lemma VmcoreProps(vi: VmcoreInfo)
    ensures NoNul(VmcoreNode(vi).name) && GoodProps(VmcoreNode(vi).props)
  {
    hide Cells, Pairs, Big32, Big64, RegProp;
  }

  lemma VmcoreChildren(vi: VmcoreInfo)
    requires |vi.cpuNotes| < 0x800_0000
    ensures Plain(EmitsAll(VmcoreNode(vi).children))
  {
    hide Emits, EmitsAll, Plain, CellSizes, RegProp, Big64;
    var a, b := Node(VMCOREINFO, [RegProp([vi.vmcoreinfo])], []), Node(CPU_NOTES, [RegProp(vi.cpuNotes)], []);
    RegEmittable(VMCOREINFO, [vi.vmcoreinfo]);
    RegEmittable(CPU_NOTES, vi.cpuNotes);
    JoinEmittable(Emits(a), Emits(b));
    EmitsAllConcat([a], [b]);
    EmitsOne(a);
    EmitsOne(b);
    NoneEmittable();
    var ns := VmcoreNode(vi).children;
    assert ns == [] || ns == [a] || ns == [b] || ns == [a] + [b];
  }

  lemma RegEmittable(name: seq<Byte>, rs: seq<Range>)
    requires NoNul(name) && |rs| < 0x800_0000
    ensures Plain(Emits(Node(name, [RegProp(rs)], [])))
  {
    hide Cells, Pairs;
    LeafEmittable(name, [RegProp(rs)]);
  }

  lemma NoneEmittable()
    ensures Plain(EmitsAll([]))
  {
  }

  lemma PciEmittable(d: PciIds)
    requires GoodId(d)
    ensures Plain(Emits(PciNode(d)))
  {
    hide Big32, Big64, Emits, Plain;
    var name := PCI_AT + Mangled(d.id);
    assert NoNul(name) by {
      forall i | 0 <= i < |name| ensures name[i] != 0 {
        if i >= 4 { assert Mangled(d.id)[i - 4] != 0; }
      }
    }
    assert GoodProps(PciProps(d)) by { PciPropsGood(d); }
    LeafEmittable(name, PciProps(d));
  }

  lemma PciPropsGood(d: PciIds)
    requires GoodId(d)
    ensures GoodProps(PciProps(d))
  {
    hide Big32, Big64;
    assert NoNul(KIND) && NoNul(PCI_ID) && NoNul(VENDOR_ID) && NoNul(DEVICE_ID);
    assert NoNul(CLASS_CODE) && NoNul(IOMMU_BASE);
  }

  lemma {:induction false} AllPlain(ns: seq<Node>)
    requires forall i :: 0 <= i < |ns| ==> Plain(Emits(ns[i]))
    ensures Plain(EmitsAll(ns))
    decreases |ns|
  {
    hide Emits, Plain;
    if ns == [] {
      NoneEmittable();
    } else {
      AllPlain(ns[1..]);
      JoinEmittable(Emits(ns[0]), EmitsAll(ns[1..]));
    }
  }

  lemma DevicesEmittable(ds: seq<PciIds>)
    requires forall i :: 0 <= i < |ds| ==> GoodId(ds[i])
    ensures Plain(Emits(DevicesNode(ds)))
  {
    hide Emits, EmitsAll, Plain, PciNode, GoodId;
    var n := DevicesNode(ds);
    forall i | 0 <= i < |ds| ensures Plain(Emits(n.children[i])) { PciEmittable(ds[i]); }
    AllPlain(n.children);
    NodeEmittable(n);
  }

  lemma PropsEmittable(h: Host)
    requires Writable(h)
    ensures Plain(PropEmits(HostProps(h)))
  {
    hide Cells, Big32;
    assert NoNul(ADDRESS_CELLS) && NoNul(SIZE_CELLS) && NoNul(CPUS);
  }

  lemma ChildEmittable(h: Host, k: nat)
    requires Writable(h) && k < |HostChildren(h)|
    ensures Plain(Emits(HostChildren(h)[k]))
  {
    hide Emits, Plain, VmcoreNode, MemoryNode, DevicesNode, GoodId;
    if k < |h.ram| { MemoryEmittable(h.ram[k]); }
    DevicesEmittable(h.devices);
    VmcoreEmittable(h.vmcore);
  }

  /** The next child of the node. */
  method EmitChild(w: FdtWriter.Writer, ghost h: Host, ghost done: seq<Emit>, ghost k: nat, n: Node, allocs: set<nat>)
    returns (ret: int)
    requires w.Valid() && Writable(h) && k < |HostChildren(h)| && HostChildren(h)[k] == n
    requires w.emitted == done + EmitsAll(HostChildren(h)[..k])
    modifies w, w.buf
    ensures ret in {0, FdtFormat.NOSPACE, FdtFormat.INTERNAL} && (ret == FdtFormat.INTERNAL ==> allocs != {})
    ensures ret == 0 ==> w.Valid() && w.emitted == done + EmitsAll(HostChildren(h)[..k + 1])
  {
    hide FdtWriter.Writer.Valid, EmitsAll, Emits, HostChildren, HostProps, PropEmits, Plain;
    ghost var ns := HostChildren(h);
    NextNode(ns, k);
    ChildEmittable(h, k);
    ret := EmitRun(w, Emits(n), allocs);
    Regroup(done, EmitsAll(ns[..k]), Emits(n));
  }

  lemma Regroup(a: seq<Emit>, b: seq<Emit>, c: seq<Emit>)
    ensures a + b + c == a + (b + c)
  {
  }

  /**
   * `host_tree_emit`: exactly the properties and children of the host node, in that order. The
   * list of processors and that of note buffers are copied to memory first.
   */
  method EmitHost(w: FdtWriter.Writer, h: Host) returns (ret: int)
    requires w.Valid() && Writable(h)
    modifies w, w.buf
    ensures ret in {0, -EINVAL, FdtFormat.NOSPACE, FdtFormat.INTERNAL}
    ensures ret == -EINVAL <==> h.cpus == [] || h.ram == []
    ensures ret == -EINVAL ==> w.Valid() && w.emitted == old(w.emitted)
    ensures ret == 0 ==> w.Valid() && w.emitted == old(w.emitted) + PropEmits(HostProps(h)) + EmitsAll(HostChildren(h))
  {
    hide FdtWriter.Writer.Valid, EmitsAll, Emits, HostProps, PropEmits, Plain, MemoryNode, VmcoreNode, DevicesNode;
    if h.cpus == [] || h.ram == [] {
      return -EINVAL;
    }
    ghost var ns := HostChildren(h);
    ghost var done := old(w.emitted) + PropEmits(HostProps(h));
    PropsEmittable(h);
    ret := EmitRun(w, PropEmits(HostProps(h)), {2});
    NoneEmitted(done, ns);
    var i := 0;
    while i < |h.ram| && ret == 0
      invariant i <= |h.ram| && ret in {0, FdtFormat.NOSPACE, FdtFormat.INTERNAL}
      invariant ret == 0 ==> w.Valid() && w.emitted == done + EmitsAll(ns[..i])
    {
      ret := EmitChild(w, h, done, i, MemoryNode(h.ram[i]), {});
      i := i + 1;
    }
    if ret == 0 && h.devices != [] {
      ret := EmitChild(w, h, done, |h.ram|, DevicesNode(h.devices), {});
    }
    if ret == 0 && h.vmcore.Present() {
      var n := VmcoreNode(h.vmcore);
      var notes := |Emits(n)| - 3;
      ret := EmitChild(w, h, done, |ns| - 1, n, if h.vmcore.cpuNotes != [] && notes >= 0 then {notes} else {});
    }
    assert ns[..|ns|] == ns;
  }

  lemma NoneEmitted(done: seq<Emit>, ns: seq<Node>)
    ensures done == done + EmitsAll(ns[..0])
  {
  }
}

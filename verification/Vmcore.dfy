/** What a vmcore needs beyond the memory (include/kmorph/crashinfo.h). */
module Vmcores {
  import opened Bytes
  import opened Options
  import opened Ranges

  /**
   * `struct vmcore_info`: the base of the direct map, if known, and the buffers of the
   * predecessor's notes; one of size zero is absent.
   */
  datatype VmcoreInfo = VmcoreInfo(pageOffset: Option<Word64>, vmcoreinfo: Range, cpuNotes: seq<Range>) {
    /** One buffer per CPU, and the VMCOREINFO note last. */
    function Buffers(): seq<Range> { cpuNotes + [vmcoreinfo] }

    predicate Present() { pageOffset.Some? || vmcoreinfo.size != 0 || cpuNotes != [] }
  }
}

/**
 The resource ceilings the child applies to itself before exec
 (src/myfork.c:61-75, 262-280). The memory ceiling uses the first of
 RLIMIT_AS, RLIMIT_VMEM, RLIMIT_DATA the system has, in megabytes; the CPU
 ceiling allows five seconds between the soft and the hard limit. A negative
 option means no ceiling. setrlimit failures are ignored by the source, so
 the model only lists the calls made.
 */
module Rlimits {
  import opened Results

  datatype Resource = AddressSpace | VirtualMemory | DataSegment | CpuTime

  datatype Limit = Limit(resource: Resource, soft: int, hard: int)

  /** The bytes in one megabyte of `maxmem`. */
  const MegaByte: int := 1048576

  /** The seconds the hard CPU limit adds to the soft one. */
  const CpuGrace: int := 5

  /** ZZUF_RLIMIT_MEM: the first memory resource the system defines. */
  function MemoryResource(hasAs: bool, hasVmem: bool, hasData: bool): (r: Option<Resource>)
    ensures r.None? <==> !hasAs && !hasVmem && !hasData
    ensures r == Some(AddressSpace) <==> hasAs
    ensures r == Some(VirtualMemory) <==> !hasAs && hasVmem
    ensures r == Some(DataSegment) <==> !hasAs && !hasVmem && hasData
  {
    if hasAs then Some(AddressSpace)
    else if hasVmem then Some(VirtualMemory)
    else if hasData then Some(DataSegment)
    else None
  }

  /** The setrlimit calls the child makes, in order. `memory` is the memory
      resource the system has, if any; `cpu` tells whether RLIMIT_CPU exists. */
  function ResourceLimits(memory: Option<Resource>, cpu: bool, maxmem: int, maxcpu: int): (calls: seq<Limit>)
    requires memory.Some? ==> memory.value != CpuTime
    ensures |calls| == (if memory.Some? && maxmem >= 0 then 1 else 0) + (if cpu && maxcpu >= 0 then 1 else 0)
    ensures forall i :: 0 <= i < |calls| && calls[i].resource != CpuTime ==>
              memory == Some(calls[i].resource) && maxmem >= 0
              && calls[i].soft == calls[i].hard && calls[i].soft / MegaByte == maxmem && calls[i].soft % MegaByte == 0
    ensures forall i :: 0 <= i < |calls| && calls[i].resource == CpuTime ==>
              cpu && maxcpu >= 0 && i == |calls| - 1
              && calls[i].soft == maxcpu && calls[i].hard - calls[i].soft == CpuGrace
    ensures memory.Some? && maxmem >= 0 ==> calls[0] == Limit(memory.value, maxmem * MegaByte, maxmem * MegaByte)
    ensures cpu && maxcpu >= 0 ==> calls[|calls| - 1] == Limit(CpuTime, maxcpu, maxcpu + CpuGrace)
  {
    var mem := if memory.Some? && maxmem >= 0 then [Limit(memory.value, maxmem * MegaByte, maxmem * MegaByte)] else [];
    var cpuCall := if cpu && maxcpu >= 0 then [Limit(CpuTime, maxcpu, maxcpu + CpuGrace)] else [];
    mem + cpuCall
  }
}

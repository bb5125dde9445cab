/**
 When the memory that sbrk hands to the allocator is there.  morecore (user/umalloc.c) passes an unsigned byte
 count to sbrk, which takes a signed one and adds it to the process's size (kernel/proc.c, growproc).
 */
module Sbrk {
  import opened Numbers
  import opened Vm
  import opened AddressSpace
  import opened Heap

  /** The argument of sbrk: the low 32 bits of the byte count, as a signed integer. */
  function SbrkArg(units: nat): (n: int) {
    var b := HDR * units % U32;
    if b < 0x8000_0000 then b else b - U32
  }

  /**
   sbrk returns the old end of the process.  The units morecore enters from there on lie below the new end
   exactly when their byte count is positive as a signed integer; otherwise the process has not
   grown, and may have shrunk.
   */
  lemma CoreIsThereIff(sz: nat, nunits: nat)
    requires 0 < sz < SHAREDBASE && nunits <= U32 / HDR
    ensures sz + HDR * Max(nunits, MINUNITS) <= GrownSize(sz, SbrkArg(Max(nunits, MINUNITS))) <==> CoreIsThere(nunits)
    ensures !CoreIsThere(nunits) ==> GrownSize(sz, SbrkArg(Max(nunits, MINUNITS))) <= sz
  {
    var units := Max(nunits, MINUNITS);
    if HDR * units < U32 {
      assert HDR * units % U32 == HDR * units;
    }
  }

  lemma UnitsBound(nbytes: nat)
    requires nbytes < U32
    ensures UnitsFor(nbytes) <= U32 / HDR
  {
  }

  /** A request for half the address space: sbrk succeeds, and the process has not grown by a byte. */
  lemma HugeRequest(sz: nat)
    requires 0 < sz < SHAREDBASE
    ensures UnitsFor(0x8000_0000) == 0x1000_0001 && !CoreIsThere(UnitsFor(0x8000_0000))
    ensures SbrkArg(0x1000_0001) == -0x7FFF_FFF8 && GrownSize(sz, SbrkArg(0x1000_0001)) == sz
  {
  }
}

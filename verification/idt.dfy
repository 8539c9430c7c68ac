/**
 `ExtensionCommandPerformQueryIdtEntriesRequest`: copies the handler
 address of every interrupt-descriptor-table entry into the response,
 reading the table base from the executing processor's IDTR, or from the
 guest IDTR when the request is served in VMX root mode.
 */
module Idt {
  import opened DebuggerTypes

  /** MAX_NUMBER_OF_IDT_ENTRIES: one entry per interrupt vector. */
  const MaxNumberOfIdtEntries: nat := 256

  /** The three split handler-offset fields of a `KIDT_ENTRY`; the other
      fields of the descriptor are not read by the handler. */
  datatype KidtEntry = KidtEntry(lowPart: bv16, highPart: bv16, highestPart: bv32)

  /** The processor state the handler reads: the IDTR base seen by `__sidt`,
      the guest IDTR base returned by `GetGuestIdtr`, and the descriptor
      stored at index i of a table at a given base. */
  datatype IdtState = IdtState(idtrBase: bv64, guestIdtrBase: bv64, descriptorAt: (bv64, nat) -> KidtEntry)

  /** `INTERRUPT_DESCRIPTOR_TABLE_ENTRIES_PACKETS`. */
  datatype IdtEntriesPacket = IdtEntriesPacket(idtEntry: seq<bv64>, kernelStatus: KernelStatus)

  /** Bits `lo .. lo+16` of a qword. */
  function Bits16(x: bv64, lo: nat): bv16
    requires lo <= 48
  {
    ((x >> lo) & 0xFFFF) as bv16
  }

  /** The 64-bit handler address: `HighestPart << 32 | HighPart << 16 | LowPart`. */
  function PackIdtEntry(e: KidtEntry): (r: bv64)
    ensures Bits16(r, 0) == e.lowPart
    ensures Bits16(r, 16) == e.highPart
    ensures ((r >> 32) & 0xFFFF_FFFF) as bv32 == e.highestPart
  {
    (e.highestPart as bv64 << 32) | (e.highPart as bv64 << 16) | e.lowPart as bv64
  }

  /** Splits a handler address back into the three descriptor fields. */
  function UnpackIdtEntry(x: bv64): KidtEntry {
    KidtEntry(Bits16(x, 0), Bits16(x, 16), ((x >> 32) & 0xFFFF_FFFF) as bv32)
  }

  /** Packing and unpacking are inverse bijections. */
  lemma PackUnpackRoundTrip(e: KidtEntry, x: bv64)
    ensures UnpackIdtEntry(PackIdtEntry(e)) == e
    ensures PackIdtEntry(UnpackIdtEntry(x)) == x
  {
  }

  /** The table base the handler reads descriptors from. */
  function IdtBase(readFromVmxRoot: bool, s: IdtState): bv64 {
    if readFromVmxRoot then s.guestIdtrBase else s.idtrBase
  }

  function QueryIdtEntries(packet: IdtEntriesPacket, readFromVmxRoot: bool, s: IdtState): (r: IdtEntriesPacket)
    ensures |r.idtEntry| == MaxNumberOfIdtEntries
    ensures forall i :: 0 <= i < |r.idtEntry| ==>
      UnpackIdtEntry(r.idtEntry[i]) == s.descriptorAt(IdtBase(readFromVmxRoot, s), i)
    ensures r.kernelStatus == OperationWasSuccessful
  {
    var base := IdtBase(readFromVmxRoot, s);
    var entries := seq(MaxNumberOfIdtEntries, i requires 0 <= i => PackIdtEntry(s.descriptorAt(base, i)));
    IdtEntriesPacket(entries, OperationWasSuccessful)
  }

  /** In VMX root mode the processor's own IDTR (the host table) is never
      consulted, and outside it the guest IDTR is never consulted. */
  lemma IdtBaseProvenance(packet: IdtEntriesPacket, s: IdtState, other: bv64)
    ensures QueryIdtEntries(packet, true, s) == QueryIdtEntries(packet, true, s.(idtrBase := other))
    ensures QueryIdtEntries(packet, false, s) == QueryIdtEntries(packet, false, s.(guestIdtrBase := other))
  {
  }
}

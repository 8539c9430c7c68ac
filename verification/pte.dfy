/**
 `ExtensionCommandPte`: the `!pte` command. It validates the request,
 switches CR3 to the target address space when needed, reads the four
 translation entries of a virtual address and switches CR3 back on the way
 out, including on the invalid-address path that jumps to the cleanup label.
 */
module PageTableEntries {
  import opened DebuggerTypes
  import opened Platform

  /** One level of the response: where the entry lives and its raw bits. */
  datatype EntryRecord = EntryRecord(entryAddress: u64, value: u64)

  /** `DEBUGGER_READ_PAGE_TABLE_ENTRIES_DETAILS`. */
  datatype PteDetails = PteDetails(
    virtualAddress: u64,
    processId: u32,
    pml4e: EntryRecord,
    pdpte: EntryRecord,
    pde: EntryRecord,
    pte: EntryRecord,
    kernelStatus: KernelStatus)
  {
    /** The record of a level. */
    function Entry(level: PagingLevel): EntryRecord {
      match level
      case PageMapLevel4 => pml4e
      case PageDirectoryPointerTable => pdpte
      case PageDirectory => pde
      case PageTable => pte
    }

    /** These details with the record of one level replaced. */
    function WithEntry(level: PagingLevel, e: EntryRecord): (d: PteDetails)
      ensures d.Entry(level) == e
      ensures forall l :: l != level ==> d.Entry(l) == Entry(l)
      ensures d.virtualAddress == virtualAddress && d.processId == processId && d.kernelStatus == kernelStatus
    {
      match level
      case PageMapLevel4 => this.(pml4e := e)
      case PageDirectoryPointerTable => this.(pdpte := e)
      case PageDirectory => this.(pde := e)
      case PageTable => this.(pte := e)
    }
  }

  /** A write to CR3 made by the handler. */
  datatype Cr3Event = SwitchedTo(cr3: u64) | RestoredTo(cr3: u64)

  /** The address space a request is served in, when the handler gets as far
      as the walk: the running process's in root mode, the target's for a
      foreign process, and the live one otherwise. */
  function WalkAddressSpace(d: PteDetails, isOperatingInVmxRoot: bool, p: Platform, cr3: u64): u64 {
    if isOperatingInVmxRoot then p.runningProcessCr3
    else if d.processId != p.currentProcessId then p.processCr3(d.processId)
    else cr3
  }

  /** Reads one level's entry into the details if the locator finds one. */
  function ReadLevel(d: PteDetails, level: PagingLevel, p: Platform, cr3: u64): (d': PteDetails)
    ensures p.pteVa(cr3, d.virtualAddress, level) != NULL ==>
      d'.Entry(level) == EntryRecord(p.pteVa(cr3, d.virtualAddress, level), p.entryFlags(cr3, p.pteVa(cr3, d.virtualAddress, level)))
    ensures p.pteVa(cr3, d.virtualAddress, level) == NULL ==> d'.Entry(level) == d.Entry(level)
    ensures forall l :: l != level ==> d'.Entry(l) == d.Entry(l)
    ensures d'.virtualAddress == d.virtualAddress && d'.processId == d.processId && d'.kernelStatus == d.kernelStatus
  {
    var entry := p.pteVa(cr3, d.virtualAddress, level);
    if entry != NULL then d.WithEntry(level, EntryRecord(entry, p.entryFlags(cr3, entry))) else d
  }

  /** The entry a level's record is set to by the walk in address space `s`,
      or the record it already holds when the locator finds nothing. */
  function WalkedEntry(d: PteDetails, level: PagingLevel, p: Platform, s: u64): EntryRecord {
    var entry := p.pteVa(s, d.virtualAddress, level);
    if entry != NULL then EntryRecord(entry, p.entryFlags(s, entry)) else d.Entry(level)
  }

  /** The four reads of the walk, top level first. A level whose entry is not
      found keeps its record; the walk never stops early. */
  function WalkAll(d: PteDetails, p: Platform, s: u64): (d': PteDetails)
    ensures forall l :: d'.Entry(l) == WalkedEntry(d, l, p, s)
    ensures d'.virtualAddress == d.virtualAddress && d'.processId == d.processId && d'.kernelStatus == d.kernelStatus
  {
    var d1 := ReadLevel(d, PageMapLevel4, p, s);
    var d2 := ReadLevel(d1, PageDirectoryPointerTable, p, s);
    var d3 := ReadLevel(d2, PageDirectory, p, s);
    ReadLevel(d3, PageTable, p, s)
  }

  /** The handler. `cr3` is the CR3 of the executing processor on entry and
      `cr3'` on exit; `events` lists the CR3 writes in order. */
  method Pte(details: PteDetails, isOperatingInVmxRoot: bool, p: Platform, cr3: u64)
    returns (result: bool, details': PteDetails, cr3': u64, events: seq<Cr3Event>)
    // the status is always written, and the result is TRUE exactly when it is success
    ensures details'.kernelStatus in {OperationWasSuccessful, ErrorInvalidAddress, ErrorInvalidProcessId}
    ensures result <==> details'.kernelStatus == OperationWasSuccessful
    ensures details'.virtualAddress == details.virtualAddress && details'.processId == details.processId
    // CR3 is back to its entry value on every path; a zero saved CR3 is never
    // restored, so a switch from it leaves the walked address space installed
    ensures cr3 != 0 ==> cr3' == cr3
    // a path that does not switch never writes CR3
    ensures events == [] ==> cr3' == cr3
    ensures cr3 == 0 && events != [] ==> cr3' == WalkAddressSpace(details, isOperatingInVmxRoot, p, cr3)
    // in root mode the request succeeds exactly when its address translates
    ensures isOperatingInVmxRoot ==> (result <==> p.vaToPaOnTargetProcess(details.virtualAddress) != NULL)
    // the early returns happen before any switch
    ensures details'.kernelStatus == ErrorInvalidProcessId <==>
      !isOperatingInVmxRoot && details.processId != p.currentProcessId && !p.processExists(details.processId)
    ensures isOperatingInVmxRoot && p.vaToPaOnTargetProcess(details.virtualAddress) == NULL ==>
      details'.kernelStatus == ErrorInvalidAddress && events == []
    ensures details'.kernelStatus == ErrorInvalidProcessId ==> events == []
    // outside root mode, the caller's own process is served without a switch
    ensures !isOperatingInVmxRoot && details.processId == p.currentProcessId ==> events == [] && cr3' == cr3
    // a switch happens exactly on the paths that get past the early returns and need one
    ensures events != [] <==>
      || (isOperatingInVmxRoot && p.vaToPaOnTargetProcess(details.virtualAddress) != NULL)
      || (!isOperatingInVmxRoot && details.processId != p.currentProcessId && p.processExists(details.processId))
    // at most one switch, to the address space of the walk, paired with the
    // restoration of the saved value unless that value is zero
    ensures events != [] ==>
      events == [SwitchedTo(WalkAddressSpace(details, isOperatingInVmxRoot, p, cr3))] + (if cr3 != 0 then [RestoredTo(cr3)] else [])
    // the invalid-address check outside root mode runs in the target address space
    ensures !isOperatingInVmxRoot && details'.kernelStatus != ErrorInvalidProcessId ==>
      (details'.kernelStatus == ErrorInvalidAddress <==>
       p.vaToPa(WalkAddressSpace(details, false, p, cr3), details.virtualAddress) == NULL)
    // a failure leaves all four records untouched
    ensures !result ==> forall l :: details'.Entry(l) == details.Entry(l)
    // on success each level is written exactly when the locator finds its entry
    ensures result ==> forall l ::
      details'.Entry(l) == WalkedEntry(details, l, p, WalkAddressSpace(details, isOperatingInVmxRoot, p, cr3))
  {
    var restoreCr3: u64 := 0;
    result := false;
    details' := details;
    cr3' := cr3;
    events := [];

    label restoreTheState: {
      if isOperatingInVmxRoot {
        if p.vaToPaOnTargetProcess(details'.virtualAddress) == NULL {
          details' := details'.(kernelStatus := ErrorInvalidAddress);
          return;
        }
        // SwitchToCurrentProcessMemoryLayout
        restoreCr3 := cr3';
        cr3' := p.runningProcessCr3;
        events := events + [SwitchedTo(cr3')];
      } else {
        if details'.processId != p.currentProcessId {
          if !p.processExists(details'.processId) {
            details' := details'.(kernelStatus := ErrorInvalidProcessId);
            return;
          }
          // SwitchToProcessMemoryLayout
          restoreCr3 := cr3';
          cr3' := p.processCr3(details'.processId);
          events := events + [SwitchedTo(cr3')];
        }
        if p.vaToPa(cr3', details'.virtualAddress) == NULL {
          details' := details'.(kernelStatus := ErrorInvalidAddress);
          result := false;
          break restoreTheState;
        }
      }

      details' := WalkAll(details', p, cr3');

      details' := details'.(kernelStatus := OperationWasSuccessful);
      result := true;
    }

    // SwitchToPreviousProcess, only when a CR3 was saved
    if restoreCr3 != NULL {
      cr3' := restoreCr3;
      events := events + [RestoredTo(restoreCr3)];
    }
  }

  /** Any sequence of `!pte` requests leaves a non-zero CR3 as it found it, whatever
      each request's outcome. */
  method PteBatch(requests: seq<PteDetails>, isOperatingInVmxRoot: bool, p: Platform, cr3: u64)
    returns (responses: seq<PteDetails>, cr3': u64)
    requires cr3 != 0
    ensures |responses| == |requests|
    ensures cr3' == cr3
    ensures forall i :: 0 <= i < |responses| ==>
      responses[i].virtualAddress == requests[i].virtualAddress && responses[i].kernelStatus.IsWritten()
  {
    responses := [];
    cr3' := cr3;
    var i := 0;
    while i < |requests|
      invariant i <= |requests|
      invariant |responses| == i
      invariant cr3' == cr3
      invariant forall j :: 0 <= j < i ==>
        responses[j].virtualAddress == requests[j].virtualAddress && responses[j].kernelStatus.IsWritten()
    {
      var ok, d, c, ev := Pte(requests[i], isOperatingInVmxRoot, p, cr3');
      responses := responses + [d];
      cr3' := c;
      i := i + 1;
    }
  }
}

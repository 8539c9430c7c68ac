/**
 `ExtensionCommandVa2paAndPa2va`: the `!va2pa` and `!pa2va` commands.
 The handler picks one of three resolvers: the root-mode resolver, the
 resolver over the live address space when the target is the caller's own
 process, or the by-process-id resolver for any other existing process.
 */
module AddressTranslation {
  import opened DebuggerTypes
  import opened Platform

  /** `DEBUGGER_VA2PA_AND_PA2VA_COMMANDS`. */
  datatype AddressRequest = AddressRequest(
    virtualAddress: u64,
    physicalAddress: u64,
    processId: u32,
    isVirtual2Physical: bool,
    kernelStatus: KernelStatus)

  /** The three resolution strategies, and the rejection of a missing process. */
  datatype Strategy = OnTargetProcess | LiveAddressSpace | ByProcessId | RejectProcessId

  /** Which strategy the handler follows. Root mode looks at nothing else;
      outside it, the caller's own process needs no existence check. */
  function StrategyOf(processId: u32, operateOnVmxRoot: bool, p: Platform): Strategy {
    if operateOnVmxRoot then OnTargetProcess
    else if processId == p.currentProcessId then LiveAddressSpace
    else if !p.processExists(processId) then RejectProcessId
    else ByProcessId
  }

  /** The virtual-to-physical resolver a strategy stands for (`cr3` is the live address space). */
  function ResolvePhysical(st: Strategy, va: u64, processId: u32, p: Platform, cr3: u64): u64 {
    match st
    case OnTargetProcess => p.vaToPaOnTargetProcess(va)
    case LiveAddressSpace => p.vaToPa(cr3, va)
    case ByProcessId => p.vaToPaByProcessId(va, processId)
    case RejectProcessId => NULL
  }

  /** The physical-to-virtual resolver a strategy stands for. */
  function ResolveVirtual(st: Strategy, pa: u64, processId: u32, p: Platform, cr3: u64): u64 {
    match st
    case OnTargetProcess => p.paToVaOnTargetProcess(pa)
    case LiveAddressSpace => p.paToVa(cr3, pa)
    case ByProcessId => p.paToVaByProcessId(pa, processId)
    case RejectProcessId => NULL
  }

  /** The handler, with the control flow of the source: root mode first, then
      own process, then the existence check and the by-process-id resolvers.
      `cr3` is the address space active on the executing processor. */
  function Va2paAndPa2va(req: AddressRequest, operateOnVmxRoot: bool, p: Platform, cr3: u64): (r: AddressRequest)
    // the inputs are never changed
    ensures r.processId == req.processId && r.isVirtual2Physical == req.isVirtual2Physical
    // the status is always written
    ensures r.kernelStatus.IsWritten()
    // a missing foreign process is rejected and nothing else is written
    ensures r.kernelStatus == ErrorInvalidProcessId <==> StrategyOf(req.processId, operateOnVmxRoot, p) == RejectProcessId
    ensures r.kernelStatus == ErrorInvalidProcessId ==>
      r.virtualAddress == req.virtualAddress && r.physicalAddress == req.physicalAddress
    // virtual to physical: only the physical address is written, by the chosen resolver,
    // and the address is invalid exactly when it resolved to NULL
    ensures req.isVirtual2Physical && r.kernelStatus != ErrorInvalidProcessId ==>
      && r.virtualAddress == req.virtualAddress
      && r.physicalAddress == ResolvePhysical(StrategyOf(req.processId, operateOnVmxRoot, p), req.virtualAddress, req.processId, p, cr3)
      && (r.kernelStatus == ErrorInvalidAddress <==> r.physicalAddress == NULL)
      && (r.kernelStatus == OperationWasSuccessful <==> r.physicalAddress != NULL)
    // physical to virtual: only the virtual address is written, and it always succeeds
    ensures !req.isVirtual2Physical && r.kernelStatus != ErrorInvalidProcessId ==>
      && r.physicalAddress == req.physicalAddress
      && r.virtualAddress == ResolveVirtual(StrategyOf(req.processId, operateOnVmxRoot, p), req.physicalAddress, req.processId, p, cr3)
      && r.kernelStatus == OperationWasSuccessful
  {
    if operateOnVmxRoot then
      if req.isVirtual2Physical then
        var pa := p.vaToPaOnTargetProcess(req.virtualAddress);
        req.(physicalAddress := pa, kernelStatus := if pa == NULL then ErrorInvalidAddress else OperationWasSuccessful)
      else
        req.(virtualAddress := p.paToVaOnTargetProcess(req.physicalAddress), kernelStatus := OperationWasSuccessful)
    else if req.processId == p.currentProcessId then
      if req.isVirtual2Physical then
        var pa := p.vaToPa(cr3, req.virtualAddress);
        req.(physicalAddress := pa, kernelStatus := if pa == NULL then ErrorInvalidAddress else OperationWasSuccessful)
      else
        req.(virtualAddress := p.paToVa(cr3, req.physicalAddress), kernelStatus := OperationWasSuccessful)
    else if !p.processExists(req.processId) then
      req.(kernelStatus := ErrorInvalidProcessId)
    else if req.isVirtual2Physical then
      var pa := p.vaToPaByProcessId(req.virtualAddress, req.processId);
      req.(physicalAddress := pa, kernelStatus := if pa == NULL then ErrorInvalidAddress else OperationWasSuccessful)
    else
      req.(virtualAddress := p.paToVaByProcessId(req.physicalAddress, req.processId), kernelStatus := OperationWasSuccessful)
  }

  /** Root mode never consults the process id, the caller's process id or
      process existence: changing any of them changes nothing but the echoed id. */
  lemma RootModeIgnoresProcess(req: AddressRequest, p: Platform, cr3: u64, pid: u32, current: u32, processExists': u32 -> bool)
    ensures
      var r1 := Va2paAndPa2va(req, true, p, cr3);
      var r2 := Va2paAndPa2va(req.(processId := pid), true, p.(currentProcessId := current, processExists := processExists'), cr3);
      r2 == r1.(processId := pid)
  {
  }

  /** Outside root mode, a request for the caller's own process resolves in
      the live address space and never asks whether the process exists. */
  lemma SameProcessSkipsExistenceCheck(req: AddressRequest, p: Platform, cr3: u64, processExists': u32 -> bool)
    requires req.processId == p.currentProcessId
    ensures Va2paAndPa2va(req, false, p, cr3) == Va2paAndPa2va(req, false, p.(processExists := processExists'), cr3)
    ensures Va2paAndPa2va(req, false, p, cr3).kernelStatus != ErrorInvalidProcessId
  {
  }

  /** The active address space matters only on the own-process path: the
      other two strategies resolve through collaborators that pick the
      address space themselves. */
  lemma LiveAddressSpaceOnlyForOwnProcess(req: AddressRequest, operateOnVmxRoot: bool, p: Platform, cr3: u64, cr3': u64)
    requires operateOnVmxRoot || req.processId != p.currentProcessId
    ensures Va2paAndPa2va(req, operateOnVmxRoot, p, cr3) == Va2paAndPa2va(req, operateOnVmxRoot, p, cr3')
  {
  }

  /** Virtual-to-physical for `0x1000` in the caller's own process, mapped to
      `0x2000`, returns `0x2000` and succeeds; an unmapped `0xFFFF0000` is an invalid address. */
  lemma OwnProcessTranslationExample(p: Platform, cr3: u64)
    requires p.currentProcessId == 4
    requires p.vaToPa(cr3, 0x1000) == 0x2000 && p.vaToPa(cr3, 0xFFFF_0000) == NULL
    ensures
      var r := Va2paAndPa2va(AddressRequest(0x1000, 0, 4, true, Stale(0)), false, p, cr3);
      r.physicalAddress == 0x2000 && r.kernelStatus == OperationWasSuccessful
    ensures Va2paAndPa2va(AddressRequest(0xFFFF_0000, 0, 4, true, Stale(0)), false, p, cr3).kernelStatus == ErrorInvalidAddress
  {
  }
}

/**
 `ExtensionCommandPerformActionsForApicRequests`: reads local-APIC or
 IO-APIC state into the payload that follows the request header and
 returns how many bytes of the buffer the transport must send back.
 */
module Apic {
  import opened DebuggerTypes

  /** `ApicType` of the request. Any value other than the two known request
      types is kept as `UnknownApicType`. */
  datatype ApicType =
    | ReadLocalApic                 // DEBUGGER_APIC_REQUEST_TYPE_READ_LOCAL_APIC
    | ReadIoApic                    // DEBUGGER_APIC_REQUEST_TYPE_READ_IO_APIC
    | UnknownApicType(raw: bv32)

  /** The header fields of `DEBUGGER_APIC_REQUEST` that the handler reads or writes. */
  datatype ApicRequest = ApicRequest(apicType: ApicType, isUsingX2Apic: bool, kernelStatus: KernelStatus)

  /** The outcome of the two store collaborators: whether
      `VmFuncApicStoreLocalApicFields` succeeds and which mode it reports,
      and whether `VmFuncApicStoreIoApicFields` succeeds. The bytes they copy
      into the payload are not modelled. */
  datatype ApicHardware = ApicHardware(localApicStored: bool, x2ApicMode: bool, ioApicStored: bool)

  /** The `sizeof` values the returned length is built from. */
  datatype Layout = Layout(requestSize: nat, lapicPageSize: nat, ioApicPacketsSize: nat)

  datatype ApicResponse = ApicResponse(request: ApicRequest, size: nat)

  /** Bytes of payload a successful request of type `t` places after the header. */
  function PayloadSize(t: ApicType, layout: Layout): nat {
    match t
    case ReadLocalApic => layout.lapicPageSize
    case ReadIoApic => layout.ioApicPacketsSize
    case UnknownApicType(_) => 0
  }

  /** Whether the store collaborator for a request of type `t` succeeds. */
  predicate StoreSucceeds(t: ApicType, hw: ApicHardware) {
    (t.ReadLocalApic? && hw.localApicStored) || (t.ReadIoApic? && hw.ioApicStored)
  }

  function PerformActionsForApicRequests(req: ApicRequest, hw: ApicHardware, layout: Layout): (r: ApicResponse)
    // the status is always written, and it is success exactly when the store for a known type succeeds
    ensures r.request.kernelStatus.IsWritten()
    ensures r.request.kernelStatus == OperationWasSuccessful <==> StoreSucceeds(req.apicType, hw)
    ensures !StoreSucceeds(req.apicType, hw) ==> r.request.kernelStatus == ErrorApicActionsError
    // the length covers the header, plus the payload only on success
    ensures r.size == layout.requestSize + (if StoreSucceeds(req.apicType, hw) then PayloadSize(req.apicType, layout) else 0)
    // the x2APIC flag is copied only from a successful local-APIC store
    ensures r.request.isUsingX2Apic == (if req.apicType.ReadLocalApic? && hw.localApicStored then hw.x2ApicMode else req.isUsingX2Apic)
    ensures r.request.apicType == req.apicType
  {
    match req.apicType
    case ReadLocalApic =>
      if hw.localApicStored then
        ApicResponse(req.(kernelStatus := OperationWasSuccessful, isUsingX2Apic := hw.x2ApicMode),
                     layout.requestSize + layout.lapicPageSize)
      else
        ApicResponse(req.(kernelStatus := ErrorApicActionsError), layout.requestSize)
    case ReadIoApic =>
      if hw.ioApicStored then
        ApicResponse(req.(kernelStatus := OperationWasSuccessful), layout.requestSize + layout.ioApicPacketsSize)
      else
        ApicResponse(req.(kernelStatus := ErrorApicActionsError), layout.requestSize)
    case UnknownApicType(_) =>
      ApicResponse(req.(kernelStatus := ErrorApicActionsError), layout.requestSize)
  }

  /** The returned length tells the transport whether a payload is present:
      when every payload has a non-zero size, the length exceeds the header
      exactly on success, and a failure never reports more than the header. */
  lemma SizeRevealsStatus(req: ApicRequest, hw: ApicHardware, layout: Layout)
    requires layout.lapicPageSize > 0 && layout.ioApicPacketsSize > 0
    ensures var r := PerformActionsForApicRequests(req, hw, layout);
      (r.size > layout.requestSize <==> r.request.kernelStatus == OperationWasSuccessful)
      && (r.request.kernelStatus != OperationWasSuccessful ==> r.size == layout.requestSize)
  {
  }

  /** An unknown request type never consults the hardware: the response is
      the same whatever the store collaborators would report. */
  lemma UnknownTypeIgnoresHardware(req: ApicRequest, hw1: ApicHardware, hw2: ApicHardware, layout: Layout)
    requires req.apicType.UnknownApicType?
    ensures PerformActionsForApicRequests(req, hw1, layout) == PerformActionsForApicRequests(req, hw2, layout)
    ensures PerformActionsForApicRequests(req, hw1, layout).request == req.(kernelStatus := ErrorApicActionsError)
  {
  }
}

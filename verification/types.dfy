/**
 Shared vocabulary of the debugger's extension-command handlers: the
 `KernelStatus` codes written into every request header, the fixed-width
 integer types of the request records, and the translation levels.
 */
module DebuggerTypes {

  /** An unsigned 64-bit value (`UINT64`), used for addresses and CR3 values. */
  newtype u64 = x: int | 0 <= x < 0x1_0000_0000_0000_0000

  /** An unsigned 32-bit value (`UINT32`), used for process ids. */
  newtype u32 = x: int | 0 <= x < 0x1_0000_0000

  /** An unsigned 8-bit value (`UINT8`). */
  newtype u8 = x: int | 0 <= x < 256

  /** The value of a request's `KernelStatus` field.
      The four named codes are the ones these handlers write; `Stale` stands
      for whatever the caller left in the field before the call. The numeric
      values of the codes live in a header that is not part of this model. */
  datatype KernelStatus =
    | OperationWasSuccessful        // DEBUGGER_OPERATION_WAS_SUCCESSFUL
    | ErrorInvalidAddress           // DEBUGGER_ERROR_INVALID_ADDRESS
    | ErrorInvalidProcessId         // DEBUGGER_ERROR_INVALID_PROCESS_ID
    | ErrorApicActionsError         // DEBUGGER_ERROR_APIC_ACTIONS_ERROR
    | Stale(code: u32)
  {
    /** True for the codes a handler writes, false for a left-over value. */
    predicate IsWritten() {
      !Stale?
    }
  }

  /** The four levels of an x86-64 page walk, top to bottom. */
  datatype PagingLevel =
    | PageMapLevel4
    | PageDirectoryPointerTable
    | PageDirectory
    | PageTable

  /** The null pointer and the "no translation" result of the resolvers. */
  const NULL: u64 := 0
}

/**
 The hardware and operating-system services the handlers call, as
 uninterpreted oracles. Every field is a collaborator whose implementation
 is outside this model; the handlers are verified for every choice of them.
 Address-space dependent services take the active CR3 value as their first
 argument, so a CR3 switch is visible to them.
 */
module Platform {
  import opened DebuggerTypes

  datatype Platform = Platform(
    /** `PsGetCurrentProcessId`, truncated to 32 bits by `HANDLE_TO_UINT32`. */
    currentProcessId: u32,
    /** `CommonIsProcessExist`. */
    processExists: u32 -> bool,
    /** CR3 that `SwitchToCurrentProcessMemoryLayout` installs (the running process's). */
    runningProcessCr3: u64,
    /** CR3 that `SwitchToProcessMemoryLayout` installs for a process id. */
    processCr3: u32 -> u64,
    /** `VirtualAddressToPhysicalAddress`: resolves against the active CR3; 0 means unmapped. */
    vaToPa: (u64, u64) -> u64,
    /** `PhysicalAddressToVirtualAddress`, against the active CR3. */
    paToVa: (u64, u64) -> u64,
    /** `VirtualAddressToPhysicalAddressOnTargetProcess` (root-mode resolver). */
    vaToPaOnTargetProcess: u64 -> u64,
    /** `PhysicalAddressToVirtualAddressOnTargetProcess` (root-mode resolver). */
    paToVaOnTargetProcess: u64 -> u64,
    /** `VirtualAddressToPhysicalAddressByProcessId`. */
    vaToPaByProcessId: (u64, u32) -> u64,
    /** `PhysicalAddressToVirtualAddressByProcessId`. */
    paToVaByProcessId: (u64, u32) -> u64,
    /** `MemoryMapperGetPteVa`: address of the entry of a level for a virtual
        address, in the active address space; NULL when there is none. */
    pteVa: (u64, u64, PagingLevel) -> u64,
    /** The raw `Flags` qword of the entry stored at an address, in the active address space. */
    entryFlags: (u64, u64) -> u64
  )
}

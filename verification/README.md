# HyperDbg extension-command handlers in Dafny

This project models the request handlers of HyperDbg's kernel debugger in
`hyperdbg/hyperkd/code/debugger/commands/ExtensionCommands.c`. Each handler
turns a debugger request record into a `KernelStatus` code and response
fields. The handlers are modelled as follows:

- `!apic`: `ExtensionCommandPerformActionsForApicRequests` → `Apic.PerformActionsForApicRequests`.
- `!idt`: `ExtensionCommandPerformQueryIdtEntriesRequest` → `Idt.QueryIdtEntries`.
- `!va2pa` and `!pa2va`: `ExtensionCommandVa2paAndPa2va` → `AddressTranslation.Va2paAndPa2va`.
- `!pte`: `ExtensionCommandPte` → the method `PageTableEntries.Pte`.
- `!pcitree`: `ExtensionCommandPcitree` → the method `PciTree.Pcitree`, plus the functional `PciTree.ScanAsWritten`.

Each hardware access and OS service is an uninterpreted oracle. It is a
field of `Platform.Platform`, `Idt.IdtState` or `Apic.ApicHardware`, or the
config-space read `PciTree.ConfigRead`. A field holds either the
collaborator's result (a value such as the current pid, an IDTR base or a
store's success flag) or a function of the collaborator's inputs. What is verified is the
handlers' decision and marshalling logic, for every behaviour of those
collaborators. Services that depend on the address space take the active
CR3 as an argument. This makes the CR3 switches of `!pte` observable.
`!pte` threads the CR3 cell through the method as a value: an entry CR3
goes in, and an exit CR3 and a log of CR3 writes come out.

Files, one module each:

- `types.dfy`: `DebuggerTypes`. It holds the status codes, the fixed-width integers and the paging levels.
- `platform.dfy`: `Platform`. It holds the OS and hardware oracles.
- `apic.dfy`, `idt.dfy`, `translation.dfy`, `pte.dfy`, `pcitree.dfy`: one per handler.

Widths: addresses and CR3 are `u64`, process ids are `u32`, and the PCI loop
counters and `EpNum` are `u8`. All are int-based newtypes. The IDT packing and
the PCI field extraction use bit-vectors (`bv64`, `bv32`, `bv16`, `bv8`), so
they are bit-exact.

## Model

| member | source | states |
|---|---|---|
| `Apic.PerformActionsForApicRequests` | hyperdbg/hyperkd/code/debugger/commands/ExtensionCommands.c:22-81 | The status is success iff the request type is local or IO APIC and that type's store succeeds. Otherwise it is the APIC-actions error, including for an unknown type. The length is header + LAPIC page or header + IO-APIC packets on success, else just the header. `IsUsingX2APIC` changes only on a successful local-APIC read. |
| `Apic.SizeRevealsStatus` | hyperdbg/hyperkd/code/debugger/commands/ExtensionCommands.c:29-80 | With non-empty payload types, the returned length exceeds the header iff the status is success. A failure returns exactly the header. |
| `Apic.UnknownTypeIgnoresHardware` | hyperdbg/hyperkd/code/debugger/commands/ExtensionCommands.c:72-80 | An unknown request type never consults the store collaborators. Only the status changes, to the APIC-actions error. |
| `Idt.PackIdtEntry` | hyperdbg/hyperkd/code/debugger/commands/ExtensionCommands.c:127-129 | In the 64-bit entry, bits 0-15 are `LowPart`, bits 16-31 are `HighPart` and bits 32-63 are `HighestPart`. |
| `Idt.PackUnpackRoundTrip` | hyperdbg/hyperkd/code/debugger/commands/ExtensionCommands.c:127-129 | Packing the three split fields and splitting a 64-bit entry are inverse bijections. |
| `Idt.QueryIdtEntries` | hyperdbg/hyperkd/code/debugger/commands/ExtensionCommands.c:91-136 | The response holds exactly `MAX_NUMBER_OF_IDT_ENTRIES` entries. Entry i unpacks to descriptor i of the table at the chosen base: the guest IDTR in VMX root, otherwise the processor's IDTR. The status is always success. |
| `Idt.IdtBaseProvenance` | hyperdbg/hyperkd/code/debugger/commands/ExtensionCommands.c:102-120 | In VMX root the processor's own IDTR is never consulted. Outside root the guest IDTR is never consulted. |
| `AddressTranslation.Va2paAndPa2va` | hyperdbg/hyperkd/code/debugger/commands/ExtensionCommands.c:145-283 | Virtual→physical writes only the physical address, taken from the chosen resolver. Its status is invalid-address iff that address is NULL, otherwise success. Physical→virtual writes only the virtual address and always succeeds. Invalid-process-id is reported iff the call is outside root mode, for a foreign pid that does not exist. In that case neither address is written. The status is always written. |
| `AddressTranslation.RootModeIgnoresProcess` | hyperdbg/hyperkd/code/debugger/commands/ExtensionCommands.c:148-185 | Root mode never consults the requested pid, the current pid or process existence. |
| `AddressTranslation.SameProcessSkipsExistenceCheck` | hyperdbg/hyperkd/code/debugger/commands/ExtensionCommands.c:192-229 | Outside root mode, a request for the caller's own pid ignores process existence and never reports invalid-process-id. |
| `AddressTranslation.LiveAddressSpaceOnlyForOwnProcess` | hyperdbg/hyperkd/code/debugger/commands/ExtensionCommands.c:148-283 | The active address space affects the result only on the own-process path. |
| `AddressTranslation.OwnProcessTranslationExample` | hyperdbg/hyperkd/code/debugger/commands/ExtensionCommands.c:198-219 | In the caller's own process (pid 4), VA `0x1000` mapped to `0x2000` yields `0x2000` with success. An unmapped VA `0xFFFF0000` yields invalid-address. |
| `PageTableEntries.ReadLevel` | hyperdbg/hyperkd/code/debugger/commands/ExtensionCommands.c:360-365 | One level's record becomes (entry address, raw flags) when the locator returns non-NULL, otherwise it is unchanged. No other level and no other field changes. |
| `PageTableEntries.WalkAll` | hyperdbg/hyperkd/code/debugger/commands/ExtensionCommands.c:357-395 | Each of the four levels is set independently from its own locator result or left unchanged. A missing level never stops the walk. |
| `PageTableEntries.Pte` | hyperdbg/hyperkd/code/debugger/commands/ExtensionCommands.c:292-414 | The result is TRUE iff the status is success. In root mode it is TRUE exactly when the address translates. The root-mode invalid-address return and the invalid-pid return happen before any CR3 switch and leave CR3 unwritten. Outside root mode, the caller's own pid causes no switch. On the paths that switch, including the invalid-address jump to the cleanup label, the saved CR3 is restored when it is non-zero. A saved zero is not restored, so the walked address space stays installed. On success, each record is written iff its locator finds an entry in the walked address space. On failure, all four records are unchanged. |
| `PageTableEntries.PteBatch` | hyperdbg/hyperkd/code/debugger/commands/ExtensionCommands.c:403-411 | Any sequence of `!pte` requests leaves a non-zero CR3 as it found it, whatever each request's outcome. |
| `PciTree.IdSplitRoundTrip` | hyperdbg/hyperkd/code/debugger/commands/ExtensionCommands.c:753-754 | `VendorId` is the low 16 bits and `DeviceId` the high 16 bits of the dword. Together they rebuild it exactly. |
| `PciTree.ClassCodeAsWrittenRepeatsIds` | hyperdbg/hyperkd/code/debugger/commands/ExtensionCommands.c:756-759 | As written, `ClassCode[0..2]` is bytes 3, 2, 1 of a second read of offset 0. That is the device id's high and low bytes and the vendor id's high byte. |
| `PciTree.ScanAsWrittenWellFormed` | hyperdbg/hyperkd/code/debugger/commands/ExtensionCommands.c:740-761 | Every store is for a coordinate whose offset-0 dword is not `0xFFFFFFFF`, and holds the record decoded from that coordinate. Store k goes to index k mod 256. Stores come in strictly increasing (bus, device, function) order. `EpNum` ends as the store count mod 256. |
| `PciTree.ScanAsWrittenBelowCapacity` | hyperdbg/hyperkd/code/debugger/commands/ExtensionCommands.c:740-771 | When no more functions are present than `EP_MAX_NUM`, and fewer than 256, every present coordinate is stored in scan order, and every index is below `EP_MAX_NUM`. |
| `PciTree.FunctionLoopWithinCapacity` | hyperdbg/hyperkd/code/debugger/commands/ExtensionCommands.c:744-767 | The capacity check holds within one device's function loop. A loop entered below `EP_MAX_NUM` stores only below it. |
| `PciTree.CapacityOverrun` | hyperdbg/hyperkd/code/debugger/commands/ExtensionCommands.c:761-766 | Counterexample: with `EP_MAX_NUM` = 1 and functions at 0:0.0 and 0:1.0, the second record is stored at index 1, past the array. |
| `PciTree.Pcitree` | hyperdbg/hyperkd/code/debugger/commands/ExtensionCommands.c:728-781 | The nested `UINT8` loops with the inner-only `break` make exactly the stores of `ScanAsWritten`, and those stores are well formed and ordered. `EndpointsTotalNum` is the store count mod 256. The status is success iff that count is non-zero, else invalid-address. Below capacity, when fewer than 256 functions are present, every present coordinate is stored, inside the array. |
| `PciTree.ScanIntendedStopsAtCapacity` | hyperdbg/hyperkd/code/debugger/commands/ExtensionCommands.c:740-780 | The corrected scan stores exactly the first `EP_MAX_NUM` present coordinates in scan order (all of them when fewer are present). Store k goes to index k, always inside the array. Class codes are read at offset 0x08. With more present functions than the capacity, it stores exactly `EP_MAX_NUM`. |

## Findings

| source | as written | input that shows it | evidently intended | confidence | as-written member | corrected member |
|---|---|---|---|---|---|---|
| hyperdbg/hyperkd/code/debugger/commands/ExtensionCommands.c:762-766 | On reaching `EP_MAX_NUM`, the `break` leaves only the function loop. The scan continues with the next device and stores its first present function at `Endpoints[EP_MAX_NUM]`. | `EP_MAX_NUM` = 1, one bus, two devices, one function, with functions present at 0:0.0 and 0:1.0 | Stop the whole scan once `EP_MAX_NUM` records are stored, as the log message says | high; not executed | `PciTree.CapacityOverrun` | `PciTree.ScanIntendedStopsAtCapacity` |
| hyperdbg/hyperkd/code/debugger/commands/ExtensionCommands.c:756-759 | The class-code dword is read at offset 0 again, so `ClassCode` repeats bytes of the device and vendor ids | any present function, e.g. dword `0x12348086` gives `ClassCode` = `12 34 80` | Read the dword at offset 0x08, whose bytes 3, 2, 1 are class, subclass and programming interface | medium; not executed | `PciTree.ClassCodeAsWrittenRepeatsIds` | `PciTree.ScanIntendedStopsAtCapacity` |

The as-written scan (`PciTree.ScanAsWritten`, `PciTree.Pcitree`) keeps both
defects, because they are how the code behaves. `PciTree.ScanIntended` fixes
both: its three loops all stop once `EpNum` reaches `EP_MAX_NUM`, and it
reads the class code register at offset 0x08.

## Notes on the code

- `!pte` restores CR3 only when the saved value is non-zero (line 408). After a switch from a zero CR3, the walked address space stays installed. `PageTableEntries.Pte` states both outcomes.
- The capacity `break` at line 765 leaves only the innermost loop (first finding).
- The class-code dword is read from offset 0, like the id dword (second finding).
- With `UINT8` counters, a loop bound of 256 or more never terminates. `PciTree.ValidBounds` therefore requires the bus, device and function bounds to be at most 255. `EP_MAX_NUM` is unrestricted for the as-written scan: above 255 the `break` can never fire. The corrected scan keeps `EpNum` as a `UINT8`, so it requires `EP_MAX_NUM` of at most 255 (`PciTree.ValidCapacity`).

## Left out

- The VM-exit control wrappers (lines 416-718): each only forwards its argument to a `Broadcast*` primitive whose code is not part of this model, and their effect is a cross-processor broadcast, i.e. concurrency.
- Resolver and hardware internals: `VirtualAddressToPhysicalAddress*`, `PhysicalAddressToVirtualAddress*`, `MemoryMapperGetPteVa`, `VmFuncApicStore*Fields`, `PciReadCam`, `__sidt`/`GetGuestIdtr`, `CommonIsProcessExist`, `PsGetCurrentProcessId` and the CR3 switch primitives are oracles, because their code is not part of this model and works on raw memory or hardware.
- AddressTranslation.LiveAddressSpaceOnlyForOwnProcess: the root-mode and by-process-id resolvers (`*OnTargetProcess`, `*ByProcessId`) are assumed to pick their address space themselves, independent of the caller's active CR3. Their code is not part of this model, so their oracles take no CR3 argument.
- The CR3 switch primitives are modelled only by their effect on the CR3 cell: a switch saves the current value and installs the target's; the restore installs the saved value.
- Buffer layout (lines 25-27): the payload bytes the APIC store collaborators copy after the header are not modelled; the `sizeof` values are the fields of `Apic.Layout` rather than numbers.
- The numeric values of the status codes: they are defined in a header that is not part of this model, so `KernelStatus` is a datatype with a `Stale` case for the caller's prior contents.
- The `KIDT_ENTRY` fields other than `LowPart`, `HighPart` and `HighestPart`: the handler never reads them.
- `LogError` (line 764): diagnostics only.
- The `OperateOnVmxRoot` argument of `ExtensionCommandPcitree` (line 738): the code never reads it.
- The width of `EndpointsTotalNum` (declared in a header outside this model): it is assigned from the `UINT8` `EpNum`, so its value is modelled as `EpNum`.
- `docs/html/search/defines_4.js`: a generated documentation search index with no logic.
- PciTree.Pcitree: completeness (every present coordinate is stored) is stated only below capacity and for fewer than 256 present functions. Outside that range, the as-written stores are characterised only through `PciTree.ScanAsWritten`, well-formedness and order. This covers `EpNum` wrapping to 0 when `EP_MAX_NUM` exceeds 255, after which later stores reuse earlier indices.

# mitosis core, modelled in Dafny

This project models the core of MITOSIS, a system that forks a process
across machines. A parent process *prepares* itself: the kernel module
captures its registers, page table and memory areas (VMAs) into a
descriptor. That descriptor is serialised once into a buffer and registered
under a key. A child on another machine *resumes* from the key: it fetches
the buffer over RDMA, deserialises it, and serves its page faults by
reading the parent's pages remotely. Besides the kernel side, the project
models the Python driver that launches experiment passes on a cluster over
SSH.

Modules, one per source file or concern:

- `Bytes`, `Wrappers`, `Seqs`: shared support code.
  - `Bytes` covers little-endian u32/u64 encoding, `u64` wrap-around addition, and byte copies into an `array<byte>` at a cursor.
  - `Wrappers` is `Option`.
  - `Seqs` holds generic sequence lemmas.
- `Components`: stand-ins for the sub-descriptors (`RegDescriptor`, `VMADescriptor`, `RDMADescriptor`, `FlatPageTable`). Each has the interface the core relies on.
- `VmaPageTables`: `VMAPageTable`, the per-VMA page table of `fast_descriptors.rs`. Its layout is a count, a pad that keeps the values aligned, every u32 offset, then every u64 value.
- `Descriptors`: `Descriptor`, the flat process descriptor. It provides `serialize`, `deserialize`, `serialization_buf_len` and `lookup_pg_table`.
- `FastDescriptors`: `FastDescriptor`, with one `VMAPageTable` row per VMA. It provides its (de)serialisers and `to_descriptor`.
- `ChildDescriptors`: the child's `deserialize` of the parent's buffer into a remote page map, and `lookup_pg_table` on the result.
- `ShadowProcessServices`: the registry of prepared processes, keyed by the caller's key.
- `SyscallHandlers`: the per-caller state of the device file, with `ioctrl`, prepare, local and remote resume, `Drop` and the page-fault handler.
- `PyValues`: the Python value conversions `exp_scripts/bootstrap.py` relies on (`int(...)` inside `get_order`, and `str_to_bool`).
- `Printers`: `RunPrinter`, which follows the SSH channel of one dispatched pass.
- `Shell`: `Envs`, `Courier2.cd`, the command line `pre_execute` sends together with its retry policy, and `check_keywords`.
- `Scheduling`: the `main` scheduler. For each run file it sorts the passes by `get_order`, cuts the list to `num`, and starts the must-run tier. It then loops, polling printers, advancing `global_execution_order` (the *frontier*) and refilling from the queue.

Shape of the model:

- The byte-level serialisers are methods over `array<byte>`, each proved against a pure layout function (`Encode`). The deserialisers are methods over the byte sequence, each proved equal to a pure `Decode`.
- Round trips (`Decode(Encode(x) + rest) == Some(x)`) are proved as lemmas.
- The registry, the syscall handler, `Envs`, `Courier2`, the SSH channel, `RunPrinter` and the scheduler are classes whose methods update their fields.

What the outside world answers is a parameter:

- the descriptor the kernel captures;
- the DC target pool's answer;
- the bytes a remote resume fetches;
- whether the access information can be built;
- whether a session connects;
- whether a remote page read succeeds;
- which connection or execution attempt of `pre_execute` fails.

An SSH channel is two queues of received chunks (stdout and stderr) plus an exit flag. What the driver prints is returned as a log of tagged chunks.

The scheduler runs in two phases:

- `Scheduler.Load` runs once per run file. The run file's queue replaces the previous one and the frontier restarts at 0, as `execution_queue` and `global_execution_order` are re-bound per file.
- `Scheduler.Round` is one turn of the `while` loop that follows the last file.

## Model

| member | source | states |
|---|---|---|
| Bytes.ReadU32Bytes | mitosis/src/descriptors/child.rs:391 | a u32 written little-endian is read back unchanged, whatever bytes follow it |
| Bytes.ReadU64Bytes | mitosis/src/descriptors.rs:91 | a usize/u64 count written by `memcpy_serialize_at` is read back unchanged by `memcpy_deserialize`, whatever follows it |
| Bytes.WrappingAdd | mitosis/src/descriptors/fast_descriptors.rs:67 | `offset as u64 + start` wraps modulo 2^64: the exact sum below 2^64, the sum minus 2^64 otherwise |
| Bytes.WriteBytes | mitosis/src/descriptors.rs:62 | copying a value into the window at `at` puts exactly its bytes there and leaves every other byte of the buffer unchanged |
| Bytes.Append | mitosis/src/descriptors.rs:63-68 | a serialiser that already wrote `buf[at..cur]` extends that written prefix by exactly the new bytes; nothing outside the new bytes changes |
| Components.DecodeReg | mitosis/src/descriptors.rs:81 | the registers deserialise iff the window holds at least their fixed length, and re-encoding them gives that prefix back |
| Components.RegRoundTrip | mitosis/src/descriptors.rs:47-52 | registers serialised and then deserialised come back equal, whatever follows them |
| Components.VmaRoundTrip | mitosis/src/descriptors.rs:65-67 | a VMA descriptor serialised and then deserialised comes back equal |
| Components.VmaListRoundTrip | mitosis/src/descriptors.rs:62-68 | the VMA count followed by each VMA decodes to the same VMAs in the same order, consuming exactly the bytes written |
| Components.WriteVmaList | mitosis/src/descriptors.rs:62-68 | writes the count, then every VMA in order, right after what is already written; nothing else changes |
| Components.ReadVmaList | mitosis/src/descriptors.rs:88-98 | the VMA loop reads the count and pushes each VMA in buffer order; it fails as soon as a VMA or a truncation fails, exactly as `DecodeVmaList` says |
| Components.DecodeRdma | mitosis/src/descriptors.rs:101 | the machine info deserialises iff the window holds its fixed length, and re-encodes to that prefix |
| Components.RdmaRoundTrip | mitosis/src/descriptors.rs:71 | the machine info serialised and then deserialised comes back equal |
| Components.AddMapping | mitosis/src/descriptors/fast_descriptors.rs:67 | `FlatPageTable::add_one` appends exactly one mapping at the end and keeps all earlier ones in place |
| Components.Translate | mitosis/src/core_syscall_handler.rs:328-334 | a flat page table translates an address iff some entry maps that address |
| Components.TranslationDomain | mitosis/src/core_syscall_handler.rs:328-334 | the translation map is defined exactly on the addresses some entry maps |
| Components.FlatRoundTrip | mitosis/src/descriptors.rs:55-59 | a flat page table serialised and then deserialised gives back the same mappings in the same order |
| VmaPageTables.AddOne | mitosis/src/descriptors/fast_descriptors.rs:27-29 | pushes exactly one `(offset, value)` entry at the end; the table is one longer and the earlier entries are untouched |
| VmaPageTables.AddOneBufLen | mitosis/src/descriptors/fast_descriptors.rs:166-176 | one more entry grows the serialised length by 16 bytes when the count was even (the pad appears) and by 8 when it was odd (the pad goes) |
| VmaPageTables.Decode | mitosis/src/descriptors/fast_descriptors.rs:132-164 | a table that decodes has as many entries as the leading count says, and fits in the buffer |
| VmaPageTables.DecodeShort | mitosis/src/descriptors/fast_descriptors.rs:137-159 | a buffer too short for the count, the pad, the offsets or the values decodes to None |
| VmaPageTables.RoundTrip | mitosis/src/descriptors/fast_descriptors.rs:97-164 | `deserialize(serialize(t))` gives back the same entries in the same order, whatever follows them |
| VmaPageTables.Serialize | mitosis/src/descriptors/fast_descriptors.rs:97-130 | refuses a window shorter than `serialization_buf_len` and writes nothing; otherwise writes exactly the layout and touches no other byte |
| VmaPageTables.WriteLayout | mitosis/src/descriptors/fast_descriptors.rs:107-128 | count, pad, offsets and values are written back to back from the cursor; nothing else changes |
| VmaPageTables.WriteHeader | mitosis/src/descriptors/fast_descriptors.rs:107-118 | the count is written, then a zero u32 exactly when the count is odd |
| VmaPageTables.WriteOffsets | mitosis/src/descriptors/fast_descriptors.rs:120-123 | every entry's u32 offset, in entry order, right after what is already written |
| VmaPageTables.WriteValues | mitosis/src/descriptors/fast_descriptors.rs:125-128 | every entry's u64 value, in entry order, right after the offsets |
| VmaPageTables.ReadOffsets | mitosis/src/descriptors/fast_descriptors.rs:147-152 | succeeds iff the window holds `count` u32s; entry `j` gets the `j`-th offset and value 0 |
| VmaPageTables.ReadValues | mitosis/src/descriptors/fast_descriptors.rs:154-159 | succeeds iff the window holds one u64 per entry; entry `j`'s value becomes the `j`-th u64 and its offset is kept |
| VmaPageTables.Deserialize | mitosis/src/descriptors/fast_descriptors.rs:132-164 | the loops of `deserialize` return exactly the closed-form decoding, and None on every short buffer |
| Descriptors.Encode | mitosis/src/descriptors.rs:111-117 | the layout is exactly `serialization_buf_len` bytes long |
| Descriptors.RoundTrip | mitosis/src/descriptors.rs:39-109 | `deserialize(serialize(d))` reproduces `d`, whatever follows it in the buffer |
| Descriptors.DecodeNeedsWholeLayout | mitosis/src/descriptors.rs:77-109 | a buffer that decodes is at least as long as the decoded descriptor's `serialization_buf_len` |
| Descriptors.LookupPgTable | mitosis/src/core_syscall_handler.rs:328-334 | the descriptor translates a fault address iff its page table has an entry for that address |
| Descriptors.Serialize | mitosis/src/descriptors.rs:39-75 | refuses (writing nothing) iff the window is shorter than `serialization_buf_len`; otherwise writes exactly the layout and nothing else |
| Descriptors.WriteLayout | mitosis/src/descriptors.rs:45-71 | registers, page table, VMA list and machine info are written back to back from the cursor; nothing else changes |
| Descriptors.Deserialize | mitosis/src/descriptors.rs:77-109 | the cursor walk returns exactly the closed-form decoding, None as soon as a component fails |
| FastDescriptors.Encode | mitosis/src/descriptors/fast_descriptors.rs:275-281 | the layout is exactly `serialization_buf_len` bytes long |
| FastDescriptors.VmaPgTableSerializationBufLen | mitosis/src/descriptors/fast_descriptors.rs:82-89 | the loop's total is the row count's usize plus the sum of every row's own `serialization_buf_len` |
| FastDescriptors.DecodePageTables | mitosis/src/descriptors/fast_descriptors.rs:243-253 | the decoded rows fit in the buffer together with the row count |
| FastDescriptors.RowsRoundTrip | mitosis/src/descriptors/fast_descriptors.rs:249-253 | rows written back to back are read back as the same rows in the same order |
| FastDescriptors.PageTablesRoundTrip | mitosis/src/descriptors/fast_descriptors.rs:200-253 | the row count followed by the rows decodes to the same rows |
| FastDescriptors.RoundTrip | mitosis/src/descriptors/fast_descriptors.rs:187-273 | `deserialize(serialize(f))` reproduces `f`, whatever follows it |
| FastDescriptors.Serialize | mitosis/src/descriptors/fast_descriptors.rs:187-234 | refuses (writing nothing) iff the window is too short; otherwise writes exactly the layout and nothing else |
| FastDescriptors.WriteLayout | mitosis/src/descriptors/fast_descriptors.rs:197-231 | registers, rows, VMA list and machine info are written back to back; nothing else changes |
| FastDescriptors.WriteRows | mitosis/src/descriptors/fast_descriptors.rs:200-215 | the row count, then every row's layout in row order, after what is already written |
| FastDescriptors.ReadPageTables | mitosis/src/descriptors/fast_descriptors.rs:242-253 | reads the row count and the rows exactly as `DecodePageTables` says |
| FastDescriptors.ReadRows | mitosis/src/descriptors/fast_descriptors.rs:249-253 | the row loop pushes each row in buffer order and fails with the first row that fails |
| FastDescriptors.ReadRow | mitosis/src/descriptors/fast_descriptors.rs:250-252 | one turn of the row loop: a row that fails fails the whole loop, and a row that decodes is pushed and the cursor moves past it |
| FastDescriptors.Deserialize | mitosis/src/descriptors/fast_descriptors.rs:236-273 | the cursor walk returns exactly the closed-form decoding |
| FastDescriptors.ToDescriptor | mitosis/src/descriptors/fast_descriptors.rs:61-77 | the flat table holds the mappings of every row in row order, each offset moved by its VMA's start; registers, VMAs and machine info are copied |
| FastDescriptors.FlattenAt | mitosis/src/descriptors/fast_descriptors.rs:64-68 | entry `j` of row `i` lands right after the entries of all earlier rows, mapped from its offset plus VMA `i`'s start (wrapping) to its physical address |
| ChildDescriptors.Deserialize | mitosis/src/descriptors/child.rs:340-422 | the cursor walk returns exactly the closed-form decoding, None as soon as a read or a truncation fails |
| ChildDescriptors.ReadAreaAt | mitosis/src/descriptors/child.rs:362-401 | one VMA turn: its descriptor, its page count and pad, then its pages mapped into the table |
| ChildDescriptors.ReadPagesAt | mitosis/src/descriptors/child.rs:390-401 | the page loop maps each page's offset plus the VMA's start to its address, in buffer order, and fails when fewer than 12 bytes remain |
| ChildDescriptors.ReadPageCountOf | mitosis/src/descriptors/child.rs:371-388 | reads the page count, then skips a u32 pad exactly when the count is odd |
| ChildDescriptors.PagesRoundTrip | mitosis/src/descriptors/child.rs:390-401 | interleaved (offset, address) pairs read back map every page in order, consuming exactly their bytes |
| ChildDescriptors.PageCountRoundTrip | mitosis/src/descriptors/child.rs:371-388 | a count followed by its pad reads back as the count, with the cursor right after the pad |
| ChildDescriptors.AreaRoundTrip | mitosis/src/descriptors/child.rs:362-401 | one VMA with its pages reads back as that VMA and its pages mapped |
| ChildDescriptors.AreasRoundTrip | mitosis/src/descriptors/child.rs:361-402 | all VMAs read back in buffer order, with every VMA's pages mapped in turn |
| ChildDescriptors.RoundTrip | mitosis/src/descriptors/child.rs:340-422 | the child rebuilds exactly the parent's registers, VMAs, machine info and page map, whatever follows the buffer |
| ChildDescriptors.AreasCount | mitosis/src/descriptors/child.rs:361-366 | the VMA loop pushes exactly `count` VMAs, after those already pushed |
| ChildDescriptors.DecodedVmaCount | mitosis/src/descriptors/child.rs:350-366 | a decoded child descriptor has exactly as many VMAs as the count in the buffer |
| ChildDescriptors.MapPagesHas | mitosis/src/descriptors/child.rs:397-400 | after mapping a VMA's pages, an address is mapped iff it was mapped before or some page lands on it |
| ChildDescriptors.MapPagesLast | mitosis/src/descriptors/child.rs:397-400 | the last page mapped at an address decides its translation |
| ChildDescriptors.MapAreasHas | mitosis/src/descriptors/child.rs:361-402 | after all VMAs, an address is mapped iff it was mapped before or some page of some VMA lands on it |
| ChildDescriptors.MapAreasOther | mitosis/src/descriptors/child.rs:361-402 | VMAs none of whose pages land on an address leave its translation as it was |
| ChildDescriptors.MapAreasLast | mitosis/src/descriptors/child.rs:361-402 | the last page of the whole buffer that lands on an address decides its translation |
| ChildDescriptors.LookupUnmapped | mitosis/src/descriptors/child.rs:67-72 | on the rebuilt descriptor, `lookup_pg_table` answers None iff no page of the buffer lands on the address |
| ChildDescriptors.LookupLast | mitosis/src/descriptors/child.rs:67-72 | on the rebuilt descriptor, `lookup_pg_table` answers the address of the last page of the buffer that lands there |
| ShadowProcessServices.NewBundle | mitosis/src/shadow_process_service.rs:26-46 | the bundle's buffer holds the descriptor's serialisation, and the bundle keeps the process and exactly the one target |
| ShadowProcessServices.ShadowProcessService.constructor | mitosis/src/shadow_process_service.rs:54-58 | the registry starts empty |
| ShadowProcessServices.ShadowProcessService.QueryDescriptorBuf | mitosis/src/shadow_process_service.rs:60-64 | a buffer is returned iff the key is registered, and it deserialises back to the registered descriptor |
| ShadowProcessServices.ShadowProcessService.QueryDescriptor | mitosis/src/shadow_process_service.rs:66-73 | a descriptor is returned iff the key is registered |
| ShadowProcessServices.ShadowProcessService.AddMyself | mitosis/src/shadow_process_service.rs:75-117 | succeeds iff the key is free and the pool answers; on failure nothing changes; on success exactly the key is added, with the captured descriptor carrying the pool's machine info |
| ShadowProcessServices.ShadowProcessService.AddMyselfCopy | mitosis/src/shadow_process_service.rs:75-95 | as `AddMyself`, registering a copied shadow process; every other key keeps its bundle |
| ShadowProcessServices.ShadowProcessService.AddMyselfCow | mitosis/src/shadow_process_service.rs:97-117 | as `AddMyself`, registering a copy-on-write shadow process; every other key keeps its bundle |
| ShadowProcessServices.ShadowProcessService.Unregister | mitosis/src/shadow_process_service.rs:119-121 | removes the key and nothing else (a missing key changes nothing); both queries then answer None |
| SyscallHandlers.SyscallHandler.constructor | mitosis/src/core_syscall_handler.rs:53-67 | a freshly opened caller has neither a prepared key nor a resumed descriptor |
| SyscallHandlers.SyscallHandler.Ioctl | mitosis/src/core_syscall_handler.rs:71-129 | `Nil` answers 0 and an unknown command -1, changing nothing; `Connect` answers 0 iff the session connects; prepare, local resume and remote resume each answer 0 exactly under their own success conditions and then leave the state their handler leaves (the key remembered and registered with nothing else in the registry changed; the resumed descriptor remembered), and on -1 keep the caller's state and the registry; every answer is 0 or -1 |
| SyscallHandlers.SyscallHandler.SyscallPrepare | mitosis/src/core_syscall_handler.rs:149-167 | a second prepare is refused with nothing changed; otherwise it succeeds iff the registry takes the key, and only then is the key remembered and the captured descriptor (copy or copy-on-write as the build selects) registered under it, every other registered key keeping its bundle |
| SyscallHandlers.SyscallHandler.SyscallLocalResume | mitosis/src/core_syscall_handler.rs:170-190 | succeeds iff nothing was resumed yet and the handler id is registered; then the caller keeps the registered descriptor; on failure nothing changes |
| SyscallHandlers.SyscallHandler.SyscallRemoteResume | mitosis/src/core_syscall_handler.rs:194-288 | succeeds iff nothing was resumed yet, the fetch succeeded, the bytes deserialise and access information can be built; then the caller keeps the decoded descriptor; on failure nothing changes |
| SyscallHandlers.SyscallHandler.Drop | mitosis/src/core_syscall_handler.rs:40-48 | unregisters the prepared key if there is one and leaves every other registration alone |
| SyscallHandlers.SyscallHandler.HandlePageFault | mitosis/src/core_syscall_handler.rs:324-374 | reads from the resumed descriptor's translation of the fault address; the fault is SIGSEGV iff the address is unmapped or the remote read fails, and 0 otherwise |
| PyValues.PyInt | exp_scripts/bootstrap.py:367 | `int(v)`: an int is itself, a bool is 0 or 1, a finite float is truncated toward zero, a string is parsed, and anything else (inf, nan, arrays, tables) raises |
| PyValues.TruncToward | exp_scripts/bootstrap.py:367 | `int` of a finite float truncates toward zero: the result times the denominator lies between the numerator and zero, within one denominator |
| PyValues.ParseShow | exp_scripts/bootstrap.py:367 | `int(str(n)) == n` for every integer |
| PyValues.ParsePadded | exp_scripts/bootstrap.py:367 | `int()` of a string ignores the whitespace around the literal |
| PyValues.GetOrder | exp_scripts/bootstrap.py:365-369 | `get_order` never raises: the converted `order` when conversion succeeds, and 0 when the key is missing or `int()` raises |
| PyValues.GetOrderOfShown | exp_scripts/bootstrap.py:365-369 | an order written as the string of a number reads back as that number |
| PyValues.StrToBool | exp_scripts/bootstrap.py:356-362 | a bool passes through; a string gives False iff its lower case is a false spelling, True iff it is a true spelling, and None (the function falls off its end) otherwise |
| PyValues.StrToBoolOfShown | exp_scripts/bootstrap.py:356-362 | `str_to_bool("True")` is True and `str_to_bool("False")` is False |
| Printers.Channel.Recv | exp_scripts/bootstrap.py:33 | `recv` returns the oldest unread stdout chunk and removes just that chunk |
| Printers.Channel.RecvStderr | exp_scripts/bootstrap.py:38 | `recv_stderr` returns the oldest unread stderr chunk and removes just that chunk |
| Printers.RunPrinter.constructor | exp_scripts/bootstrap.py:26-29 | the printer keeps its name, its channel and its order |
| Printers.RunPrinter.PrintOne | exp_scripts/bootstrap.py:31-55 | answers running iff the exit status had not arrived; prints one chunk of stdout then one of stderr; once exited it drains both, so both queues are left empty; while running only the printed heads are removed |
| Printers.DrainStdout | exp_scripts/bootstrap.py:44-47 | the loop prints every unread stdout chunk in order and empties stdout, leaving stderr and the exit flag alone |
| Printers.DrainStderr | exp_scripts/bootstrap.py:48-51 | the loop prints every unread stderr chunk in order and empties stderr, leaving stdout and the exit flag alone |
| Printers.DrainsEverything | exp_scripts/bootstrap.py:31-53 | once the exit status is ready, `print_one` loses nothing: all of stdout is printed in order, and all of stderr |
| Printers.RunningPrintsHeads | exp_scripts/bootstrap.py:31-40 | while the pass runs, `print_one` prints at most the oldest chunk of each stream |
| Printers.OutsOnly | exp_scripts/bootstrap.py:33-40 | chunks read from stdout show up only as stdout output, and chunks from stderr only as stderr output |
| Printers.StdoutOfAppend | exp_scripts/bootstrap.py:31-51 | the stdout (and stderr) part of two logs printed one after the other is the concatenation of their parts |
| Shell.Envs.constructor | exp_scripts/bootstrap.py:76-82 | both the values and the history start empty |
| Shell.Envs.Set | exp_scripts/bootstrap.py:84-86 | the values become exactly the given pairs, and their names are appended to the history in order |
| Shell.Envs.Add | exp_scripts/bootstrap.py:91-93 | the name is appended to the history (again, if it is already there) and its value set |
| Shell.Envs.Append | exp_scripts/bootstrap.py:95-96 | raises iff the name has no value, and then changes nothing; otherwise the value is extended with `:` and the new part; the history is unchanged |
| Shell.Envs.Delete | exp_scripts/bootstrap.py:98-100 | raises iff the name is missing from the history or has no value; a name in the history loses its first entry even when its missing value then raises; the value is dropped only when nothing raises |
| Shell.Envs.ToString | exp_scripts/bootstrap.py:102-106 | raises iff some history entry has no value; otherwise the result is one export line per history entry, in history order |
| Shell.AddedExport | exp_scripts/bootstrap.py:91-106 | `add` of a new name makes `str(envs)` gain exactly its export line, at the end |
| Shell.DeletedExport | exp_scripts/bootstrap.py:98-106 | `delete` of a name that occurs once removes exactly its export line from `str(envs)` |
| Shell.DeleteOfTwiceAdded | exp_scripts/bootstrap.py:91-106 | a name added twice and deleted once leaves a history entry with no value, so `str(envs)` raises |
| Shell.ExportsAppend | exp_scripts/bootstrap.py:102-106 | the exports of two histories one after the other are the concatenation of their exports |
| Shell.ExportsIgnore | exp_scripts/bootstrap.py:102-106 | a value that no history entry names does not show in `str(envs)` |
| Shell.ExportsDrop | exp_scripts/bootstrap.py:102-106 | removing a value that no history entry names does not change `str(envs)` |
| Shell.Courier.constructor | exp_scripts/bootstrap.py:216-225 | the courier starts in `.` with empty exports |
| Shell.Courier.Cd | exp_scripts/bootstrap.py:227-233 | an absolute directory replaces the current one; a relative one is appended after `/`; the exports are unchanged |
| Shell.HomeIsNotAbs | exp_scripts/bootstrap.py:230-231 | the `~` branch of `cd` cannot be taken, because `~` is not absolute |
| Shell.CommandLineSplits | exp_scripts/bootstrap.py:292 | the command line is `cd `, the directory, `;`, then the exports and the command; when the directory has no `;` it splits back into those two parts |
| Shell.PreExecuteAttempts | exp_scripts/bootstrap.py:298-327 | at most `retry_count + 1` attempts, all with the same command line and pty; a connection error ends it at once with no attempt; an export failure sends nothing; only the first attempt may run in the background; a positive timeout grows by 2 per retry |
| Shell.PreExecuteStarted | exp_scripts/bootstrap.py:315-320 | `pre_execute` reports a started command only with what one of its attempts returned |
| Shell.MatchesAre | exp_scripts/bootstrap.py:57-73 | the collected lines are exactly the input lines that contain every keyword and no black keyword |
| Shell.CheckKeywords | exp_scripts/bootstrap.py:57-73 | the count is the number of such lines |
| Scheduling.InsertPerm | exp_scripts/bootstrap.py:416 | inserting one pass adds exactly that pass and keeps every other |
| Scheduling.InsertSorted | exp_scripts/bootstrap.py:416 | inserting into a sorted queue keeps it sorted |
| Scheduling.InsertStable | exp_scripts/bootstrap.py:416 | among the elements of any one key, the inserted element comes first and the others keep their order |
| Scheduling.SortSorted | exp_scripts/bootstrap.py:416 | the key sort orders by key and is a permutation of its input |
| Scheduling.SortStable | exp_scripts/bootstrap.py:416 | the key sort is stable: elements with the same key keep their input order |
| Scheduling.SortByOrderSorts | exp_scripts/bootstrap.py:414-416 | the run file's passes come out sorted by `get_order`, all of them, with passes of equal order in run-file order |
| Scheduling.Take | exp_scripts/bootstrap.py:419 | `q[0:num]` is a prefix of `q`, of length `min(num, len(q))`; a negative `num` counts from the end |
| Scheduling.TakeSorted | exp_scripts/bootstrap.py:414-419 | cutting a sorted queue keeps it sorted |
| Scheduling.PrefixLenIs | exp_scripts/bootstrap.py:421-426 | the must-run length is the one whose prefix is all at or below the frontier while the next pass (if any) is above it |
| Scheduling.PrefixLenSorted | exp_scripts/bootstrap.py:421-428 | after the sort, no pass beyond the must-run tier is at or below the frontier |
| Scheduling.SplitMustRun | exp_scripts/bootstrap.py:421-428 | the tier and the rest concatenate back to the queue; every tier pass is at or below the frontier and the rest starts above it |
| Scheduling.FollowsOf | exp_scripts/bootstrap.py:447-448 | passes whose host is null never get a printer, and every printer follows one of the dispatched passes |
| Scheduling.EmitRespects | exp_scripts/bootstrap.py:431-448 | for any tier whose reached passes can be read, the must-run loop never dispatches a blacklisted host, follows only non-null and non-blacklisted tier passes, never counts past `num + 1`, and binds `i` once the tier is not empty |
| Scheduling.EmitReadsRunnable | exp_scripts/bootstrap.py:431-442 | a tier of passes that all have a host, command and path is always readable by the must-run loop, wherever it stops |
| Scheduling.FollowUnlessNull | exp_scripts/bootstrap.py:447-448 | a printer is added for the pass iff its host is not null, over a newly opened channel that has received nothing; earlier printers are kept and each follows its own channel |
| Scheduling.StartMustRun | exp_scripts/bootstrap.py:431-448 | the loop's dispatches, local runs, printers, counter and index are exactly what `Emit` computes; `i` stays unbound only when the tier is empty |
| Scheduling.LoadRunFile | exp_scripts/bootstrap.py:414-448 | asking only what `main` reads (the reached tier passes' fields and the queued passes' host, command and path), sorts, cuts to `num`, starts the must-run tier, and returns a queue whose head is above the frontier 0 |
| Scheduling.LoadReadsRunnable | exp_scripts/bootstrap.py:414-448 | a run file of fully runnable passes meets what loading requires, so the requirement is weaker than runnability |
| Scheduling.CutPassNeedsNothing | exp_scripts/bootstrap.py:419 | a run file whose second pass has only an order loads with `num = 1`, because the cut drops that pass before anything reads it |
| Scheduling.LocalPassNeedsNoPath | exp_scripts/bootstrap.py:440-442 | a local must-run pass without a path loads, because `subprocess.run` only needs its command |
| Scheduling.SkippedPassesNeedNoCommand | exp_scripts/bootstrap.py:432-436 | a blacklisted pass with only a host loads, and so does a pass with only an order once `runned` is past `num` |
| Scheduling.AdvanceBounds | exp_scripts/bootstrap.py:456-461 | the frontier never goes down and rises by at most the number of finished printers |
| Scheduling.AdvanceNothingDone | exp_scripts/bootstrap.py:456-461 | with no printer finished, the frontier stays where it is |
| Scheduling.KeptCount | exp_scripts/bootstrap.py:455-463 | `temp` keeps exactly the printers still running |
| Scheduling.KeptOwnChannels | exp_scripts/bootstrap.py:455-463 | the printers that are kept still follow pairwise different channels |
| Scheduling.PollAll | exp_scripts/bootstrap.py:456-461 | the `for p in printer` loop prints what polling each channel prints, keeps the running printers in order, advances the frontier for each finished one, and leaves each channel drained if it had exited and one chunk lighter on each queue otherwise |
| Scheduling.PollOne | exp_scripts/bootstrap.py:457-461 | one turn polls printer `i`, keeps it if it runs, and otherwise raises the frontier when it is at most the printer's order; channel `i` is left as `print_one` leaves it, and no other channel changes |
| Scheduling.PopReady | exp_scripts/bootstrap.py:466-477 | the refill loop dispatches exactly the longest queue prefix at or below the frontier and follows its non-null passes with printers over newly opened, empty channels; the new head (if any) is above the frontier |
| Scheduling.PopOne | exp_scripts/bootstrap.py:467-475 | one turn pops and dispatches the head and follows it unless its host is null, over a newly opened, empty channel |
| Scheduling.Scheduler.constructor | exp_scripts/bootstrap.py:395-396 | no printers, an empty queue, frontier 0, `runned` 0 and `i` unbound |
| Scheduling.Scheduler.Load | exp_scripts/bootstrap.py:398-448 | one run file: the queue becomes the sorted, cut passes beyond the must-run tier, the frontier restarts at 0, and the tier's dispatches and printers are appended |
| Scheduling.Scheduler.Sweep | exp_scripts/bootstrap.py:455-463 | polls every printer, keeps the running ones and advances the frontier, which never goes down; every channel is left as one `print_one` leaves it; queue and counters are unchanged |
| Scheduling.Scheduler.Refill | exp_scripts/bootstrap.py:466-477 | pops and dispatches the queue prefix at or below the frontier, follows its non-null passes with printers named after the must-run index over newly opened, empty channels, and leaves the queue head above the frontier |
| Scheduling.Scheduler.Round | exp_scripts/bootstrap.py:454-477 | continues iff printers or queue remain; a round is a sweep then a refill: every old channel is left as one `print_one` leaves it, the kept printers are followed by printers over newly opened, empty channels; the frontier never goes down, and each printer keeps following its own channel |
| Scheduling.Scheduler.RoundSpins | exp_scripts/bootstrap.py:454-477 | with no printer left and the queue's head above the frontier, a round answers that the loop goes on, prints and dispatches nothing, and leaves printers, queue and frontier as they were, so the same condition holds again and the loop never ends |

## Left out

- SSH, SFTP and the connection proxy are not modelled: `ConnectProxy`, `Courier2.get_file`, `copy_file`, `execute`, the connection attempt itself and `subprocess.run`. Their outcomes are parameters, and local runs are recorded by command.
- Run files and the command line are parameters: `toml.load`, `argparse` and the `~/.ssh/config` parsing are not modelled.
- `Envs.load` and `Envs.store` (pickle files) are not modelled. `load` always raises (the script never imports `pickle`), so a new `Envs` starts empty.
- Printed text is not modelled: UTF-8 decoding, `splitlines`, `strip` and the `@name` prefix. A chunk is printed as one unit, and the 8192-byte receive limit is not modelled.
- The `while` loop of `main` is modelled one round at a time (`Scheduler.Round`), and its termination is not proved because it does not always terminate. It stops only when every remote pass exits and each tier's order is reached. Once no printer is left and the head of the queue has an order above the frontier, the loop spins forever (`Scheduler.RoundSpins`). Two passes with orders 0 and 5 reach that state, and so does a tier whose hosts are all `null`, because such passes get no printer and never raise the frontier.
- Bytes.WrappingAdd: wraps modulo 2^64, which is the meaning of `offset as u64 + start` (mitosis/src/descriptors/fast_descriptors.rs:67, mitosis/src/descriptors/child.rs:397) in a build without overflow checks; a build with them would panic instead, which is not modelled.
- SyscallHandlers.SyscallHandler.Ioctl: the `Connect` command's GID is taken as a `string`; the kernel module panics when the 39 bytes copied from the caller are not valid UTF-8 (mitosis/src/core_syscall_handler.rs:119), which is not modelled.
- `execute_w_channel` is assumed to hand back a channel. Its `(None, e)` answer on a connection error, and `None` when executing raises, are not modelled, because a `RunPrinter` over `None` raises on its first poll.
- Scheduling.LoadRunFile, Scheduling.Scheduler.Load, Scheduling.StartMustRun, Scheduling.Emit and Scheduling.EmitRespects require only what `main` reads, and the crash when it reads a missing field is not modelled. For a must-run pass the loop reaches, it reads the host, then the command unless the host is blacklisted, then the path unless the pass is local. Passes dropped by the cut to `num` and passes after the `runned > num` break are not read at all. Every pass left in the queue must have a string host, command and path, because the refill loop reads all three when it pops one (exp_scripts/bootstrap.py:471-473). This also excludes a run file whose malformed queued pass would never be popped, because the loop spins first. Hosts, commands and paths of other types are excluded too: they reach string concatenation or SSH code that is not modelled.
- PyValues.ParseInt: `int()` on strings covers ASCII digits, one sign and single underscores between digits. Other Unicode digits, Unicode whitespace and radix prefixes are not modelled.
- Components: reg.rs, vma.rs, rdma.rs and page_table.rs are not part of this model.
  - `RegDescriptor`, `VMADescriptor` and `RDMADescriptor` are stand-ins with fixed serialised lengths of 168, 32 and 64 bytes.
  - `FlatPageTable` is a count followed by (virtual, physical) pairs.
- Components.Translate: `FlatPageTable::translate` is taken to look an address up exactly, the later entry for an address winning. Page-granular lookup is not modelled.
- The `RemotePageTable` the child fills (mitosis/src/descriptors/child.rs:42, 68-71, 397-399) is not part of this model. It is an exact-address map (`ChildDescriptors.PageMap`) in which `map` on an address already mapped replaces the old mapping, and `translate` looks an address up exactly. Its own layout and page-granular lookup are not modelled.
- `BytesMut` from os_network is not part of this model. A buffer is a byte sequence: `truncate_header(n)` gives the bytes after the first `n` and fails iff fewer than `n` remain; `memcpy_deserialize` reads a value's bytes little-endian and fails iff the buffer is shorter than the value.
  - `VMADescriptor::serialization_buf_len` is taken equal to `size_of::<VMADescriptor>()`.
- FastDescriptors.ToDescriptor requires at least as many VMAs as page-table rows, because indexing `vma[vma_idx]` panics otherwise.
- ChildDescriptors.ReadPagesAt: `read_unaligned_at_head` reads past a window that is too short before the truncation that follows fails. The read value is then discarded, so only the resulting None is modelled.
- `ChildDescriptor::serialize` and `serialization_buf_len` are `unimplemented!()`, so they are not modelled. The parent's buffer layout the child reads is stated independently (`ChildDescriptors.Encode`).
- Kernel, RDMA and RPC work is not modelled, and its outcomes are parameters:
  - `apply_to`, `ShadowProcess::new_copy`/`new_cow` and `RDMADescriptor::new_from_dc_target_pool`;
  - the RPC and one-sided read of the remote resume, `remote_read` and page allocation;
  - the `prefetch` feature, `syscall_connect_session`'s probe, `_copy_from_user` and `MY_VM_OP`.
- SyscallHandlers.SyscallHandler.HandlePageFault: the page-fault handler panics when nothing was resumed (`unwrap` on `resume_related`). The method requires a resumed descriptor instead.
- SyscallHandlers.SyscallHandler.SyscallRemoteResume: a missing RPC caller, a failed `sync_call` and a failed `register_recv_buf` panic in the kernel module (mitosis/src/core_syscall_handler.rs:203-206, 218-224, 234-236) and are not modelled. An error reply, a reply that does not decode and a failed one-sided read all answer -1 and arrive as `fetched == None`.
- SyscallHandlers.SyscallHandler.SyscallLocalResume: its `AccessInfo::new(...).unwrap()` is assumed to succeed, and the `AccessInfo` itself is not stored.
- Keys and counts are unbounded naturals. Every `Vec` length is required to fit in a usize (`WellSized`), and `c_ulong` keys are not truncated to `usize`.
- Concurrency is not modelled: the kernel registry is a global shared between callers, and the model passes it explicitly.
- The experiment functions, the lean-container library and the network daemon are outside the modelled core.

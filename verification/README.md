# wdk-safe, verified

A Dafny model of WDM I/O dispatch as `wdk-safe` and its example drivers perform it: building and taking apart
stacks of filter devices, passing I/O request packets (IRPs) down them, discharging each IRP exactly once,
echoing a value through the shared buffer of a buffered I/O control call, and the encoders behind
`define_ioctl!`. `dafny verify dfyconfig.toml` checks the whole project.

## How it is built

| file | models |
|---|---|
| `Options.dfy`, `Wdm.dfy`, `NtStatuses.dfy` | an option type; the WDK constants and the status codes in use |
| `Bytes.dfy` | little-endian reads and writes of raw memory |
| `Ioctl.dfy` | `IoControlCode`, `IoStackOffsets` |
| `Irps.dfy` | the IRP, its stack locations and cursor, as a value and as an object updated in place |
| `Requests.dfy` | `IoRequest`: linear ownership of an IRP, and the field readers |
| `Routing.dfy` | the specification of pass-through dispatch, on values |
| `WdmDriver.dfy` | the default callbacks of the trait |
| `DeviceStacks.dfy` | device objects, the driver's device list, attachment, and the kernel calls on them |
| `DispatchTable.dfy` | hid-filter's DriverEntry and what the table it leaves forwards |
| `HidFilter.dfy` | hid-filter's AddDevice and DriverUnload |
| `Dispatch.dfy` | hid-filter's dispatch code, down a whole stack |
| `Ways.dfy` | what AddDevice and DriverUnload do to the way down every stack |
| `Runs.dfy` | hid-filter's whole life, against a state machine over sequences of filters |
| `Echo.dfy` | ioctl-echo's dispatch code over raw bytes |
| `EchoLifecycle.dfy` | ioctl-echo's load and unload |
| `EndToEnd.dfy` | a device-control call from user mode through any number of filters to ioctl-echo and back |
| `DefineIoctl.dfy`, `AliasNames.dfy` | the macro: parser, option resolution, alias names |

The main results:

- **Whole runs** (`Runs.Run`, `Runs.Step`). From DriverEntry on, with any table beforehand, any sequence of
  attachments, sends and unloads, and any answers of the kernel, the system goes through the states of a small
  state machine (`Runs.After`) and answers the i-th event with the i-th reply it prescribes (`Runs.ReplyAt`): an IRP
  is sent exactly when the size of the top device leaves room for it, with the event's own slot, header and buffer on
  top of lower stack locations that hold anything.
  About that state machine: every reply of a forwarded major function is the answer of the device that was on top
  before hid-filter came (`Runs.EveryReplyDirect`), exactly-once completion carries over to every reply
  (`Runs.ReplyCompletedOnce`), and after an unload every filter ever created has been deleted exactly once
  (`Runs.EachDeletedOnce`).
- **Filter transparency** (`Routing.Transparent`, `Dispatch.IofCallDriver`, `DispatchTable.TransparentIff`,
  `HidFilter.ReachesBaseTop`). A forwarded IRP, the power route included, reaches the device that was on top before
  hid-filter was loaded, in the slot it would have had there, and the final IRP and status are that driver's. That
  driver is an arbitrary function of its device and the whole IRP. The six assigned major functions are always
  forwarded, any other exactly when its table slot was not taken by someone else; a taken slot answers for the
  topmost filter.
- **Unload** (`HidFilter.DriverUnload`). From every reachable state, each filter is detached and deleted exactly
  once, no deleted device is looked at, and the other drivers' devices end up stacked as they were at the start.
- **Publication order** (`HidFilter.AddDevice` and the steps it is made of). Every step keeps the invariant that a
  device with DO_DEVICE_INITIALIZING clear is complete, in its flags exactly; both failure exits change nothing.
- **Exactly-once discharge** (`Dispatch.Handle`, `Dispatch.Thunk`, `Echo.Dispatch`, `Routing.CompletedOnce`).
- **End-to-end echo** (`EndToEnd.DeviceIoControl`, `Echo.EchoAnswersIff`). What ioctl-echo answers to any
  device-control IRP, in terms of its bytes. From user mode, the exact reply for every code, every pair of buffer
  lengths, every buffer content and every stack of filters, in both cases: the filters forward device-control IRPs, or
  the I/O manager's own routine holds their table's slot.
- **The macro** (`DefineIoctl.Parse`, `DefineIoctl.ExpansionDeclares`, `DefineIoctl.ExpandsIff`,
  `DefineIoctl.ExpansionsCollideIff`, `Ioctl.NewCollidesIff`, `Ioctl.NewNumber`). The parser accepts exactly its grammar
  and otherwise gives the error of the one place where the tokens stop being the beginning of an invocation; what an
  accepted invocation declares is stated in terms of its tokens, and the packed control code as a number; which
  invocations expand, which of them share an alias and which share a control code is characterised exactly.

What the code does where its own comments say otherwise:

- `IoRequest::complete` is documented to report zero bytes. It never writes IoStatus.Information, so a request that
  arrives with seven bytes reported leaves with seven (`Requests.CompleteReportsStaleBytes`, and for the create and
  close requests of ioctl-echo `Echo.CreateReportsStaleBytes`); it reports zero exactly when the field was zero
  already (`Requests.CompleteReportsZeroIff`).
- The comment on `irp_skip_current_stack` asks for `CurrentLocation < StackCount`. With a fresh IRP every filter, on
  whatever level, runs with the two equal (`Irps.TopRunsAtItsCount`, `Routing.SkipsBelowCountIff`); the model requires
  `CurrentLocation <= StackCount`.
- `driver_entry_inner` fills only empty table slots, under a comment saying that it fills all of them. In a table
  the I/O manager has filled, as it does for a new driver object, nothing but the six assigned major functions is
  forwarded (`DispatchTable.FilledTable`); writes and device-control requests are not
  (`DispatchTable.NewTableBlocks`). Exactly which are forwarded is `DispatchTable.ForwardsIff` and, in terms of
  answers, `DispatchTable.TransparentIff`.
- The function number of `IoControlCode::new` is not masked, although a code is called validated; larger numbers
  spill into the neighbouring fields (`Ioctl.NewDecoded`, `Ioctl.OversizedFunctionCollides`), and
  `Ioctl.NewCollidesIff` says exactly which declarations then share a code.
- `derive_alias_names` panics, and with it the macro, on some valid constant names: `_1` gives the string `1Input`,
  which is no identifier (`AliasNames.UnderscoreDigitHasNone`). It happens exactly when a digit comes first once the
  leading underscores are gone (`AliasNames.HasAliasesIff`).
- Alias names of distinct constants can collide: by a word that starts with a digit (A_2 and A2), by an empty word
  (A__B and A_B, _A and A), by a lower-case letter (ab and AB). Two names share their aliases exactly when they have
  one normal form, in upper case, without empty words, and with words that start with a digit joined to the word
  before (`DefineIoctl.ExpansionsCollideIff`, `AliasNames.AliasesCollideIff`); the names in normal form are the ones in
  SCREAMING_SNAKE_CASE (`AliasNames.RecoverableIff`).

## Model

| member | source | states |
|---|---|---|
| Bytes.StoreFrame | crates/wdk-safe/src/request.rs:98-219 | a store through a field pointer is seen by reads of that field and by no read of bytes apart from it |
| Bytes.Decode32 | crates/wdk-safe/src/request.rs:102-108 | a `u32` stored in memory is the one read back |
| Bytes.Decode64 | crates/wdk-safe/src/request.rs:171-186 | likewise for pointers and `usize` |
| Bytes.ByteWeights32 | crates/wdk-safe/src/request.rs:102-108 | the first byte in memory weighs 1 and each next one 256 times as much |
| Bytes.ByteWeights64 | crates/wdk-safe/src/request.rs:171-186 | likewise for the two halves of a 64-bit field |
| Bytes.StoreLoaded32 | examples/ioctl-echo/ioctl-echo/src/lib.rs:203-229 | writing back the value just read leaves every byte as it was |
| Bytes.WriteBytes | crates/wdk-safe/src/irp.rs:270-274 | a write through a pointer changes exactly the bytes it covers |
| Ioctl.NewDecoded | crates/wdk-safe/src/ioctl.rs:104-168 | what all four accessors return for every input of `new`, the bits of an oversized function number included |
| Ioctl.NewNumber | crates/wdk-safe/src/ioctl.rs:39-115 | for every twelve-bit function number, method and access, the code as a number: device type times 65536, access 0 to 3 times 16384, function times 4, method 0 to 3 |
| Ioctl.CodeNumber | crates/wdk-safe/src/ioctl.rs:117-168 | every 32-bit code is the sum of what its four accessors read, each with its place value |
| Ioctl.RoundTripIff | crates/wdk-safe/src/ioctl.rs:99-168 | all four fields round-trip for every device type, method and access if and only if the function number is at most 0xFFF |
| Ioctl.NewOfFields | crates/wdk-safe/src/ioctl.rs:117-168 | every 32-bit code is the code of its own four fields, so `new` is onto |
| Ioctl.NewInjective | crates/wdk-safe/src/ioctl.rs:104-115 | `new` is injective on twelve-bit function numbers |
| Ioctl.NewCollidesIff | crates/wdk-safe/src/ioctl.rs:104-115 | two declarations share a code if and only if they agree on the method and, with the bits of an oversized function number spilled over, on function, access and device type |
| Ioctl.OversizedFunctionCollides | crates/wdk-safe/src/ioctl.rs:104-115 | two declarations that share one code outside that range |
| Ioctl.ShippedOffsetsFit | crates/wdk-safe/src/ioctl.rs:278-284 | the shipped offsets are in bounds and pairwise disjoint for exactly the structures of at least 0x1C and 0x78 bytes |
| Requests.ParametersReadBack | crates/wdk-safe/src/request.rs:98-150 | for any well-formed offset table the code and both lengths read back independently, and the code is absent exactly when it is zero |
| Requests.ShippedReaders | crates/wdk-safe/src/ioctl.rs:266-284 | with the shipped offsets the two lengths are read at 0x08 and 0x10 and the code at 0x18 of the stack location, the system buffer at 0x70 of the IRP |
| Requests.ShippedInformation | crates/wdk-safe/src/ioctl.rs:266-284 | with the shipped offsets a reported byte count goes to 0x38 of the IRP and to no other byte |
| Requests.InformationWrite | crates/wdk-safe/src/request.rs:171-261 | a reported byte count reads back, and reporting it never moves the system buffer |
| Requests.CompleteReportsZeroIff | crates/wdk-safe/src/request.rs:223-234 | plain completion reports zero bytes exactly when the field was zero |
| Requests.CompleteReportsStaleBytes | crates/wdk-safe/src/request.rs:223-234 | a request that arrives with seven bytes reported still reports seven after plain completion |
| Requests.IoRequest.FromRaw | crates/wdk-safe/src/request.rs:75-84 | a new request owns an IRP that is in dispatch and not completed |
| Requests.IoRequest.Complete | crates/wdk-safe/src/request.rs:232-234 | consumes an owned request: status set, one completion, nothing else changed |
| Requests.IoRequest.CompleteWithInfo | crates/wdk-safe/src/request.rs:252-261 | the same, with IoStatus.Information set and no other header byte changed |
| Requests.IoRequest.IntoRawIrp | crates/wdk-safe/src/request.rs:286-288 | consumes an owned request without touching the IRP |
| Irps.Irp.KernelComplete | examples/hid-filter/hid-filter/src/lib.rs:184-193 | sets the status and completes an IRP that must not be completed already |
| Irps.Irp.SkipCurrentStack | examples/hid-filter/hid-filter/src/lib.rs:151-168 | moves counter and pointer up together; the counter does not wrap |
| Irps.Irp.NextStackLocation | examples/hid-filter/hid-filter/src/lib.rs:345-349 | the kernel's step to the next slot inside IofCallDriver, where it records the device called |
| Irps.SkipThenArrive | examples/hid-filter/hid-filter/src/lib.rs:341-351 | skipping and being called again is arriving at the same slot with the same contents |
| Irps.TopRunsAtItsCount | examples/hid-filter/hid-filter/src/lib.rs:141-168 | a fresh IRP at the device it is sent to has CurrentLocation equal to StackCount, where the documented precondition of the skip fails |
| Routing.Transparent | examples/hid-filter/hid-filter/src/lib.rs:284-351 | for any number of filters, any driver below and any IRP with room, routing through the stack is calling the bottom directly |
| Routing.SlotNamesDevice | examples/hid-filter/hid-filter/src/lib.rs:341-351 | every driver on the way down finds its own device recorded in the slot it is given |
| Routing.EveryStepWellFormed | examples/hid-filter/hid-filter/src/lib.rs:118-168 | at every step down, counter and pointer agree and stay in range, nobody has completed the IRP, and no header, buffer or parameter byte has changed |
| Routing.SkipsBelowCountIff | examples/hid-filter/hid-filter/src/lib.rs:141-168 | a filter skips with CurrentLocation below StackCount if and only if the sender had already used a location; on every level alike |
| Routing.CompletedOnce | crates/wdk-safe/src/irp.rs:183-197 | over a driver that completes once, the whole stack completes once, with the status the caller gets |
| WdmDriver.Default | crates/wdk-safe/src/driver.rs:76-250 | every default callback completes its request once, with 0 for create, close and cleanup and 0xC00000BB otherwise |
| DeviceStacks.IoSystem.constructor | examples/hid-filter/hid-filter/src/lib.rs:513-523 | any consistent stacking of other drivers' devices is a valid start |
| DeviceStacks.IoSystem.IoCreateDevice | examples/hid-filter/hid-filter/src/lib.rs:425-439 | a created device is zeroed, initializing, and heads the list; a failure changes nothing |
| DeviceStacks.IoSystem.IoGetAttachedDevice | examples/hid-filter/hid-filter/src/lib.rs:444 | walks to the top of a stack, which exists because attachment has no cycles |
| DeviceStacks.IoSystem.IoAttachDeviceToDeviceStack | examples/hid-filter/hid-filter/src/lib.rs:444-450 | links the filter above the top and returns that top, or changes nothing and returns null |
| DeviceStacks.IoSystem.IoDetachDevice | examples/hid-filter/hid-filter/src/lib.rs:519 | cuts exactly the link above its argument |
| DeviceStacks.IoSystem.IoDeleteDevice | examples/hid-filter/hid-filter/src/lib.rs:520 | removes the newest device, which must rest on nothing and carry nothing, and keeps the invariant |
| DispatchTable.DriverEntry | examples/hid-filter/hid-filter/src/lib.rs:552-603 | both callbacks registered; CREATE, CLOSE, READ, INTERNAL_DEVICE_CONTROL, POWER and PNP each get their thunk, every other slot keeps its routine or is filled if empty; without a driver extension, failure and no change |
| DispatchTable.ForwardsIff | examples/hid-filter/hid-filter/src/lib.rs:580-596 | whatever the table held, a major function is forwarded if and only if it is 0x00, 0x02, 0x03, 0x0F, 0x16 or 0x1B or its slot was not taken by someone else; a taken slot keeps its routine |
| DispatchTable.PowerRouteIff | examples/hid-filter/hid-filter/src/lib.rs:580-596 | in a table nobody had put hid-filter's thunks into, power IRPs and no others take the power route |
| DispatchTable.FilledTable | examples/hid-filter/hid-filter/src/lib.rs:580-596 | in a table the I/O manager has filled, exactly those six major functions are forwarded |
| DispatchTable.NewTableBlocks | examples/hid-filter/hid-filter/src/lib.rs:580-596 | in the table of a new driver object, writes and device-control requests are not forwarded |
| DispatchTable.TransparentIff | examples/hid-filter/hid-filter/src/lib.rs:284-351 | a stack with a filter answers as the driver below, whatever that driver and the routines of others are, if and only if the major function is one of those six or its slot was not taken |
| HidFilter.StoreLowerDevice | examples/hid-filter/hid-filter/src/lib.rs:452-461 | this step keeps the publication invariant |
| HidFilter.CopyStackSize | examples/hid-filter/hid-filter/src/lib.rs:468-469 | this step keeps it and sets the 8-bit size |
| HidFilter.CopyBuffering | examples/hid-filter/hid-filter/src/lib.rs:470-471 | this step keeps it, gives the filter the lower device's DO_BUFFERED_IO and DO_DIRECT_IO, and changes no other flag |
| HidFilter.ClearInitializing | examples/hid-filter/hid-filter/src/lib.rs:472-473 | publication is allowed only for a complete device, clears that one flag and no other, and keeps the invariant |
| HidFilter.Publish | examples/hid-filter/hid-filter/src/lib.rs:452-474 | the writes in the source's order end in a published device, whose flags are the lower device's two buffering flags and nothing else |
| HidFilter.AttachFilter | examples/hid-filter/hid-filter/src/lib.rs:441-485 | a refused attachment deletes the new device and changes no stack; an accepted one publishes it on the old top |
| HidFilter.AddDevice | examples/hid-filter/hid-filter/src/lib.rs:418-486 | exact status; on success one published filter on the old top and at the head of the list, with that device's two buffering flags and no other flag; on failure list and stacks as before |
| HidFilter.PathGrows | examples/hid-filter/hid-filter/src/lib.rs:444-461 | an added filter lengthens the way down by exactly itself |
| HidFilter.ReachesBaseTop | examples/hid-filter/hid-filter/src/lib.rs:320-351 | from the top of any stack the way down ends at the device that was on top before hid-filter was loaded |
| HidFilter.SizesAddUp | examples/hid-filter/hid-filter/src/lib.rs:468-471 | every filter has the two buffering flags of the bottom of its stack and no other flag, and its StackSize is the bottom's after one 8-bit increment per filter |
| HidFilter.Size8Exact | examples/hid-filter/hid-filter/src/lib.rs:468-469 | the 8-bit size is always the sum wrapped into the range of a signed byte, and is the sum if and only if the sum is at most 127 |
| HidFilter.RoomInEveryStack | examples/hid-filter/hid-filter/src/lib.rs:463-471 | under an explicit height bound the top's StackSize is the bottom's plus the number of filters, without wrapping, and leaves a slot for each device |
| HidFilter.NewestIsOnTop | examples/hid-filter/hid-filter/src/lib.rs:515-520 | the head of the list carries nothing and rests on its recorded lower device |
| HidFilter.RemoveNewest | examples/hid-filter/hid-filter/src/lib.rs:515-522 | one trip of the unload loop detaches and deletes the head and keeps every invariant |
| HidFilter.DriverUnload | examples/hid-filter/hid-filter/src/lib.rs:499-524 | terminates; every filter detached and deleted once, newest first; list empty; other drivers' stacks restored |
| HidFilter.BackLinksRestored | examples/hid-filter/hid-filter/src/lib.rs:515-524 | without filters the kernel's back links are determined by what the other drivers' devices carry |
| Dispatch.CallRoutine | examples/hid-filter/hid-filter/src/lib.rs:580-596 | the table entry of the current slot's major function is called, for filters and for other drivers, whoever put it there |
| Dispatch.ChainIffPath | examples/hid-filter/hid-filter/src/lib.rs:320-351 | the path an IRP is passed down is the device's own and no other |
| Dispatch.IofCallDriver | examples/hid-filter/hid-filter/src/lib.rs:341-351 | for any table, final IRP and status are those of routing through the stack below, or of the routine that holds the slot; PoStartNextPowerIrp is called once per filter whose slot holds the power thunk and never otherwise |
| Dispatch.PoCallDriver | examples/hid-filter/hid-filter/src/lib.rs:293 | the same for the power route's call |
| Dispatch.Thunk | crates/wdk-safe/src/thunk.rs:82-98 | for every callback, overridden or default, its status is returned and the request is never dropped while owned |
| Dispatch.Handle | examples/hid-filter/hid-filter/src/lib.rs:218-310 | the overridden callbacks, listed one by one, forward and do not complete; the default ones complete and do not forward |
| Dispatch.ForwardIrp | examples/hid-filter/hid-filter/src/lib.rs:341-351 | consumes the request and routes the IRP, its slot given away, down from the lower device |
| Dispatch.ForwardPowerIrp | examples/hid-filter/hid-filter/src/lib.rs:284-296 | the same through PoStartNextPowerIrp and PoCallDriver |
| Dispatch.SendNew | examples/hid-filter/hid-filter/src/lib.rs:341-351 | a fresh IRP sent to any device comes back as the stack below it answers |
| Ways.AddOnTop | examples/hid-filter/hid-filter/src/lib.rs:418-486 | on success the new filter is first on the way down its stack, and every other way, and every way after a failure, is as it was |
| Ways.WayFound | examples/hid-filter/hid-filter/src/lib.rs:320-351 | there is only one way from a free top down to the device that was on top before hid-filter was loaded |
| Ways.AddLeading | examples/hid-filter/hid-filter/src/lib.rs:418-486 | every way still leads down to the same bottom, and at most the top that was found has got something on it |
| Runs.SendToTop | examples/hid-filter/hid-filter/src/lib.rs:463-471 | an IRP of StackSize slots with the event's slot on top, anything below, and its header, address and buffer is sent exactly when there is room for it, and answered by the stack |
| Runs.AddEvent | examples/hid-filter/hid-filter/src/lib.rs:418-486 | an attachment takes the system to the state machine's next state: newest in the list and first on its stack, or deleted again, or never created |
| Runs.SendEvent | examples/hid-filter/hid-filter/src/lib.rs:284-351 | a send changes only the count of PoStartNextPowerIrp calls and gives the state machine's reply |
| Runs.UnloadEvent | examples/hid-filter/hid-filter/src/lib.rs:499-524 | an unload empties every stack and deletes the whole list in its order |
| Runs.Step | examples/hid-filter/hid-filter/src/lib.rs:412-524 | one event: the next state and the reply of the state machine |
| Runs.Run | examples/hid-filter/hid-filter/src/lib.rs:412-603 | from DriverEntry on and for every sequence of events: the i-th reply is the state machine's, the final state is its final state after an unload, and every stack is as at the start |
| Runs.LoadedRun | examples/hid-filter/hid-filter/src/lib.rs:412-524 | the same from a successful DriverEntry on |
| Runs.DirectReply | examples/hid-filter/hid-filter/src/lib.rs:284-351 | a forwarded major function, or a stack without filters, is answered by the device that was on top before hid-filter came, given the very IRP sent |
| Runs.OccupiedReply | examples/hid-filter/hid-filter/src/lib.rs:580-588 | otherwise the routine in the slot answers for the topmost filter |
| Runs.LoadedReply | examples/hid-filter/hid-filter/src/lib.rs:580-596 | with the table DriverEntry leaves, those six major functions and every free slot are answered directly in every state |
| Runs.ReplyCompletedOnce | crates/wdk-safe/src/irp.rs:183-197 | if everyone else completes once with the status returned, so does every reply |
| Runs.FiltersBounded | examples/hid-filter/hid-filter/src/lib.rs:441-450 | no stack carries more filters than there were events |
| Runs.EverySendDelivered | examples/hid-filter/hid-filter/src/lib.rs:463-471 | under an explicit height bound every IRP is delivered, with a slot for each device of its stack |
| Runs.EveryReplyDirect | examples/hid-filter/hid-filter/src/lib.rs:412-603 | over whole runs, with the height bounded by the events so far, every send of a forwarded major function is answered directly |
| Runs.EachDeletedOnce | examples/hid-filter/hid-filter/src/lib.rs:441-524 | over whole runs that end with an unload, every filter created has been deleted exactly once |
| Echo.EchoCode | examples/ioctl-echo/ioctl-echo/src/lib.rs:135-142 | the declared code is 0x80002000 and buffered |
| Echo.WriteValue | examples/ioctl-echo/ioctl-echo/src/lib.rs:224-229 | writes exactly the first four bytes of the system buffer |
| Echo.EchoValue | examples/ioctl-echo/ioctl-echo/src/lib.rs:203-229 | the second pointer read cannot fail and the buffer ends up as it was |
| Echo.EchoBack | examples/ioctl-echo/ioctl-echo/src/lib.rs:199-235 | a null buffer is rejected; otherwise success with four bytes reported |
| Echo.OnDeviceControl | examples/ioctl-echo/ioctl-echo/src/lib.rs:169-236 | status by a fixed order of rejections, one completion, no buffer byte changed, byte count written only on success |
| Echo.EchoAnswersIff | examples/ioctl-echo/ioctl-echo/src/lib.rs:169-236 | in terms of the bytes of any device-control IRP: success if and only if the code is 0x80002000, both lengths are at least four and the system-buffer pointer is not null; otherwise the first of these that fails gives 0xC0000010, 0xC0000023 or 0xC000000D, and no header byte changes |
| Echo.OtherMajorsAnswered | examples/ioctl-echo/ioctl-echo/src/lib.rs:150-160 | create and close are completed with success, every other major function as an invalid request, and nothing else of the IRP changes |
| Echo.Dispatch | examples/ioctl-echo/ioctl-echo/src/lib.rs:242-259 | the driver's table as a function of the IRP, with no request dropped while owned |
| Echo.EchoDriverCompletes | examples/ioctl-echo/ioctl-echo/src/lib.rs:150-237 | every IRP is completed exactly once with the returned status, and only a granted echo changes IoStatus.Information |
| Echo.CreateReportsStaleBytes | examples/ioctl-echo/ioctl-echo/src/lib.rs:150-160 | create and close requests that arrive with seven bytes reported leave with seven |
| Echo.RoutineOf | examples/ioctl-echo/ioctl-echo/src/lib.rs:386-393 | the three assigned major functions have their own thunk, all others keep the I/O manager's routine |
| EndToEnd.HeaderReadsBack | crates/wdk-safe/src/request.rs:171-219 | the pointer the I/O manager stores is the one the driver reads, and the byte count is untouched |
| EndToEnd.EchoAnswers | examples/ioctl-echo/ioctl-echo/src/lib.rs:176-235 | the driver's answer depends on the code, the lengths and the buffer alone, whatever else the IRP holds |
| EndToEnd.EchoReached | examples/ioctl-echo/ioctl-echo/src/lib.rs:169-236 | the IRP the I/O manager builds, with the request in its top slot only, meets every promise the handler relies on, and is answered with one completion, its buffer unchanged |
| EndToEnd.ControlAnswer | examples/hid-filter/hid-filter/src/lib.rs:284-351 | through any number of filters ioctl-echo answers, unless a filter's slot holds the I/O manager's routine: then that routine does |
| EndToEnd.Granted | examples/ioctl-echo/ioctl-echo/src/lib.rs:176-197 | with buffers the I/O manager allocated, exactly the echo code with both lengths at least four is granted |
| EndToEnd.SendControl | examples/ioctl-echo/ioctl-echo/src/lib.rs:169-236 | into any stack of filters with any table: the status of ioctl-echo or of the routine in the way, one completion, an unchanged buffer and four or zero bytes reported |
| EndToEnd.CopyBackReplies | examples/ioctl-echo/ioctl-echo/src/lib.rs:218-235 | the reported byte count stays inside the buffer, and copying it back gives the reply |
| EndToEnd.DeviceIoControl | examples/ioctl-echo/ioctl-echo/src/lib.rs:163-236 | for every code, lengths, input and memory garbage: the first four input bytes and a count of four, or the exact error with nothing returned; always an invalid request if the filters do not forward |
| DefineIoctl.HeaderError | crates/wdk-safe-macros/src/lib.rs:47-55 | a malformed header is rejected with the error for what is missing at its first wrong position |
| DefineIoctl.ParseOption | crates/wdk-safe-macros/src/lib.rs:61-93 | an option is accepted exactly when it is well-formed, known and not given before, and is then recorded; otherwise the error is that of the first token an option does not have there, or of its key |
| DefineIoctl.ParseOptions | crates/wdk-safe-macros/src/lib.rs:61-93 | the option loop: success with a printing of the tokens, or the error of the place where they stop being one |
| DefineIoctl.StuckOnce | crates/wdk-safe-macros/src/lib.rs:46-105 | there is only one such place and only one such error |
| DefineIoctl.OneError | crates/wdk-safe-macros/src/lib.rs:46-105 | the tokens determine the error |
| DefineIoctl.OnlyContinues | crates/wdk-safe-macros/src/lib.rs:61-93 | where the loop rejects, no invocation of the grammar has the tokens read so far |
| DefineIoctl.Unambiguous | crates/wdk-safe-macros/src/lib.rs:24-34 | no token sequence is the printing of two different invocations |
| DefineIoctl.Parse | crates/wdk-safe-macros/src/lib.rs:46-105 | returns some arguments if and only if the tokens are one of their printings: options in either order, with or without a last comma; otherwise the error of the first wrong header position, or of the one place after it where no invocation continues |
| DefineIoctl.AcceptedIff | crates/wdk-safe-macros/src/lib.rs:46-105 | position by position, the token sequences that are some invocation: a header, then no, one or two options with different keys, then perhaps one more comma |
| DefineIoctl.ArgumentsFromTokens | crates/wdk-safe-macros/src/lib.rs:46-105 | which token each argument comes from, in either order of the options |
| DefineIoctl.ResolutionExact | crates/wdk-safe-macros/src/lib.rs:224-260 | each of the eight names, and an omitted option, resolves to its own variant; every other name is rejected with the error that names it |
| DefineIoctl.OmittedOptions | crates/wdk-safe-macros/src/lib.rs:137-138 | leaving an option out expands to the same as writing its default |
| DefineIoctl.ExpandsIff | crates/wdk-safe-macros/src/lib.rs:165-205 | an invocation expands if and only if its method is left out or Buffered, InDirect, OutDirect or Neither, its access is left out or Any, Read, Write or ReadWrite, and its constant has aliases |
| DefineIoctl.ExpansionDeclares | crates/wdk-safe-macros/src/lib.rs:203-220 | for any accepted tokens: the constant has the first token's name, the type before the arrow goes with the alias that ends in Input, the one after it with the alias that ends in Output, and the code reads back the device type and function tokens and the named or default method and access |
| DefineIoctl.ExpansionError | crates/wdk-safe-macros/src/lib.rs:165-205 | which error an invocation that does not expand gets: the method's, else the access's, else the name's |
| DefineIoctl.ExpansionsCollideIff | crates/wdk-safe-macros/src/lib.rs:264-282 | two invocations that expand share an alias if and only if their constants have one normal form, and never an input alias with an output alias |
| DefineIoctl.CodesCollideIff | crates/wdk-safe-macros/src/lib.rs:203-210 | two expansions share a code exactly when their resolved fields cannot be told apart after the bits of an oversized function number have spilled over |
| DefineIoctl.SmallCodesCollideIff | crates/wdk-safe-macros/src/lib.rs:203-210 | with twelve-bit function numbers, exactly when all four resolved fields agree |
| AliasNames.PascalIsScan | crates/wdk-safe-macros/src/lib.rs:264-277 | splitting, capitalizing and collecting is a single pass over the name |
| AliasNames.CaseTables | crates/wdk-safe-macros/src/lib.rs:270-275 | the two letter cases, letter by letter |
| AliasNames.WordByWord | crates/wdk-safe-macros/src/lib.rs:155-163 | names joined by an underscore give joined aliases; a word keeps its first letter upper and the rest lower case |
| AliasNames.NormalForm | crates/wdk-safe-macros/src/lib.rs:155-163 | undoing the derivation gives the normal form of every ASCII name, and the normal form has the name's alias |
| AliasNames.HasAliasesIff | crates/wdk-safe-macros/src/lib.rs:279-281 | the derived strings are identifiers, so that the macro does not panic, if and only if no digit comes first once the leading underscores are gone |
| AliasNames.UnderscoreDigitHasNone | crates/wdk-safe-macros/src/lib.rs:279-281 | _1 is a valid name whose derived string is not an identifier |
| AliasNames.AliasesCollideIff | crates/wdk-safe-macros/src/lib.rs:264-282 | the input and the output strings derived from two ASCII names are the same if and only if the names have one normal form; the strings are aliases for the names of HasAliasesIff |
| AliasNames.RecoverableIff | crates/wdk-safe-macros/src/lib.rs:155-163 | an ASCII identifier is its own normal form, and is what undoing the derivation gives back, if and only if it is in SCREAMING_SNAKE_CASE |
| AliasNames.AliasesDistinct | crates/wdk-safe-macros/src/lib.rs:264-282 | distinct well-formed constants share no alias |
| AliasNames.InputIsNotOutput | crates/wdk-safe-macros/src/lib.rs:264-282 | no input alias is an output alias, for any two names |
| AliasNames.DigitWordCollides | crates/wdk-safe-macros/src/lib.rs:264-277 | A_2 and A2 share their alias |
| AliasNames.EmptyWordCollides | crates/wdk-safe-macros/src/lib.rs:264-277 | A__B and A_B, _A and A share their aliases |
| AliasNames.CaseCollides | crates/wdk-safe-macros/src/lib.rs:264-277 | ab and AB share their alias |
| EchoLifecycle.UnicodeSizesIff | examples/ioctl-echo/ioctl-echo/src/lib.rs:270-277 | both 16-bit sizes are exact if and only if the slice has 1 to 32767 units |
| EchoLifecycle.UnicodeSizesWrap | examples/ioctl-echo/ioctl-echo/src/lib.rs:270-277 | both sizes for every slice: the right ones, wrapped to 16 bits; 65534 and 0 for an empty one |
| EchoLifecycle.NameDropsTerminator | examples/ioctl-echo/ioctl-echo/src/lib.rs:270-277 | within that range the name is the slice without its terminator |
| EchoLifecycle.NamesSpelled | examples/ioctl-echo/ioctl-echo/src/lib.rs:339-349 | the two names are \Device\WdkSafeEcho and \DosDevices\WdkSafeEcho |
| EchoLifecycle.Namespace.DriverEntry | examples/ioctl-echo/ioctl-echo/src/lib.rs:331-401 | exact status; success adds one device, ready and buffered, one link, three table entries and the unload callback; failure at either call changes nothing |
| EchoLifecycle.Namespace.DriverUnload | examples/ioctl-echo/ioctl-echo/src/lib.rs:287-311 | removes the link and the device |
| EchoLifecycle.Namespace.LoadAndUnload | examples/ioctl-echo/ioctl-echo/src/lib.rs:287-401 | load then unload restores devices and links, whatever the kernel answers |

## Left out

- Asynchronous completion, cancellation, completion routines, device removal and concurrent callers: the drivers
  do not implement them. A driver below the filters is any function from its device and the IRP to the IRP it
  leaves and a status, and so is a routine of someone else in hid-filter's table; memory of their own from one call
  to the next is not modelled.
- Devices of other drivers that attach above a filter: the invariant assumes there are none, as unloading a
  filter requires of its environment.
- IoDeleteDevice: deletes the newest device of the list only, which is the only one the code ever deletes.
- PoCallDriver: delivers as IofCallDriver does; pre-Vista queueing of power IRPs is not modelled, and
  PoStartNextPowerIrp is only counted.
- AddDevice: the kernel's answers to creation and attachment are parameters; IoCreateDevice is taken to create a
  device exactly when it returns STATUS_SUCCESS.
- DeviceIoControl: the routine in a taken device-control slot of hid-filter's table is the I/O manager's own, which
  completes the IRP as an invalid request; for any other routine `Runs.OccupiedReply` says what happens.
- Named IRP fields (status, cursor) and a slot's major function and device are kept beside the raw bytes; the byte
  model covers the fields read and written through `IoStackOffsets`.
- Whether the numbers in `WDK_SYS_0_5_X64` match a Windows build: every theorem takes any well-formed offset table.
- Parse: an expression or a type is one token, so how far Rust's own expression grammar would read is not
  modelled; error spans and messages are reduced to their kind.
- AliasesCollideIff: names are ASCII; Unicode case mapping is not modelled.
- Debug builds: an 8-bit or 16-bit overflow panics there; the model computes the wrapped value of a release build
  and states when no wrap happens.
- The null-device example: its callbacks complete every IRP on the spot, and it loads and unloads like ioctl-echo
  under other names.
- `Device`, a borrowed pointer; the severity predicates of `NtStatus` beyond the error test, each one comparison.
- IRQL rules, debug printing, the user-mode utility and the build files.

/** DeviceIoControl from user mode to ioctl-echo and back, with any number of hid-filters in between. */
module EndToEnd {
  import opened Options
  import opened Bytes
  import opened NtStatuses
  import opened Wdm
  import opened Ioctl
  import opened Irps
  import opened Requests
  import opened Routing
  import opened DeviceStacks
  import opened DispatchTable
  import opened Dispatch
  import opened Echo

  /** Everything below the filters is ioctl-echo. */
  ghost predicate RunsEcho(f: Driver, o: IoStackOffsets) {
    forall d: int, s: IrpState | s.InDispatch() && o.Fits(|Parameters(s)|, |s.header|) :: f(d, s) == EchoDriver(d, s, o)
  }

  /** The routine that has taken a slot of hid-filter's table is the one the I/O manager put there. */
  ghost predicate Rejects(occupant: Option<Driver>) {
    occupant.Some? ==>
      forall d: int, s: IrpState | s.InDispatch() :: occupant.value(d, s) == IopInvalidDeviceRequest(d, s)
  }

  /** The slot and the header of the IRP the I/O manager builds for a device-control call. */
  function ControlSlot(slot: seq<byte>, o: IoStackOffsets, code: bv32, inLen: bv32, outLen: bv32): StackLocation
    requires o.ioctlCode + 4 <= |slot| && o.inputBufferLength + 4 <= |slot| && o.outputBufferLength + 4 <= |slot|
  {
    StackLocation(IRP_MJ_DEVICE_CONTROL, 0, DeviceControlSlot(slot, o, code, inLen, outLen))
  }

  function PointingTo(header: seq<byte>, o: IoStackOffsets, address: bv64): (r: seq<byte>)
    requires o.irpSystemBuffer + 8 <= |header|
    ensures |r| == |header|
  {
    Store(header, o.irpSystemBuffer, ToLe64(address))
  }

  /** The header names the buffer it was given, and its byte count is untouched. */
  lemma HeaderReadsBack(header: seq<byte>, slot: nat, o: IoStackOffsets, address: bv64)
    requires o.Fits(slot, |header|)
    ensures BufferAt(PointingTo(header, o, address), o) == if address == 0 then None else Some(address)
    ensures Load64(PointingTo(header, o, address), o.irpInformation) == Load64(header, o.irpInformation)
  {
    StoreFrame(header, o.irpSystemBuffer, ToLe64(address), o.irpInformation, 8);
    Decode64(address);
  }

  /** ioctl-echo's answer to an IRP whose current slot is a device-control slot: the I/O manager's promises
      hold, and the status depends on the code, the lengths and the buffer alone. */
  lemma EchoAnswers(device: int, s: IrpState, o: IoStackOffsets, slot: seq<byte>, code: bv32, inLen: bv32, outLen: bv32)
    requires s.InDispatch() && o.Fits(|slot|, |s.header|)
    requires s.CurrentMajor() == IRP_MJ_DEVICE_CONTROL
    requires Parameters(s) == DeviceControlSlot(slot, o, code, inLen, outLen)
    requires BufferAt(s.header, o) in {None, Some(s.bufferAddress)}
    requires inLen as int <= |s.buffer| && outLen as int <= |s.buffer|
    requires Load64(s.header, o.irpInformation) == 0
    ensures Promised(s, o)
    ensures var (t, status) := EchoDriver(device, s, o);
            var asked := if code == 0 then None else Some(IoControlCode(code));
            && status == EchoStatus(asked, inLen, outLen, BufferAt(s.header, o))
            && t.buffer == s.buffer && t.completions == 1 && t.status == status
            && Load64(t.header, o.irpInformation) == if status == SUCCESS then 4 else 0
  {
    ParametersReadBack(slot, |s.header|, o, code, inLen, outLen);
    EchoDriverCompletes(device, s, o);
  }

  /** The IRP the I/O manager builds: its top slot, and no other, holds the request, and the header names the system
      buffer, which exists for buffered codes with something to carry. */
  function ControlIrp(n: nat, o: IoStackOffsets, code: bv32, inLen: bv32, outLen: bv32,
                      slot: seq<byte>, below: nat -> StackLocation,
                      header: seq<byte>, address: bv64, buffer: seq<byte>): (s: IrpState)
    requires 1 <= n <= MAX_STACK_COUNT && o.Fits(|slot|, |header|)
    ensures s.Sendable() && s.NextMajor() == IRP_MJ_DEVICE_CONTROL
  {
    Allocated(Locations(n, ControlSlot(slot, o, code, inLen, outLen), below),
              PointingTo(header, o, Pointer(code, address, buffer)), address, buffer)
  }

  function Pointer(code: bv32, address: bv64, buffer: seq<byte>): bv64 {
    if IoControlCode(code).Method() == Buffered && buffer != [] then address else 0
  }

  function Asked(code: bv32): Option<IoControlCode> {
    if code == 0 then None else Some(IoControlCode(code))
  }

  /** One completion with `status`, the buffer as it was, and four bytes reported on success only. */
  predicate Answered(t: IrpState, status: NtStatus, o: IoStackOffsets, header: seq<byte>, buffer: seq<byte>)
    requires o.irpInformation + 8 <= |header|
  {
    && t.completions == 1 && t.status == status && t.buffer == buffer && |t.header| == |header|
    && Load64(t.header, o.irpInformation) == if status == SUCCESS then 4 else 0
  }

  /** The IRP that reaches ioctl-echo, on whatever device, and its answer. */
  lemma EchoReached(n: nat, o: IoStackOffsets, code: bv32, inLen: bv32, outLen: bv32,
                    slot: seq<byte>, below: nat -> StackLocation,
                    header: seq<byte>, address: bv64, buffer: seq<byte>, device: int)
    requires 1 <= n <= MAX_STACK_COUNT && o.Fits(|slot|, |header|)
    requires address != 0 && Load64(header, o.irpInformation) == 0
    requires inLen as int <= |buffer| && outLen as int <= |buffer|
    ensures var s := ControlIrp(n, o, code, inLen, outLen, slot, below, header, address, buffer).Arrive(device);
            && o.Fits(|Parameters(s)|, |s.header|) && Promised(s, o)
            && var (t, status) := EchoDriver(device, s, o);
               && Answered(t, status, o, header, buffer)
               && status == EchoStatus(Asked(code), inLen, outLen,
                                       if Pointer(code, address, buffer) == 0 then None else Some(address))
  {
    var pointer := Pointer(code, address, buffer);
    var s := ControlIrp(n, o, code, inLen, outLen, slot, below, header, address, buffer).Arrive(device);
    assert Parameters(s) == DeviceControlSlot(slot, o, code, inLen, outLen);
    HeaderReadsBack(header, |slot|, o, pointer);
    EchoAnswers(device, s, o, slot, code, inLen, outLen);
    EchoDriverCompletes(device, s, o);
  }

  /** A device-control IRP sent into a stack is answered by ioctl-echo, through any number of filters, unless a
      filter is in the way whose table holds the I/O manager's routine for it: then by that routine. */
  lemma ControlAnswer(occupant: Option<Driver>, path: seq<int>, f: Driver,
                      n: nat, o: IoStackOffsets, code: bv32, inLen: bv32, outLen: bv32,
                      slot: seq<byte>, below: nat -> StackLocation, header: seq<byte>, address: bv64, buffer: seq<byte>)
    requires path != [] && RunsEcho(f, o) && Rejects(occupant)
    requires 1 <= n <= MAX_STACK_COUNT && o.Fits(|slot|, |header|)
    requires address != 0 && Load64(header, o.irpInformation) == 0
    requires inLen as int <= |buffer| && outLen as int <= |buffer|
    ensures var s := ControlIrp(n, o, code, inLen, outLen, slot, below, header, address, buffer);
            var (t, status) := Answer(occupant, path, f, s);
            && Answered(t, status, o, header, buffer)
            && status == if occupant.Some? && |path| > 1 then INVALID_DEVICE_REQUEST
                         else EchoStatus(Asked(code), inLen, outLen,
                                         if Pointer(code, address, buffer) == 0 then None else Some(address))
  {
    var s := ControlIrp(n, o, code, inLen, outLen, slot, below, header, address, buffer);
    if occupant.Some? && |path| > 1 {
      HeaderReadsBack(header, |slot|, o, Pointer(code, address, buffer));
      assert INVALID_DEVICE_REQUEST != SUCCESS;
    } else {
      Transparent(path, f, s);
      EchoReached(n, o, code, inLen, outLen, slot, below, header, address, buffer, path[|path| - 1]);
    }
  }

  /** Nothing keeps device-control IRPs sent to `top` from ioctl-echo. */
  predicate Reaches(sys: IoSystem, top: DeviceObject)
    requires IRP_MJ_DEVICE_CONTROL < sys.driver.majorFunction.Length
    reads sys.driver.majorFunction
  {
    Forwards(Slot(sys, IRP_MJ_DEVICE_CONTROL)) || !sys.IsFilter(top)
  }

  /** The I/O manager's half on the way down: it builds the IRP and calls the top device. */
  method SendControl(sys: IoSystem, top: DeviceObject, o: IoStackOffsets, code: bv32, inLen: bv32, outLen: bv32,
                     slot: seq<byte>, below: nat -> StackLocation, header: seq<byte>, address: bv64, buffer: seq<byte>)
    returns (irp: Irp, status: NtStatus)
    requires sys.Valid() && top in sys.devices && 1 <= top.stackSize <= MAX_STACK_COUNT
    requires Complete(sys.driver.majorFunction[..]) && WellBehaved(sys) && RunsEcho(sys.foreign, o)
    requires Rejects(Occupant(Slot(sys, IRP_MJ_DEVICE_CONTROL), sys.others))
    requires o.Fits(|slot|, |header|) && address != 0 && Load64(header, o.irpInformation) == 0
    requires inLen as int <= |buffer| && outLen as int <= |buffer|
    modifies sys.power
    ensures Answered(irp.State(), status, o, header, buffer)
    ensures status == if !Reaches(sys, top) then INVALID_DEVICE_REQUEST
                      else EchoStatus(Asked(code), inLen, outLen,
                                      if Pointer(code, address, buffer) == 0 then None else Some(address))
  {
    var n, locations := top.stackSize, Locations(top.stackSize, ControlSlot(slot, o, code, inLen, outLen), below);
    ControlAnswer(Occupant(Slot(sys, IRP_MJ_DEVICE_CONTROL), sys.others), Serials(sys.Path(top)), sys.foreign,
                  n, o, code, inLen, outLen, slot, below, header, address, buffer);
    irp, status := SendNew(sys, top, locations, PointingTo(header, o, Pointer(code, address, buffer)), address, buffer);
  }

  /** Which requests ioctl-echo grants, for a buffer the I/O manager sized and allocated. */
  lemma Granted(code: bv32, inLen: bv32, outLen: bv32, address: bv64, buffer: seq<byte>)
    requires inLen as int <= |buffer| && address != 0
    ensures EchoStatus(Asked(code), inLen, outLen, if Pointer(code, address, buffer) == 0 then None else Some(address))
            == if code != IOCTL_ECHO.raw then INVALID_DEVICE_REQUEST
               else if inLen < 4 || outLen < 4 then BUFFER_TOO_SMALL
               else SUCCESS
  {
    EchoCode();
    assert inLen >= 4 ==> inLen as int >= 4;
  }

  /** What DeviceIoControl gives its caller for a request of the given code and lengths. */
  predicate EchoReply(code: bv32, inLen: bv32, outLen: bv32, input: seq<byte>,
                      status: NtStatus, output: seq<byte>, returned: bv64) {
    if code == IOCTL_ECHO.raw && inLen >= 4 && outLen >= 4
    then status == SUCCESS && returned == 4 && 4 <= |input| && output == input[..4]
    else && status == (if code == IOCTL_ECHO.raw then BUFFER_TOO_SMALL else INVALID_DEVICE_REQUEST)
         && returned == 0 && output == []
  }

  /** The bytes the I/O manager copies back. */
  function CopiedBack(status: NtStatus, returned: bv64, buffer: seq<byte>): seq<byte>
    requires !status.IsError() ==> returned as int <= |buffer|
  {
    if status.IsError() then [] else buffer[..returned as int]
  }

  /** Copying back `returned` bytes stays inside the buffer and yields the reply. */
  lemma CopyBackReplies(code: bv32, inLen: bv32, outLen: bv32, input: seq<byte>, garbage: seq<byte>,
                        status: NtStatus, returned: bv64)
    requires |input| == inLen as int
    requires status == if code != IOCTL_ECHO.raw then INVALID_DEVICE_REQUEST
                       else if inLen < 4 || outLen < 4 then BUFFER_TOO_SMALL
                       else SUCCESS
    requires returned == if status == SUCCESS then 4 else 0
    ensures !status.IsError() ==> returned as int <= |input + garbage|
    ensures EchoReply(code, inLen, outLen, input, status, CopiedBack(status, returned, input + garbage), returned)
  {
    assert !SUCCESS.IsError() && INVALID_DEVICE_REQUEST.IsError() && BUFFER_TOO_SMALL.IsError();
    if status == SUCCESS {
      assert inLen as int >= 4 && returned as int == 4;
      assert (input + garbage)[..4] == input[..4];
    }
  }

  /** The buffered-I/O protocol of the I/O manager: one system buffer for input and output, of their larger
      size, filled with the input and otherwise with whatever memory held (`garbage`); after completion as
      many bytes as IoStatus.Information says go back to the caller, unless the request failed. */
  method DeviceIoControl(sys: IoSystem, top: DeviceObject, o: IoStackOffsets, code: bv32,
                         input: seq<byte>, inLen: bv32, outLen: bv32,
                         slot: seq<byte>, below: nat -> StackLocation,
                         header: seq<byte>, address: bv64, garbage: seq<byte>)
    returns (status: NtStatus, output: seq<byte>, returned: bv64)
    requires sys.Valid() && top in sys.devices && 1 <= top.stackSize <= MAX_STACK_COUNT
    requires Complete(sys.driver.majorFunction[..]) && WellBehaved(sys) && RunsEcho(sys.foreign, o)
    requires Rejects(Occupant(Slot(sys, IRP_MJ_DEVICE_CONTROL), sys.others))
    requires |input| == inLen as int
    requires |input| + |garbage| == if inLen as int >= outLen as int then inLen as int else outLen as int
    requires o.Fits(|slot|, |header|) && address != 0 && Load64(header, o.irpInformation) == 0
    modifies sys.power
    ensures Reaches(sys, top) ==> EchoReply(code, inLen, outLen, input, status, output, returned)
    ensures !Reaches(sys, top) ==> status == INVALID_DEVICE_REQUEST && returned == 0 && output == []
  {
    var buffer := input + garbage;
    var irp;
    irp, status := SendControl(sys, top, o, code, inLen, outLen, slot, below, header, address, buffer);
    returned := Load64(irp.header[..], o.irpInformation);
    assert INVALID_DEVICE_REQUEST != SUCCESS && INVALID_DEVICE_REQUEST.IsError();
    if Reaches(sys, top) {
      Granted(code, inLen, outLen, address, buffer);
      CopyBackReplies(code, inLen, outLen, input, garbage, status, returned);
    }
    output := CopiedBack(status, returned, irp.buffer[..]);
  }
}

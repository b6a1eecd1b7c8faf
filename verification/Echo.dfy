/** The ioctl-echo driver's dispatch code. */
module Echo {
  import opened Options
  import opened Bytes
  import opened NtStatuses
  import opened Wdm
  import opened Ioctl
  import opened Irps
  import opened Requests

  const IOCTL_ECHO := New(0x8000, 0x800, Buffered, Any)

  lemma EchoCode()
    ensures IOCTL_ECHO.raw == 0x8000_2000 && IOCTL_ECHO.Method() == Buffered
  {
    RoundTrip(0x8000, 0x800, Buffered, Any);
  }

  /** Sizes of EchoRequest and EchoResponse: one `u32` each. */
  const ECHO_SIZE: bv32 := 4

  /** The bytes of the current stack location. */
  function Parameters(s: IrpState): seq<byte>
    requires s.InDispatch()
  {
    s.slots[s.currentStackLocation].raw
  }

  /** What the I/O manager promises about a device-control IRP: the offsets match its structures, and for a
      buffered code a non-null SystemBuffer points to an allocation that holds input and output. */
  ghost predicate Promised(s: IrpState, o: IoStackOffsets) {
    && s.InDispatch() && o.Fits(|Parameters(s)|, |s.header|)
    && var code, buffer := CodeAt(Parameters(s), o), BufferAt(s.header, o);
       code.Some? && code.value.Method() == Buffered && buffer.Some? ==>
         && buffer.value == s.bufferAddress
         && Load32(Parameters(s), o.inputBufferLength) as int <= |s.buffer|
         && Load32(Parameters(s), o.outputBufferLength) as int <= |s.buffer|
  }

  /** The order in which the handler rejects a request. */
  function EchoStatus(code: Option<IoControlCode>, inLen: bv32, outLen: bv32, buffer: Option<bv64>): NtStatus {
    if code != Some(IOCTL_ECHO) then INVALID_DEVICE_REQUEST
    else if inLen < ECHO_SIZE || outLen < ECHO_SIZE then BUFFER_TOO_SMALL
    else if buffer == None then INVALID_PARAMETER
    else SUCCESS
  }

  /** The handler's whole effect: one completion with that status; only a success reports bytes; and no byte
      of the system buffer changes in any case. */
  function EchoControl(s: IrpState, o: IoStackOffsets): (IrpState, NtStatus)
    requires s.InDispatch() && o.Fits(|Parameters(s)|, |s.header|)
  {
    var p := Parameters(s);
    var status := EchoStatus(CodeAt(p, o), Load32(p, o.inputBufferLength), Load32(p, o.outputBufferLength),
                             BufferAt(s.header, o));
    var t := s.Completed(status);
    (if status == SUCCESS then t.(header := WithInformation(t.header, o, 4)) else t, status)
  }

  /** `write_unaligned(EchoResponse { value })` through the system-buffer pointer. */
  method WriteValue(irp: Irp, pointer: bv64, value: bv32)
    requires pointer == irp.bufferAddress && 4 <= irp.buffer.Length
    modifies irp.buffer
    ensures irp.buffer[..] == Store(old(irp.buffer[..]), 0, ToLe32(value))
  {
    WriteBytes(irp.buffer, 0, ToLe32(value));
  }

  /** `on_device_control`. The driver passes WDK_SYS_0_5_X64 as `o`. */
  method OnDeviceControl(request: IoRequest, o: IoStackOffsets) returns (status: NtStatus)
    requires request.Holds() && Promised(request.irp.State(), o)
    modifies request, request.irp, request.irp.header, request.irp.buffer
    ensures request.disposition == Completed
    ensures (request.irp.State(), status) == EchoControl(old(request.irp.State()), o)
  {
    EchoCode();
    var code := request.IoctlCode(o);
    if code == None {
      status := request.Complete(INVALID_DEVICE_REQUEST);
      return;
    }
    if code.value != IOCTL_ECHO {
      status := request.Complete(INVALID_DEVICE_REQUEST);
      return;
    }
    var inLen := request.InputBufferLength(o);
    var outLen := request.OutputBufferLength(o);
    if inLen < ECHO_SIZE {
      status := request.Complete(BUFFER_TOO_SMALL);
      return;
    }
    if outLen < ECHO_SIZE {
      status := request.Complete(BUFFER_TOO_SMALL);
      return;
    }
    status := EchoBack(request, o);
  }

  /** The rest of `on_device_control`, once the code and the sizes are known to be right. */
  method EchoBack(request: IoRequest, o: IoStackOffsets) returns (status: NtStatus)
    requires request.Holds() && Promised(request.irp.State(), o)
    requires request.IoctlCode(o) == Some(IOCTL_ECHO)
    requires request.InputBufferLength(o) >= ECHO_SIZE && request.OutputBufferLength(o) >= ECHO_SIZE
    modifies request, request.irp, request.irp.header, request.irp.buffer
    ensures request.disposition == Completed
    ensures (request.irp.State(), status) == EchoControl(old(request.irp.State()), o)
  {
    EchoCode();
    var pointer := request.SystemBuffer(o);
    if pointer == None {
      status := request.Complete(INVALID_PARAMETER);
      return;
    }
    assert 4 <= request.InputBufferLength(o) as int <= request.irp.buffer.Length;
    EchoValue(request, pointer.value, o);
    status := request.CompleteWithInfo(SUCCESS, 4, o);
  }

  /** Reads the value through the pointer and writes it back through a second read of the pointer, which
      cannot come back empty: `expect` never panics. The buffer ends up as it was. */
  method EchoValue(request: IoRequest, pointer: bv64, o: IoStackOffsets)
    requires request.irp.Separate() && 4 <= request.irp.buffer.Length
    requires o.irpSystemBuffer + 8 <= request.irp.header.Length
    requires request.SystemBuffer(o) == Some(pointer) && pointer == request.irp.bufferAddress
    modifies request.irp.buffer
    ensures request.irp.State() == old(request.irp.State())
  {
    var value := FromLe32(request.irp.buffer[..][0..4]);
    var again := request.SystemBuffer(o);
    StoreLoaded32(request.irp.buffer[..], 0);
    WriteValue(request.irp, again.value, value);
  }

  /** The entries of ioctl-echo's dispatch table: its three thunks, and the routine the I/O manager puts in every
      slot of a new driver object. */
  datatype EchoRoutine = Create | Close | DeviceControl | Unassigned

  /** The table after the three assignments of DriverEntry. */
  function Registered(before: seq<EchoRoutine>): (t: seq<EchoRoutine>)
    requires |before| == IRP_MJ_MAXIMUM_FUNCTION + 1
    ensures |t| == |before|
    ensures forall m :: 0 <= m < |t| && m !in {IRP_MJ_CREATE, IRP_MJ_CLOSE, IRP_MJ_DEVICE_CONTROL} ==> t[m] == before[m]
  {
    before[IRP_MJ_CREATE := Create][IRP_MJ_CLOSE := Close][IRP_MJ_DEVICE_CONTROL := DeviceControl]
  }

  /** The entry for a major function once the driver is loaded. */
  function RoutineOf(major: int): (r: EchoRoutine)
    requires 0 <= major <= IRP_MJ_MAXIMUM_FUNCTION
    ensures r == Create <==> major == IRP_MJ_CREATE
    ensures r == Close <==> major == IRP_MJ_CLOSE
    ensures r == DeviceControl <==> major == IRP_MJ_DEVICE_CONTROL
  {
    Registered(seq(IRP_MJ_MAXIMUM_FUNCTION + 1, _ => Unassigned))[major]
  }

  /** ioctl-echo behind its table. */
  function EchoDriver(device: int, s: IrpState, o: IoStackOffsets): (IrpState, NtStatus)
    requires s.InDispatch() && o.Fits(|Parameters(s)|, |s.header|)
  {
    match RoutineOf(s.CurrentMajor())
    case Create | Close => (s.Completed(SUCCESS), SUCCESS)
    case DeviceControl => EchoControl(s, o)
    case Unassigned => IopInvalidDeviceRequest(device, s)
  }

  /** The kernel's call of ioctl-echo's table: a thunk per assigned major function, each turning the raw IRP
      into a request that a callback discharges before its scope ends. */
  method Dispatch(device: int, irp: Irp, o: IoStackOffsets) returns (status: NtStatus)
    requires irp.Separate() && irp.State().InDispatch() && o.Fits(|Parameters(irp.State())|, irp.header.Length)
    requires irp.State().CurrentMajor() == IRP_MJ_DEVICE_CONTROL ==> Promised(irp.State(), o)
    modifies irp, irp.header, irp.buffer
    ensures (irp.State(), status) == EchoDriver(device, old(irp.State()), o)
  {
    var stack := irp.currentStackLocation;
    var routine := RoutineOf(irp.slots[stack].major);
    if routine == Unassigned {
      irp.KernelComplete(INVALID_DEVICE_REQUEST);
      return INVALID_DEVICE_REQUEST;
    }
    var request := new IoRequest.FromRaw(irp, stack);
    if routine == DeviceControl {
      status := OnDeviceControl(request, o);
    } else {
      status := request.Complete(SUCCESS);
    }
    request.Drop();
  }

  /** Every IRP the driver is given is completed exactly once, with the status it returns, and only a granted
      echo changes IoStatus.Information. */
  lemma EchoDriverCompletes(device: int, s: IrpState, o: IoStackOffsets)
    requires s.InDispatch() && o.Fits(|Parameters(s)|, |s.header|)
    ensures var (t, status) := EchoDriver(device, s, o);
            && s.SameShape(t) && t.completions == s.completions + 1 && t.status == status && t.buffer == s.buffer
            && BufferAt(t.header, o) == BufferAt(s.header, o)
            && Load64(t.header, o.irpInformation)
               == if s.CurrentMajor() == IRP_MJ_DEVICE_CONTROL && status == SUCCESS then 4
                  else Load64(s.header, o.irpInformation)
  {
    if s.CurrentMajor() == IRP_MJ_DEVICE_CONTROL {
      InformationWrite(|Parameters(s)|, s.header, o, 4);
    }
  }

  /** The rejections in numbers: the first test that fails decides the status. */
  lemma StatusInNumbers(code: bv32, inLen: bv32, outLen: bv32, buffer: Option<bv64>)
    ensures EchoStatus(None, inLen, outLen, buffer).raw == 0xC000_0010
    ensures EchoStatus(Some(IoControlCode(code)), inLen, outLen, buffer).raw
            == if code != 0x8000_2000 then 0xC000_0010
               else if inLen < 4 || outLen < 4 then 0xC000_0023
               else if buffer == None then 0xC000_000D
               else 0
  {
    EchoCode();
  }

  /** What ioctl-echo answers, in terms of the bytes of the IRP: an echo is granted if and only if the code is the echo
      code, both lengths are at least four and there is a system buffer; otherwise the first of these that fails, in
      this order, decides the status (an invalid device request, a buffer too small, an invalid parameter), and no
      header byte changes. */
  lemma EchoAnswersIff(device: int, s: IrpState, o: IoStackOffsets, code: bv32, inLen: bv32, outLen: bv32, pointer: bv64)
    requires s.InDispatch() && o.Fits(|Parameters(s)|, |s.header|) && s.CurrentMajor() == IRP_MJ_DEVICE_CONTROL
    requires code == Load32(Parameters(s), o.ioctlCode) && pointer == Load64(s.header, o.irpSystemBuffer)
    requires inLen == Load32(Parameters(s), o.inputBufferLength) && outLen == Load32(Parameters(s), o.outputBufferLength)
    ensures var (t, status) := EchoDriver(device, s, o);
            && status.raw == (if code != 0x8000_2000 then 0xC000_0010
                              else if inLen < 4 || outLen < 4 then 0xC000_0023
                              else if pointer == 0 then 0xC000_000D
                              else 0)
            && (status != SUCCESS ==> t.header == s.header)
            && (status == SUCCESS ==> |t.header| == |s.header| && Load64(t.header, o.irpInformation) == 4)
  {
    StatusInNumbers(code, inLen, outLen, BufferAt(s.header, o));
    InformationWrite(|Parameters(s)|, s.header, o, 4);
  }

  /** The other major functions: create and close succeed, and all the rest are invalid requests. */
  lemma OtherMajorsAnswered(device: int, s: IrpState, o: IoStackOffsets)
    requires s.InDispatch() && o.Fits(|Parameters(s)|, |s.header|) && s.CurrentMajor() != IRP_MJ_DEVICE_CONTROL
    ensures var (t, status) := EchoDriver(device, s, o);
            && status == (if s.CurrentMajor() in {IRP_MJ_CREATE, IRP_MJ_CLOSE} then SUCCESS else INVALID_DEVICE_REQUEST)
            && t == s.(status := status, completions := s.completions + 1)
  {
  }

  /** A create or close request that arrives with seven bytes reported leaves with seven bytes reported, although
      `complete` is documented to report none. */
  lemma CreateReportsStaleBytes(device: int, s: IrpState, header: seq<byte>, o: IoStackOffsets)
    requires s.InDispatch() && o.Fits(|Parameters(s)|, |header|) && s.header == WithInformation(header, o, 7)
    requires s.CurrentMajor() == IRP_MJ_CREATE || s.CurrentMajor() == IRP_MJ_CLOSE
    ensures Load64(EchoDriver(device, s, o).0.header, o.irpInformation) == 7 && EchoDriver(device, s, o).1 == SUCCESS
  {
    CompleteReportsStaleBytes(s, header, |Parameters(s)|, SUCCESS, o);
  }
}

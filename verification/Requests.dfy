/** `IoRequest`: linear ownership of a dispatched IRP and the raw field readers. */
module Requests {
  import opened Options
  import opened Bytes
  import opened NtStatuses
  import opened Ioctl
  import opened Irps

  /** What the holder of a request has done with it. Rust enforces this by consuming the value; here every
      consuming method requires `Owned` and leaves one of the other two. */
  datatype Disposition = Owned | Completed | Forwarded

  // ----- the readers, over memory

  function CodeAt(slot: seq<byte>, o: IoStackOffsets): Option<IoControlCode>
    requires o.ioctlCode + 4 <= |slot|
  {
    var raw := Load32(slot, o.ioctlCode);
    if raw == 0 then None else Some(IoControlCode(raw))
  }

  function BufferAt(header: seq<byte>, o: IoStackOffsets): Option<bv64>
    requires o.irpSystemBuffer + 8 <= |header|
  {
    var address := Load64(header, o.irpSystemBuffer);
    if address == 0 then None else Some(address)
  }

  /** The IRP header after `complete_with_info` has stored `bytes` in IoStatus.Information. */
  function WithInformation(header: seq<byte>, o: IoStackOffsets, bytes: bv64): (r: seq<byte>)
    requires o.irpInformation + 8 <= |header|
    ensures |r| == |header|
  {
    Store(header, o.irpInformation, ToLe64(bytes))
  }

  /** The I/O manager fills the three parameters of a device-control slot. */
  function DeviceControlSlot(slot: seq<byte>, o: IoStackOffsets, code: bv32, inLen: bv32, outLen: bv32): (r: seq<byte>)
    requires o.ioctlCode + 4 <= |slot| && o.inputBufferLength + 4 <= |slot| && o.outputBufferLength + 4 <= |slot|
    ensures |r| == |slot|
  {
    Store(Store(Store(slot, o.outputBufferLength, ToLe32(outLen)),
                o.inputBufferLength, ToLe32(inLen)), o.ioctlCode, ToLe32(code))
  }

  /** For any well-formed offset table, each parameter is read back as it was stored, independently of the
      other two, and the code reads as absent exactly when it is zero. */
  lemma ParametersReadBack(slot: seq<byte>, header: nat, o: IoStackOffsets, code: bv32, inLen: bv32, outLen: bv32)
    requires o.Fits(|slot|, header)
    ensures var r := DeviceControlSlot(slot, o, code, inLen, outLen);
            && Load32(r, o.inputBufferLength) == inLen
            && Load32(r, o.outputBufferLength) == outLen
            && (CodeAt(r, o) == None <==> code == 0)
            && (code != 0 ==> CodeAt(r, o) == Some(IoControlCode(code)))
  {
    var s1 := Store(slot, o.outputBufferLength, ToLe32(outLen));
    var s2 := Store(s1, o.inputBufferLength, ToLe32(inLen));
    StoreFrame(slot, o.outputBufferLength, ToLe32(outLen), 0, 0);
    StoreFrame(s1, o.inputBufferLength, ToLe32(inLen), o.outputBufferLength, 4);
    StoreFrame(s2, o.ioctlCode, ToLe32(code), o.outputBufferLength, 4);
    StoreFrame(s2, o.ioctlCode, ToLe32(code), o.inputBufferLength, 4);
    Decode32(code);
    Decode32(inLen);
    Decode32(outLen);
  }

  /** Reporting a byte count is read back by the I/O manager and never moves the system buffer. */
  lemma InformationWrite(slot: nat, header: seq<byte>, o: IoStackOffsets, bytes: bv64)
    requires o.Fits(slot, |header|)
    ensures Load64(WithInformation(header, o, bytes), o.irpInformation) == bytes
    ensures BufferAt(WithInformation(header, o, bytes), o) == BufferAt(header, o)
  {
    StoreFrame(header, o.irpInformation, ToLe64(bytes), o.irpSystemBuffer, 8);
    Decode64(bytes);
  }

  /** `complete` is documented to report zero bytes. It does so exactly when IoStatus.Information was zero
      already, because it never writes the field. */
  lemma CompleteReportsZeroIff(s: IrpState, status: NtStatus, o: IoStackOffsets)
    requires o.irpInformation + 8 <= |s.header|
    ensures Load64(s.Completed(status).header, o.irpInformation) == 0 <==> Load64(s.header, o.irpInformation) == 0
  {
  }

  /** A request that arrives with seven bytes reported and is merely completed still reports seven. */
  lemma CompleteReportsStaleBytes(s: IrpState, header: seq<byte>, slot: nat, status: NtStatus, o: IoStackOffsets)
    requires o.Fits(slot, |header|) && s.header == WithInformation(header, o, 7)
    ensures Load64(s.Completed(status).header, o.irpInformation) == 7
  {
    InformationWrite(slot, header, o, 7);
  }

  class IoRequest {
    const irp: Irp
    const stack: int
    var disposition: Disposition

    constructor FromRaw(irp: Irp, stack: int)
      requires irp.Separate() && irp.State().InDispatch() && stack == irp.currentStackLocation
      ensures this.irp == irp && this.stack == stack && Holds()
    {
      this.irp := irp;
      this.stack := stack;
      disposition := Owned;
    }

    /** Still owned, looking at the slot the dispatch routine was called for. */
    ghost predicate Holds()
      reads this, irp, irp.slots, irp.header, irp.buffer
    {
      disposition == Owned && irp.State().InDispatch() && stack == irp.currentStackLocation && irp.Separate()
    }

    function IoctlCode(o: IoStackOffsets): (c: Option<IoControlCode>)
      requires Holds() && o.ioctlCode + 4 <= |irp.slots[stack].raw|
      reads this, irp, irp.slots, irp.header, irp.buffer
    {
      CodeAt(irp.slots[stack].raw, o)
    }

    function InputBufferLength(o: IoStackOffsets): bv32
      requires Holds() && o.inputBufferLength + 4 <= |irp.slots[stack].raw|
      reads this, irp, irp.slots, irp.header, irp.buffer
    {
      Load32(irp.slots[stack].raw, o.inputBufferLength)
    }

    function OutputBufferLength(o: IoStackOffsets): bv32
      requires Holds() && o.outputBufferLength + 4 <= |irp.slots[stack].raw|
      reads this, irp, irp.slots, irp.header, irp.buffer
    {
      Load32(irp.slots[stack].raw, o.outputBufferLength)
    }

    function SystemBuffer(o: IoStackOffsets): Option<bv64>
      requires o.irpSystemBuffer + 8 <= irp.header.Length
      reads irp.header
    {
      BufferAt(irp.header[..], o)
    }

    /** `complete`. IoStatus.Information is left as it was. */
    method Complete(status: NtStatus) returns (r: NtStatus)
      requires Holds()
      modifies this, irp
      ensures r == status && disposition == Completed
      ensures irp.State() == old(irp.State()).Completed(status)
    {
      disposition := Completed;
      irp.KernelComplete(status);
      return status;
    }

    /** `complete_with_info`, with the pointer `io_status_information_ptr` returns. */
    method CompleteWithInfo(status: NtStatus, bytes: bv64, o: IoStackOffsets) returns (r: NtStatus)
      requires Holds() && o.irpInformation + 8 <= irp.header.Length
      modifies this, irp, irp.header
      ensures r == status && disposition == Completed
      ensures irp.State() == var s := old(irp.State()).Completed(status);
                             s.(header := WithInformation(s.header, o, bytes))
    {
      WriteBytes(irp.header, o.irpInformation, ToLe64(bytes));
      disposition := Completed;
      irp.KernelComplete(status);
      return status;
    }

    /** `into_raw_irp`: ownership leaves this request without completing the IRP. */
    method IntoRawIrp() returns (raw: Irp)
      requires Holds()
      modifies this
      ensures raw == irp && disposition == Forwarded
    {
      disposition := Forwarded;
      return irp;
    }

    /** The end of the request's scope. Being still owned here is the failing debug assertion of `Drop`. */
    method Drop()
      requires disposition != Owned
    {
    }
  }

  /** With the shipped offsets, a request is read at the places the kernel debugger shows: the output length at 0x08,
      the input length at 0x10 and the code at 0x18 of the stack location, the system buffer at 0x70 of the IRP. */
  lemma ShippedReaders(request: IoRequest)
    requires request.Holds() && |request.irp.slots[request.stack].raw| >= 0x1C && request.irp.header.Length >= 0x78
    ensures var raw, header := request.irp.slots[request.stack].raw, request.irp.header[..];
            && request.OutputBufferLength(WDK_SYS_0_5_X64) == FromLe32(raw[0x08..0x0C])
            && request.InputBufferLength(WDK_SYS_0_5_X64) == FromLe32(raw[0x10..0x14])
            && request.IoctlCode(WDK_SYS_0_5_X64)
               == (if FromLe32(raw[0x18..0x1C]) == 0 then None else Some(IoControlCode(FromLe32(raw[0x18..0x1C]))))
            && request.SystemBuffer(WDK_SYS_0_5_X64)
               == (if FromLe64(header[0x70..0x78]) == 0 then None else Some(FromLe64(header[0x70..0x78])))
  {
  }

  /** With the shipped offsets, a reported byte count goes to 0x38 of the IRP and nowhere else. */
  lemma ShippedInformation(header: seq<byte>, bytes: bv64)
    requires |header| >= 0x78
    ensures WithInformation(header, WDK_SYS_0_5_X64, bytes) == header[..0x38] + ToLe64(bytes) + header[0x40..]
  {
  }
}

/** The IRP: a header, an array of stack locations behind it, and the system buffer it points to.
    Pointer arithmetic over stack locations is modelled by their index from the array's base. */
module Irps {
  import opened Bytes
  import opened NtStatuses
  import opened Wdm

  /** One IO_STACK_LOCATION. `device` is the address the I/O manager stores in its DeviceObject field;
      `raw` are the structure's bytes, read through IoStackOffsets. */
  datatype StackLocation = StackLocation(major: int, device: int, raw: seq<byte>)

  /** `StackCount`, `CurrentLocation` and `StackSize` are signed 8-bit fields, and `CurrentLocation` starts at
      `StackCount + 1`. */
  const MAX_STACK_COUNT := 126

  /** An 8-bit signed increment, as a release build performs it. */
  function Inc8(x: int): int {
    if x == 127 then -128 else x + 1
  }

  /** The value of one whole IRP. */
  datatype IrpState = IrpState(
    stackCount: int, currentLocation: int, currentStackLocation: int, slots: seq<StackLocation>,
    header: seq<byte>, bufferAddress: bv64, buffer: seq<byte>, status: NtStatus, completions: nat)
  {
    /** The location invariant: the counter is in range and the pointer is base + counter - 1. */
    predicate WellFormed() {
      && 0 <= stackCount <= MAX_STACK_COUNT && |slots| == stackCount
      && 1 <= currentLocation <= stackCount + 1
      && currentStackLocation == currentLocation - 1
    }

    /** The IRP may be handed to one more driver: a slot is left (otherwise the kernel stops the machine
        with NO_MORE_IRP_STACK_LOCATIONS), it names a routine of the dispatch table, and the IRP has not
        been completed. */
    predicate Sendable() {
      && WellFormed() && 2 <= currentLocation && completions == 0
      && 0 <= slots[currentLocation - 2].major <= IRP_MJ_MAXIMUM_FUNCTION
    }

    /** A driver is looking at its own slot. */
    predicate InDispatch() {
      && WellFormed() && currentLocation <= stackCount && completions == 0
      && 0 <= slots[currentStackLocation].major <= IRP_MJ_MAXIMUM_FUNCTION
    }

    /** The major function of the slot the next driver will look at, and of the current one. */
    function NextMajor(): int
      requires Sendable()
    {
      slots[currentStackLocation - 1].major
    }

    function CurrentMajor(): int
      requires InDispatch()
    {
      slots[currentStackLocation].major
    }

    /** IofCallDriver, up to the call: step to the next slot and record the device there. */
    function Arrive(device: int): (s: IrpState)
      requires Sendable()
      ensures s.InDispatch()
    {
      var i := currentStackLocation - 1;
      this.(currentLocation := currentLocation - 1, currentStackLocation := i,
            slots := slots[i := slots[i].(device := device)])
    }

    /** IoSkipCurrentIrpStackLocation: give the current slot to the next driver. */
    function Skip(): (s: IrpState)
      requires InDispatch()
      ensures s.Sendable()
    {
      this.(currentLocation := Inc8(currentLocation), currentStackLocation := currentStackLocation + 1)
    }

    /** IoStatus.Status is set and IofCompleteRequest called. */
    function Completed(s: NtStatus): IrpState {
      this.(status := s, completions := completions + 1)
    }

    /** `t` is a later value of the same IRP: the same allocations with the same sizes. */
    predicate SameShape(t: IrpState) {
      && t.stackCount == stackCount && t.bufferAddress == bufferAddress
      && |t.slots| == |slots| && |t.header| == |header| && |t.buffer| == |buffer|
    }
  }

  /** A driver's effect as seen from above: given its device's address and the IRP it receives, the IRP it
      leaves behind and the status it returns. */
  type Driver = (int, IrpState) -> (IrpState, NtStatus)

  ghost predicate KeepsShape(f: Driver) {
    forall d: int, s: IrpState | s.InDispatch() :: s.SameShape(f(d, s).0)
  }

  ghost predicate AllKeepShape(f: int -> Driver) {
    forall id: int, d: int, s: IrpState | s.InDispatch() :: s.SameShape(f(id)(d, s).0)
  }

  /** The routine the I/O manager puts in every slot of a new driver object's dispatch table. */
  function IopInvalidDeviceRequest(device: int, s: IrpState): (IrpState, NtStatus) {
    (s.Completed(INVALID_DEVICE_REQUEST), INVALID_DEVICE_REQUEST)
  }

  /** A fresh IRP at the device it is sent to has its counter equal to its count, so a filter on top of a
      stack always skips in that state: the documented `CurrentLocation < StackCount` never holds there. */
  lemma TopRunsAtItsCount(locations: seq<StackLocation>, header: seq<byte>, address: bv64, buffer: seq<byte>,
                          device: int)
    requires Allocated(locations, header, address, buffer).Sendable()
    ensures var s := Allocated(locations, header, address, buffer).Arrive(device);
            s.currentLocation == s.stackCount && s.InDispatch() && s.Skip().currentLocation == s.stackCount + 1
  {
  }

  /** Skipping a slot and being called again is arriving at the same slot. */
  lemma SkipThenArrive(s: IrpState, d: int, e: int)
    requires s.Sendable()
    ensures s.Arrive(d).Skip().Arrive(e) == s.Arrive(e)
  {
    var i := s.currentStackLocation - 1;
    assert s.slots[i := s.slots[i].(device := d)][i := s.slots[i].(device := e)]
           == s.slots[i := s.slots[i].(device := e)];
  }

  /** A newly allocated IRP: the cursor starts one past the last slot. */
  function Allocated(locations: seq<StackLocation>, header: seq<byte>, address: bv64, buffer: seq<byte>): IrpState {
    IrpState(|locations|, |locations| + 1, |locations|, locations, header, address, buffer, SUCCESS, 0)
  }

  /** The sender of an IRP fills its top stack location; those below hold whatever they hold. */
  function Locations(size: nat, top: StackLocation, below: nat -> StackLocation): (r: seq<StackLocation>)
    requires 1 <= size
    ensures |r| == size && r[size - 1] == top && forall i: nat :: i < size - 1 ==> r[i] == below(i)
  {
    seq(size, i requires 0 <= i => if i < size - 1 then below(i) else top)
  }

  class Irp {
    const stackCount: int
    var currentLocation: int
    var currentStackLocation: int
    const slots: array<StackLocation>
    const header: array<byte>
    const bufferAddress: bv64
    const buffer: array<byte>
    var status: NtStatus
    var completions: nat

    function State(): IrpState
      reads this, slots, header, buffer
    {
      IrpState(stackCount, currentLocation, currentStackLocation, slots[..],
               header[..], bufferAddress, buffer[..], status, completions)
    }

    /** The allocations of one IRP do not overlap. */
    ghost predicate Separate() {
      header != buffer && (slots as object) != header && (slots as object) != buffer
    }

    /** IoAllocateIrp. */
    constructor (locations: seq<StackLocation>, headerBytes: seq<byte>, address: bv64, bufferBytes: seq<byte>)
      requires |locations| <= MAX_STACK_COUNT
      ensures fresh(slots) && fresh(header) && fresh(buffer) && Separate()
      ensures State() == Allocated(locations, headerBytes, address, bufferBytes)
    {
      stackCount := |locations|;
      currentLocation := |locations| + 1;
      currentStackLocation := |locations|;
      slots := new StackLocation[|locations|](i requires 0 <= i < |locations| => locations[i]);
      header := new byte[|headerBytes|](i requires 0 <= i < |headerBytes| => headerBytes[i]);
      bufferAddress := address;
      buffer := new byte[|bufferBytes|](i requires 0 <= i < |bufferBytes| => bufferBytes[i]);
      status := SUCCESS;
      completions := 0;
      new;
      assert slots[..] == locations && header[..] == headerBytes && buffer[..] == bufferBytes;
    }

    /** The kernel's half of IofCallDriver. */
    method NextStackLocation(device: int)
      requires Separate() && State().Sendable()
      modifies this, slots
      ensures State() == old(State()).Arrive(device)
    {
      currentLocation := currentLocation - 1;
      currentStackLocation := currentStackLocation - 1;
      slots[currentStackLocation] := slots[currentStackLocation].(device := device);
      assert slots[..] == old(State()).Arrive(device).slots;
    }

    /** `irp_skip_current_stack`. The slot being skipped may be the top one: `CurrentLocation <= StackCount`. */
    method SkipCurrentStack()
      requires State().InDispatch()
      modifies this
      ensures State() == old(State()).Skip()
    {
      currentLocation := Inc8(currentLocation);
      currentStackLocation := currentStackLocation + 1;
    }

    /** `KernelCompleter::complete`: the IRP must not have been completed already. */
    method KernelComplete(s: NtStatus)
      requires completions == 0
      modifies this
      ensures State() == old(State()).Completed(s)
    {
      status := s;
      completions := completions + 1;
    }

    /** What a driver outside this model did to the IRP. */
    method Overwrite(s: IrpState)
      requires Separate() && State().SameShape(s)
      modifies this, slots, header, buffer
      ensures State() == s
    {
      currentLocation, currentStackLocation := s.currentLocation, s.currentStackLocation;
      status, completions := s.status, s.completions;
      forall i | 0 <= i < slots.Length {
        slots[i] := s.slots[i];
      }
      forall i | 0 <= i < header.Length {
        header[i] := s.header[i];
      }
      forall i | 0 <= i < buffer.Length {
        buffer[i] := s.buffer[i];
      }
      assert slots[..] == s.slots && header[..] == s.header && buffer[..] == s.buffer;
    }
  }
}

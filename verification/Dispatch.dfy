/** hid-filter's dispatch code: passing IRPs down a stack of filters. */
module Dispatch {
  import opened Options
  import opened Bytes
  import opened NtStatuses
  import opened Wdm
  import opened Irps
  import opened Requests
  import opened Routing
  import opened DeviceStacks
  import opened DispatchTable
  import opened HidFilter
  import opened WdmDriver

  function Serials(p: seq<DeviceObject>): (r: seq<int>)
    ensures |r| == |p| && forall i :: 0 <= i < |p| ==> r[i] == p[i].serial
  {
    seq(|p|, i requires 0 <= i < |p| => p[i].serial)
  }

  /** The way down from a device: filters resting on one another, above a device of another driver. All of
      them exist. */
  ghost predicate Chain(sys: IoSystem, path: seq<DeviceObject>)
    reads sys, path
  {
    && path != []
    && (forall i :: 0 <= i < |path| ==> path[i] in sys.devices && (sys.IsFilter(path[i]) <==> i < |path| - 1))
    && (forall i {:trigger path[i].lowerDevice} :: 0 <= i < |path| - 1 ==> path[i].lowerDevice == path[i + 1])
  }

  lemma PathIsChain(sys: IoSystem, d: DeviceObject)
    requires sys.Valid() && d in sys.devices
    ensures Chain(sys, sys.Path(d))
    decreases d.serial
  {
    if sys.IsFilter(d) {
      sys.FilterRestsOnOlder(d);
      PathIsChain(sys, d.lowerDevice);
      var path, rest := sys.Path(d), sys.Path(d.lowerDevice);
      assert path == [d] + rest && path[0].lowerDevice == path[1];
      forall i | 1 <= i < |path| - 1
        ensures path[i].lowerDevice == path[i + 1]
      {
        assert rest[i - 1].lowerDevice == rest[i];
      }
    }
  }

  /** There is only one way down from a device. */
  lemma {:induction false} OneWayDown(sys: IoSystem, path: seq<DeviceObject>)
    requires sys.Valid() && Chain(sys, path)
    ensures sys.Path(path[0]) == path
    decreases |path|
  {
    if |path| > 1 {
      assert path[0].lowerDevice == path[1];
      sys.FilterRestsOnOlder(path[0]);
      forall i | 0 <= i < |path| - 2
        ensures path[1..][i].lowerDevice == path[1..][i + 1]
      {
        assert path[i + 1].lowerDevice == path[i + 2];
      }
      OneWayDown(sys, path[1..]);
    }
  }

  /** So the path an IRP is passed down is the device's own: the chains from a device are its path and nothing else. */
  lemma ChainIffPath(sys: IoSystem, d: DeviceObject, path: seq<DeviceObject>)
    requires sys.Valid() && d in sys.devices
    ensures Chain(sys, path) && path[0] == d <==> path == sys.Path(d)
  {
    PathIsChain(sys, d);
    if Chain(sys, path) {
      OneWayDown(sys, path);
    }
  }

  /** Drivers and routines outside this model keep an IRP's allocations. */
  ghost predicate WellBehaved(sys: IoSystem) {
    KeepsShape(sys.foreign) && AllKeepShape(sys.others)
  }

  /** The system may deliver `irp`: no slot of the table is empty, and no two allocations overlap. */
  ghost predicate Ready(sys: IoSystem, irp: Irp)
    reads sys.driver, sys.driver.majorFunction
  {
    var table := sys.driver.majorFunction;
    && Complete(table[..]) && WellBehaved(sys)
    && irp.Separate()
    && (table as object) != irp.slots && (table as object) != irp.header && (table as object) != irp.buffer
  }

  /** The table's entry for a major function. */
  function Slot(sys: IoSystem, major: int): Option<Routine>
    requires 0 <= major < sys.driver.majorFunction.Length
    reads sys.driver.majorFunction
  {
    sys.driver.majorFunction[major]
  }

  /** Calls of PoStartNextPowerIrp for an IRP that meets `filters` filters with this table entry. */
  function PowerStarts(slot: Option<Routine>, filters: nat): nat {
    if slot == Some(DispatchPower) then filters else 0
  }

  /** The callbacks `HidFilterDriver` overrides. */
  predicate Overrides(cb: Callback) {
    || cb.OnCreate? || cb.OnClose? || cb.OnRead? || cb.OnInternalDeviceControl?
    || cb.OnPower? || cb.OnPnp? || cb.OnCleanup?
  }

  /** Which callback each thunk generated by `dispatch_fn!` calls. */
  function CallbackOf(r: Routine): Callback
    requires !r.Other?
  {
    match r
    case DispatchCreate => OnCreate
    case DispatchClose => OnClose
    case DispatchRead => OnRead
    case DispatchPower => OnPower
    case DispatchPnp | DispatchPassthrough => OnPnp
  }

  /** IofCallDriver. If the IRP's major function forwards, the IRP goes down the stack of filters and comes back
      as the driver below left it; otherwise the routine in its slot answers for the first filter. */
  method IofCallDriver(sys: IoSystem, device: DeviceObject, irp: Irp, ghost path: seq<DeviceObject>)
    returns (status: NtStatus)
    requires Ready(sys, irp) && Chain(sys, path) && device == path[0] && irp.State().Sendable()
    modifies irp, irp.slots, irp.header, irp.buffer, sys.power
    ensures (irp.State(), status)
            == old(Answer(Occupant(Slot(sys, irp.State().NextMajor()), sys.others),
                          Serials(path), sys.foreign, irp.State()))
    ensures sys.power.starts == old(sys.power.starts + PowerStarts(Slot(sys, irp.State().NextMajor()), |path| - 1))
    decreases |path|, 3
  {
    StepOfAnswer(Occupant(Slot(sys, irp.State().NextMajor()), sys.others), path, sys.foreign, irp.State());
    irp.NextStackLocation(device.serial);
    status := CallRoutine(sys, device, irp, path);
  }

  /** The answer of a device that has just been handed the IRP. */
  function Entered(occupant: Option<Driver>, path: seq<DeviceObject>, f: Driver, here: IrpState): (IrpState, NtStatus)
    requires path != [] && here.InDispatch()
  {
    if |path| == 1 then f(path[0].serial, here)
    else if occupant.Some? then occupant.value(path[0].serial, here)
    else Route(Serials(path[1..]), f, here.Skip())
  }

  lemma StepOfAnswer(occupant: Option<Driver>, path: seq<DeviceObject>, f: Driver, s: IrpState)
    requires path != [] && s.Sendable()
    ensures Answer(occupant, Serials(path), f, s) == Entered(occupant, path, f, s.Arrive(path[0].serial))
  {
    assert Serials(path[1..]) == Serials(path)[1..];
  }

  /** The kernel looks up the device's dispatch routine for the current slot and calls it. */
  method CallRoutine(sys: IoSystem, device: DeviceObject, irp: Irp, ghost path: seq<DeviceObject>)
    returns (status: NtStatus)
    requires Ready(sys, irp) && Chain(sys, path) && device == path[0] && irp.State().InDispatch()
    modifies irp, irp.slots, irp.header, irp.buffer, sys.power
    ensures (irp.State(), status)
            == old(Entered(Occupant(Slot(sys, irp.State().CurrentMajor()), sys.others), path, sys.foreign, irp.State()))
    ensures sys.power.starts == old(sys.power.starts + PowerStarts(Slot(sys, irp.State().CurrentMajor()), |path| - 1))
    decreases |path|, 2
  {
    if !sys.IsFilter(device) {
      status := CallOutside(sys.foreign, device.serial, irp);
      return;
    }
    var routine := Slot(sys, irp.slots[irp.currentStackLocation].major).value;
    if routine.Other? {
      status := CallOutside(sys.others(routine.id), device.serial, irp);
    } else {
      status := Thunk(sys, CallbackOf(routine), device, irp, path);
    }
  }

  /** A dispatch routine outside this model. */
  method CallOutside(f: Driver, serial: int, irp: Irp) returns (status: NtStatus)
    requires irp.Separate() && irp.State().InDispatch() && irp.State().SameShape(f(serial, irp.State()).0)
    modifies irp, irp.slots, irp.header, irp.buffer
    ensures (irp.State(), status) == f(serial, old(irp.State()))
  {
    var result := f(serial, irp.State());
    irp.Overwrite(result.0);
    return result.1;
  }

  /** PoCallDriver delivers a power IRP as IofCallDriver would. */
  method PoCallDriver(sys: IoSystem, device: DeviceObject, irp: Irp, ghost path: seq<DeviceObject>)
    returns (status: NtStatus)
    requires Ready(sys, irp) && Chain(sys, path) && device == path[0] && irp.State().Sendable()
    modifies irp, irp.slots, irp.header, irp.buffer, sys.power
    ensures (irp.State(), status)
            == old(Answer(Occupant(Slot(sys, irp.State().NextMajor()), sys.others),
                          Serials(path), sys.foreign, irp.State()))
    ensures sys.power.starts == old(sys.power.starts + PowerStarts(Slot(sys, irp.State().NextMajor()), |path| - 1))
    decreases |path|, 4
  {
    status := IofCallDriver(sys, device, irp, path);
  }

  /** The thunk `dispatch_fn!` generates: raw IRP to request, request to callback, and the callback's status
      back. The request never reaches the end of its scope still owned. */
  method Thunk(sys: IoSystem, cb: Callback, device: DeviceObject, irp: Irp, ghost path: seq<DeviceObject>)
    returns (status: NtStatus)
    requires Ready(sys, irp) && Chain(sys, path) && device == path[0] && |path| > 1 && irp.State().InDispatch()
    modifies irp, irp.slots, irp.header, irp.buffer, sys.power
    ensures Overrides(cb) ==>
              (irp.State(), status)
              == old(Answer(Occupant(Slot(sys, irp.State().CurrentMajor()), sys.others),
                            Serials(path[1..]), sys.foreign, irp.State().Skip()))
    ensures !Overrides(cb) ==> status == DefaultStatus(cb) && irp.State() == old(irp.State()).Completed(status)
    ensures sys.power.starts == old(sys.power.starts + PowerCalls(sys, cb, irp.State().CurrentMajor(), |path| - 1))
    decreases |path|, 1
  {
    var stack := irp.currentStackLocation;
    var request := new IoRequest.FromRaw(irp, stack);
    status := Handle(sys, cb, device, request, path);
    request.Drop();
  }

  /** Calls of PoStartNextPowerIrp made by callback `cb` of the first of `filters` filters and by those below. */
  function PowerCalls(sys: IoSystem, cb: Callback, major: int, filters: nat): nat
    requires 0 <= major < sys.driver.majorFunction.Length && filters > 0
    reads sys.driver.majorFunction
  {
    (if cb.OnPower? then 1 else 0) + if Overrides(cb) then PowerStarts(Slot(sys, major), filters - 1) else 0
  }

  /** The callbacks of `HidFilterDriver`. Each discharges the request exactly once: an overridden callback
      forwards it and a default one completes it. */
  method Handle(sys: IoSystem, cb: Callback, device: DeviceObject, request: IoRequest, ghost path: seq<DeviceObject>)
    returns (status: NtStatus)
    requires request.Holds() && Ready(sys, request.irp) && Chain(sys, path) && device == path[0] && |path| > 1
    modifies request, request.irp, request.irp.slots, request.irp.header, request.irp.buffer, sys.power
    ensures request.disposition
            == if cb in {OnCreate, OnClose, OnRead, OnInternalDeviceControl, OnPower, OnPnp, OnCleanup} then Forwarded
               else Completed
    ensures Overrides(cb) ==>
              (request.irp.State(), status)
              == old(Answer(Occupant(Slot(sys, request.irp.State().CurrentMajor()), sys.others),
                            Serials(path[1..]), sys.foreign, request.irp.State().Skip()))
    ensures !Overrides(cb) ==>
              status == DefaultStatus(cb) && request.irp.State() == old(request.irp.State()).Completed(status)
    ensures sys.power.starts
            == old(sys.power.starts + PowerCalls(sys, cb, request.irp.State().CurrentMajor(), |path| - 1))
    decreases |path|, 0
  {
    if !Overrides(cb) {
      status := Default(cb, request);
      return;
    }
    var lower := sys.LowerDevice(device);
    if cb.OnPower? {
      status := ForwardPowerIrp(sys, request, lower, path[1..]);
    } else {
      status := ForwardIrp(sys, request, lower, path[1..]);
    }
  }

  /** `forward_irp`. */
  method ForwardIrp(sys: IoSystem, request: IoRequest, lower: DeviceObject, ghost path: seq<DeviceObject>)
    returns (status: NtStatus)
    requires request.Holds() && Ready(sys, request.irp) && Chain(sys, path) && lower == path[0]
    modifies request, request.irp, request.irp.slots, request.irp.header, request.irp.buffer, sys.power
    ensures request.disposition == Forwarded
    ensures (request.irp.State(), status)
            == old(Answer(Occupant(Slot(sys, request.irp.State().CurrentMajor()), sys.others),
                          Serials(path), sys.foreign, request.irp.State().Skip()))
    ensures sys.power.starts
            == old(sys.power.starts + PowerStarts(Slot(sys, request.irp.State().CurrentMajor()), |path| - 1))
    decreases |path|, 4
  {
    var irp := request.IntoRawIrp();
    irp.SkipCurrentStack();
    status := IofCallDriver(sys, lower, irp, path);
  }

  /** The power route of `on_power`. */
  method ForwardPowerIrp(sys: IoSystem, request: IoRequest, lower: DeviceObject, ghost path: seq<DeviceObject>)
    returns (status: NtStatus)
    requires request.Holds() && Ready(sys, request.irp) && Chain(sys, path) && lower == path[0]
    modifies request, request.irp, request.irp.slots, request.irp.header, request.irp.buffer, sys.power
    ensures request.disposition == Forwarded
    ensures (request.irp.State(), status)
            == old(Answer(Occupant(Slot(sys, request.irp.State().CurrentMajor()), sys.others),
                          Serials(path), sys.foreign, request.irp.State().Skip()))
    ensures sys.power.starts
            == old(sys.power.starts + 1 + PowerStarts(Slot(sys, request.irp.State().CurrentMajor()), |path| - 1))
    decreases |path|, 5
  {
    var irp := request.IntoRawIrp();
    sys.power.starts := sys.power.starts + 1;
    irp.SkipCurrentStack();
    status := PoCallDriver(sys, lower, irp, path);
  }

  /** A fresh IRP sent to `device` is answered by the stack below it. */
  method SendNew(sys: IoSystem, device: DeviceObject, locations: seq<StackLocation>,
                 header: seq<byte>, address: bv64, buffer: seq<byte>)
    returns (irp: Irp, status: NtStatus)
    requires sys.Valid() && device in sys.devices
    requires Complete(sys.driver.majorFunction[..]) && WellBehaved(sys)
    requires 1 <= |locations| <= MAX_STACK_COUNT
    requires 0 <= locations[|locations| - 1].major <= IRP_MJ_MAXIMUM_FUNCTION
    modifies sys.power
    ensures var sent := Allocated(locations, header, address, buffer);
            sent.Sendable()
            && (irp.State(), status)
               == old(Answer(Occupant(Slot(sys, sent.NextMajor()), sys.others),
                             Serials(sys.Path(device)), sys.foreign, sent))
    ensures sys.power.starts
            == old(sys.power.starts) + if old(Slot(sys, locations[|locations| - 1].major)) == Some(DispatchPower)
                                       then old(|sys.Path(device)|) - 1 else 0
  {
    ghost var path := sys.Path(device);
    PathIsChain(sys, device);
    irp := new Irp(locations, header, address, buffer);
    status := IofCallDriver(sys, device, irp, path);
  }
}

/** hid-filter's DriverEntry: its dispatch table and its callbacks. */
module DispatchTable {
  import opened Options
  import opened NtStatuses
  import opened Wdm
  import opened Irps
  import opened Routing
  import opened DeviceStacks

  type Table = t: seq<Option<Routine>> | |t| == IRP_MJ_MAXIMUM_FUNCTION + 1
    witness seq(IRP_MJ_MAXIMUM_FUNCTION + 1, _ => None)

  /** The majors DriverEntry assigns whatever the table held. */
  function Assigned(major: int): Option<Routine> {
    if major == IRP_MJ_CREATE then Some(DispatchCreate)
    else if major == IRP_MJ_CLOSE then Some(DispatchClose)
    else if major == IRP_MJ_READ then Some(DispatchRead)
    else if major == IRP_MJ_INTERNAL_DEVICE_CONTROL then Some(DispatchPassthrough)
    else if major == IRP_MJ_POWER then Some(DispatchPower)
    else if major == IRP_MJ_PNP then Some(DispatchPnp)
    else None
  }

  /** The major functions that hid-filter forwards whatever its table held: create, close, read, internal device
      control, power and PnP. */
  const FORWARDED_MAJORS: set<int> := {0x00, 0x02, 0x03, 0x0F, 0x16, 0x1B}

  /** A slot holding one of hid-filter's thunks, all of which forward. */
  predicate Forwards(slot: Option<Routine>) {
    slot.Some? && !slot.value.Other?
  }

  /** The routine of someone else that a slot holds, if any. */
  function Occupant(slot: Option<Routine>, others: int -> Driver): Option<Driver> {
    if slot.Some? && slot.value.Other? then Some(others(slot.value.id)) else None
  }

  /** A table an IRP may be dispatched through: no slot is empty. */
  ghost predicate Complete(t: seq<Option<Routine>>) {
    |t| == IRP_MJ_MAXIMUM_FUNCTION + 1 && forall m :: 0 <= m < |t| ==> t[m].Some?
  }

  /** What DriverEntry leaves in a slot that held `before`. */
  function Loaded(before: Table): (t: Table)
    ensures Complete(t)
  {
    seq(|before|, m requires 0 <= m < |before| =>
      if Assigned(m).Some? then Assigned(m) else if before[m].None? then Some(DispatchPassthrough) else before[m])
  }

  /** Whatever the table held, a major function is forwarded exactly when it is one of the six or its slot was not
      taken by someone else; whoever had taken the slot of another keeps it. */
  lemma ForwardsIff(before: Table, m: nat)
    requires m < |before|
    ensures Forwards(Loaded(before)[m]) <==> m in FORWARDED_MAJORS || before[m].None? || Forwards(before[m])
    ensures !Forwards(Loaded(before)[m]) ==> Loaded(before)[m] == before[m]
  {
  }

  /** In a table nobody had put hid-filter's thunks into, power IRPs and no others take the power route. */
  lemma PowerRouteIff(before: Table, m: nat)
    requires m < |before| && !Forwards(before[m])
    ensures Loaded(before)[m] == Some(DispatchPower) <==> m == IRP_MJ_POWER
  {
  }

  /** In a table the I/O manager has filled, as it does for every new driver object, nothing but the six
      assigned major functions is forwarded. */
  lemma FilledTable(before: Table)
    requires forall m :: 0 <= m < |before| ==> before[m].Some? && before[m].value.Other?
    ensures forall m :: 0 <= m < |before| ==> (Forwards(Loaded(before)[m]) <==> m in FORWARDED_MAJORS)
  {
    forall m | 0 <= m < |before|
      ensures Forwards(Loaded(before)[m]) <==> m in FORWARDED_MAJORS
    {
      ForwardsIff(before, m);
    }
  }

  /** The table of a new driver object. */
  function NewTable(): Table {
    seq(IRP_MJ_MAXIMUM_FUNCTION + 1, _ => Some(Other(0)))
  }

  lemma NewTableBlocks()
    ensures !Forwards(Loaded(NewTable())[IRP_MJ_WRITE]) && !Forwards(Loaded(NewTable())[IRP_MJ_DEVICE_CONTROL])
  {
    FilledTable(NewTable());
  }

  /** An IRP sent to the top of a stack with at least one filter gets the answer of the driver below, whatever
      that driver and the routines of others are, exactly when its major function was assigned or its slot was
      not taken by someone else. */
  lemma TransparentIff(before: Table, path: seq<int>, s: IrpState)
    requires |path| > 1 && s.Sendable()
    ensures var m := s.NextMajor();
            (forall f: Driver, others: int -> Driver ::
               Answer(Occupant(Loaded(before)[m], others), path, f, s)
               == f(path[|path| - 1], s.Arrive(path[|path| - 1])))
            <==> m in FORWARDED_MAJORS || before[m].None? || Forwards(before[m])
  {
    var m := s.NextMajor();
    ForwardsIff(before, m);
    if Forwards(Loaded(before)[m]) {
      forall f: Driver, others: int -> Driver
        ensures Answer(Occupant(Loaded(before)[m], others), path, f, s)
                == f(path[|path| - 1], s.Arrive(path[|path| - 1]))
      {
        Transparent(path, f, s);
      }
    } else {
      var f: Driver := (d, t) => (t, SUCCESS);
      var others: int -> Driver := id => IopInvalidDeviceRequest;
      assert Answer(Occupant(Loaded(before)[m], others), path, f, s).1 == INVALID_DEVICE_REQUEST;
      assert f(path[|path| - 1], s.Arrive(path[|path| - 1])).1 == SUCCESS;
    }
  }

  /** `driver_entry_inner`: without a driver extension nothing is registered. */
  method DriverEntry(driver: DriverObject, hasExtension: bool) returns (status: NtStatus)
    requires driver.majorFunction.Length == IRP_MJ_MAXIMUM_FUNCTION + 1
    modifies driver.majorFunction, driver`addDevice, driver`driverUnload
    ensures !hasExtension ==> status == UNSUCCESSFUL && unchanged(driver.majorFunction) && unchanged(driver)
    ensures hasExtension ==> status == SUCCESS && driver.addDevice && driver.driverUnload
    ensures hasExtension ==> driver.majorFunction[..] == Loaded(old(driver.majorFunction[..]))
    ensures hasExtension ==>
              var table := driver.majorFunction;
              && table[IRP_MJ_CREATE] == Some(DispatchCreate) && table[IRP_MJ_CLOSE] == Some(DispatchClose)
              && table[IRP_MJ_READ] == Some(DispatchRead) && table[IRP_MJ_POWER] == Some(DispatchPower)
              && table[IRP_MJ_INTERNAL_DEVICE_CONTROL] == Some(DispatchPassthrough)
              && table[IRP_MJ_PNP] == Some(DispatchPnp)
              && forall m :: 0 <= m < table.Length && m !in FORWARDED_MAJORS ==>
                   table[m] == if old(table[m]).None? then Some(DispatchPassthrough) else old(table[m])
  {
    if !hasExtension {
      return UNSUCCESSFUL;
    }
    driver.addDevice := true;
    var table := driver.majorFunction;
    for i := 0 to IRP_MJ_MAXIMUM_FUNCTION + 1
      invariant forall m :: 0 <= m < i ==>
                  table[m] == if old(table[m]).None? then Some(DispatchPassthrough) else old(table[m])
      invariant driver.addDevice
      invariant forall m :: i <= m <= IRP_MJ_MAXIMUM_FUNCTION ==> table[m] == old(table[m])
    {
      if table[i].None? {
        table[i] := Some(DispatchPassthrough);
      }
    }
    table[IRP_MJ_CREATE] := Some(DispatchCreate);
    table[IRP_MJ_CLOSE] := Some(DispatchClose);
    table[IRP_MJ_READ] := Some(DispatchRead);
    table[IRP_MJ_INTERNAL_DEVICE_CONTROL] := Some(DispatchPassthrough);
    table[IRP_MJ_POWER] := Some(DispatchPower);
    table[IRP_MJ_PNP] := Some(DispatchPnp);
    driver.driverUnload := true;
    return SUCCESS;
  }
}

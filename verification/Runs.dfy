/** hid-filter over whole runs: every sequence of events, from DriverEntry on, refines a small state machine
    over sequences of filters. */
module Runs {
  import opened Options
  import opened Bytes
  import opened NtStatuses
  import opened Wdm
  import opened Irps
  import opened Routing
  import opened DeviceStacks
  import opened DispatchTable
  import opened HidFilter
  import opened Dispatch
  import opened Ways

  /** What the rest of the system may ask of hid-filter, in any order: attach to another driver's device,
      deliver an IRP to the top of a stack, unload. */
  datatype Event =
    | Add(pdo: DeviceObject, createStatus: NtStatus, attachable: bool)
    | Send(pdo: DeviceObject, slot: StackLocation, below: nat -> StackLocation,
           header: seq<byte>, address: bv64, buffer: seq<byte>)
    | Unload

  /** One delivered IRP: as sent, and as it came back. */
  datatype Reply = Reply(sent: IrpState, final: IrpState, status: NtStatus)

  // ----- the state machine

  /** The device that was on top of a stack before hid-filter came, and the StackSize it has. */
  datatype Bottom = Bottom(device: DeviceObject, size: int)

  /** What does not change during a run: the dispatch table, everyone else's code, and the bottom of the stack
      of each device of another driver. */
  datatype World = World(table: Table, foreign: Driver, others: int -> Driver, bottoms: map<DeviceObject, Bottom>) {
    ghost predicate Valid() {
      Complete(table)
    }

    predicate Knows(e: Event) {
      !e.Unload? ==> e.pdo in bottoms
    }
  }

  /** The filters present, by serial number: in all, newest first, and on each bottom, top first; the filters
      deleted so far; and the number of calls of PoStartNextPowerIrp. */
  datatype Stacks = Stacks(clock: nat, all: seq<int>, on: map<DeviceObject, seq<int>>, gone: seq<int>, starts: nat) {
    function On(bottom: DeviceObject): seq<int> {
      if bottom in on then on[bottom] else []
    }
  }

  /** The number of slots an IRP for the stack of `pdo` gets: the size of its top device. */
  function SlotCount(w: World, st: Stacks, pdo: DeviceObject): int
    requires pdo in w.bottoms
  {
    var bottom := w.bottoms[pdo];
    Size8(bottom.size, |st.On(bottom.device)|)
  }

  /** An IRP with as many slots as the top device of a stack asks for can be allocated and dispatched. */
  predicate Room(size: int, e: Event)
    requires e.Send?
  {
    1 <= size <= MAX_STACK_COUNT && 0 <= e.slot.major <= IRP_MJ_MAXIMUM_FUNCTION
  }

  /** The IRP of a Send: the event's request in its top slot, and the event's header and buffer. */
  function NewIrp(size: nat, e: Event): (s: IrpState)
    requires e.Send? && 1 <= size
    ensures |s.slots| == size && s.slots[size - 1] == e.slot && forall i: nat :: i < size - 1 ==> s.slots[i] == e.below(i)
    ensures s.header == e.header && s.bufferAddress == e.address && s.buffer == e.buffer
  {
    Allocated(Locations(size, e.slot, e.below), e.header, e.address, e.buffer)
  }

  predicate Deliverable(w: World, st: Stacks, e: Event)
    requires w.Valid() && w.Knows(e)
  {
    e.Send? && Room(SlotCount(w, st, e.pdo), e)
  }

  function After(w: World, st: Stacks, e: Event): Stacks
    requires w.Valid() && w.Knows(e)
  {
    match e
    case Add(pdo, createStatus, attachable) =>
      if createStatus != SUCCESS then st
      else if !attachable then st.(clock := st.clock + 1, gone := st.gone + [st.clock as int])
      else
        var bottom := w.bottoms[pdo].device;
        st.(clock := st.clock + 1, all := [st.clock as int] + st.all,
            on := st.on[bottom := [st.clock as int] + st.On(bottom)])
    case Send(pdo, slot, _, _, _, _) =>
      if !Deliverable(w, st, e) then st
      else st.(starts := st.starts + PowerStarts(w.table[slot.major], |st.On(w.bottoms[pdo].device)|))
    case Unload => st.(all := [], on := map[], gone := st.gone + st.all)
  }

  /** The state before any filter exists. */
  function NoFilters(clock: nat, gone: seq<int>, starts: nat): Stacks {
    Stacks(clock, [], map[], gone, starts)
  }

  /** The state after all the events. */
  function AfterAll(w: World, st: Stacks, events: seq<Event>): Stacks
    requires w.Valid() && forall e :: e in events ==> w.Knows(e)
  {
    if events == [] then st
    else
      var last := |events| - 1;
      After(w, AfterAll(w, st, events[..last]), events[last])
  }

  function Sent(w: World, st: Stacks, e: Event): (s: IrpState)
    requires w.Valid() && w.Knows(e) && Deliverable(w, st, e)
    ensures s.Sendable() && s.NextMajor() == e.slot.major
  {
    NewIrp(SlotCount(w, st, e.pdo), e)
  }

  /** What an event is answered with. */
  function ReplyTo(w: World, st: Stacks, e: Event): Option<Reply>
    requires w.Valid() && w.Knows(e)
  {
    if !Deliverable(w, st, e) then None
    else
      var bottom := w.bottoms[e.pdo].device;
      var (final, status) := Answer(Occupant(w.table[e.slot.major], w.others), st.On(bottom) + [bottom.serial],
                                    w.foreign, Sent(w, st, e));
      Some(Reply(Sent(w, st, e), final, status))
  }

  /** What the event number `i` of a run is answered with. */
  function ReplyAt(w: World, st: Stacks, events: seq<Event>, i: nat): Option<Reply>
    requires w.Valid() && i < |events| && forall e :: e in events ==> w.Knows(e)
  {
    ReplyTo(w, AfterAll(w, st, events[..i]), events[i])
  }

  /** `replies` are what the events, in their order, are answered with. */
  ghost predicate Replies(w: World, start: Stacks, events: seq<Event>, replies: seq<Option<Reply>>)
    requires w.Valid() && forall e :: e in events ==> w.Knows(e)
  {
    |replies| == |events| && forall i :: 0 <= i < |events| ==> replies[i] == ReplyAt(w, start, events, i)
  }

  lemma OneMoreReply(w: World, start: Stacks, events: seq<Event>, replies: seq<Option<Reply>>)
    requires w.Valid() && events != [] && forall e :: e in events ==> w.Knows(e)
    requires Replies(w, start, events[..|events| - 1], replies)
    ensures Replies(w, start, events, replies + [ReplyAt(w, start, events, |events| - 1)])
  {
    var more := replies + [ReplyAt(w, start, events, |events| - 1)];
    forall i | 0 <= i < |events| - 1
      ensures more[i] == ReplyAt(w, start, events, i)
    {
      assert replies[i] == ReplyAt(w, start, events[..|events| - 1], i);
      assert events[..|events| - 1][..i] == events[..i];
    }
  }

  // ----- what the state machine says

  /** An IRP whose major function forwards, or whose stack has no filter, is answered as if hid-filter were not
      there: by the device that was on top before it came, given this very IRP. */
  lemma DirectReply(w: World, st: Stacks, e: Event)
    requires w.Valid() && w.Knows(e) && Deliverable(w, st, e)
    requires Forwards(w.table[e.slot.major]) || st.On(w.bottoms[e.pdo].device) == []
    ensures var top, r := w.bottoms[e.pdo].device.serial, ReplyTo(w, st, e).value;
            (r.final, r.status) == w.foreign(top, Sent(w, st, e).Arrive(top))
  {
    Transparent(st.On(w.bottoms[e.pdo].device) + [w.bottoms[e.pdo].device.serial], w.foreign, Sent(w, st, e));
  }

  /** Otherwise the routine in its slot answers for the topmost filter, and nobody below sees the IRP. */
  lemma OccupiedReply(w: World, st: Stacks, e: Event)
    requires w.Valid() && w.Knows(e) && Deliverable(w, st, e)
    requires !Forwards(w.table[e.slot.major]) && st.On(w.bottoms[e.pdo].device) != []
    ensures var filter, r := st.On(w.bottoms[e.pdo].device)[0], ReplyTo(w, st, e).value;
            (r.final, r.status) == w.others(w.table[e.slot.major].value.id)(filter, Sent(w, st, e).Arrive(filter))
  {
  }

  /** With the table DriverEntry left, whatever it held before: the six assigned major functions are answered
      directly on every stack in every state, and so is any other whose slot nobody else had taken. */
  lemma LoadedReply(w: World, before: Table, st: Stacks, e: Event)
    requires w.Valid() && w.Knows(e) && Deliverable(w, st, e) && w.table == Loaded(before)
    requires e.slot.major in FORWARDED_MAJORS || before[e.slot.major].None? || Forwards(before[e.slot.major])
    ensures var top, r := w.bottoms[e.pdo].device.serial, ReplyTo(w, st, e).value;
            (r.final, r.status) == w.foreign(top, Sent(w, st, e).Arrive(top))
  {
    ForwardsIff(before, e.slot.major);
    DirectReply(w, st, e);
  }

  /** If everyone else completes each IRP once, with the status returned, so does every stack. */
  lemma ReplyCompletedOnce(w: World, st: Stacks, e: Event)
    requires w.Valid() && w.Knows(e) && Deliverable(w, st, e)
    requires CompletesOnce(w.foreign) && forall id: int :: CompletesOnce(w.others(id))
    ensures var r := ReplyTo(w, st, e).value; r.final.completions == 1 && r.final.status == r.status
  {
    var bottom := w.bottoms[e.pdo].device;
    CompletedOnce(Occupant(w.table[e.slot.major], w.others), st.On(bottom) + [bottom.serial],
                  w.foreign, Sent(w, st, e));
  }

  /** No stack carries more filters than there were events. */
  lemma {:induction false} FiltersBounded(w: World, st: Stacks, events: seq<Event>, top: DeviceObject)
    requires w.Valid() && forall e :: e in events ==> w.Knows(e)
    ensures |AfterAll(w, st, events).On(top)| <= |st.On(top)| + |events|
  {
    if events != [] {
      FiltersBounded(w, st, events[..|events| - 1], top);
    }
  }

  /** Under an explicit height bound every IRP with a major function is delivered, and has a slot for each
      device of its stack. */
  lemma EverySendDelivered(w: World, st: Stacks, e: Event)
    requires w.Valid() && w.Knows(e) && e.Send? && 0 <= e.slot.major <= IRP_MJ_MAXIMUM_FUNCTION
    requires 1 <= w.bottoms[e.pdo].size
    requires w.bottoms[e.pdo].size + |st.On(w.bottoms[e.pdo].device)| <= MAX_STACK_COUNT
    ensures Deliverable(w, st, e)
    ensures SlotCount(w, st, e.pdo) == w.bottoms[e.pdo].size + |st.On(w.bottoms[e.pdo].device)|
  {
    Size8Exact(w.bottoms[e.pdo].size, |st.On(w.bottoms[e.pdo].device)|);
  }

  /** Over whole runs: after DriverEntry, whatever the table held before, and after any events, an IRP is answered
      directly and with a slot for every device in its way, if its major function is one of the six assigned
      ones or its slot was free, and the events so far cannot have stacked more filters than an IRP has room for. */
  lemma EveryReplyDirect(w: World, before: Table, start: Stacks, events: seq<Event>, i: nat)
    requires w.Valid() && (forall e :: e in events ==> w.Knows(e)) && w.table == Loaded(before) && start.on == map[]
    requires i < |events| && w.Knows(events[i]) && events[i].Send?
    requires 0 <= events[i].slot.major <= IRP_MJ_MAXIMUM_FUNCTION
    requires var major := events[i].slot.major;
             major in FORWARDED_MAJORS || before[major].None? || Forwards(before[major])
    requires 1 <= w.bottoms[events[i].pdo].size && w.bottoms[events[i].pdo].size + i <= MAX_STACK_COUNT
    ensures var e, st, r := events[i], AfterAll(w, start, events[..i]), ReplyAt(w, start, events, i);
            var bottom := w.bottoms[e.pdo];
            && r.Some? && r.value.sent == NewIrp(bottom.size + |st.On(bottom.device)|, e)
            && (r.value.final, r.value.status)
               == w.foreign(bottom.device.serial, r.value.sent.Arrive(bottom.device.serial))
  {
    var e, st := events[i], AfterAll(w, start, events[..i]);
    FiltersBounded(w, start, events[..i], w.bottoms[e.pdo].device);
    EverySendDelivered(w, st, e);
    LoadedReply(w, before, st, e);
  }

  /** Every filter created since `start` is either present or has been deleted, and only once. */
  ghost predicate Accounted(start: Stacks, st: Stacks) {
    forall k: int ::
      multiset(st.gone)[k] + multiset(st.all)[k]
      == multiset(start.gone)[k] + if start.clock <= k < st.clock then 1 else 0
  }

  lemma StaysAccounted(w: World, start: Stacks, st: Stacks, e: Event)
    requires w.Valid() && w.Knows(e) && Accounted(start, st) && st.clock >= start.clock
    ensures Accounted(start, After(w, st, e)) && After(w, st, e).clock >= start.clock
  {
    var next := After(w, st, e);
    forall k: int
      ensures multiset(next.gone)[k] + multiset(next.all)[k]
              == multiset(start.gone)[k] + if start.clock <= k < next.clock then 1 else 0
    {
      assert multiset(st.gone)[k] + multiset(st.all)[k]
             == multiset(start.gone)[k] + if start.clock <= k < st.clock then 1 else 0;
    }
  }

  lemma {:induction false} EachAccounted(w: World, start: Stacks, events: seq<Event>)
    requires w.Valid() && (forall e :: e in events ==> w.Knows(e)) && start.all == []
    ensures Accounted(start, AfterAll(w, start, events)) && AfterAll(w, start, events).clock >= start.clock
  {
    if events != [] {
      var last := |events| - 1;
      EachAccounted(w, start, events[..last]);
      StaysAccounted(w, start, AfterAll(w, start, events[..last]), events[last]);
    }
  }

  /** Over whole runs that end with an unload: every filter ever created has been deleted exactly once. */
  lemma EachDeletedOnce(w: World, start: Stacks, events: seq<Event>)
    requires w.Valid() && (forall e :: e in events ==> w.Knows(e)) && start.all == []
    ensures var end := After(w, AfterAll(w, start, events), Unload);
            end.all == [] && forall k: int ::
              multiset(end.gone)[k] == multiset(start.gone)[k] + if start.clock <= k < end.clock then 1 else 0
  {
    EachAccounted(w, start, events);
    var st := AfterAll(w, start, events);
    assert Accounted(start, st);
  }

  // ----- the refinement

  /** `w` describes the parts of the system that stay. */
  ghost predicate Describes(w: World, sys: IoSystem)
    reads sys.driver.majorFunction, sys.base.Keys`stackSize
  {
    && w.Valid() && sys.BaseOrdered() && WellBehaved(sys)
    && w.foreign == sys.foreign && w.others == sys.others && TableSeen(w, sys)
    && BottomsSeen(w, sys) && SizesSeen(w, sys)
  }

  ghost predicate TableSeen(w: World, sys: IoSystem)
    reads sys.driver.majorFunction
  {
    w.table == sys.driver.majorFunction[..]
  }

  ghost predicate BottomsSeen(w: World, sys: IoSystem)
    requires sys.BaseOrdered()
  {
    && w.bottoms.Keys == sys.base.Keys
    && forall p {:trigger BottomSeen(w, sys, p)} :: p in sys.base ==> BottomSeen(w, sys, p)
  }

  ghost predicate BottomSeen(w: World, sys: IoSystem, p: DeviceObject)
    requires sys.BaseOrdered() && p in sys.base
  {
    p in w.bottoms && w.bottoms[p].device == sys.BaseTop(p)
  }

  ghost predicate SizesSeen(w: World, sys: IoSystem)
    requires w.bottoms.Keys == sys.base.Keys
    reads sys.base.Keys`stackSize
  {
    forall p {:trigger SizeSeen(w, sys, p)} :: p in sys.base ==> SizeSeen(w, sys, p)
  }

  ghost predicate SizeSeen(w: World, sys: IoSystem, p: DeviceObject)
    requires p in w.bottoms
    reads sys.base.Keys`stackSize
  {
    w.bottoms[p].device in sys.base.Keys && w.bottoms[p].size == w.bottoms[p].device.stackSize
  }

  /** `st` tells, by serial numbers, the way down the stack of `p`. */
  predicate Shown(w: World, st: Stacks, p: DeviceObject, way: seq<DeviceObject>) {
    p in w.bottoms && Serials(way) == st.On(w.bottoms[p].device) + [w.bottoms[p].device.serial]
  }

  ghost predicate Shows(w: World, st: Stacks, ways: WayMap) {
    forall p {:trigger Shown(w, st, p, ways[p])} :: p in ways ==> Shown(w, st, p, ways[p])
  }

  /** `st` is the system's state: the device list, and every stack from its top down. */
  ghost predicate Represents(w: World, st: Stacks, sys: IoSystem, ways: WayMap)
    reads sys, sys.driver`deviceObject, sys.devices, sys.power
  {
    && sys.Valid() && st.clock == sys.clock && st.all == Serials(sys.filters) && st.gone == Serials(sys.deleted)
    && st.starts == sys.power.starts && ways.Keys == sys.base.Keys && AreWays(sys, ways) && Shows(w, st, ways)
  }

  lemma ShownAdded(w: World, st: Stacks, e: Event, p: DeviceObject, way: seq<DeviceObject>, f: DeviceObject)
    requires w.Valid() && w.Knows(e) && e.Add? && e.createStatus == SUCCESS && e.attachable
    requires Shown(w, st, p, way) && f.serial == st.clock
    ensures Shown(w, After(w, st, e), p, if w.bottoms[p].device == w.bottoms[e.pdo].device then [f] + way else way)
  {
    if w.bottoms[p].device == w.bottoms[e.pdo].device {
      assert Serials([f] + way) == [f.serial] + Serials(way);
      assert After(w, st, e).On(w.bottoms[p].device) == [f.serial] + st.On(w.bottoms[p].device);
    }
  }

  lemma ShowsAdded(w: World, st: Stacks, e: Event, sys: IoSystem, ways: WayMap, f: DeviceObject)
    requires w.Valid() && w.Knows(e) && e.Add? && e.createStatus == SUCCESS && e.attachable
    requires sys.BaseOrdered() && BottomsSeen(w, sys)
    requires ways.Keys == sys.base.Keys && Shows(w, st, ways) && f.serial == st.clock
    ensures Shows(w, After(w, st, e), WithFilter(sys, ways, f, e.pdo))
  {
    var grown := WithFilter(sys, ways, f, e.pdo);
    forall p | p in grown
      ensures Shown(w, After(w, st, e), p, grown[p])
    {
      assert Shown(w, st, p, ways[p]);
      assert BottomSeen(w, sys, p) && BottomSeen(w, sys, e.pdo);
      ShownAdded(w, st, e, p, ways[p], f);
    }
  }

  lemma ShowsKept(w: World, st: Stacks, e: Event, ways: WayMap)
    requires w.Valid() && w.Knows(e) && (e.Send? || (e.Add? && (e.createStatus != SUCCESS || !e.attachable)))
    requires Shows(w, st, ways)
    ensures Shows(w, After(w, st, e), ways)
  {
    forall p | p in ways
      ensures Shown(w, After(w, st, e), p, ways[p])
    {
      assert Shown(w, st, p, ways[p]);
    }
  }

  lemma NewestFirst(filters: seq<DeviceObject>)
    requires filters != []
    ensures Serials(filters) == [filters[0].serial as int] + Serials(filters[1..])
  {
  }

  lemma RepresentsAdded(sys: IoSystem, w: World, st: Stacks, e: Event, ways: WayMap)
    requires w.Valid() && w.Knows(e) && e.Add? && e.createStatus == SUCCESS && e.attachable
    requires sys.Valid() && BottomsSeen(w, sys) && sys.clock == st.clock + 1
    requires sys.filters != [] && Serials(sys.filters[1..]) == st.all && sys.filters[0].serial == st.clock
    requires Serials(sys.deleted) == st.gone && sys.power.starts == st.starts
    requires ways.Keys == sys.base.Keys && Shows(w, st, ways)
    requires AreWays(sys, WithFilter(sys, ways, sys.filters[0], e.pdo))
    ensures Represents(w, After(w, st, e), sys, WithFilter(sys, ways, sys.filters[0], e.pdo))
  {
    ShowsAdded(w, st, e, sys, ways, sys.filters[0]);
    NewestFirst(sys.filters);
  }

  lemma RepresentsKept(sys: IoSystem, w: World, st: Stacks, e: Event, ways: WayMap, deleted: seq<DeviceObject>)
    requires Serials(deleted) == st.gone && sys.power.starts == st.starts
    requires e.Add? && e.createStatus == SUCCESS ==> DeletedAtOnce(deleted, sys.deleted, st.clock)
    requires e.Add? && e.createStatus != SUCCESS ==> deleted == sys.deleted
    requires w.Valid() && w.Knows(e) && e.Add? && (e.createStatus != SUCCESS || !e.attachable)
    requires sys.Valid() && sys.clock == st.clock + if e.createStatus == SUCCESS then 1 else 0
    requires Serials(sys.filters) == st.all && ways.Keys == sys.base.Keys && AreWays(sys, ways) && Shows(w, st, ways)
    ensures Represents(w, After(w, st, e), sys, ways)
  {
    ShowsKept(w, st, e, ways);
    if e.createStatus == SUCCESS {
      LatestDeleted(deleted, sys.deleted, st.clock);
    }
  }

  lemma LatestDeleted(before: seq<DeviceObject>, after: seq<DeviceObject>, serial: nat)
    requires DeletedAtOnce(before, after, serial)
    ensures Serials(after) == Serials(before) + [serial as int]
  {
    forall i | 0 <= i < |before|
      ensures Serials(after)[i] == Serials(before)[i]
    {
      assert after[..|before|][i] == after[i];
    }
  }

  method AddShown(sys: IoSystem, ghost w: World, ghost st: Stacks, e: Event, ghost ways: WayMap)
    returns (ghost ways': WayMap)
    requires w.Valid() && w.Knows(e) && e.Add? && sys.BaseOrdered() && BottomsSeen(w, sys)
    requires Represents(w, st, sys, ways)
    modifies sys`clock, sys`devices, sys`filters, sys`deleted, sys.driver`deviceObject, sys.Top(e.pdo)`attachedDevice
    ensures Represents(w, After(w, st, e), sys, ways')
    ensures forall d :: d in sys.devices ==> d in old(sys.devices) || fresh(d)
  {
    var status := AddOnTop(sys, e.pdo, e.createStatus, e.attachable, ways);
    if status == SUCCESS {
      ways' := WithFilter(sys, ways, sys.filters[0], e.pdo);
      RepresentsAdded(sys, w, st, e, ways);
    } else {
      ways' := ways;
      RepresentsKept(sys, w, st, e, ways, old(sys.deleted));
    }
  }

  /** AddDevice refines the Add event. */
  method AddEvent(sys: IoSystem, ghost w: World, ghost st: Stacks, e: Event, ghost ways: WayMap)
    returns (ghost ways': WayMap)
    requires Describes(w, sys) && Represents(w, st, sys, ways) && e.Add? && w.Knows(e)
    modifies sys`clock, sys`devices, sys`filters, sys`deleted, sys.driver`deviceObject, sys.Top(e.pdo)`attachedDevice
    ensures Describes(w, sys) && Represents(w, After(w, st, e), sys, ways')
    ensures forall d :: d in sys.devices ==> d in old(sys.devices) || fresh(d)
  {
    ways' := AddShown(sys, w, st, e, ways);
  }

  /** An IRP of `size` slots is allocated and sent to `device`. */
  method Deliver(sys: IoSystem, device: DeviceObject, size: nat, e: Event) returns (r: Reply)
    requires e.Send? && sys.Valid() && device in sys.devices && Room(size, e)
    requires Complete(sys.driver.majorFunction[..]) && WellBehaved(sys)
    modifies sys.power
    ensures r.sent == NewIrp(size, e) && r.sent.Sendable()
    ensures (r.final, r.status)
            == old(Answer(Occupant(Slot(sys, e.slot.major), sys.others), Serials(sys.Path(device)), sys.foreign, r.sent))
    ensures sys.power.starts == old(sys.power.starts + PowerStarts(Slot(sys, e.slot.major), |sys.Path(device)| - 1))
  {
    var locations := Locations(size, e.slot, e.below);
    var irp, status := SendNew(sys, device, locations, e.header, e.address, e.buffer);
    r := Reply(Allocated(locations, e.header, e.address, e.buffer), irp.State(), status);
  }

  /** The I/O manager allocates an IRP with as many slots as the top device asks for and calls it. */
  method SendToTop(sys: IoSystem, e: Event) returns (r: Option<Reply>)
    requires e.Send? && sys.Valid() && e.pdo in sys.base
    requires Complete(sys.driver.majorFunction[..]) && WellBehaved(sys)
    modifies sys.power
    ensures !Room(old(sys.Top(e.pdo).stackSize), e) ==> r == None && sys.power.starts == old(sys.power.starts)
    ensures Room(old(sys.Top(e.pdo).stackSize), e) ==>
              && r.Some? && r.value.sent == NewIrp(old(sys.Top(e.pdo).stackSize), e) && r.value.sent.Sendable()
              && (r.value.final, r.value.status)
                 == old(Answer(Occupant(Slot(sys, e.slot.major), sys.others),
                               Serials(Way(sys, e.pdo)), sys.foreign, r.value.sent))
              && sys.power.starts == old(sys.power.starts + PowerStarts(Slot(sys, e.slot.major), |Way(sys, e.pdo)| - 1))
  {
    var top := sys.IoGetAttachedDevice(e.pdo);
    assert sys.Valid() && top == old(sys.Top(e.pdo));
    if !Room(top.stackSize, e) {
      return None;
    }
    var reply := Deliver(sys, top, top.stackSize, e);
    r := Some(reply);
  }

  /** The size of the top is what the state machine says. */
  lemma TopSize(sys: IoSystem, w: World, st: Stacks, p: DeviceObject)
    requires sys.Valid() && BottomsSeen(w, sys) && SizesSeen(w, sys) && p in sys.base && Shown(w, st, p, Way(sys, p))
    ensures sys.Top(p).stackSize == SlotCount(w, st, p)
  {
    assert BottomSeen(w, sys, p) && SizeSeen(w, sys, p);
    ReachesBaseTop(sys, p);
    SizesAddUp(sys, sys.Top(p));
    assert |Serials(Way(sys, p))| == |Way(sys, p)|;
  }

  /** What the sender finds, in the state machine's terms. */
  lemma WayShown(sys: IoSystem, w: World, st: Stacks, e: Event, ways: WayMap)
    requires Describes(w, sys) && Represents(w, st, sys, ways) && e.Send? && w.Knows(e)
    ensures e.pdo in sys.base && sys.Top(e.pdo).stackSize == SlotCount(w, st, e.pdo)
    ensures Serials(Way(sys, e.pdo)) == st.On(w.bottoms[e.pdo].device) + [w.bottoms[e.pdo].device.serial]
    ensures |Way(sys, e.pdo)| - 1 == |st.On(w.bottoms[e.pdo].device)|
  {
    assert IsWay(sys, e.pdo, ways[e.pdo]) && Shown(w, st, e.pdo, ways[e.pdo]);
    TopSize(sys, w, st, e.pdo);
  }

  method SendShown(sys: IoSystem, ghost w: World, ghost st: Stacks, e: Event, ghost ways: WayMap)
    returns (r: Option<Reply>)
    requires Describes(w, sys) && Represents(w, st, sys, ways) && e.Send? && w.Knows(e)
    modifies sys.power
    ensures r == ReplyTo(w, st, e) && sys.power.starts == After(w, st, e).starts
  {
    WayShown(sys, w, st, e, ways);
    r := SendToTop(sys, e);
  }

  /** Delivery refines the Send event. */
  method SendEvent(sys: IoSystem, ghost w: World, ghost st: Stacks, e: Event, ghost ways: WayMap)
    returns (r: Option<Reply>)
    requires Describes(w, sys) && Represents(w, st, sys, ways) && e.Send? && w.Knows(e)
    modifies sys.power
    ensures r == ReplyTo(w, st, e)
    ensures Describes(w, sys) && Represents(w, After(w, st, e), sys, ways)
  {
    ShowsKept(w, st, e, ways);
    r := SendShown(sys, w, st, e, ways);
  }

  method UnloadShown(sys: IoSystem, ghost w: World, ghost st: Stacks, ghost ways: WayMap)
    requires w.Valid() && sys.BaseOrdered() && BottomsSeen(w, sys) && Represents(w, st, sys, ways)
    modifies sys`devices, sys`filters, sys`detached, sys`deleted, sys.driver`deviceObject,
             sys.devices`attachedDevice, sys.devices`attachedTo
    ensures Represents(w, After(w, st, Unload), sys, BareWays(sys))
    ensures sys.devices == sys.base.Keys && sys.devices <= old(sys.devices)
    ensures forall d {:trigger d.stackSize} :: d in sys.base ==> d.stackSize == old(d.stackSize)
    ensures forall d :: d in sys.base ==> d.attachedDevice == sys.Carried(d) && d.attachedTo == old(d.attachedTo)
  {
    DriverUnload(sys);
    WaysBare(sys);
    ShowsBare(w, After(w, st, Unload), sys);
  }

  lemma ShowsBare(w: World, st: Stacks, sys: IoSystem)
    requires sys.BaseOrdered() && BottomsSeen(w, sys) && st.on == map[]
    ensures Shows(w, st, BareWays(sys))
  {
    var ways := BareWays(sys);
    forall p | p in ways
      ensures Shown(w, st, p, ways[p])
    {
      assert BottomSeen(w, sys, p);
    }
  }

  /** DriverUnload refines the Unload event. */
  method UnloadEvent(sys: IoSystem, ghost w: World, ghost st: Stacks, ghost ways: WayMap)
    requires Describes(w, sys) && Represents(w, st, sys, ways)
    modifies sys`devices, sys`filters, sys`detached, sys`deleted, sys.driver`deviceObject,
             sys.devices`attachedDevice, sys.devices`attachedTo
    ensures Describes(w, sys) && Represents(w, After(w, st, Unload), sys, BareWays(sys))
    ensures sys.devices == sys.base.Keys && sys.devices <= old(sys.devices)
    ensures forall d :: d in sys.base ==> d.attachedDevice == sys.Carried(d) && d.attachedTo == old(d.attachedTo)
  {
    UnloadShown(sys, w, st, ways);
  }

  /** One event: the system refines the state machine's step and gives its reply. */
  method Step(sys: IoSystem, ghost w: World, ghost st: Stacks, e: Event, ghost ways: WayMap)
    returns (r: Option<Reply>, ghost ways': WayMap)
    requires Describes(w, sys) && Represents(w, st, sys, ways) && w.Knows(e)
    modifies sys, sys.driver`deviceObject, sys.devices`attachedDevice, sys.devices`attachedTo, sys.power
    ensures Describes(w, sys) && Represents(w, After(w, st, e), sys, ways') && r == ReplyTo(w, st, e)
    ensures forall d :: d in sys.devices ==> d in old(sys.devices) || fresh(d)
  {
    r, ways' := None, ways;
    match e
    case Add(_, _, _) =>
      ways' := AddEvent(sys, w, st, e, ways);
    case Send(_, _, _, _, _, _) =>
      r := SendEvent(sys, w, st, e, ways);
    case Unload =>
      UnloadEvent(sys, w, st, ways);
      ways' := BareWays(sys);
  }

  /** The events of a loaded driver, one after the other. */
  method Events(sys: IoSystem, ghost w: World, ghost start: Stacks, events: seq<Event>)
    returns (replies: seq<Option<Reply>>, ghost ways: WayMap)
    requires Describes(w, sys) && Represents(w, start, sys, BareWays(sys)) && forall e :: e in events ==> w.Knows(e)
    modifies sys, sys.driver`deviceObject, sys.devices`attachedDevice, sys.devices`attachedTo, sys.power
    ensures Describes(w, sys) && Represents(w, AfterAll(w, start, events), sys, ways)
    ensures Replies(w, start, events, replies)
    ensures forall d :: d in sys.devices ==> d in old(sys.devices) || fresh(d)
  {
    replies, ways := [], BareWays(sys);
    if |events| == 0 {
      return;
    }
    var last := |events| - 1;
    ghost var st := AfterAll(w, start, events[..last]);
    var r;
    replies, ways := Events(sys, w, start, events[..last]);
    r, ways := Step(sys, w, st, events[last], ways);
    OneMoreReply(w, start, events, replies);
    replies := replies + [r];
  }

  /** The world of a system whose driver has the given table. */
  ghost function WorldOf(sys: IoSystem, table: Table): World
    requires sys.BaseOrdered()
    reads sys.base.Keys`stackSize
  {
    World(table, sys.foreign, sys.others, map p | p in sys.base :: Bottom(sys.BaseTop(p), sys.BaseTop(p).stackSize))
  }

  ghost function Bare(sys: IoSystem): Stacks
    reads sys, sys.power
  {
    NoFilters(sys.clock, Serials(sys.deleted), sys.power.starts)
  }

  lemma Started(sys: IoSystem, w: World)
    requires sys.Valid() && sys.filters == [] && WellBehaved(sys)
    requires Complete(sys.driver.majorFunction[..]) && w == WorldOf(sys, sys.driver.majorFunction[..])
    ensures Describes(w, sys) && Represents(w, Bare(sys), sys, BareWays(sys))
  {
    forall p | p in sys.base
      ensures BottomSeen(w, sys, p) && SizeSeen(w, sys, p)
    {
    }
    WaysBare(sys);
    ShowsBare(w, Bare(sys), sys);
  }

  /** What follows a successful DriverEntry: the events, and a final unload. */
  method LoadedRun(sys: IoSystem, ghost w: World, events: seq<Event>) returns (replies: seq<Option<Reply>>)
    requires sys.Valid() && sys.filters == [] && WellBehaved(sys)
    requires Complete(sys.driver.majorFunction[..]) && w == WorldOf(sys, sys.driver.majorFunction[..])
    requires forall e :: e in events ==> w.Knows(e)
    modifies sys, sys.driver`deviceObject, sys.devices`attachedDevice, sys.devices`attachedTo, sys.power
    ensures Replies(w, old(Bare(sys)), events, replies)
    ensures Represents(w, After(w, AfterAll(w, old(Bare(sys)), events), Unload), sys, BareWays(sys))
    ensures sys.devices == sys.base.Keys && forall d :: d in sys.base ==> d.attachedDevice == sys.Carried(d)
  {
    Started(sys, w);
    ghost var ways;
    ghost var start := Bare(sys);
    replies, ways := Events(sys, w, start, events);
    UnloadEvent(sys, w, AfterAll(w, start, events), ways);
  }

  /** hid-filter's whole life. A driver that cannot register itself changes nothing. Otherwise every event, in
      every order and number, takes the system from the state machine's state to its next and is answered with
      its reply; and a final unload leaves the devices of other drivers stacked as they were at the start. */
  method Run(sys: IoSystem, hasExtension: bool, events: seq<Event>)
    returns (status: NtStatus, replies: seq<Option<Reply>>, ghost w: World)
    requires sys.Valid() && sys.filters == [] && WellBehaved(sys)
    requires sys.driver.majorFunction.Length == IRP_MJ_MAXIMUM_FUNCTION + 1
    requires forall e :: e in events && !e.Unload? ==> e.pdo in sys.base
    modifies sys, sys.driver, sys.driver.majorFunction, sys.devices`attachedDevice, sys.devices`attachedTo, sys.power
    ensures w == old(WorldOf(sys, Loaded(sys.driver.majorFunction[..]))) && w.Valid()
    ensures forall e :: e in events ==> w.Knows(e)
    ensures !hasExtension ==>
              && status == UNSUCCESSFUL && replies == []
              && unchanged(sys) && unchanged(sys.driver) && unchanged(sys.driver.majorFunction)
    ensures hasExtension ==>
              && status == SUCCESS && sys.driver.addDevice && sys.driver.driverUnload
              && Replies(w, old(Bare(sys)), events, replies)
              && Represents(w, After(w, AfterAll(w, old(Bare(sys)), events), Unload), sys, BareWays(sys))
    ensures sys.Valid() && sys.filters == [] && sys.devices == sys.base.Keys
    ensures forall d :: d in sys.base ==> d.attachedDevice == sys.Carried(d)
  {
    w, replies := WorldOf(sys, Loaded(sys.driver.majorFunction[..])), [];
    BaseRestored(sys);
    status := DriverEntry(sys.driver, hasExtension);
    if status != SUCCESS {
      return;
    }
    replies := LoadedRun(sys, w, events);
  }
}

/** hid-filter: building device stacks and taking them apart again. */
module HidFilter {
  import opened NtStatuses
  import opened Wdm
  import opened Irps
  import opened DeviceStacks

  // ----- AddDevice

  /** The extension remembers what the filter rests on; the device stays unpublished. */
  method StoreLowerDevice(sys: IoSystem, filter: DeviceObject, lower: DeviceObject)
    requires sys.Inv() && filter in sys.devices && sys.IsFilter(filter) && filter.attachedDevice == null
    requires filter.Initializing() && filter.attachedTo == lower
    modifies filter`lowerDevice
    ensures sys.Inv() && filter.lowerDevice == lower
  {
    filter.lowerDevice := lower;
    sys.FieldsWritten(filter);
  }

  /** An IRP for the filter needs one slot more than one for its lower device. */
  method CopyStackSize(sys: IoSystem, filter: DeviceObject, lower: DeviceObject)
    requires sys.Inv() && filter in sys.devices && sys.IsFilter(filter) && filter.attachedDevice == null
    requires filter.Initializing() && lower in sys.devices && lower != filter
    modifies filter`stackSize
    ensures sys.Inv() && filter.stackSize == Inc8(lower.stackSize)
  {
    filter.stackSize := Inc8(lower.stackSize);
    sys.FieldsWritten(filter);
  }

  /** The filter takes over its lower device's way of passing buffers, and no other flag. */
  method CopyBuffering(sys: IoSystem, filter: DeviceObject, lower: DeviceObject)
    requires sys.Inv() && filter in sys.devices && sys.IsFilter(filter) && filter.attachedDevice == null
    requires filter.flags == DO_DEVICE_INITIALIZING && lower in sys.devices && lower != filter
    modifies filter`flags
    ensures sys.Inv() && filter.Initializing()
    ensures filter.flags & DO_BUFFERED_IO == lower.flags & DO_BUFFERED_IO
    ensures filter.flags & DO_DIRECT_IO == lower.flags & DO_DIRECT_IO
    ensures filter.flags & !(DO_BUFFERED_IO | DO_DIRECT_IO) == old(filter.flags) & !(DO_BUFFERED_IO | DO_DIRECT_IO)
  {
    BufferingCopied(lower.flags);
    filter.flags := filter.flags | (lower.flags & BUFFERING);
    sys.FieldsWritten(filter);
  }

  lemma BufferingCopied(lower: bv32)
    ensures var r := DO_DEVICE_INITIALIZING | (lower & BUFFERING);
            && r & DO_DEVICE_INITIALIZING != 0
            && r & DO_BUFFERED_IO == lower & DO_BUFFERED_IO && r & DO_DIRECT_IO == lower & DO_DIRECT_IO
            && r & !(DO_BUFFERED_IO | DO_DIRECT_IO) == DO_DEVICE_INITIALIZING & !(DO_BUFFERED_IO | DO_DIRECT_IO)
  {
  }

  /** The step that publishes the device. No other flag changes. */
  method ClearInitializing(sys: IoSystem, filter: DeviceObject)
    requires sys.Inv() && filter in sys.devices && sys.IsFilter(filter) && filter.attachedDevice == null
    requires filter.lowerDevice != null && filter.lowerDevice in sys.devices && filter.attachedTo == filter.lowerDevice
    requires filter.stackSize == Inc8(filter.lowerDevice.stackSize) && filter.lowerDevice != filter
    requires filter.flags & DO_BUFFERED_IO == filter.lowerDevice.flags & DO_BUFFERED_IO
    requires filter.flags & DO_DIRECT_IO == filter.lowerDevice.flags & DO_DIRECT_IO
    requires filter.flags & !(DO_BUFFERED_IO | DO_DIRECT_IO) == DO_DEVICE_INITIALIZING
    modifies filter`flags
    ensures sys.Inv() && !filter.Initializing() && sys.Published(filter)
    ensures filter.flags & !DO_DEVICE_INITIALIZING == old(filter.flags) & !DO_DEVICE_INITIALIZING
  {
    InitializingCleared(filter.flags, filter.lowerDevice.flags);
    filter.flags := filter.flags & !DO_DEVICE_INITIALIZING;
    assert sys.Published(filter);
    sys.FieldsWritten(filter);
  }

  lemma InitializingCleared(flags: bv32, lower: bv32)
    requires flags & DO_BUFFERED_IO == lower & DO_BUFFERED_IO && flags & DO_DIRECT_IO == lower & DO_DIRECT_IO
    requires flags & !(DO_BUFFERED_IO | DO_DIRECT_IO) == DO_DEVICE_INITIALIZING
    ensures var r := flags & !DO_DEVICE_INITIALIZING;
            && r & DO_DEVICE_INITIALIZING == 0 && r == lower & BUFFERING
            && r & !DO_DEVICE_INITIALIZING == flags & !DO_DEVICE_INITIALIZING
  {
  }

  /** The flags of a complete filter, in the WDK's names: the lower device's two buffering flags and nothing else. */
  predicate TakesBuffering(flags: bv32, lower: bv32) {
    && flags & DO_BUFFERED_IO == lower & DO_BUFFERED_IO && flags & DO_DIRECT_IO == lower & DO_DIRECT_IO
    && flags & !(DO_BUFFERED_IO | DO_DIRECT_IO) == 0
  }

  lemma MaskedFlags(flags: bv32, lower: bv32)
    ensures flags == lower & BUFFERING <==> TakesBuffering(flags, lower)
  {
  }

  /** The writes of `add_device_inner` after a successful attachment, in its order. */
  method Publish(sys: IoSystem, filter: DeviceObject, lower: DeviceObject)
    requires sys.Inv() && filter in sys.devices && sys.IsFilter(filter) && filter.attachedDevice == null
    requires lower in sys.devices && lower != filter && filter.attachedTo == lower
    requires filter.flags == DO_DEVICE_INITIALIZING
    modifies filter`lowerDevice, filter`stackSize, filter`flags
    ensures sys.Inv() && sys.Published(filter) && filter.lowerDevice == lower
    ensures TakesBuffering(filter.flags, lower.flags)
  {
    StoreLowerDevice(sys, filter, lower);
    CopyStackSize(sys, filter, lower);
    CopyBuffering(sys, filter, lower);
    ClearInitializing(sys, filter);
    MaskedFlags(filter.flags, lower.flags);
  }

  /** The part of `add_device_inner` that follows a successful creation. */
  method AttachFilter(sys: IoSystem, filter: DeviceObject, pdo: DeviceObject, attachable: bool)
    returns (status: NtStatus)
    requires sys.Inv() && pdo in sys.devices && pdo != filter && sys.filters != [] && filter == sys.filters[0]
    requires forall d :: d in sys.devices && d != filter ==> d.serial < filter.serial
    requires filter.attachedDevice == null && filter.attachedTo == null && filter.lowerDevice == null
    requires filter.flags == DO_DEVICE_INITIALIZING
    requires sys.BaseOrdered() && forall i :: 1 <= i < |sys.filters| ==> !sys.filters[i].Initializing()
    modifies sys`devices, sys`filters, sys`deleted, sys.driver`deviceObject, filter, sys.Top(pdo)`attachedDevice
    ensures sys.Valid() && status == if attachable then SUCCESS else UNSUCCESSFUL
    ensures forall d {:trigger d.lowerDevice} :: d in old(sys.devices) && d != filter ==> d.lowerDevice == old(d.lowerDevice)
    ensures forall d {:trigger d.attachedDevice} :: d in old(sys.devices) && d != filter && d != old(sys.Top(pdo)) ==>
              d.attachedDevice == old(d.attachedDevice)
    ensures !attachable ==>
              && sys.devices == old(sys.devices) - {filter} && sys.filters == old(sys.filters)[1..]
              && sys.deleted == old(sys.deleted) + [filter] && sys.driver.deviceObject == old(filter.nextDevice)
              && old(sys.Top(pdo)).attachedDevice == null
    ensures attachable ==>
              && sys.devices == old(sys.devices) && sys.filters == old(sys.filters) && sys.deleted == old(sys.deleted)
              && var lower := old(sys.Top(pdo));
                 && sys.Published(filter) && filter.lowerDevice == lower && lower.attachedDevice == filter
                 && filter.attachedDevice == null
  {
    var lower := sys.IoAttachDeviceToDeviceStack(filter, pdo, attachable);
    if lower == null {
      sys.IoDeleteDevice(filter);
      return UNSUCCESSFUL;
    }
    Publish(sys, filter, lower);
    return SUCCESS;
  }

  lemma OneLess(devices: set<DeviceObject>, d: DeviceObject)
    requires d !in devices
    ensures devices + {d} - {d} == devices
  {
  }

  /** The log of deletions has grown by a device created at the given time. */
  ghost predicate DeletedAtOnce(before: seq<DeviceObject>, after: seq<DeviceObject>, serial: nat) {
    |after| == |before| + 1 && after[..|before|] == before && after[|before|].serial == serial
  }

  /** `add_device_inner`. `createStatus` and `attachable` are the kernel's answers. Between any two of its
      steps `Inv` holds (every step ensures it), so a device found with DO_DEVICE_INITIALIZING clear is
      complete; and a failure leaves the list and every stack as they were. */
  method AddDevice(sys: IoSystem, pdo: DeviceObject, createStatus: NtStatus, attachable: bool) returns (status: NtStatus)
    requires sys.Valid() && pdo in sys.base
    modifies sys`clock, sys`devices, sys`filters, sys`deleted, sys.driver`deviceObject, sys.Top(pdo)`attachedDevice
    ensures sys.Valid()
    ensures status == if createStatus != SUCCESS then createStatus else if attachable then SUCCESS else UNSUCCESSFUL
    ensures sys.clock == old(sys.clock) + if createStatus == SUCCESS then 1 else 0
    ensures forall d {:trigger d.lowerDevice} :: d in old(sys.devices) ==> d.lowerDevice == old(d.lowerDevice)
    ensures forall d {:trigger d.attachedDevice} :: d in old(sys.devices) && d != old(sys.Top(pdo)) ==>
              d.attachedDevice == old(d.attachedDevice)
    ensures status != SUCCESS ==>
              && sys.devices == old(sys.devices) && sys.filters == old(sys.filters)
              && sys.driver.deviceObject == old(sys.driver.deviceObject) && old(sys.Top(pdo)).attachedDevice == null
    ensures createStatus != SUCCESS || attachable ==> sys.deleted == old(sys.deleted)
    ensures createStatus == SUCCESS && !attachable ==> DeletedAtOnce(old(sys.deleted), sys.deleted, old(sys.clock))
    ensures status == SUCCESS ==>
              && sys.filters != [] && sys.filters[1..] == old(sys.filters)
              && var f := sys.filters[0]; var lower := old(sys.Top(pdo));
                 && fresh(f) && f.serial == old(sys.clock) && sys.devices == old(sys.devices) + {f}
                 && sys.Published(f) && f.lowerDevice == lower && lower.attachedDevice == f && f.attachedDevice == null
                 && TakesBuffering(f.flags, lower.flags)
  {
    var filter: DeviceObject?;
    status, filter := sys.IoCreateDevice(createStatus);
    if status != SUCCESS {
      return status;
    }
    sys.TopKept(pdo);
    OneLess(old(sys.devices), filter);
    ghost var lower := sys.Top(pdo);
    status := AttachFilter(sys, filter, pdo, attachable);
    MaskedFlags(filter.flags, lower.flags);
  }

  /** After an AddDevice that added `f` on top of `lower`, an IRP sent to `f` passes one filter more. */
  twostate lemma PathGrows(sys: IoSystem, new f: DeviceObject, lower: DeviceObject)
    requires old(sys.Valid()) && sys.Valid() && old(sys.devices) <= sys.devices
    requires lower in old(sys.devices) && f in sys.devices && sys.IsFilter(f) && f.lowerDevice == lower
    requires forall e {:trigger e.lowerDevice} :: e in old(sys.devices) ==> e.lowerDevice == old(e.lowerDevice)
    ensures sys.Path(f) == [f] + old(sys.Path(lower))
  {
    sys.FilterRestsOnOlder(f);
    sys.PathKept(lower);
  }

  /** How many filters an IRP sent to `d` passes. */
  ghost function Height(sys: IoSystem, d: DeviceObject): nat
    requires sys.Valid() && d in sys.devices
    reads sys, sys.driver`deviceObject, sys.devices
  {
    |sys.Path(d)| - 1
  }

  ghost function Bottom(sys: IoSystem, d: DeviceObject): DeviceObject
    requires sys.Valid() && d in sys.devices
    reads sys, sys.driver`deviceObject, sys.devices
  {
    sys.Path(d)[|sys.Path(d)| - 1]
  }

  /** Going up from a filter only meets filters that rest on it. */
  lemma SameBottomAbove(sys: IoSystem, f: DeviceObject)
    requires sys.Valid() && f in sys.devices && sys.IsFilter(f)
    ensures Bottom(sys, sys.Top(f)) == Bottom(sys, f)
    decreases sys.clock - f.serial
  {
    var g := f.attachedDevice;
    if g != null {
      RestsOn(sys, g, f);
      SameBottomAbove(sys, g);
    }
  }

  /** A filter attached to `d` has `d` as its lower device, and the same bottom. */
  lemma RestsOn(sys: IoSystem, g: DeviceObject, d: DeviceObject)
    requires sys.Valid() && d in sys.devices && d.attachedDevice == g && (d !in sys.base || sys.Carried(d) == null)
    ensures g in sys.devices && sys.IsFilter(g) && g.serial > d.serial && Bottom(sys, g) == Bottom(sys, d)
  {
    assert sys.IsFilter(g) && g.attachedTo == d;
    sys.FilterRestsOnOlder(g);
    assert sys.Path(g) == [g] + sys.Path(d);
  }

  /** Whatever has been attached meanwhile, an IRP sent to the top of a stack ends at the device that was on
      top before hid-filter was loaded. */
  lemma ReachesBaseTop(sys: IoSystem, d: DeviceObject)
    requires sys.Valid() && d in sys.base
    ensures Bottom(sys, sys.Top(d)) == sys.BaseTop(d)
    decreases sys.clock - d.serial
  {
    if sys.Carried(d) != null {
      ReachesBaseTop(sys, sys.Carried(d));
    } else if d.attachedDevice != null {
      RestsOn(sys, d.attachedDevice, d);
      SameBottomAbove(sys, d.attachedDevice);
    }
  }

  /** The StackSize that `n` filters on top of a device of size `bottom` end up with, in eight bits. */
  function Size8(bottom: int, n: nat): int {
    if n == 0 then bottom else Inc8(Size8(bottom, n - 1))
  }

  /** The 8-bit sum is the sum, wrapped into the range of a signed byte; so it is the sum exactly as long as that
      fits. */
  lemma {:induction false} Size8Exact(bottom: int, n: nat)
    requires -128 <= bottom <= 127
    ensures -128 <= Size8(bottom, n) <= 127 && (bottom + n - Size8(bottom, n)) % 256 == 0
    ensures Size8(bottom, n) == bottom + n <==> bottom + n <= 127
  {
    if n > 0 {
      Size8Exact(bottom, n - 1);
    }
  }

  /** The top of a stack is the only free device over the stack's bottom. */
  lemma TopUnique(sys: IoSystem, p: DeviceObject, t: DeviceObject)
    requires sys.Valid() && p in sys.base && t in sys.devices && t.attachedDevice == null
    requires Bottom(sys, t) == sys.BaseTop(p)
    ensures t == sys.Top(p)
  {
    TopThroughBase(sys, p);
    SameTopBelow(sys, t);
  }

  lemma SameTopBelow(sys: IoSystem, d: DeviceObject)
    requires sys.Valid() && d in sys.devices
    ensures sys.Top(Bottom(sys, d)) == sys.Top(d)
    decreases d.serial
  {
    if sys.IsFilter(d) {
      sys.FilterRestsOnOlder(d);
      assert sys.Path(d) == [d] + sys.Path(d.lowerDevice);
      SameTopBelow(sys, d.lowerDevice);
      assert d.lowerDevice.attachedDevice == d;
    }
  }

  lemma TopThroughBase(sys: IoSystem, p: DeviceObject)
    requires sys.Valid() && p in sys.base
    ensures sys.Top(p) == sys.Top(sys.BaseTop(p))
    decreases sys.baseClock - p.serial
  {
    if sys.Carried(p) != null {
      TopThroughBase(sys, sys.Carried(p));
    }
  }

  /** With no filters left, every stack ends where it ended before hid-filter came. */
  lemma BareStack(sys: IoSystem, p: DeviceObject)
    requires sys.Valid() && p in sys.base && sys.filters == []
    ensures sys.Top(p) == sys.BaseTop(p) && sys.Path(sys.Top(p)) == [sys.BaseTop(p)]
  {
    ReachesBaseTop(sys, p);
    assert sys.Top(p) !in sys.filters;
  }

  /** Every filter has the buffering flags of the bottom of its stack and no other, and its StackSize is the bottom's
      after as many 8-bit increments as there are filters. */
  lemma {:induction false} SizesAddUp(sys: IoSystem, d: DeviceObject)
    requires sys.Valid() && d in sys.devices
    ensures sys.IsFilter(d) ==> TakesBuffering(d.flags, Bottom(sys, d).flags)
    ensures d.stackSize == Size8(Bottom(sys, d).stackSize, Height(sys, d))
    decreases d.serial
  {
    if sys.IsFilter(d) {
      sys.FilterRestsOnOlder(d);
      assert sys.Path(d) == [d] + sys.Path(d.lowerDevice);
      SizesAddUp(sys, d.lowerDevice);
      MaskedFlags(d.flags, d.lowerDevice.flags);
      BufferingPassedOn(d.flags, d.lowerDevice.flags, Bottom(sys, d).flags);
    }
  }

  lemma BufferingPassedOn(flags: bv32, lower: bv32, bottom: bv32)
    requires TakesBuffering(flags, lower)
    ensures TakesBuffering(lower, bottom) ==> TakesBuffering(flags, bottom)
  {
  }

  /** As long as the size of the device that was on top before hid-filter came plus the number of filters stays
      within what an IRP can have, no addition has wrapped and the top asks for a slot for each device. */
  lemma RoomInEveryStack(sys: IoSystem, pdo: DeviceObject)
    requires sys.Valid() && pdo in sys.base && 1 <= sys.BaseTop(pdo).stackSize
    requires sys.BaseTop(pdo).stackSize + Height(sys, sys.Top(pdo)) <= MAX_STACK_COUNT
    ensures sys.Top(pdo).stackSize == sys.BaseTop(pdo).stackSize + Height(sys, sys.Top(pdo))
    ensures Height(sys, sys.Top(pdo)) < sys.Top(pdo).stackSize <= MAX_STACK_COUNT
  {
    ReachesBaseTop(sys, pdo);
    SizesAddUp(sys, sys.Top(pdo));
    Size8Exact(sys.BaseTop(pdo).stackSize, Height(sys, sys.Top(pdo)));
  }

  // ----- DriverUnload

  /** `driver_unload`: every filter is detached and deleted exactly once, newest first; afterwards the list
      is empty and every device of another driver carries what it carried before hid-filter came. */
  method DriverUnload(sys: IoSystem)
    requires sys.Valid()
    modifies sys`devices, sys`filters, sys`detached, sys`deleted, sys.driver`deviceObject,
             sys.devices`attachedDevice, sys.devices`attachedTo
    ensures sys.Valid() && sys.filters == [] && sys.driver.deviceObject == null
    ensures sys.devices == sys.base.Keys && sys.devices <= old(sys.devices)
    ensures forall d {:trigger d.stackSize} :: d in sys.base ==> d.stackSize == old(d.stackSize)
    ensures forall d :: d in sys.base ==> d.attachedDevice == sys.Carried(d) && d.attachedTo == old(d.attachedTo)
    ensures sys.detached == old(sys.detached) + old(sys.filters)
    ensures sys.deleted == old(sys.deleted) + old(sys.filters)
  {
    var device := sys.driver.deviceObject;
    while device != null
      invariant sys.Valid() && device == sys.driver.deviceObject
      invariant sys.devices <= old(sys.devices)
      invariant forall d :: d in sys.base ==> d.attachedTo == old(d.attachedTo)
      invariant sys.detached + sys.filters == old(sys.detached) + old(sys.filters)
      invariant sys.deleted + sys.filters == old(sys.deleted) + old(sys.filters)
      decreases |sys.filters|
    {
      var next := sys.NextDevice(device);
      HeadMoved(sys.detached, sys.filters);
      HeadMoved(sys.deleted, sys.filters);
      RemoveNewest(sys, device);
      device := next;
    }
    BaseRestored(sys);
  }

  lemma HeadMoved<T>(log: seq<T>, list: seq<T>)
    requires list != []
    ensures (log + [list[0]]) + list[1..] == log + list
  {
  }

  lemma BaseRestored(sys: IoSystem)
    requires sys.Valid() && sys.filters == []
    ensures sys.devices == sys.base.Keys
    ensures forall d :: d in sys.base ==> d.attachedDevice == sys.Carried(d)
  {
    assert forall d :: d in sys.devices ==> d !in sys.filters;
  }

  /** Without filters the back links are determined too: they are those of the start. */
  lemma BackLinksRestored(sys: IoSystem, d: DeviceObject, below: DeviceObject?)
    requires sys.Valid() && sys.filters == [] && d in sys.base && (below != null ==> below in sys.base)
    ensures d.attachedTo == below
            <==> if below == null then forall e :: e in sys.base ==> sys.Carried(e) != d else sys.Carried(below) == d
  {
    BaseRestored(sys);
    assert forall e :: e in sys.base && sys.Carried(e) == d ==> e.attachedDevice == d && d.attachedTo == e;
  }

  /** The body of the unload loop. Nothing it reads or passes to the kernel has been deleted before. */
  method RemoveNewest(sys: IoSystem, device: DeviceObject)
    requires sys.Valid() && device == sys.driver.deviceObject
    modifies sys`devices, sys`filters, sys`detached, sys`deleted, sys.driver`deviceObject,
             sys.devices`attachedDevice, sys.devices`attachedTo
    ensures sys.Valid() && sys.filters == old(sys.filters)[1..]
    ensures sys.devices == old(sys.devices) - {device}
    ensures forall d :: d in sys.base ==> d.attachedTo == old(d.attachedTo)
    ensures sys.detached == old(sys.detached) + [device] && sys.deleted == old(sys.deleted) + [device]
  {
    NewestIsOnTop(sys);
    var lower := sys.LowerDevice(device);
    sys.IoDetachDevice(lower);
    sys.IoDeleteDevice(device);
    sys.TailComplete();
  }

  /** The newest filter carries nothing and rests on its lower device: the head of the list can go. */
  lemma NewestIsOnTop(sys: IoSystem)
    requires sys.Valid() && sys.filters != []
    ensures var f := sys.filters[0];
            f.attachedDevice == null && sys.Published(f) && f.lowerDevice.attachedDevice == f
  {
    var f := sys.filters[0];
    assert f in sys.devices && sys.IsFilter(f) && !f.Initializing();
    assert forall d :: d in sys.devices && sys.IsFilter(d) ==> d in sys.filters;
  }
}

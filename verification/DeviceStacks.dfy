/** Device objects, the filter driver's device list, device stacks, and the kernel calls that change them,
    each with the effect the WDK documents. */
module DeviceStacks {
  import opened Options
  import opened NtStatuses
  import opened Wdm
  import opened Irps

  const BUFFERING: bv32 := DO_BUFFERED_IO | DO_DIRECT_IO

  /** The entries of a dispatch table: the thunks of hid-filter, and routines of anyone else. */
  datatype Routine =
    DispatchCreate | DispatchClose | DispatchRead | DispatchPower | DispatchPnp | DispatchPassthrough | Other(id: int)

  class DriverObject {
    var deviceObject: DeviceObject?
    const majorFunction: array<Option<Routine>>
    /** Whether the two callbacks have been registered. */
    var addDevice: bool
    var driverUnload: bool

    constructor (table: seq<Option<Routine>>)
      ensures deviceObject == null && !addDevice && !driverUnload && fresh(majorFunction) && majorFunction[..] == table
    {
      deviceObject, addDevice, driverUnload := null, false, false;
      majorFunction := new Option<Routine>[|table|](i requires 0 <= i < |table| => table[i]);
      new;
      assert majorFunction[..] == table;
    }
  }

  class DeviceObject {
    const driverObject: DriverObject
    /** Allocation order; stands for the object's address. */
    const serial: nat
    var nextDevice: DeviceObject?
    /** The device attached on top of this one. */
    var attachedDevice: DeviceObject?
    /** The kernel's private back link of `attachedDevice`. */
    var attachedTo: DeviceObject?
    var stackSize: int
    var flags: bv32
    /** `FilterDeviceExtension::lower_device`; the extension is zeroed on creation. */
    var lowerDevice: DeviceObject?

    constructor (owner: DriverObject, serial: nat)
      ensures driverObject == owner && this.serial == serial
      ensures nextDevice == null && attachedDevice == null && attachedTo == null && lowerDevice == null
      ensures stackSize == 1 && flags == DO_DEVICE_INITIALIZING
    {
      driverObject, this.serial := owner, serial;
      nextDevice, attachedDevice, attachedTo, lowerDevice := null, null, null, null;
      stackSize, flags := 1, DO_DEVICE_INITIALIZING;
    }

    predicate Initializing()
      reads this
    {
      flags & DO_DEVICE_INITIALIZING != 0
    }
  }

  /** Counts the calls of PoStartNextPowerIrp. */
  class PowerManager {
    var starts: nat
  }

  class IoSystem {
    /** hid-filter's driver object. */
    const driver: DriverObject
    /** Everything below the filters. */
    const foreign: Driver
    /** The routines of others that hid-filter's dispatch table may hold, by their identity. */
    const others: int -> Driver
    var clock: nat
    const power: PowerManager

    /** The devices that exist. A device outside this set has been deleted. */
    ghost var devices: set<DeviceObject>
    /** hid-filter's devices, newest first: the list headed by `driver.deviceObject`. */
    ghost var filters: seq<DeviceObject>
    /** Every device ever detached or deleted, in order. */
    ghost var detached: seq<DeviceObject>
    ghost var deleted: seq<DeviceObject>
    /** The devices of other drivers, with the device each carried before hid-filter was loaded. */
    ghost const base: map<DeviceObject, DeviceObject?>
    ghost const baseClock: nat

    predicate IsFilter(d: DeviceObject) {
      d.driverObject == driver
    }

    // ----- the invariant

    /** The device list: newest first, linked through `nextDevice`, holding exactly the driver's devices. */
    ghost predicate ListInv()
      reads this, driver`deviceObject, devices
    {
      && (forall i :: 0 <= i < |filters| ==> filters[i] in devices && IsFilter(filters[i]))
      && (forall d {:trigger d in filters} :: d in devices && IsFilter(d) ==> d in filters)
      && (forall i, j :: 0 <= i < j < |filters| ==> filters[i].serial > filters[j].serial)
      && driver.deviceObject == (if filters == [] then null else filters[0])
      && (forall i {:trigger filters[i].nextDevice} :: 0 <= i < |filters| ==>
            filters[i].nextDevice == if i + 1 < |filters| then filters[i + 1] else null)
    }

    /** Attachment links are mutual, stay among existing devices, and go from older to newer devices, so no
        stack has a cycle. */
    ghost predicate LinksInv()
      reads this, devices
    {
      && (forall d :: d in devices ==> d.serial < clock)
      && (forall d {:trigger d.attachedDevice} :: d in devices && d.attachedDevice != null ==>
            d.attachedDevice in devices && d.attachedDevice.attachedTo == d && d.serial < d.attachedDevice.serial)
      && (forall d {:trigger d.attachedTo} :: d in devices && d.attachedTo != null ==>
            d.attachedTo in devices && d.attachedTo.attachedDevice == d)
    }

    /** What a device of another driver carried before hid-filter was loaded. */
    ghost function Carried(d: DeviceObject): DeviceObject?
      requires d in base
    {
      base[d]
    }

    ghost predicate BaseOrdered() {
      && (forall d :: d in base ==> d.serial < baseClock)
      && (forall d {:trigger Carried(d)} :: d in base && Carried(d) != null ==>
            Carried(d) in base && d.serial < Carried(d).serial)
    }

    /** The device that was on top of the stack of `d` before hid-filter was loaded. */
    ghost function BaseTop(d: DeviceObject): (t: DeviceObject)
      requires BaseOrdered() && d in base
      ensures t in base
      decreases baseClock - d.serial
    {
      if Carried(d) == null then d else BaseTop(Carried(d))
    }

    /** Other drivers' devices carry what they always carried, or a filter where they carried nothing; only
        filters sit on filters. */
    ghost predicate BaseInv()
      reads this, devices
    {
      && base.Keys <= devices
      && (forall d :: d in devices ==> (d in base <==> !IsFilter(d)))
      && (forall d {:trigger Carried(d)} :: d in base && Carried(d) != null ==>
            Carried(d) in base && d.attachedDevice == Carried(d))
      && (forall d {:trigger d.attachedDevice} ::
            d in devices && d.attachedDevice != null && !IsFilter(d.attachedDevice) ==>
            d in base && d.attachedDevice == Carried(d))
    }

    /** What the rest of the system may rely on once DO_DEVICE_INITIALIZING is clear. */
    ghost predicate Published(d: DeviceObject)
      reads this, devices
    {
      && d in devices && !d.Initializing()
      && d.lowerDevice != null && d.lowerDevice in devices && d.attachedTo == d.lowerDevice
      && d.stackSize == Inc8(d.lowerDevice.stackSize)
      && d.flags == d.lowerDevice.flags & BUFFERING
    }

    /** Publication order: a filter that no longer initializes is complete, and whatever its extension names
        as the lower device is what it is attached to. A device on its way out (detached, not yet deleted) is
        exempt. */
    ghost predicate PublicationInv(leaving: DeviceObject?)
      reads this, devices
    {
      && (forall d {:trigger d.flags} ::
            d in devices && d != leaving && IsFilter(d) && !d.Initializing() ==> Published(d))
      && (forall d {:trigger d.lowerDevice} ::
            d in devices && d != leaving && IsFilter(d) && d.lowerDevice != null ==> d.attachedTo == d.lowerDevice)
    }

    ghost predicate InvExcept(leaving: DeviceObject?)
      reads this, driver`deviceObject, devices
    {
      ListInv() && LinksInv() && BaseInv() && PublicationInv(leaving)
    }

    /** Holds between any two steps of the driver. */
    ghost predicate Inv()
      reads this, driver`deviceObject, devices
    {
      InvExcept(null)
    }

    /** Holds between the driver's callbacks: in addition, no filter is half built. */
    ghost predicate Valid()
      reads this, driver`deviceObject, devices
    {
      Inv() && BaseOrdered() && forall i :: 0 <= i < |filters| ==> !filters[i].Initializing()
    }

    /** The devices of other drivers, stacked as given. */
    constructor (driver: DriverObject, foreign: Driver, others: int -> Driver,
                 ghost below: set<DeviceObject>, clock: nat)
      requires driver.deviceObject == null
      requires forall d :: d in below ==> d.driverObject != driver && d.serial < clock
      requires forall d {:trigger d.attachedDevice} :: d in below && d.attachedDevice != null ==>
                 d.attachedDevice in below && d.attachedDevice.attachedTo == d && d.serial < d.attachedDevice.serial
      requires forall d {:trigger d.attachedTo} :: d in below && d.attachedTo != null ==>
                 d.attachedTo in below && d.attachedTo.attachedDevice == d
      ensures Valid() && this.driver == driver && this.foreign == foreign && this.others == others
      ensures devices == below && filters == []
      ensures base == (map d | d in below :: d.attachedDevice) && baseClock == clock
      ensures detached == [] && deleted == [] && fresh(power) && this.clock == clock
    {
      this.driver, this.foreign, this.others, this.clock := driver, foreign, others, clock;
      power := new PowerManager;
      devices, filters, detached, deleted := below, [], [], [];
      base, baseClock := map d | d in below :: d.attachedDevice, clock;
    }

    // ----- dereferencing a device pointer: the device must still exist

    function NextDevice(d: DeviceObject): DeviceObject?
      requires d in devices
      reads this, d
    {
      d.nextDevice
    }

    function AttachedDevice(d: DeviceObject): DeviceObject?
      requires d in devices
      reads this, d
    {
      d.attachedDevice
    }

    function LowerDevice(d: DeviceObject): DeviceObject?
      requires d in devices
      reads this, d
    {
      d.lowerDevice
    }

    // ----- stacks

    /** The devices an IRP sent to `d` passes, from `d` down to the first device of another driver. */
    ghost function Path(d: DeviceObject): (p: seq<DeviceObject>)
      requires Valid() && d in devices
      reads this, driver`deviceObject, devices
      ensures p != [] && p[0] == d
      ensures forall i :: 0 <= i < |p| ==> p[i] in devices && (IsFilter(p[i]) <==> i < |p| - 1)
      decreases d.serial
    {
      [d] + if IsFilter(d) then assert d in filters && !d.Initializing(); Path(d.lowerDevice) else []
    }

    /** What a filter's lower device is, and how its path starts. */
    lemma FilterRestsOnOlder(d: DeviceObject)
      requires Valid() && d in devices && IsFilter(d)
      ensures Published(d) && d.lowerDevice.serial < d.serial
      ensures Path(d)[1..] == Path(d.lowerDevice)
    {
      assert d in filters && !d.Initializing();
      assert d.lowerDevice.attachedDevice == d;
    }

    /** The top of the stack `d` belongs to. */
    ghost function Top(d: DeviceObject): (t: DeviceObject)
      requires LinksInv() && d in devices
      reads this, devices
      ensures t in devices && t.attachedDevice == null
      decreases clock - d.serial
    {
      if d.attachedDevice == null then d else Top(d.attachedDevice)
    }

    /** Adding devices elsewhere does not move the top of a stack. */
    twostate lemma {:induction false} TopKept(d: DeviceObject)
      requires old(LinksInv()) && LinksInv() && old(devices) <= devices && d in old(devices)
      requires forall e {:trigger e.attachedDevice} :: e in old(devices) ==> e.attachedDevice == old(e.attachedDevice)
      ensures Top(d) == old(Top(d))
      decreases old(clock) - d.serial
    {
      if d.attachedDevice != null {
        TopKept(d.attachedDevice);
      }
    }

    /** A device whose filters underneath are untouched keeps its path. */
    twostate lemma {:induction false} PathKept(d: DeviceObject)
      requires old(Valid()) && Valid() && old(devices) <= devices && d in old(devices)
      requires forall e {:trigger e.lowerDevice} :: e in old(devices) ==> e.lowerDevice == old(e.lowerDevice)
      ensures Path(d) == old(Path(d))
      decreases d.serial
    {
      if IsFilter(d) {
        FilterRestsOnOlder(d);
        assert d in old(filters) && !old(d.Initializing());
        PathKept(d.lowerDevice);
      }
    }

    twostate lemma PathsKept()
      requires old(Valid()) && Valid() && old(devices) <= devices
      requires forall e {:trigger e.lowerDevice} :: e in old(devices) ==> e.lowerDevice == old(e.lowerDevice)
      ensures forall d {:trigger Path(d)} :: d in old(devices) ==> Path(d) == old(Path(d))
    {
      forall d | d in old(devices)
        ensures Path(d) == old(Path(d))
      {
        PathKept(d);
      }
    }

    twostate lemma Newcomer(new d: DeviceObject)
      requires fresh(d) && devices == old(devices) + {d}
      ensures forall e :: e in devices ==> e in old(devices) || fresh(e)
    {
    }

    /** What is left of the list is still complete. */
    twostate lemma TailComplete()
      requires old(Valid()) && old(filters) != [] && filters == old(filters)[1..]
      requires forall d {:trigger d.flags} :: d in old(devices) ==> d.flags == old(d.flags)
      ensures forall i :: 0 <= i < |filters| ==> !filters[i].Initializing()
    {
      forall i | 0 <= i < |filters|
        ensures !filters[i].Initializing()
      {
        assert filters[i] == old(filters)[i + 1];
      }
    }

    // ----- kernel calls

    /** IoCreateDevice for this driver: on success a zeroed device, marked as initializing, heads the list. */
    method IoCreateDevice(kernelStatus: NtStatus) returns (status: NtStatus, d: DeviceObject?)
      requires Inv()
      modifies this`clock, this`devices, this`filters, driver`deviceObject
      ensures status == kernelStatus && Inv()
      ensures status != SUCCESS ==> d == null && unchanged(this) && unchanged(driver)
      ensures status == SUCCESS ==>
                && d != null && fresh(d) && IsFilter(d) && d.serial == old(clock) && clock == old(clock) + 1
                && devices == old(devices) + {d} && filters == [d] + old(filters)
                && d.attachedDevice == null && d.attachedTo == null && d.lowerDevice == null
                && d.flags == DO_DEVICE_INITIALIZING && d.stackSize == 1 && d.nextDevice == old(driver.deviceObject)
    {
      status, d := kernelStatus, null;
      if status == SUCCESS {
        d := new DeviceObject(driver, clock);
        clock := clock + 1;
        d.nextDevice := driver.deviceObject;
        driver.deviceObject := d;
        devices, filters := devices + {d}, [d] + filters;
        CreationKeepsLinks(d);
      }
    }

    twostate lemma CreationKeepsLinks(new d: DeviceObject)
      requires old(Inv()) && d !in old(devices) && devices == old(devices) + {d} && clock == old(clock) + 1
      requires IsFilter(d) && d.serial == old(clock) && d.Initializing()
      requires d.attachedDevice == null && d.attachedTo == null && d.lowerDevice == null
      requires forall e :: e in old(devices) ==> unchanged(e)
      ensures LinksInv() && BaseInv() && PublicationInv(null)
    {
      assert LinksInv();
      assert BaseInv();
    }

    method IoGetAttachedDevice(target: DeviceObject) returns (top: DeviceObject)
      requires LinksInv() && target in devices
      ensures top == Top(target) && (top == target || top.attachedTo != null)
    {
      top := target;
      while AttachedDevice(top) != null
        invariant top in devices && Top(top) == Top(target)
        invariant top == target || top.attachedTo != null
        decreases clock - top.serial
      {
        top := AttachedDevice(top);
      }
    }

    /** A filter that carries nothing may change its own fields while it initializes, and may end as a
        complete device. */
    twostate lemma FieldsWritten(f: DeviceObject)
      requires old(Inv()) && unchanged(this) && unchanged(driver) && f in devices && f.attachedDevice == null
      requires forall e :: e in devices && e != f ==> unchanged(e)
      requires unchanged(f`nextDevice) && unchanged(f`attachedDevice) && unchanged(f`attachedTo)
      requires f.Initializing() || Published(f)
      requires f.lowerDevice != null ==> f.attachedTo == f.lowerDevice
      ensures Inv()
    {
      assert ListInv();
      assert LinksInv();
      assert BaseInv();
    }

    /** The size an attachment gives `source`. */
    method SizeAbove(source: DeviceObject, top: DeviceObject)
      requires Inv() && source in devices && IsFilter(source) && source.Initializing() && source.attachedDevice == null
      requires source.lowerDevice == null
      modifies source`stackSize
      ensures Inv() && source.stackSize == Inc8(old(top.stackSize))
    {
      source.stackSize := Inc8(top.stackSize);
      FieldsWritten(source);
    }

    /** The links made by an attachment: `source` comes to rest on `top`, the free top of some stack. */
    method LinkAbove(source: DeviceObject, top: DeviceObject)
      requires Inv() && source in devices && top in devices && top.attachedDevice == null
      requires IsFilter(source) && source.Initializing() && source.lowerDevice == null
      requires source.attachedTo == null && source.attachedDevice == null
      requires top.serial < source.serial
      modifies top`attachedDevice, source`attachedTo
      ensures Inv()
      ensures top.attachedDevice == source && source.attachedTo == top
    {
      assert top in base ==> Carried(top) == null;
      top.attachedDevice := source;
      source.attachedTo := top;
      assert ListInv();
      assert LinksInv();
      assert BaseInv();
      assert forall d :: d in devices && d != source ==> d.attachedTo == old(d.attachedTo);
    }

    /** IoAttachDeviceToDeviceStack: `source` goes on top of the stack of `target`, and the device it now
        rests on is returned; or nothing happens and null is returned. */
    method IoAttachDeviceToDeviceStack(source: DeviceObject, target: DeviceObject, attachable: bool)
      returns (lower: DeviceObject?)
      requires Inv() && source in devices && target in devices && source != target
      requires IsFilter(source) && source.Initializing() && source.lowerDevice == null
      requires source.attachedTo == null && source.attachedDevice == null
      requires forall d :: d in devices && d != source ==> d.serial < source.serial
      modifies Top(target)`attachedDevice, source`attachedTo, source`stackSize
      ensures Inv()
      ensures !attachable ==> lower == null && unchanged(source) && unchanged(old(Top(target)))
      ensures attachable ==> lower != null && lower == old(Top(target)) && lower in devices && lower != source
                             && lower.attachedDevice == source && source.attachedTo == lower
                             && source.stackSize == Inc8(lower.stackSize)
    {
      if !attachable {
        return null;
      }
      lower := IoGetAttachedDevice(target);
      SizeAbove(source, lower);
      LinkAbove(source, lower);
    }

    /** IoDetachDevice: the device attached on top of `target` is cut loose. */
    method IoDetachDevice(target: DeviceObject)
      requires Inv() && target in devices && target.attachedDevice != null
      requires IsFilter(target.attachedDevice)
      modifies this`detached, target`attachedDevice, target.attachedDevice`attachedTo
      ensures InvExcept(old(target.attachedDevice))
      ensures target.attachedDevice == null && old(target.attachedDevice).attachedTo == null
      ensures detached == old(detached) + [old(target.attachedDevice)]
      ensures forall d {:trigger d.attachedTo} :: d in devices && d != old(target.attachedDevice) ==>
                d.attachedTo == old(d.attachedTo)
    {
      var up := AttachedDevice(target);
      detached := detached + [up];
      up.attachedTo := null;
      target.attachedDevice := null;
      assert ListInv();
      assert LinksInv();
      assert BaseInv();
    }

    /** IoDeleteDevice of the newest device, which must rest on nothing and carry nothing. */
    method IoDeleteDevice(d: DeviceObject)
      requires InvExcept(d) && filters != [] && d == filters[0]
      requires d.attachedDevice == null && d.attachedTo == null
      modifies this`devices, this`filters, this`deleted, driver`deviceObject
      ensures Inv()
      ensures devices == old(devices) - {d} && filters == old(filters)[1..] && deleted == old(deleted) + [d]
      ensures driver.deviceObject == old(d.nextDevice)
    {
      driver.deviceObject := NextDevice(d);
      devices, filters, deleted := devices - {d}, filters[1..], deleted + [d];
      assert forall e :: e in old(filters) && e != d ==> e in filters;
      assert ListInv();
      assert LinksInv();
      assert BaseInv();
    }
  }
}

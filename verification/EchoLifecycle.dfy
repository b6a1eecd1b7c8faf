/** Loading and unloading ioctl-echo: its named device, its symbolic link and its dispatch table. */
module EchoLifecycle {
  import opened NtStatuses
  import opened Wdm
  import opened Echo

  /** A UTF-16 code unit. */
  type Unit = u: int | 0 <= u < 0x1_0000

  type Name = seq<Unit>

  // ----- unicode_from_slice

  datatype UnicodeString = UnicodeString(length: int, maximumLength: int)

  /** The two 16-bit sizes computed for a null-terminated slice of `n` units, as a release build computes them:
      64-bit and 16-bit wrap-around included. */
  function UnicodeFromSlice(n: nat): UnicodeString {
    var bytes := ((n - 1) % 0x1_0000_0000_0000_0000) * 2 % 0x1_0000_0000_0000_0000;
    var length := bytes % 0x1_0000;
    UnicodeString(length, (length + 2) % 0x1_0000)
  }

  /** The sizes are the slice's own, without and with its terminator, exactly for 1 to 32767 units. */
  lemma UnicodeSizesIff(n: nat)
    requires n < 0x8000_0000_0000_0000
    ensures UnicodeFromSlice(n) == UnicodeString(2 * (n - 1), 2 * n) <==> 1 <= n <= 32767
  {
    if n >= 1 {
      assert (n - 1) % 0x1_0000_0000_0000_0000 == n - 1;
      assert (n - 1) * 2 % 0x1_0000_0000_0000_0000 == 2 * (n - 1);
    }
  }

  /** Reducing before the terminator is added back does not change the remainder. */
  lemma WrapBeforeAdding(x: nat)
    ensures (x % 65536 + 2) % 65536 == (x + 2) % 65536
  {
  }

  /** Both sizes for every slice: the right ones, wrapped to 16 bits. An empty slice gives 65534 and 0. */
  lemma UnicodeSizesWrap(n: nat)
    requires n < 0x8000_0000_0000_0000
    ensures UnicodeFromSlice(0) == UnicodeString(65534, 0)
    ensures n >= 1 ==> UnicodeFromSlice(n) == UnicodeString(2 * (n - 1) % 65536, 2 * n % 65536)
  {
    if n >= 1 {
      assert (n - 1) % 0x1_0000_0000_0000_0000 == n - 1;
      assert (n - 1) * 2 % 0x1_0000_0000_0000_0000 == 2 * (n - 1);
      WrapBeforeAdding(2 * (n - 1));
    }
  }

  /** The bytes of the name that a consumer of the string sees. */
  function NameOf(slice: Name): Name
    requires slice != []
  {
    slice[..UnicodeFromSlice(|slice|).length / 2]
  }

  lemma NameDropsTerminator(slice: Name)
    requires 1 <= |slice| <= 32767
    ensures NameOf(slice) == slice[..|slice| - 1]
  {
    UnicodeSizesIff(|slice|);
  }

  // ----- the driver's life

  /** "\\Device\\WdkSafeEcho" and "\\DosDevices\\WdkSafeEcho", null-terminated UTF-16. */
  const DEVICE_SLICE: Name := [
    0x005C, 0x0044, 0x0065, 0x0076, 0x0069, 0x0063, 0x0065, 0x005C, 0x0057, 0x0064, 0x006B,
    0x0053, 0x0061, 0x0066, 0x0065, 0x0045, 0x0063, 0x0068, 0x006F, 0x0000]

  const LINK_SLICE: Name := [
    0x005C, 0x0044, 0x006F, 0x0073, 0x0044, 0x0065, 0x0076, 0x0069, 0x0063, 0x0065, 0x0073,
    0x005C, 0x0057, 0x0064, 0x006B, 0x0053, 0x0061, 0x0066, 0x0065, 0x0045, 0x0063, 0x0068,
    0x006F, 0x0000]

  /** UTF-16 of an ASCII string. */
  function Encoded(s: string): Name
    requires forall i :: 0 <= i < |s| ==> s[i] as int < 0x80
  {
    seq(|s|, i requires 0 <= i < |s| => s[i] as int)
  }

  lemma NamesSpelled()
    ensures NameOf(DEVICE_SLICE) == Encoded("\\Device\\WdkSafeEcho")
    ensures NameOf(LINK_SLICE) == Encoded("\\DosDevices\\WdkSafeEcho")
  {
    NameDropsTerminator(DEVICE_SLICE);
    NameDropsTerminator(LINK_SLICE);
  }

  const OBJECT_NAME_COLLISION := NtStatus(0xC000_0035)

  /** The kernel's namespace as this driver sees it, and the driver's own object: a device list of at most one
      device, the dispatch table, and whether the unload callback is registered. */
  class Namespace {
    /** Flags of the named devices. */
    var devices: map<Name, bv32>
    var links: map<Name, Name>
    var deviceObject: seq<Name>
    const majorFunction: array<EchoRoutine>
    var unloadable: bool

    /** A driver object as the I/O manager hands it to DriverEntry. */
    constructor (devices: map<Name, bv32>, links: map<Name, Name>)
      ensures this.devices == devices && this.links == links && deviceObject == [] && !unloadable
      ensures fresh(majorFunction) && majorFunction.Length == IRP_MJ_MAXIMUM_FUNCTION + 1
      ensures majorFunction[..] == seq(IRP_MJ_MAXIMUM_FUNCTION + 1, _ => Unassigned)
    {
      this.devices, this.links, deviceObject, unloadable := devices, links, [], false;
      majorFunction := new EchoRoutine[IRP_MJ_MAXIMUM_FUNCTION + 1](_ => Unassigned);
    }

    /** IoCreateDevice with a device name. */
    method CreateNamed(name: Name, answer: NtStatus) returns (status: NtStatus)
      requires deviceObject == []
      modifies this`devices, this`deviceObject
      ensures status == if name in old(devices) then OBJECT_NAME_COLLISION else answer
      ensures status != SUCCESS ==> unchanged(this)
      ensures status == SUCCESS ==> devices == old(devices)[name := DO_DEVICE_INITIALIZING] && deviceObject == [name]
    {
      status := if name in devices then OBJECT_NAME_COLLISION else answer;
      if status == SUCCESS {
        devices, deviceObject := devices[name := DO_DEVICE_INITIALIZING], [name];
      }
    }

    /** IoDeleteDevice. */
    method DeleteNamed(name: Name)
      requires deviceObject == [name]
      modifies this`devices, this`deviceObject
      ensures devices == old(devices) - {name} && deviceObject == []
    {
      devices, deviceObject := devices - {name}, [];
    }

    method IoCreateSymbolicLink(link: Name, target: Name, answer: NtStatus) returns (status: NtStatus)
      modifies this`links
      ensures status == if link in old(links) then OBJECT_NAME_COLLISION else answer
      ensures links == if status == SUCCESS then old(links)[link := target] else old(links)
    {
      status := if link in links then OBJECT_NAME_COLLISION else answer;
      if status == SUCCESS {
        links := links[link := target];
      }
    }

    method IoDeleteSymbolicLink(link: Name)
      modifies this`links
      ensures links == old(links) - {link}
    {
      links := links - {link};
    }

    /** `driver_entry_inner`; the two answers are the kernel's, for names that are free. A load that fails at
        either call leaves the namespace as it was. */
    method DriverEntry(createAnswer: NtStatus, linkAnswer: NtStatus) returns (status: NtStatus)
      requires deviceObject == [] && majorFunction.Length == IRP_MJ_MAXIMUM_FUNCTION + 1
      modifies this, majorFunction
      ensures majorFunction[..]
              == if status == SUCCESS then Registered(old(majorFunction[..])) else old(majorFunction[..])
      ensures unloadable == (status == SUCCESS || old(unloadable))
      ensures var device, link := NameOf(DEVICE_SLICE), NameOf(LINK_SLICE);
              && status == (if device in old(devices) then OBJECT_NAME_COLLISION
                            else if createAnswer != SUCCESS then createAnswer
                            else if link in old(links) then OBJECT_NAME_COLLISION
                            else linkAnswer)
              && (status != SUCCESS ==>
                    devices == old(devices) && links == old(links) && deviceObject == [])
              && (status == SUCCESS ==>
                    device !in old(devices) && link !in old(links)
                    && devices == old(devices)[device := DO_BUFFERED_IO]
                    && links == old(links)[link := device] && deviceObject == [device])
    {
      var device, link := NameOf(DEVICE_SLICE), NameOf(LINK_SLICE);
      status := CreateNamed(device, createAnswer);
      if status != SUCCESS {
        return;
      }
      status := IoCreateSymbolicLink(link, device, linkAnswer);
      if status != SUCCESS {
        DeleteNamed(device);
        return;
      }
      devices := devices[device := devices[device] & !DO_DEVICE_INITIALIZING];
      devices := devices[device := devices[device] | DO_BUFFERED_IO];
      majorFunction[IRP_MJ_CREATE] := Create;
      majorFunction[IRP_MJ_CLOSE] := Close;
      majorFunction[IRP_MJ_DEVICE_CONTROL] := DeviceControl;
      unloadable := true;
    }

    /** `driver_unload`. */
    method DriverUnload()
      requires |deviceObject| <= 1
      modifies this`devices, this`links, this`deviceObject
      ensures links == old(links) - {NameOf(LINK_SLICE)}
      ensures deviceObject == [] && devices == old(devices) - (set d | d in old(deviceObject))
    {
      IoDeleteSymbolicLink(NameOf(LINK_SLICE));
      if deviceObject != [] {
        DeleteNamed(deviceObject[0]);
      }
    }

    /** A driver that was loaded and then unloaded has left nothing behind and taken nothing away. */
    method LoadAndUnload(createAnswer: NtStatus, linkAnswer: NtStatus) returns (status: NtStatus)
      requires deviceObject == [] && majorFunction.Length == IRP_MJ_MAXIMUM_FUNCTION + 1
      modifies this, majorFunction
      ensures devices == old(devices) && links == old(links) && deviceObject == []
    {
      status := DriverEntry(createAnswer, linkAnswer);
      if status == SUCCESS {
        DriverUnload();
      }
    }
  }
}

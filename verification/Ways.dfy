/** What hid-filter's two callbacks do to the way an IRP takes down each stack. */
module Ways {
  import opened NtStatuses
  import opened DeviceStacks
  import opened HidFilter

  type WayMap = map<DeviceObject, seq<DeviceObject>>

  /** The way down from the top of the stack of `p`. */
  ghost function Way(sys: IoSystem, p: DeviceObject): seq<DeviceObject>
    requires sys.Valid() && p in sys.base
    reads sys, sys.driver`deviceObject, sys.devices
  {
    sys.Path(sys.Top(p))
  }

  /** `way` leads down to the bottom of the stack of `p`. */
  ghost predicate Leads(sys: IoSystem, p: DeviceObject, way: seq<DeviceObject>)
    requires sys.Valid()
    reads sys, sys.driver`deviceObject, sys.devices
  {
    && p in sys.base && way != [] && way[0] in sys.devices && sys.Path(way[0]) == way
    && way[|way| - 1] == sys.BaseTop(p)
  }

  lemma WayLeads(sys: IoSystem, p: DeviceObject)
    requires sys.Valid() && p in sys.base
    ensures Leads(sys, p, Way(sys, p)) && Way(sys, p)[0] == sys.Top(p)
  {
    ReachesBaseTop(sys, p);
  }

  lemma WayFound(sys: IoSystem, p: DeviceObject, way: seq<DeviceObject>)
    requires sys.Valid() && Leads(sys, p, way) && way[0].attachedDevice == null
    ensures Way(sys, p) == way
  {
    TopUnique(sys, p, way[0]);
  }

  /** Two stacks have one top exactly when they have one bottom. */
  lemma SharedTop(sys: IoSystem, p: DeviceObject, q: DeviceObject)
    requires sys.Valid() && p in sys.base && q in sys.base
    ensures sys.Top(p) == sys.Top(q) <==> sys.BaseTop(p) == sys.BaseTop(q)
  {
    ReachesBaseTop(sys, p);
    ReachesBaseTop(sys, q);
    TopThroughBase(sys, p);
    TopThroughBase(sys, q);
  }

  /** A free filter on the first device of a way makes the way one longer. */
  lemma WayExtended(sys: IoSystem, p: DeviceObject, f: DeviceObject, way: seq<DeviceObject>)
    requires sys.Valid() && Leads(sys, p, way)
    requires f in sys.devices && sys.IsFilter(f) && f.attachedDevice == null && f.lowerDevice == way[0]
    ensures Way(sys, p) == [f] + way
  {
    sys.FilterRestsOnOlder(f);
    assert sys.Path(f) == [f] + way;
    WayFound(sys, p, [f] + way);
  }

  ghost predicate IsWay(sys: IoSystem, p: DeviceObject, way: seq<DeviceObject>)
    reads sys, sys.driver`deviceObject, sys.devices
  {
    sys.Valid() && p in sys.base && Way(sys, p) == way
  }

  /** The ways down all stacks. */
  ghost predicate AreWays(sys: IoSystem, ways: WayMap)
    requires ways.Keys == sys.base.Keys
    reads sys, sys.driver`deviceObject, sys.devices
  {
    forall p {:trigger IsWay(sys, p, ways[p])} :: p in sys.base ==> IsWay(sys, p, ways[p])
  }

  ghost predicate AllLead(sys: IoSystem, ways: WayMap)
    requires sys.Valid() && ways.Keys == sys.base.Keys
    reads sys, sys.driver`deviceObject, sys.devices
  {
    forall p {:trigger Leads(sys, p, ways[p])} :: p in sys.base ==> Leads(sys, p, ways[p])
  }

  ghost predicate Free(sys: IoSystem, way: seq<DeviceObject>, lower: DeviceObject?)
    reads sys, sys.devices
  {
    way != [] && way[0] in sys.devices && (way[0] != lower ==> way[0].attachedDevice == null)
  }

  /** Nothing sits on the ways, except perhaps on those that start at `lower`. */
  ghost predicate AllFree(sys: IoSystem, ways: WayMap, lower: DeviceObject?)
    requires ways.Keys == sys.base.Keys
    reads sys, sys.devices
  {
    forall p {:trigger Free(sys, ways[p], lower)} :: p in sys.base ==> Free(sys, ways[p], lower)
  }

  ghost predicate StartAt(sys: IoSystem, p: DeviceObject, way: seq<DeviceObject>, lower: DeviceObject?, pdo: DeviceObject)
    requires sys.BaseOrdered() && pdo in sys.base && p in sys.base
  {
    way != [] && (way[0] == lower <==> sys.BaseTop(p) == sys.BaseTop(pdo))
  }

  /** The ways that start at `lower` are those of the stack of `pdo`. */
  ghost predicate StartsAt(sys: IoSystem, ways: WayMap, lower: DeviceObject?, pdo: DeviceObject)
    requires sys.BaseOrdered() && pdo in sys.base && ways.Keys == sys.base.Keys
  {
    forall p {:trigger StartAt(sys, p, ways[p], lower, pdo)} :: p in sys.base ==> StartAt(sys, p, ways[p], lower, pdo)
  }

  lemma WaysLead(sys: IoSystem, pdo: DeviceObject, ways: WayMap)
    requires sys.Valid() && pdo in sys.base && ways.Keys == sys.base.Keys && AreWays(sys, ways)
    ensures AllLead(sys, ways) && AllFree(sys, ways, null) && StartsAt(sys, ways, sys.Top(pdo), pdo)
  {
    forall p | p in sys.base
      ensures Leads(sys, p, ways[p]) && Free(sys, ways[p], null) && StartAt(sys, p, ways[p], sys.Top(pdo), pdo)
    {
      assert IsWay(sys, p, ways[p]);
      WayLeads(sys, p);
      SharedTop(sys, p, pdo);
    }
  }

  /** What the ways become when `f` is put on the way of `pdo`. */
  ghost function WithFilter(sys: IoSystem, ways: WayMap, f: DeviceObject, pdo: DeviceObject): (r: WayMap)
    requires sys.BaseOrdered() && ways.Keys == sys.base.Keys && pdo in sys.base
    ensures r.Keys == sys.base.Keys
  {
    map p | p in ways :: if sys.BaseTop(p) == sys.BaseTop(pdo) then [f] + ways[p] else ways[p]
  }

  lemma WaysWithFilter(sys: IoSystem, ways: WayMap, f: DeviceObject, pdo: DeviceObject)
    requires sys.Valid() && ways.Keys == sys.base.Keys && pdo in sys.base
    requires f in sys.devices && sys.IsFilter(f) && f.attachedDevice == null
    requires AllLead(sys, ways) && AllFree(sys, ways, f.lowerDevice) && StartsAt(sys, ways, f.lowerDevice, pdo)
    ensures AreWays(sys, WithFilter(sys, ways, f, pdo))
  {
    var grown := WithFilter(sys, ways, f, pdo);
    forall p | p in sys.base
      ensures IsWay(sys, p, grown[p])
    {
      assert Leads(sys, p, ways[p]) && Free(sys, ways[p], f.lowerDevice) && StartAt(sys, p, ways[p], f.lowerDevice, pdo);
      if sys.BaseTop(p) == sys.BaseTop(pdo) {
        WayExtended(sys, p, f, ways[p]);
      } else {
        WayFound(sys, p, ways[p]);
      }
    }
  }

  lemma WaysFound(sys: IoSystem, ways: WayMap)
    requires sys.Valid() && ways.Keys == sys.base.Keys
    requires AllLead(sys, ways) && AllFree(sys, ways, null)
    ensures AreWays(sys, ways)
  {
    forall p | p in sys.base
      ensures IsWay(sys, p, ways[p])
    {
      assert Leads(sys, p, ways[p]) && Free(sys, ways[p], null);
      WayFound(sys, p, ways[p]);
    }
  }

  lemma StillFree(sys: IoSystem, ways: WayMap, lower: DeviceObject)
    requires ways.Keys == sys.base.Keys && AllFree(sys, ways, lower) && lower.attachedDevice == null
    ensures AllFree(sys, ways, null)
  {
    forall p | p in sys.base
      ensures Free(sys, ways[p], null)
    {
      assert Free(sys, ways[p], lower);
    }
  }

  /** AddDevice keeps every way leading down, and puts something on at most the top it found. */
  method AddLeading(sys: IoSystem, pdo: DeviceObject, createStatus: NtStatus, attachable: bool,
                    ghost ways: WayMap) returns (status: NtStatus)
    requires sys.Valid() && pdo in sys.base && ways.Keys == sys.base.Keys && AllLead(sys, ways)
    requires AllFree(sys, ways, null) && StartsAt(sys, ways, sys.Top(pdo), pdo)
    modifies sys`clock, sys`devices, sys`filters, sys`deleted, sys.driver`deviceObject, sys.Top(pdo)`attachedDevice
    ensures sys.Valid() && AllLead(sys, ways) && AllFree(sys, ways, old(sys.Top(pdo)))
    ensures status == if createStatus != SUCCESS then createStatus else if attachable then SUCCESS else UNSUCCESSFUL
    ensures sys.clock == old(sys.clock) + if createStatus == SUCCESS then 1 else 0
    ensures createStatus != SUCCESS || attachable ==> sys.deleted == old(sys.deleted)
    ensures createStatus == SUCCESS && !attachable ==> DeletedAtOnce(old(sys.deleted), sys.deleted, old(sys.clock))
    ensures status != SUCCESS ==>
              && sys.filters == old(sys.filters) && sys.devices == old(sys.devices)
              && old(sys.Top(pdo)).attachedDevice == null
    ensures status == SUCCESS ==>
              && sys.filters != [] && sys.filters[1..] == old(sys.filters)
              && var f := sys.filters[0];
                 && fresh(f) && f.serial == old(sys.clock) && sys.devices == old(sys.devices) + {f}
                 && f.lowerDevice == old(sys.Top(pdo)) && f.attachedDevice == null
  {
    ghost var lower := sys.Top(pdo);
    status := AddDevice(sys, pdo, createStatus, attachable);
    sys.PathsKept();
    forall p | p in sys.base
      ensures Leads(sys, p, ways[p]) && Free(sys, ways[p], lower)
    {
      assert old(Leads(sys, p, ways[p]) && Free(sys, ways[p], null));
    }
  }

  /** AddDevice, seen from the tops of the stacks: on success the new filter is first on the way down the stack
      it was added to; every other way, and every way after a failure, is as it was. */
  method AddOnTop(sys: IoSystem, pdo: DeviceObject, createStatus: NtStatus, attachable: bool,
                  ghost ways: WayMap) returns (status: NtStatus)
    requires sys.Valid() && pdo in sys.base && ways.Keys == sys.base.Keys && AreWays(sys, ways)
    modifies sys`clock, sys`devices, sys`filters, sys`deleted, sys.driver`deviceObject, sys.Top(pdo)`attachedDevice
    ensures sys.Valid() && forall d :: d in sys.devices ==> d in old(sys.devices) || fresh(d)
    ensures status == if createStatus != SUCCESS then createStatus else if attachable then SUCCESS else UNSUCCESSFUL
    ensures sys.clock == old(sys.clock) + if createStatus == SUCCESS then 1 else 0
    ensures createStatus != SUCCESS || attachable ==> sys.deleted == old(sys.deleted)
    ensures createStatus == SUCCESS && !attachable ==> DeletedAtOnce(old(sys.deleted), sys.deleted, old(sys.clock))
    ensures status != SUCCESS ==> sys.filters == old(sys.filters) && AreWays(sys, ways)
    ensures status == SUCCESS ==>
              && sys.filters != [] && sys.filters[1..] == old(sys.filters)
              && var f := sys.filters[0];
                 f.serial == old(sys.clock) && AreWays(sys, WithFilter(sys, ways, f, pdo))
  {
    ghost var lower := sys.Top(pdo);
    WaysLead(sys, pdo, ways);
    status := AddLeading(sys, pdo, createStatus, attachable, ways);
    if status == SUCCESS {
      sys.Newcomer(sys.filters[0]);
      WaysWithFilter(sys, ways, sys.filters[0], pdo);
    } else {
      StillFree(sys, ways, lower);
      WaysFound(sys, ways);
    }
  }

  /** Without filters every way is the device that was on top before hid-filter came. */
  ghost function BareWays(sys: IoSystem): (ways: WayMap)
    requires sys.BaseOrdered()
    ensures ways.Keys == sys.base.Keys
  {
    map p | p in sys.base :: [sys.BaseTop(p)]
  }

  lemma WaysBare(sys: IoSystem)
    requires sys.Valid() && sys.filters == []
    ensures AreWays(sys, BareWays(sys))
  {
    var ways := BareWays(sys);
    forall p {:trigger ways[p]} | p in sys.base
      ensures IsWay(sys, p, ways[p])
    {
      BareStack(sys, p);
    }
  }
}

/** What a pass-through stack does to an IRP, on values: the specification of the filter's dispatch code. */
module Routing {
  import opened Options
  import opened NtStatuses
  import opened Irps

  /** Calling the top of `path`: every device but the last skips its slot and calls the next one; the last
      belongs to the driver `f`. */
  function Route(path: seq<int>, f: Driver, s: IrpState): (IrpState, NtStatus)
    requires path != [] && s.Sendable()
  {
    var here := s.Arrive(path[0]);
    if |path| == 1 then f(path[0], here) else Route(path[1..], f, here.Skip())
  }

  /** Every value the IRP takes on the way down, up to and including the one the last driver receives. */
  function Visited(path: seq<int>, s: IrpState): (v: seq<IrpState>)
    requires path != [] && s.Sendable()
    ensures |v| == 2 * |path| - 1
  {
    var here := s.Arrive(path[0]);
    if |path| == 1 then [here] else [here, here.Skip()] + Visited(path[1..], here.Skip())
  }

  /** Filter transparency: for any number of filters, any driver below them and any IRP with room, the last
      driver receives the very IRP it would have received directly, so the final IRP and the returned status
      are the same. */
  lemma {:induction false} Transparent(path: seq<int>, f: Driver, s: IrpState)
    requires path != [] && s.Sendable()
    ensures Route(path, f, s) == f(path[|path| - 1], s.Arrive(path[|path| - 1]))
    ensures Visited(path, s)[|Visited(path, s)| - 1] == s.Arrive(path[|path| - 1])
  {
    if |path| > 1 {
      Transparent(path[1..], f, s.Arrive(path[0]).Skip());
      SkipThenArrive(s, path[0], path[|path| - 1]);
    }
  }

  /** Calling the top of `path` when the filters' table may hold, for the IRP's major function, a routine of
      someone else: then the topmost filter's device hands the IRP to that routine and nobody below sees it. */
  function Answer(occupant: Option<Driver>, path: seq<int>, f: Driver, s: IrpState): (IrpState, NtStatus)
    requires path != [] && s.Sendable()
  {
    if occupant.Some? && |path| > 1 then occupant.value(path[0], s.Arrive(path[0])) else Route(path, f, s)
  }

  /** At every step of the descent the location counter and pointer agree and stay in range, nobody has
      completed the IRP, and nothing but the slot's device field has changed. */
  lemma {:induction false} EveryStepWellFormed(path: seq<int>, s: IrpState, k: nat)
    requires path != [] && s.Sendable() && k < |Visited(path, s)|
    ensures var t := Visited(path, s)[k];
            && t.WellFormed() && t.completions == 0
            && t.currentLocation == s.currentLocation - (if k % 2 == 0 then 1 else 0)
            && |t.slots| == |s.slots|
            && t.header == s.header && t.buffer == s.buffer && t.status == s.status
            && forall i :: 0 <= i < |s.slots| ==>
                 t.slots[i].major == s.slots[i].major && t.slots[i].raw == s.slots[i].raw
  {
    if |path| > 1 {
      var next := s.Arrive(path[0]).Skip();
      EveryStepWellFormed(path[1..], next, if k < 2 then 0 else k - 2);
    }
  }

  /** Each device on the way finds its own address in the slot it looks at, and the request the sender put there. */
  lemma {:induction false} SlotNamesDevice(path: seq<int>, s: IrpState, j: nat)
    requires path != [] && s.Sendable() && j < |path|
    ensures var t := Visited(path, s)[2 * j];
            && t.InDispatch() && t.slots[t.currentStackLocation].device == path[j]
            && t.currentStackLocation == s.currentStackLocation - 1
            && t.slots == s.slots[t.currentStackLocation := s.slots[t.currentStackLocation].(device := path[j])]
  {
    if j > 0 {
      var next := s.Arrive(path[0]).Skip();
      SlotNamesDevice(path[1..], next, j - 1);
      assert Visited(path, s)[2 * j] == Visited(path[1..], next)[2 * (j - 1)];
    }
  }

  /** Every filter on the way down looks at the same CurrentLocation. It is below StackCount, as the skip is documented
      to need, exactly when the sender had already used a location: never for a fresh IRP, whichever the filter. */
  lemma SkipsBelowCountIff(path: seq<int>, s: IrpState, k: nat)
    requires path != [] && s.Sendable() && k < |Visited(path, s)| && k % 2 == 0
    ensures var t := Visited(path, s)[k]; t.currentLocation < t.stackCount <==> s.currentLocation <= s.stackCount
  {
    EveryStepWellFormed(path, s, k);
  }

  /** A driver that completes every IRP it is given once, with the status it returns. */
  ghost predicate CompletesOnce(f: Driver) {
    forall d: int, t: IrpState | t.InDispatch() ::
      f(d, t).0.completions == t.completions + 1 && f(d, t).0.status == f(d, t).1
  }

  /** Exactly-once completion: if the driver below and the routine in the way, if any, complete once, a whole
      stack completes the IRP once, with the status the caller receives. */
  lemma CompletedOnce(occupant: Option<Driver>, path: seq<int>, f: Driver, s: IrpState)
    requires path != [] && s.Sendable()
    requires CompletesOnce(f) && (occupant.Some? ==> CompletesOnce(occupant.value))
    ensures Answer(occupant, path, f, s).0.completions == 1
    ensures Answer(occupant, path, f, s).0.status == Answer(occupant, path, f, s).1
  {
    Transparent(path, f, s);
  }
}

/** What dry-run measures of the pauses it holds back. */
module DryRunTotals {
  import opened CostTotals
  import opened Workloads
  import opened Wrappers

  /** The measurement so far; resources are what the would-be pause under way would have freed. */
  datatype Measured = Measured(since: int, pauses: nat, slept: int, freedCpu: int, freedMemory: int,
                               resources: Option<Snapshot>)

  /** A workload: what's measured of it in dry-run, whether it's Idle, and when it last changed phase. */
  datatype Status = Status(dryRun: Option<Measured>, idle: bool, changed: Option<int>)

  function Tracked(s: Status, now: int): Status {
    if s.dryRun.Some? then s else s.(dryRun := Some(Measured(now, 0, 0, 0, 0, None)))
  }

  /** Out of dry-run the measurement is over. */
  function Left(s: Status): Status {
    s.(dryRun := None)
  }

  /** A would-be pause begins: what the workload runs is noted, and it goes Idle. */
  function Begun(s: Status, now: int, resources: Option<Snapshot>): Status {
    var d := Tracked(s, now).dryRun.value;
    Status(Some(d.(pauses := d.pauses + 1, resources := resources)), true, Some(now))
  }

  predicate IsMeasured(s: Status) {
    s.dryRun.Some? && s.dryRun.value.pauses > 0 && s.changed.Some?
  }

  function SleptFor(s: Status, end: int): int
    requires s.changed.Some?
  {
    if end > s.changed.value then end - s.changed.value else 0
  }

  function Freed(d: Measured): Snapshot {
    if d.resources.Some? then d.resources.value else NO_RESOURCES
  }

  /** A would-be pause that ended at end is added, if it was measured from its start, and the workload runs again. */
  function Ended(s: Status, end: int, now: int): Status {
    if !IsMeasured(s) then Status(s.dryRun, false, Some(now))
    else
      var d, slept := s.dryRun.value, SleptFor(s, end);
      Status(Some(d.(slept := d.slept + slept, resources := None,
                     freedCpu := d.freedCpu + Added(Cores(Freed(d)), slept),
                     freedMemory := d.freedMemory + Added(Gib(Freed(d)), slept))),
             false, Some(now))
  }

  /** A would-be pause begun and ended is one more, slept from when it began, freeing what was noted as it did. */
  lemma BegunThenEnded(s: Status, now: int, resources: Option<Snapshot>, end: int, woken: int)
    ensures var begun := Begun(s, now, resources);
            var ended := Ended(begun, end, woken);
            && begun.idle && begun.changed == Some(now) && !ended.idle && ended.changed == Some(woken)
            && begun.dryRun.Some? && ended.dryRun.Some?
            && begun.dryRun.value.resources == resources && ended.dryRun.value.resources == None
            && var d, slept := ended.dryRun.value, if end < now then 0 else end - now;
            && (s.dryRun.None? ==> d.since == now && d.pauses == 1 && d.slept == slept)
            && (s.dryRun.Some? ==>
                  var was := s.dryRun.value;
                  && d.since == was.since && d.pauses == was.pauses + 1 && d.slept == was.slept + slept
                  && (resources.Some? ==>
                        && d.freedCpu == was.freedCpu + Added(Cores(resources.value), slept)
                        && d.freedMemory == was.freedMemory + Added(Gib(resources.value), slept))
                  && (resources.None? ==> d.freedCpu == was.freedCpu && d.freedMemory == was.freedMemory))
  {
    NothingAdded(SleptFor(Begun(s, now, resources), end));
  }

  /** One under way before measuring began isn't measured. */
  lemma UnmeasuredAddsNothing(s: Status, now: int, end: int, woken: int)
    requires s.dryRun.None? || s.dryRun.value.pauses == 0
    ensures Ended(Tracked(s, now), end, woken).dryRun == Tracked(s, now).dryRun
    ensures Ended(Tracked(s, now), end, woken).idle == false
  {
  }

  class Workload {
    var dryRun: Option<Measured>
    var idle: bool
    var changed: Option<int>

    constructor (idle: bool, changed: Option<int>)
      ensures Value() == Status(None, idle, changed)
    {
      this.dryRun, this.idle, this.changed := None, idle, changed;
    }

    function Value(): Status
      reads this
    {
      Status(dryRun, idle, changed)
    }

    /** Starts the measurement as the workload enters dry-run, and drops it as it leaves. */
    method Track(inDryRun: bool, now: int)
      modifies this`dryRun
      ensures Value() == if inDryRun then Tracked(old(Value()), now) else Left(old(Value()))
    {
      if !inDryRun {
        dryRun := None;
        return;
      }
      if dryRun.None? {
        dryRun := Some(Measured(now, 0, 0, 0, 0, None));
      }
    }

    method Transition(idle: bool, now: int)
      modifies this`idle, this`changed
      ensures Value() == old(Value()).(idle := idle, changed := Some(now))
    {
      this.idle, changed := idle, Some(now);
    }

    method BeginWouldBePause(now: int, resources: Option<Snapshot>)
      modifies this
      ensures Value() == Begun(old(Value()), now, resources)
    {
      Track(true, now);
      var d := dryRun.value;
      d := d.(pauses := d.pauses + 1);
      d := d.(resources := resources);
      dryRun := Some(d);
      Transition(true, now);
    }

    /** Adds the would-be pause under way, which ended at end. */
    method EndWouldBePauseAt(inDryRun: bool, end: int) returns (measured: bool)
      modifies this`dryRun
      ensures measured <==> inDryRun && IsMeasured(old(Value()))
      ensures dryRun == if inDryRun then Ended(old(Value()), end, 0).dryRun else old(dryRun)
    {
      if !inDryRun || dryRun.None? || dryRun.value.pauses == 0 || changed.None? {
        return false;
      }
      var d := dryRun.value;
      var slept := if end - changed.value > 0 then end - changed.value else 0;
      if d.resources.Some? {
        d := d.(freedCpu := d.freedCpu + Added(Cores(d.resources.value), slept),
                freedMemory := d.freedMemory + Added(Gib(d.resources.value), slept));
      } else {
        NothingAdded(slept);
      }
      dryRun := Some(d.(slept := d.slept + slept, resources := None));
      measured := true;
    }

    /** Activity ends a would-be pause when it was, or the operator letting go of the workload does now. */
    method Wake(inDryRun: bool, end: int, now: int)
      modifies this
      ensures Value() == if inDryRun then Ended(old(Value()), end, now) else Status(old(dryRun), false, Some(now))
    {
      var _ := EndWouldBePauseAt(inDryRun, end);
      Transition(false, now);
    }
  }
}

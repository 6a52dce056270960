/** A workload's resource-hours for the month, brought up to date from time to time. */
module CostTotals {
  import opened Rounding
  import opened Times
  import opened Workloads
  import opened Wrappers

  const MAX_INTERVAL := 2 * HOUR

  /** Hours are in billionths. */
  datatype Totals = Totals(tracked: int, last: Option<int>, awakeCpu: int, awakeMemory: int, storage: int,
                           pausedCpu: int, pausedMemory: int, savedCpu: int, savedMemory: int,
                           running: Option<Snapshot>)

  const NONE_YET := Totals(0, None, 0, 0, 0, 0, 0, 0, 0, None)

  /** What a settle reads of an awake workload: None of what it can't, or needn't, read. */
  datatype Reads = Reads(replicas: Option<nat>, storageBytes: Option<nat>, requests: Option<(nat, nat)>)

  /** The phase a settle finds, and what it was paused with or runs now. */
  datatype Found = Paused(pause: Option<Snapshot>) | Awake(found: Reads)

  function Counted(d: int): (c: int)
    ensures 0 <= c <= 2 * HOUR == MAX_INTERVAL
    ensures 0 <= d <= 2 * HOUR ==> c == d
    ensures d < 0 ==> c == 0
    ensures d > 2 * HOUR ==> c == 2 * HOUR
  {
    if d < 0 then 0 else if d > MAX_INTERVAL then MAX_INTERVAL else d
  }

  function NanoHours(perHour: real, elapsed: int): real {
    perHour * Hours(elapsed) * 1000000000.0
  }

  function Added(perHour: real, elapsed: int): int {
    Round(NanoHours(perHour, elapsed))
  }

  function Cores(rs: Snapshot): real {
    rs.replicas as real * rs.cpuMillis as real / 1000.0
  }

  function Gib(rs: Snapshot): real {
    rs.replicas as real * rs.memoryBytes as real / BYTES_PER_GIB
  }

  function StorageGib(rs: Snapshot): real {
    rs.storageBytes as real / BYTES_PER_GIB
  }

  /** In thousandths of a core, and bytes. */
  lemma RatesAre(rs: Snapshot)
    ensures Cores(rs) * 1000.0 == rs.replicas as real * rs.cpuMillis as real
    ensures Gib(rs) * 1073741824.0 == rs.replicas as real * rs.memoryBytes as real
    ensures StorageGib(rs) * 1073741824.0 == rs.storageBytes as real
  {
  }

  /** New totals when now is in another month than the last, from the start of the month. */
  function MonthStarted(t: Totals, now: int, monthOf: int -> int): Totals {
    if t.last.None? || monthOf(t.last.value) == monthOf(now) then t
    else NONE_YET.(running := t.running, last := if t.last.value < monthOf(now) then Some(monthOf(now)) else None)
  }

  function From(t: Totals, now: int): int {
    if t.last.Some? then t.last.value else now
  }

  /** What the workload runs, as far as it can be read; nothing if its replicas never could. */
  function RunningNow(t: Totals, r: Reads): Option<Snapshot> {
    if r.replicas.None? && t.running.None? then None
    else
      var was := if t.running.Some? then t.running.value else NO_RESOURCES;
      Some(was.(replicas := if r.replicas.Some? then r.replicas.value else was.replicas,
                cpuMillis := if r.requests.Some? then r.requests.value.0 else was.cpuMillis,
                memoryBytes := if r.requests.Some? then r.requests.value.1 else was.memoryBytes,
                storageBytes := if r.storageBytes.Some? then r.storageBytes.value else was.storageBytes))
  }

  /** What an interval is counted at; None when it isn't counted yet. */
  function CountedAt(t: Totals, f: Found): Option<Snapshot> {
    match f
    case Paused(pause) => if pause.Some? then pause else Some(NO_RESOURCES)
    case Awake(r) => RunningNow(t, r)
  }

  /** Totals with an interval counted at rs in the phase found, in hours that add works out of a rate and a time. */
  function Accrued(t: Totals, f: Found, rs: Snapshot, elapsed: int, add: (real, int) -> int): Totals {
    var cpu, memory := add(Cores(rs), elapsed), add(Gib(rs), elapsed);
    t.(awakeCpu := t.awakeCpu + if f.Awake? then cpu else 0,
       awakeMemory := t.awakeMemory + if f.Awake? then memory else 0,
       pausedCpu := t.pausedCpu + if f.Paused? then cpu else 0,
       pausedMemory := t.pausedMemory + if f.Paused? then memory else 0,
       storage := t.storage + add(StorageGib(rs), elapsed), running := if f.Awake? then Some(rs) else t.running)
  }

  /** The totals once the time since the last settle is counted, and what's been saved since. */
  function Settled(t: Totals, now: int, monthOf: int -> int, f: Found, drained: (real, real),
                   add: (real, int) -> int): Totals {
    var started := MonthStarted(t, now, monthOf);
    var elapsed := Counted(now - From(started, now));
    var rs := CountedAt(started, f);
    if rs.None? then started
    else
      var accrued := Accrued(started, f, rs.value, elapsed, add);
      accrued.(tracked := started.tracked + elapsed, last := Some(now),
               savedCpu := started.savedCpu + add(drained.0, HOUR),
               savedMemory := started.savedMemory + add(drained.1, HOUR))
  }

  lemma AccruedSettles(t: Totals, now: int, monthOf: int -> int, f: Found, drained: (real, real),
                       add: (real, int) -> int, started: Totals, elapsed: int, accrued: Totals, next: Totals)
    requires started == MonthStarted(t, now, monthOf) && elapsed == Counted(now - From(started, now))
    requires CountedAt(started, f).Some? && accrued == Accrued(started, f, CountedAt(started, f).value, elapsed, add)
    requires next == accrued.(tracked := accrued.tracked + elapsed, last := Some(now),
                              savedCpu := accrued.savedCpu + add(drained.0, HOUR),
                              savedMemory := accrued.savedMemory + add(drained.1, HOUR))
    ensures next == Settled(t, now, monthOf, f, drained, add)
  {
  }

  lemma NothingAdded(elapsed: int)
    ensures Added(0.0, elapsed) == 0
  {
  }

  class Cost {
    var tracked: int
    var last: Option<int>
    var awakeCpu: int
    var awakeMemory: int
    var storage: int
    var pausedCpu: int
    var pausedMemory: int
    var savedCpu: int
    var savedMemory: int
    var running: Option<Snapshot>

    constructor ()
      ensures Value() == NONE_YET
    {
      tracked, last, running := 0, None, None;
      awakeCpu, awakeMemory, storage, pausedCpu, pausedMemory, savedCpu, savedMemory := 0, 0, 0, 0, 0, 0, 0;
    }

    function Value(): Totals
      reads this
    {
      Totals(tracked, last, awakeCpu, awakeMemory, storage, pausedCpu, pausedMemory, savedCpu, savedMemory, running)
    }

    method StartMonth(now: int, monthOf: int -> int)
      modifies this
      ensures Value() == MonthStarted(old(Value()), now, monthOf)
    {
      var month := monthOf(now);
      if last.None? || monthOf(last.value) == month {
        return;
      }
      var was := last.value;
      tracked, last := 0, None;
      awakeCpu, awakeMemory, storage, pausedCpu, pausedMemory, savedCpu, savedMemory := 0, 0, 0, 0, 0, 0, 0;
      if was < month {
        last := Some(month);
      }
    }

    /** Counts a paused interval: what the paused replicas requested is freed, and their claims still cost. */
    method AccruePaused(pause: Option<Snapshot>, elapsed: int)
      modifies this
      ensures var rs := if pause.Some? then pause.value else NO_RESOURCES;
              Value() == old(Value()).(pausedCpu := old(pausedCpu) + Added(Cores(rs), elapsed),
                                       pausedMemory := old(pausedMemory) + Added(Gib(rs), elapsed),
                                       storage := old(storage) + Added(StorageGib(rs), elapsed))
    {
      if pause.None? {
        NothingAdded(elapsed);
        return;
      }
      var rs := pause.value;
      pausedCpu := pausedCpu + Added(Cores(rs), elapsed);
      pausedMemory := pausedMemory + Added(Gib(rs), elapsed);
      storage := storage + Added(StorageGib(rs), elapsed);
    }

    /** Counts an awake interval at what the workload runs now, or what was last read; not if nothing ever was. */
    method AccrueAwake(r: Reads, elapsed: int) returns (counted: bool)
      modifies this
      ensures counted <==> RunningNow(old(Value()), r).Some?
      ensures !counted ==> Value() == old(Value())
      ensures counted ==>
                var rs := RunningNow(old(Value()), r).value;
                Value() == old(Value()).(awakeCpu := old(awakeCpu) + Added(Cores(rs), elapsed),
                                         awakeMemory := old(awakeMemory) + Added(Gib(rs), elapsed),
                                         storage := old(storage) + Added(StorageGib(rs), elapsed), running := Some(rs))
    {
      var rs := if running.Some? then running.value else NO_RESOURCES;
      if r.replicas.Some? {
        rs := rs.(replicas := r.replicas.value);
      } else if running.None? {
        return false;
      }
      if r.storageBytes.Some? {
        rs := rs.(storageBytes := r.storageBytes.value);
      }
      if r.requests.Some? {
        rs := rs.(cpuMillis := r.requests.value.0, memoryBytes := r.requests.value.1);
      }
      running := Some(rs);
      awakeCpu := awakeCpu + Added(Cores(rs), elapsed);
      awakeMemory := awakeMemory + Added(Gib(rs), elapsed);
      storage := storage + Added(StorageGib(rs), elapsed);
      counted := true;
    }

    /** Counts an interval in the phase found, unless it can't be counted yet. */
    method Accrue(f: Found, elapsed: int) returns (counted: bool)
      modifies this
      ensures counted <==> CountedAt(old(Value()), f).Some?
      ensures !counted ==> Value() == old(Value())
      ensures counted ==> Value() == Accrued(old(Value()), f, CountedAt(old(Value()), f).value, elapsed, Added)
    {
      match f {
        case Paused(pause) =>
          AccruePaused(pause, elapsed);
          counted := true;
        case Awake(r) =>
          counted := AccrueAwake(r, elapsed);
      }
    }

    /** Adds the hours the sampler has credited since they were last drained. */
    method DrainSavings(drained: (real, real))
      modifies this`savedCpu, this`savedMemory
      ensures Value() == old(Value()).(savedCpu := old(savedCpu) + Added(drained.0, HOUR),
                                       savedMemory := old(savedMemory) + Added(drained.1, HOUR))
    {
      savedCpu := savedCpu + Added(drained.0, HOUR);
      savedMemory := savedMemory + Added(drained.1, HOUR);
    }

    /** Counts the time since the last settle in the phase found, and what's been saved since. */
    method Settle(now: int, monthOf: int -> int, f: Found, drained: (real, real))
      modifies this
      ensures Value() == Settled(old(Value()), now, monthOf, f, drained, Added)
    {
      StartMonth(now, monthOf);
      ghost var started := Value();
      var from := if last.Some? then last.value else now;
      var elapsed := Counted(now - from);
      var counted := Accrue(f, elapsed);
      if !counted {
        return;
      }
      ghost var accrued := Value();
      DrainSavings(drained);
      tracked := tracked + elapsed;
      last := Some(now);
      AccruedSettles(old(Value()), now, monthOf, f, drained, Added, started, elapsed, accrued, Value());
    }
  }
}

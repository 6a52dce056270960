/** That a month's totals count no time twice, over any run of settles, writes and lost writes. */
module CostRuns {
  import opened CostTotals
  import opened Times
  import opened Workloads
  import opened Wrappers

  /** In what phase a stretch was counted, and at what. */
  datatype Counting = Counting(awake: bool, rs: Snapshot)

  type Stretch = Span<Counting>

  /**
   * A month's totals with the stretches they count, how many of those reached back into one before, the writes since
   * the month began, and the last settle's time.
   */
  datatype Ledger = Ledger(totals: Totals, spans: seq<Stretch>, back: nat, writes: nat, at: int)

  /** What the API server has, and what the operator has made of it since. */
  datatype Books = Books(written: Ledger, working: Ledger)

  datatype Event =
    | Settles(now: int, found: Found, drained: (real, real))
    | Writes
    | LosesWrite

  /** The start of the month each time falls in: no later, on a grain, and not before that of an earlier time. */
  ghost predicate IsMonthOf(monthOf: int -> int, grain: int)
    requires grain > 0
  {
    && (forall t :: MonthAt(monthOf, grain, t))
    && (forall s, t :: MonthsInOrder(monthOf, s, t))
  }

  ghost predicate MonthAt(monthOf: int -> int, grain: int, t: int)
    requires grain > 0
  {
    var m := monthOf(t);
    m <= t && monthOf(m) == m && Floor(m, grain) == m
  }

  ghost predicate MonthsInOrder(monthOf: int -> int, s: int, t: int) {
    s <= t ==> monthOf(s) <= monthOf(t)
  }

  /** A status keeps the time of the last settle to the grain, which is one second. */
  function Stored(l: Ledger, grain: int): Ledger
    requires grain > 0
  {
    var last := l.totals.last;
    l.(totals := l.totals.(last := if last.Some? then Some(Floor(last.value, grain)) else None), writes := l.writes + 1)
  }

  predicate NewMonth(t: Totals, now: int, monthOf: int -> int) {
    t.last.Some? && monthOf(t.last.value) != monthOf(now)
  }

  /** A ledger as a settle starts from it. */
  function Opened(l: Ledger, now: int, monthOf: int -> int): Ledger {
    if NewMonth(l.totals, now, monthOf) then Ledger(MonthStarted(l.totals, now, monthOf), [], 0, 0, monthOf(now)) else l
  }

  function SettledLedger(l: Ledger, now: int, monthOf: int -> int, f: Found, drained: (real, real),
                         add: (real, int) -> int): Ledger {
    var begun := Opened(l, now, monthOf);
    var rs := CountedAt(begun.totals, f);
    var from := From(begun.totals, now);
    if rs.None? then begun
    else Ledger(Settled(l.totals, now, monthOf, f, drained, add),
                begun.spans + [Span(from, from + Counted(now - from), Counting(f.Awake?, rs.value))],
                begun.back + (if ReachesBack(begun, now, monthOf) then 1 else 0), begun.writes, now)
  }

  /** How far stretches have got, from the month's start. */
  function Reach(spans: seq<Stretch>, start: int): int {
    if spans == [] then start else Max(Reach(spans[..|spans| - 1], start), spans[|spans| - 1].to)
  }

  /** Time has passed since the last settle, as it's kept, and that was before the stretches counted had ended. */
  predicate ReachesBack(l: Ledger, now: int, monthOf: int -> int) {
    l.totals.last.Some? && l.totals.last.value < Reach(l.spans, monthOf(now)) && l.totals.last.value < now
  }

  /** The time stretches have in common with what those before had reached. */
  function Overlapped(spans: seq<Stretch>, start: int): int {
    if spans == [] then 0
    else
      var before, last := spans[..|spans| - 1], spans[|spans| - 1];
      Overlapped(before, start) + Max(0, Min(last.to, Reach(before, start)) - last.from)
  }

  function After(b: Books, e: Event, monthOf: int -> int, grain: int, add: (real, int) -> int): Books
    requires grain > 0
  {
    match e
    case Settles(now, f, drained) => b.(working := SettledLedger(b.working, now, monthOf, f, drained, add))
    case Writes => Books(Stored(b.working, grain), Stored(b.working, grain))
    case LosesWrite => b.(working := b.written)
  }

  function BooksAfter(events: seq<Event>, monthOf: int -> int, grain: int, add: (real, int) -> int): Books
    requires grain > 0
  {
    if events == [] then var none := Ledger(NONE_YET, [], 0, 0, 0); Books(none, none)
    else After(BooksAfter(events[..|events| - 1], monthOf, grain, add), events[|events| - 1], monthOf, grain, add)
  }

  /** The latest time in a run. */
  function Latest(events: seq<Event>): int {
    if events == [] then 0
    else if events[|events| - 1].Settles? then events[|events| - 1].now
    else Latest(events[..|events| - 1])
  }

  ghost predicate InOrder(events: seq<Event>)
    decreases |events|
  {
    events != [] ==>
      InOrder(events[..|events| - 1]) &&
      (events[|events| - 1].Settles? ==> events[|events| - 1].now >= Latest(events[..|events| - 1]))
  }

  // What the ledgers keep

  /** Stretches in order from the month's start, none reaching back more than a grain into the one before. */
  ghost predicate Ordered(spans: seq<Stretch>, month: int, to: int, grain: int) {
    && (forall i :: 0 <= i < |spans| ==> month <= spans[i].from <= spans[i].to <= to)
    && (forall i, j :: 0 <= i < j < |spans| ==> spans[i].to - grain < spans[j].from)
  }

  /** The hours counted exactly, in billionths. */
  ghost function Exact(spans: seq<Stretch>, rate: Snapshot -> real): real {
    if spans == [] then 0.0
    else
      var last := spans[|spans| - 1];
      Exact(spans[..|spans| - 1], rate) + NanoHours(rate(last.what.rs), last.to - last.from)
  }

  /** add is right to half a billionth of an hour. */
  ghost predicate IsRounding(add: (real, int) -> int) {
    forall perHour, elapsed :: RoundsAt(add, perHour, elapsed)
  }

  ghost predicate RoundsAt(add: (real, int) -> int, perHour: real, elapsed: int) {
    -0.5 <= add(perHour, elapsed) as real - NanoHours(perHour, elapsed) <= 0.5
  }

  lemma AddedRounds()
    ensures IsRounding(Added)
  {
  }

  ghost predicate RoundedFrom(hours: int, spans: seq<Stretch>, rate: Snapshot -> real) {
    -0.5 * |spans| as real <= hours as real - Exact(spans, rate) <= 0.5 * |spans| as real
  }

  /** The stretches counted in a phase. */
  function InPhase(spans: seq<Stretch>, awake: bool): seq<Stretch> {
    if spans == [] then []
    else
      var last := spans[|spans| - 1];
      InPhase(spans[..|spans| - 1], awake) + if last.what.awake == awake then [last] else []
  }

  /** Each phase's hours are its own stretches', and storage is all of theirs, to half a billionth a stretch. */
  ghost predicate Rounded(l: Ledger) {
    var t, awake, paused := l.totals, InPhase(l.spans, true), InPhase(l.spans, false);
    && RoundedFrom(t.awakeCpu, awake, Cores) && RoundedFrom(t.pausedCpu, paused, Cores)
    && RoundedFrom(t.awakeMemory, awake, Gib) && RoundedFrom(t.pausedMemory, paused, Gib)
    && RoundedFrom(t.storage, l.spans, StorageGib)
  }

  /** How far writes may have had stretches reach back: a grain less one, each. */
  function Slack(writes: nat, grain: int): int {
    if writes == 0 then 0 else Slack(writes - 1, grain) + grain - 1
  }

  lemma {:induction false} SlackIs(writes: nat, grain: int)
    requires grain > 0
    ensures Slack(writes, grain) == writes * (grain - 1) >= 0
  {
    if writes > 0 {
      SlackIs(writes - 1, grain);
    }
  }

  /** The time counted is that of the stretches, which lie in the month of the last settle. */
  ghost predicate Timed(l: Ledger, now: int, monthOf: int -> int, grain: int)
    requires grain > 0
  {
    && l.totals.tracked == Length(l.spans)
    && (match l.totals.last
        case None => l.spans == []
        case Some(last) =>
          && (last == l.at || last == Floor(l.at, grain)) && l.at <= now
          && Overlapped(l.spans, monthOf(last)) + Max(0, Reach(l.spans, monthOf(last)) - last) <= Slack(l.writes, grain)
          && Reach(l.spans, monthOf(last)) <= l.at
          && Ordered(l.spans, monthOf(last), l.at, grain))
  }

  lemma FloorBounds(t: int, grain: int)
    requires grain > 0
    ensures t - grain < Floor(t, grain) <= t
  {
  }

  lemma TimesInOrder(a: int, b: int, grain: int)
    requires grain > 0 && a <= b
    ensures a * grain <= b * grain
  {
  }

  lemma NextMultiple(a: int, b: int, grain: int)
    requires grain > 0 && a < b
    ensures a * grain + grain <= b * grain
  {
    TimesInOrder(a + 1, b, grain);
    assert (a + 1) * grain == a * grain + grain;
  }

  lemma FloorInOrder(s: int, t: int, grain: int)
    requires grain > 0 && s <= t
    ensures Floor(s, grain) <= Floor(t, grain)
  {
    FloorBounds(s, grain);
    FloorBounds(t, grain);
    if s / grain > t / grain {
      NextMultiple(t / grain, s / grain, grain);
    } else {
      TimesInOrder(s / grain, t / grain, grain);
    }
  }

  lemma FloorTwice(t: int, grain: int)
    requires grain > 0
    ensures Floor(Floor(t, grain), grain) == Floor(t, grain)
  {
    var q, f := t / grain, Floor(t, grain);
    FloorBounds(f, grain);
    if f / grain < q {
      NextMultiple(f / grain, q, grain);
    } else {
      TimesInOrder(q, f / grain, grain);
    }
  }

  lemma MonthOfFloor(monthOf: int -> int, grain: int, t: int)
    requires grain > 0 && IsMonthOf(monthOf, grain)
    ensures monthOf(Floor(t, grain)) == monthOf(t)
  {
    var m := monthOf(t);
    assert MonthAt(monthOf, grain, t);
    FloorInOrder(m, t, grain);
    FloorBounds(t, grain);
    assert MonthsInOrder(monthOf, m, Floor(t, grain)) && MonthsInOrder(monthOf, Floor(t, grain), t);
  }

  lemma WriteKeepsTimed(l: Ledger, now: int, monthOf: int -> int, grain: int)
    requires grain > 0 && IsMonthOf(monthOf, grain) && Timed(l, now, monthOf, grain)
    ensures Timed(Stored(l, grain), now, monthOf, grain)
  {
    if l.totals.last.Some? {
      var last := l.totals.last.value;
      MonthOfFloor(monthOf, grain, last);
      FloorTwice(l.at, grain);
      FloorBounds(last, grain);
    }
  }

  lemma SpanJoins(spans: seq<Stretch>, span: Stretch, month: int, to: int, grain: int)
    requires Ordered(spans, month, to, grain) && to - grain < span.from && month <= span.from <= span.to
             && to <= span.to
    ensures Ordered(spans + [span], month, span.to, grain)
    ensures Length(spans + [span]) == Length(spans) + (span.to - span.from)
  {
    assert (spans + [span])[..|spans|] == spans;
  }

  lemma ReachJoins(spans: seq<Stretch>, span: Stretch, start: int)
    ensures Reach(spans + [span], start) == Max(Reach(spans, start), span.to)
    ensures Length(spans + [span]) == Length(spans) + (span.to - span.from)
    ensures Overlapped(spans + [span], start) ==
              Overlapped(spans, start) + Max(0, Min(span.to, Reach(spans, start)) - span.from)
  {
    assert (spans + [span])[..|spans|] == spans;
  }

  ghost predicate Forward(spans: seq<Stretch>) {
    forall i :: 0 <= i < |spans| ==> spans[i].from <= spans[i].to
  }

  /** Stretches have no more length than they reach, but for what they overlap. */
  lemma {:induction false} LengthIsReached(spans: seq<Stretch>, start: int)
    requires Forward(spans)
    ensures Length(spans) <= Reach(spans, start) - start + Overlapped(spans, start)
    ensures Overlapped(spans, start) >= 0 && Reach(spans, start) >= start
  {
    if spans != [] {
      LengthIsReached(spans[..|spans| - 1], start);
    }
  }

  lemma RoundedJoins(hours: int, spans: seq<Stretch>, span: Stretch, rate: Snapshot -> real, add: (real, int) -> int)
    requires RoundedFrom(hours, spans, rate) && IsRounding(add)
    ensures RoundedFrom(hours + add(rate(span.what.rs), span.to - span.from), spans + [span], rate)
  {
    assert (spans + [span])[..|spans|] == spans;
    assert RoundsAt(add, rate(span.what.rs), span.to - span.from);
  }

  lemma OpenedIsTimed(l: Ledger, before: int, now: int, monthOf: int -> int, grain: int)
    requires grain > 0 && IsMonthOf(monthOf, grain) && Timed(l, before, monthOf, grain) && before <= now
    ensures var b := Opened(l, now, monthOf);
            Timed(b, now, monthOf, grain) && !NewMonth(b.totals, now, monthOf)
            && b.totals == MonthStarted(l.totals, now, monthOf)
  {
    if NewMonth(l.totals, now, monthOf) {
      var last, m := l.totals.last.value, monthOf(now);
      FloorBounds(l.at, grain);
      assert MonthAt(monthOf, grain, now) && MonthsInOrder(monthOf, last, now) && MonthsInOrder(monthOf, m, last);
    }
  }

  /** Totals n are t with an interval counted at rs, in its phase. */
  ghost predicate Adds(t: Totals, n: Totals, awake: bool, rs: Snapshot, elapsed: int, now: int,
                       add: (real, int) -> int) {
    && n.tracked == t.tracked + elapsed && n.last == Some(now)
    && n.awakeCpu == t.awakeCpu + (if awake then add(Cores(rs), elapsed) else 0)
    && n.pausedCpu == t.pausedCpu + (if awake then 0 else add(Cores(rs), elapsed))
    && n.awakeMemory == t.awakeMemory + (if awake then add(Gib(rs), elapsed) else 0)
    && n.pausedMemory == t.pausedMemory + (if awake then 0 else add(Gib(rs), elapsed))
    && n.storage == t.storage + add(StorageGib(rs), elapsed)
  }

  /** The next ledger is b with a stretch counted. */
  ghost predicate GoesOn(b: Ledger, next: Ledger, span: Stretch, now: int, add: (real, int) -> int) {
    && next.spans == b.spans + [span] && next.writes == b.writes && next.at == now
    && Adds(b.totals, next.totals, span.what.awake, span.what.rs, span.to - span.from, now, add)
  }

  lemma SettleGoesOn(l: Ledger, now: int, monthOf: int -> int, f: Found, drained: (real, real), add: (real, int) -> int,
                     span: Stretch)
    requires var b := Opened(l, now, monthOf);
             && b.totals == MonthStarted(l.totals, now, monthOf) && CountedAt(b.totals, f) == Some(span.what.rs)
             && span.from == From(b.totals, now) && span.to == span.from + Counted(now - span.from)
                && span.what.awake == f.Awake?
    ensures GoesOn(Opened(l, now, monthOf), SettledLedger(l, now, monthOf, f, drained, add), span, now, add)
  {
  }

  /** What was read of it, or else what it was. */
  function ReadOr<T>(read: Option<T>, was: T): T {
    if read.Some? then read.value else was
  }

  /**
   * A settle counts a paused interval at what the workload was paused with, and an awake one at what it reads of each,
   * or what was last read, in whatever month; and only when nothing of an awake one's replicas ever was does it not.
   */
  lemma CountsWhatIsRead(l: Ledger, now: int, monthOf: int -> int, f: Found, drained: (real, real),
                         add: (real, int) -> int)
    ensures var begun, next := Opened(l, now, monthOf), SettledLedger(l, now, monthOf, f, drained, add);
            && (f.Awake? && f.found.replicas.None? && l.totals.running.None? ==> next == begun)
            && (!(f.Awake? && f.found.replicas.None? && l.totals.running.None?) ==>
                  && |next.spans| == |begun.spans| + 1
                  && var what := next.spans[|begun.spans|].what;
                  && what.awake == f.Awake?
                  && (f.Paused? && f.pause.Some? ==>
                        what.rs == f.pause.value && next.totals.running == l.totals.running)
                  && (f.Paused? && f.pause.None? ==> what.rs.replicas == 0 && what.rs.storageBytes == 0)
                  && (f.Awake? ==>
                        var was := if l.totals.running.Some? then l.totals.running.value else NO_RESOURCES;
                        && next.totals.running == Some(what.rs)
                        && what.rs.replicas == ReadOr(f.found.replicas, was.replicas)
                        && what.rs.storageBytes == ReadOr(f.found.storageBytes, was.storageBytes)
                        && (what.rs.cpuMillis, what.rs.memoryBytes)
                           == ReadOr(f.found.requests, (was.cpuMillis, was.memoryBytes))))
  {
  }

  /** The first settle in a later month counts from its start, and only that; one whose clock has gone back, nothing. */
  lemma NewMonthCountsFromItsStart(l: Ledger, now: int, monthOf: int -> int, f: Found, drained: (real, real),
                                   add: (real, int) -> int)
    requires NewMonth(l.totals, now, monthOf) && (f.Awake? ==> f.found.replicas.Some?)
    ensures var next := SettledLedger(l, now, monthOf, f, drained, add);
            var from := if l.totals.last.value < monthOf(now) then monthOf(now) else now;
            && |next.spans| == 1 && next.spans[0].from == from && next.totals.last == Some(now)
            && next.totals.tracked == next.spans[0].to - from == Counted(now - from)
            && next.totals.savedCpu == add(drained.0, HOUR) && next.totals.savedMemory == add(drained.1, HOUR)
            && next.totals.storage == add(StorageGib(next.spans[0].what.rs), Counted(now - from))
  {
    CountsWhatIsRead(l, now, monthOf, f, drained, add);
  }

  lemma PhaseGoesOn(awakeHours: int, pausedHours: int, nextAwake: int, nextPaused: int, spans: seq<Stretch>,
                    span: Stretch, rate: Snapshot -> real, add: (real, int) -> int)
    requires IsRounding(add)
    requires RoundedFrom(awakeHours, InPhase(spans, true), rate)
             && RoundedFrom(pausedHours, InPhase(spans, false), rate)
    requires nextAwake == awakeHours + (if span.what.awake then add(rate(span.what.rs), span.to - span.from) else 0)
    requires nextPaused == pausedHours + (if span.what.awake then 0 else add(rate(span.what.rs), span.to - span.from))
    ensures RoundedFrom(nextAwake, InPhase(spans + [span], true), rate)
    ensures RoundedFrom(nextPaused, InPhase(spans + [span], false), rate)
  {
    assert (spans + [span])[..|spans|] == spans;
    assert InPhase(spans + [span], !span.what.awake) == InPhase(spans, !span.what.awake);
    RoundedJoins(if span.what.awake then awakeHours else pausedHours, InPhase(spans, span.what.awake), span, rate, add);
  }

  lemma RoundedGoesOn(b: Ledger, next: Ledger, span: Stretch, now: int, add: (real, int) -> int)
    requires IsRounding(add) && Rounded(b) && GoesOn(b, next, span, now, add)
    ensures Rounded(next)
  {
    var t, n := b.totals, next.totals;
    PhaseGoesOn(t.awakeCpu, t.pausedCpu, n.awakeCpu, n.pausedCpu, b.spans, span, Cores, add);
    PhaseGoesOn(t.awakeMemory, t.pausedMemory, n.awakeMemory, n.pausedMemory, b.spans, span, Gib, add);
    RoundedJoins(t.storage, b.spans, span, StorageGib, add);
  }

  lemma FirstIsTimed(next: Ledger, now: int, monthOf: int -> int, grain: int, span: Stretch)
    requires grain > 0 && IsMonthOf(monthOf, grain) && span.from == span.to == now && next.spans == [span]
             && next.at == now
    requires next.totals.last == Some(now) && next.totals.tracked == 0
    ensures Timed(next, now, monthOf, grain)
  {
    assert MonthAt(monthOf, grain, now);
    SpanJoins([], span, monthOf(now), now, grain);
    ReachJoins([], span, monthOf(now));
    SlackIs(next.writes, grain);
    assert [] + [span] == [span];
  }

  lemma TimedGoesOn(b: Ledger, next: Ledger, now: int, monthOf: int -> int, grain: int, span: Stretch)
    requires 0 < grain <= MAX_INTERVAL && IsMonthOf(monthOf, grain)
    requires Timed(b, now, monthOf, grain) && !NewMonth(b.totals, now, monthOf)
    requires span.from == From(b.totals, now) && span.to == span.from + Counted(now - span.from)
    requires next.spans == b.spans + [span] && next.writes == b.writes && next.at == now
    requires next.totals.last == Some(now) && next.totals.tracked == b.totals.tracked + (span.to - span.from)
    ensures Timed(next, now, monthOf, grain)
  {
    if b.totals.last.None? {
      FirstIsTimed(next, now, monthOf, grain, span);
    } else {
      assert MonthAt(monthOf, grain, b.totals.last.value);
      FloorBounds(b.at, grain);
      SpanJoins(b.spans, span, monthOf(now), b.at, grain);
      ReachJoins(b.spans, span, monthOf(now));
    }
  }

  lemma OpenedSettles(l: Ledger, b: Ledger, next: Ledger, now: int, monthOf: int -> int, grain: int, f: Found,
                      drained: (real, real), add: (real, int) -> int)
    requires 0 < grain <= MAX_INTERVAL && IsMonthOf(monthOf, grain)
    requires b == Opened(l, now, monthOf) && next == SettledLedger(l, now, monthOf, f, drained, add)
    requires Timed(b, now, monthOf, grain) && !NewMonth(b.totals, now, monthOf)
    requires b.totals == MonthStarted(l.totals, now, monthOf)
    ensures Timed(next, now, monthOf, grain)
  {
    var rs, from := CountedAt(b.totals, f), From(b.totals, now);
    if rs.Some? {
      var span := Span(from, from + Counted(now - from), Counting(f.Awake?, rs.value));
      SettleGoesOn(l, now, monthOf, f, drained, add, span);
      TimedGoesOn(b, next, now, monthOf, grain, span);
    }
  }

  lemma SettleKeepsTimed(l: Ledger, before: int, now: int, monthOf: int -> int, grain: int, f: Found,
                         drained: (real, real), add: (real, int) -> int)
    requires 0 < grain <= MAX_INTERVAL && IsMonthOf(monthOf, grain)
    requires Timed(l, before, monthOf, grain) && before <= now
    ensures Timed(SettledLedger(l, now, monthOf, f, drained, add), now, monthOf, grain)
  {
    OpenedIsTimed(l, before, now, monthOf, grain);
    OpenedSettles(l, Opened(l, now, monthOf), SettledLedger(l, now, monthOf, f, drained, add), now, monthOf, grain, f,
                  drained, add);
  }

  lemma LaterIsTimed(l: Ledger, before: int, now: int, monthOf: int -> int, grain: int)
    requires grain > 0 && Timed(l, before, monthOf, grain) && before <= now
    ensures Timed(l, now, monthOf, grain)
  {
  }

  lemma {:induction false} BooksAreTimed(events: seq<Event>, monthOf: int -> int, grain: int, add: (real, int) -> int)
    requires 0 < grain <= MAX_INTERVAL && IsMonthOf(monthOf, grain) && InOrder(events)
    ensures var b := BooksAfter(events, monthOf, grain, add);
            Timed(b.written, Latest(events), monthOf, grain) && Timed(b.working, Latest(events), monthOf, grain)
    decreases |events|
  {
    if events != [] {
      var before, e := events[..|events| - 1], events[|events| - 1];
      BooksAreTimed(before, monthOf, grain, add);
      var b := BooksAfter(before, monthOf, grain, add);
      match e {
        case Settles(now, f, drained) =>
          LaterIsTimed(b.written, Latest(before), now, monthOf, grain);
          SettleKeepsTimed(b.working, Latest(before), now, monthOf, grain, f, drained, add);
        case Writes =>
          WriteKeepsTimed(b.working, Latest(before), monthOf, grain);
        case LosesWrite =>
      }
    }
  }

  // Counting nothing twice

  /** The time counted is that of the stretches, which lie past the month's start; they overlap if some reached back. */
  ghost predicate Counts(l: Ledger, monthOf: int -> int) {
    && l.totals.tracked == Length(l.spans)
    && (match l.totals.last
        case None => l.spans == [] && l.back == 0
        case Some(last) =>
          && (forall i :: 0 <= i < |l.spans| ==> monthOf(last) <= l.spans[i].from <= l.spans[i].to)
          && Overlapped(l.spans, monthOf(last)) >= 0 && (Overlapped(l.spans, monthOf(last)) == 0 <==> l.back == 0))
  }

  lemma OpenedCounts(l: Ledger, now: int, monthOf: int -> int, grain: int)
    requires grain > 0 && IsMonthOf(monthOf, grain) && Counts(l, monthOf)
    ensures var b := Opened(l, now, monthOf);
            Counts(b, monthOf) && (b.totals.last.Some? ==> monthOf(b.totals.last.value) == monthOf(now))
  {
    assert MonthAt(monthOf, grain, now);
  }

  /** A stretch overlaps those before exactly when it reaches back. */
  lemma StretchCounts(b: Ledger, next: Ledger, now: int, monthOf: int -> int, grain: int, span: Stretch)
    requires grain > 0 && IsMonthOf(monthOf, grain)
    requires Counts(b, monthOf) && (b.totals.last.Some? ==> monthOf(b.totals.last.value) == monthOf(now))
    requires span.from == From(b.totals, now) && span.to == span.from + Counted(now - span.from)
    requires next.spans == b.spans + [span] && next.back == b.back + (if ReachesBack(b, now, monthOf) then 1 else 0)
    requires next.totals.last == Some(now) && next.totals.tracked == b.totals.tracked + (span.to - span.from)
    ensures Counts(next, monthOf)
  {
    assert MonthAt(monthOf, grain, now) && MonthAt(monthOf, grain, span.from);
    ReachJoins(b.spans, span, monthOf(now));
  }

  lemma SettleCounts(l: Ledger, now: int, monthOf: int -> int, grain: int, f: Found, drained: (real, real),
                     add: (real, int) -> int)
    requires grain > 0 && IsMonthOf(monthOf, grain) && Counts(l, monthOf)
    ensures Counts(SettledLedger(l, now, monthOf, f, drained, add), monthOf)
  {
    OpenedCounts(l, now, monthOf, grain);
    var b := Opened(l, now, monthOf);
    var rs, from := CountedAt(b.totals, f), From(b.totals, now);
    if rs.Some? {
      var span := Span(from, from + Counted(now - from), Counting(f.Awake?, rs.value));
      SettleGoesOn(l, now, monthOf, f, drained, add, span);
      StretchCounts(b, SettledLedger(l, now, monthOf, f, drained, add), now, monthOf, grain, span);
    }
  }

  lemma WriteCounts(l: Ledger, monthOf: int -> int, grain: int)
    requires grain > 0 && IsMonthOf(monthOf, grain) && Counts(l, monthOf)
    ensures Counts(Stored(l, grain), monthOf)
  {
    if l.totals.last.Some? {
      MonthOfFloor(monthOf, grain, l.totals.last.value);
    }
  }

  lemma {:induction false} BooksCount(events: seq<Event>, monthOf: int -> int, grain: int, add: (real, int) -> int)
    requires grain > 0 && IsMonthOf(monthOf, grain)
    ensures var b := BooksAfter(events, monthOf, grain, add); Counts(b.written, monthOf) && Counts(b.working, monthOf)
  {
    if events != [] {
      var before := events[..|events| - 1];
      BooksCount(before, monthOf, grain, add);
      var l := BooksAfter(before, monthOf, grain, add).working;
      match events[|events| - 1] {
        case Settles(now, f, drained) => SettleCounts(l, now, monthOf, grain, f, drained, add);
        case Writes => WriteCounts(l, monthOf, grain);
        case LosesWrite =>
      }
    }
  }

  /**
   * Over any run of settles, phase changes, failed reads, lost writes and months, whatever the clock does: the time
   * tracked is that of the stretches counted, within the month, and no more than they reach into it but for what they
   * overlap. And they overlap exactly when some settle found that the last, as it's kept, was before where they ended.
   */
  lemma TotalsCountNothingTwice(events: seq<Event>, monthOf: int -> int, grain: int)
    requires grain > 0 && IsMonthOf(monthOf, grain)
    ensures var l := BooksAfter(events, monthOf, grain, Added).working;
            && l.totals.tracked == Length(l.spans)
            && (l.totals.last.None? ==> l.spans == [])
            && (l.totals.last.Some? ==>
                  var month := monthOf(l.totals.last.value);
                  && (forall i :: 0 <= i < |l.spans| ==> month <= l.spans[i].from <= l.spans[i].to)
                  && l.totals.tracked <= Reach(l.spans, month) - month + Overlapped(l.spans, month)
                  && (Overlapped(l.spans, month) == 0 <==> l.back == 0))
  {
    BooksCount(events, monthOf, grain, Added);
    var l := BooksAfter(events, monthOf, grain, Added).working;
    if l.totals.last.Some? {
      LengthIsReached(l.spans, monthOf(l.totals.last.value));
    }
  }

  /**
   * With a clock that doesn't go back, stretches end by the last settle, and only a write, which keeps times to a
   * grain, can have the next reach back: by less than that, once a write. So without one, Tracked is at most the time
   * since the month began.
   */
  lemma OverlapsAreSlight(events: seq<Event>, monthOf: int -> int, grain: int)
    requires 0 < grain <= MAX_INTERVAL && IsMonthOf(monthOf, grain) && InOrder(events)
    ensures var l := BooksAfter(events, monthOf, grain, Added).working;
            l.totals.last.Some? ==>
              var month := monthOf(l.totals.last.value);
              && Ordered(l.spans, month, Latest(events), grain)
              && Reach(l.spans, month) <= Latest(events)
              && Overlapped(l.spans, month) <= Slack(l.writes, grain)
              && l.totals.tracked <= Latest(events) - month + Slack(l.writes, grain)
              && (l.back > 0 ==> l.writes > 0)
  {
    BooksAreTimed(events, monthOf, grain, Added);
    BooksCount(events, monthOf, grain, Added);
    var l := BooksAfter(events, monthOf, grain, Added).working;
    if l.totals.last.Some? {
      SlightOverlaps(l, Latest(events), monthOf, grain);
    }
  }

  lemma SlightOverlaps(l: Ledger, now: int, monthOf: int -> int, grain: int)
    requires grain > 0 && Timed(l, now, monthOf, grain) && Counts(l, monthOf) && l.totals.last.Some?
    ensures var month := monthOf(l.totals.last.value);
            && Ordered(l.spans, month, now, grain) && Reach(l.spans, month) <= now
            && Overlapped(l.spans, month) <= Slack(l.writes, grain)
            && l.totals.tracked <= now - month + Slack(l.writes, grain)
            && (l.back > 0 ==> l.writes > 0)
  {
    LengthIsReached(l.spans, monthOf(l.totals.last.value));
  }

  lemma FloorJustShort(m: int, grain: int)
    requires grain > 0 && Floor(m, grain) == m
    ensures Floor(m + grain - 1, grain) == m
  {
    var t := m + grain - 1;
    FloorBounds(t, grain);
    if t / grain < m / grain {
      NextMultiple(t / grain, m / grain, grain);
    } else if t / grain > m / grain {
      NextMultiple(m / grain, t / grain, grain);
    }
  }

  /** A settle of an awake workload whose replicas can be read. */
  function Awakes(now: int, replicas: nat): Event {
    Settles(now, Awake(Reads(Some(replicas), None, None)), (0.0, 0.0))
  }

  lemma AwakeSettles(l: Ledger, now: int, monthOf: int -> int, replicas: nat, add: (real, int) -> int)
    requires l.totals.last.Some? ==> monthOf(l.totals.last.value) == monthOf(now)
    ensures var from := From(l.totals, now);
            var next := SettledLedger(l, now, monthOf, Awakes(now, replicas).found, (0.0, 0.0), add);
            && next.totals.last == Some(now) && next.totals.tracked == l.totals.tracked + Counted(now - from)
            && Reach(next.spans, monthOf(now)) == Max(Reach(l.spans, monthOf(now)), from + Counted(now - from))
            && next.back == l.back + if ReachesBack(l, now, monthOf) then 1 else 0
  {
    var e, from := Awakes(now, replicas), From(l.totals, now);
    var span := Span(from, from + Counted(now - from), Counting(true, CountedAt(l.totals, e.found).value));
    SettleGoesOn(l, now, monthOf, e.found, e.drained, add, span);
    ReachJoins(l.spans, span, monthOf(now));
  }

  /** Just short of a second, written, and on the second. */
  function AroundASecond(month: int, replicas: nat): seq<Event> {
    [Awakes(month, replicas)] + [Awakes(month + SECOND - 1, replicas)] + [Writes] + [Awakes(month + SECOND, replicas)]
  }

  lemma GoesOnInOrder(events: seq<Event>, e: Event)
    requires InOrder(events) && (e.Settles? ==> e.now >= Latest(events))
    ensures InOrder(events + [e]) && Latest(events + [e]) == if e.Settles? then e.now else Latest(events)
  {
    assert (events + [e])[..|events|] == events;
  }

  /** Where a ledger stands: its last settle, the time it tracks, and how far its stretches reach. */
  ghost predicate Stands(l: Ledger, month: int, last: int, tracked: int, reach: int, back: nat) {
    l.totals.last == Some(last) && l.totals.tracked == tracked && Reach(l.spans, month) == reach && l.back == back
  }

  lemma MonthIsBefore(monthOf: int -> int, grain: int, t: int)
    requires grain > 0 && IsMonthOf(monthOf, grain)
    ensures monthOf(t) <= t && monthOf(monthOf(t)) == monthOf(t)
  {
    assert MonthAt(monthOf, grain, t);
  }

  lemma FirstStands(now: int, monthOf: int -> int, grain: int, replicas: nat, add: (real, int) -> int)
    requires grain > 0 && monthOf(now) <= now
    ensures Stands(BooksAfter([Awakes(now, replicas)], monthOf, grain, add).working, monthOf(now), now, 0, now, 0)
  {
    AwakeSettles(Ledger(NONE_YET, [], 0, 0, 0), now, monthOf, replicas, add);
    assert [Awakes(now, replicas)][..0] == [];
  }

  lemma NextStands(events: seq<Event>, now: int, monthOf: int -> int, grain: int, replicas: nat,
                   add: (real, int) -> int, month: int, last: int, tracked: int, reach: int, back: nat)
    requires grain > 0 && monthOf(last) == month && monthOf(now) == month
    requires Stands(BooksAfter(events, monthOf, grain, add).working, month, last, tracked, reach, back)
    ensures var elapsed := Counted(now - last);
            Stands(BooksAfter(events + [Awakes(now, replicas)], monthOf, grain, add).working,
                   month, now, tracked + elapsed, Max(reach, last + elapsed),
                   back + if last < reach && last < now then 1 else 0)
  {
    AwakeSettles(BooksAfter(events, monthOf, grain, add).working, now, monthOf, replicas, add);
    assert (events + [Awakes(now, replicas)])[..|events|] == events;
  }

  lemma WriteStands(events: seq<Event>, monthOf: int -> int, grain: int, add: (real, int) -> int,
                    month: int, last: int, tracked: int, reach: int, back: nat)
    requires grain > 0 && Stands(BooksAfter(events, monthOf, grain, add).working, month, last, tracked, reach, back)
    ensures Stands(BooksAfter(events + [Writes], monthOf, grain, add).working, month, Floor(last, grain), tracked,
                   reach, back)
  {
    assert (events + [Writes])[..|events|] == events;
  }

  lemma AroundASecondStands(events: seq<Event>, monthOf: int -> int, month: int, replicas: nat, add: (real, int) -> int)
    requires IsMonthOf(monthOf, SECOND) && monthOf(month) == monthOf(month + SECOND) == month
    requires Stands(BooksAfter(events, monthOf, SECOND, add).working, month, month, 0, month, 0)
    ensures var almost, next := month + SECOND - 1, month + SECOND;
            Stands(BooksAfter(events + [Awakes(almost, replicas)] + [Writes] + [Awakes(next, replicas)],
                              monthOf, SECOND, add).working, month, next, 2 * SECOND - 1, next, 1)
  {
    var almost, next := month + SECOND - 1, month + SECOND;
    var e2 := events + [Awakes(almost, replicas)];
    assert MonthAt(monthOf, SECOND, month);
    assert MonthsInOrder(monthOf, month, almost) && MonthsInOrder(monthOf, almost, next);
    NextStands(events, almost, monthOf, SECOND, replicas, add, month, month, 0, month, 0);
    WriteStands(e2, monthOf, SECOND, add, month, almost, SECOND - 1, almost, 0);
    FloorJustShort(month, SECOND);
    NextStands(e2 + [Writes], next, monthOf, SECOND, replicas, add, month, month, SECOND - 1, almost, 0);
  }

  lemma AroundASecondInOrder(month: int, replicas: nat)
    requires 0 <= month
    ensures InOrder(AroundASecond(month, replicas)) && Latest(AroundASecond(month, replicas)) == month + SECOND
  {
    var almost, next := month + SECOND - 1, month + SECOND;
    var e1 := [Awakes(month, replicas)];
    var e2 := e1 + [Awakes(almost, replicas)];
    GoesOnInOrder([], Awakes(month, replicas));
    assert [] + e1 == e1;
    GoesOnInOrder(e1, Awakes(almost, replicas));
    GoesOnInOrder(e2, Writes);
    GoesOnInOrder(e2 + [Writes], Awakes(next, replicas));
  }

  /** A settle just short of a second, a write of it, and one on the second: the time between is counted again. */
  lemma WriteCountsASecondTwice(monthOf: int -> int, month: int, replicas: nat, add: (real, int) -> int)
    requires IsMonthOf(monthOf, SECOND) && 0 <= month && monthOf(month + SECOND) == month
    ensures var events := AroundASecond(month, replicas);
            var l := BooksAfter(events, monthOf, SECOND, add).working;
            && InOrder(events) && l.totals.last == Some(month + SECOND)
            && l.back == 1 && l.totals.tracked == 2 * SECOND - 1 > Latest(events) - month
  {
    MonthIsBefore(monthOf, SECOND, month + SECOND);
    FirstStands(month, monthOf, SECOND, replicas, add);
    AroundASecondStands([Awakes(month, replicas)], monthOf, month, replicas, add);
    AroundASecondInOrder(month, replicas);
  }

  /** An hour on, back again, and over the same hour. */
  function OverAnHour(start: int, replicas: nat): seq<Event> {
    var to := [Awakes(start + HOUR, replicas)];
    [Awakes(start, replicas)] + to + [Awakes(start, replicas)] + to
  }

  lemma OverAnHourStands(events: seq<Event>, monthOf: int -> int, grain: int, start: int, replicas: nat,
                         add: (real, int) -> int)
    requires grain > 0 && monthOf(start) == monthOf(start + HOUR)
    requires Stands(BooksAfter(events, monthOf, grain, add).working, monthOf(start), start, 0, start, 0)
    ensures var to := [Awakes(start + HOUR, replicas)];
            Stands(BooksAfter(events + to + [Awakes(start, replicas)] + to, monthOf, grain, add).working,
                   monthOf(start), start + HOUR, 2 * HOUR, start + HOUR, 1)
  {
    var month, end := monthOf(start), start + HOUR;
    var e2 := events + [Awakes(end, replicas)];
    NextStands(events, end, monthOf, grain, replicas, add, month, start, 0, start, 0);
    NextStands(e2, start, monthOf, grain, replicas, add, month, end, HOUR, end, 0);
    NextStands(e2 + [Awakes(start, replicas)], end, monthOf, grain, replicas, add, month, start, HOUR, end, 0);
  }

  /**
   * When the clock goes back, the time it goes over again is counted twice: a settle finds the last before its
   * stretches end.
   */
  lemma ClockGoingBackCountsTwice(monthOf: int -> int, grain: int, start: int, replicas: nat, add: (real, int) -> int)
    requires grain > 0 && IsMonthOf(monthOf, grain) && monthOf(start) == monthOf(start + HOUR)
    ensures var l := BooksAfter(OverAnHour(start, replicas), monthOf, grain, add).working;
            l.totals.last == Some(start + HOUR) && l.totals.tracked == 2 * HOUR && l.back == 1
  {
    MonthIsBefore(monthOf, grain, start);
    var first := [Awakes(start, replicas)];
    FirstStands(start, monthOf, grain, replicas, add);
    OverAnHourStands(first, monthOf, grain, start, replicas, add);
  }

  lemma {:induction false} StretchesGoForward(events: seq<Event>, monthOf: int -> int, grain: int,
                                              add: (real, int) -> int)
    requires grain > 0
    ensures var b := BooksAfter(events, monthOf, grain, add); Forward(b.written.spans) && Forward(b.working.spans)
  {
    if events != [] {
      StretchesGoForward(events[..|events| - 1], monthOf, grain, add);
    }
  }

  lemma {:induction false} PhasesAreAll(spans: seq<Stretch>, rate: Snapshot -> real)
    ensures |InPhase(spans, true)| + |InPhase(spans, false)| == |spans|
    ensures Exact(InPhase(spans, true), rate) + Exact(InPhase(spans, false), rate) == Exact(spans, rate)
  {
    if spans != [] {
      var before, last := spans[..|spans| - 1], spans[|spans| - 1];
      PhasesAreAll(before, rate);
      var own := InPhase(before, last.what.awake);
      assert InPhase(spans, last.what.awake) == own + [last] && (own + [last])[..|own|] == own;
      assert InPhase(spans, !last.what.awake) == InPhase(before, !last.what.awake);
    }
  }

  lemma SettleRounds(l: Ledger, now: int, monthOf: int -> int, f: Found, drained: (real, real), add: (real, int) -> int)
    requires IsRounding(add) && Rounded(l)
    ensures Rounded(SettledLedger(l, now, monthOf, f, drained, add))
  {
    var b := Opened(l, now, monthOf);
    var rs, from := CountedAt(b.totals, f), From(b.totals, now);
    if rs.Some? {
      var span := Span(from, from + Counted(now - from), Counting(f.Awake?, rs.value));
      SettleGoesOn(l, now, monthOf, f, drained, add, span);
      RoundedGoesOn(b, SettledLedger(l, now, monthOf, f, drained, add), span, now, add);
    }
  }

  lemma {:induction false} BooksAreRounded(events: seq<Event>, monthOf: int -> int, grain: int, add: (real, int) -> int)
    requires grain > 0 && IsRounding(add)
    ensures var b := BooksAfter(events, monthOf, grain, add); Rounded(b.written) && Rounded(b.working)
  {
    if events != [] {
      var before := events[..|events| - 1];
      BooksAreRounded(before, monthOf, grain, add);
      match events[|events| - 1] {
        case Settles(now, f, drained) =>
          SettleRounds(BooksAfter(before, monthOf, grain, add).working, now, monthOf, f, drained, add);
        case Writes =>
        case LosesWrite =>
      }
    }
  }

  lemma SumIsRounded(awake: int, paused: int, spans: seq<Stretch>, rate: Snapshot -> real)
    requires RoundedFrom(awake, InPhase(spans, true), rate) && RoundedFrom(paused, InPhase(spans, false), rate)
    ensures RoundedFrom(awake + paused, spans, rate)
  {
    PhasesAreAll(spans, rate);
  }

  /**
   * Whatever the clock does, awake hours are what was requested over the time counted awake, paused ones what was freed
   * over the time counted paused, and together what was requested over all of it, to half a billionth of an hour a
   * stretch.
   */
  lemma HoursAreWhatWasRequested(events: seq<Event>, monthOf: int -> int, grain: int)
    requires grain > 0
    ensures var l := BooksAfter(events, monthOf, grain, Added).working;
            && Rounded(l)
            && RoundedFrom(l.totals.awakeCpu + l.totals.pausedCpu, l.spans, Cores)
            && RoundedFrom(l.totals.awakeMemory + l.totals.pausedMemory, l.spans, Gib)
  {
    AddedRounds();
    BooksAreRounded(events, monthOf, grain, Added);
    var l := BooksAfter(events, monthOf, grain, Added).working;
    SumIsRounded(l.totals.awakeCpu, l.totals.pausedCpu, l.spans, Cores);
    SumIsRounded(l.totals.awakeMemory, l.totals.pausedMemory, l.spans, Gib);
  }
}

/** That would-be pauses are each measured once, inside the time measured. */
module DryRunRuns {
  import opened CostRuns
  import opened CostTotals
  import opened DryRunTotals
  import opened Times
  import opened Workloads
  import opened Wrappers

  /**
   * What's measured, with the would-be pauses finished and how many of them reached back into one before, and whether
   * one is under way and when it really began.
   */
  datatype Journal = Journal(status: Status, spans: seq<Stretch>, back: nat, underWay: bool, at: int)

  datatype Desk = Desk(written: Journal, working: Journal)

  datatype Event =
    | Tracks(now: int)
    | Begins(now: int, resources: Option<Snapshot>)
    | Ends(now: int, end: int)
    | Leaves
    | Writes
    | LosesWrite

  function StoredJournal(j: Journal, grain: int): Journal
    requires grain > 0
  {
    var s := j.status;
    j.(status := s.(changed := if s.changed.Some? then Some(Floor(s.changed.value, grain)) else None,
                    dryRun := if s.dryRun.Some? then Some(s.dryRun.value.(since := Floor(s.dryRun.value.since, grain)))
                              else None))
  }

  /** The pause that ends began, as its start is kept, before those finished had ended. */
  predicate ReachesBack(j: Journal, end: int)
    requires IsMeasured(j.status)
  {
    j.status.changed.value < Reach(j.spans, j.status.dryRun.value.since) && j.status.changed.value < end
  }

  function EndedJournal(j: Journal, end: int, now: int): Journal {
    if !IsMeasured(j.status) then Journal(Ended(j.status, end, now), j.spans, j.back, false, now)
    else
      var from := j.status.changed.value;
      Journal(Ended(j.status, end, now),
              j.spans + [Span(from, from + SleptFor(j.status, end), Counting(true, Freed(j.status.dryRun.value)))],
              j.back + (if ReachesBack(j, end) then 1 else 0), false, now)
  }

  function After(k: Desk, e: Event, grain: int): Desk
    requires grain > 0
  {
    match e
    case Tracks(now) => k.(working := k.working.(status := Tracked(k.working.status, now)))
    case Begins(now, resources) =>
      k.(working := Journal(Begun(k.working.status, now, resources), k.working.spans, k.working.back, true, now))
    case Ends(now, end) => k.(working := EndedJournal(k.working, end, now))
    case Leaves => k.(working := Journal(Left(k.working.status), [], 0, false, 0))
    case Writes => Desk(StoredJournal(k.working, grain), StoredJournal(k.working, grain))
    case LosesWrite => k.(working := k.written)
  }

  /** A workload yet to be in dry-run, perhaps Idle already. */
  function DeskAfter(events: seq<Event>, idle: bool, changed: Option<int>, grain: int): Desk
    requires grain > 0
  {
    if events == [] then var j := Journal(Status(None, idle, changed), [], 0, false, 0); Desk(j, j)
    else After(DeskAfter(events[..|events| - 1], idle, changed, grain), events[|events| - 1], grain)
  }

  function Latest(events: seq<Event>, start: int): int {
    if events == [] then start
    else
      match events[|events| - 1]
      case Tracks(now) => now
      case Begins(now, _) => now
      case Ends(now, _) => now
      case _ => Latest(events[..|events| - 1], start)
  }

  /** Time goes on; only a workload that isn't Idle begins a would-be pause, and only an Idle one ends one. */
  ghost predicate Allowed(j: Journal, e: Event, latest: int) {
    match e
    case Tracks(now) => now >= latest
    case Begins(now, _) => now >= latest && !j.status.idle
    case Ends(now, end) => now >= latest && end <= now && j.status.idle
    case _ => true
  }

  ghost predicate IsRun(events: seq<Event>, idle: bool, changed: Option<int>, start: int, grain: int)
    requires grain > 0
    decreases |events|
  {
    events != [] ==>
      var before := events[..|events| - 1];
      && IsRun(before, idle, changed, start, grain)
      && Allowed(DeskAfter(before, idle, changed, grain).working, events[|events| - 1], Latest(before, start))
  }

  ghost predicate SoundFor(d: Measured, j: Journal, now: int, grain: int)
    requires grain > 0
  {
    && d.pauses == |j.spans| + (if j.underWay then 1 else 0)
    && d.slept == Length(j.spans)
    && Within(d, j, now, grain)
    && RoundedFrom(d.freedCpu, j.spans, Cores) && RoundedFrom(d.freedMemory, j.spans, Gib)
    && (j.status.idle && !j.underWay ==> d.pauses == 0)
    && (j.underWay ==>
          && j.status.idle && j.status.changed.Some? && d.since <= j.status.changed.value
          && j.at <= now && Within(d, j, j.at, grain)
          && (j.status.changed.value == j.at || j.status.changed.value == Floor(j.at, grain)))
  }

  /** Those finished lie between when measuring began and a time, and overlap little, and only if some reached back. */
  ghost predicate Within(d: Measured, j: Journal, to: int, grain: int) {
    && d.since <= Reach(j.spans, d.since) <= to
    && Ordered(j.spans, d.since, to, grain)
    && 0 <= Overlapped(j.spans, d.since) <= Slack(|j.spans|, grain)
    && (Overlapped(j.spans, d.since) == 0 <==> j.back == 0)
  }

  ghost predicate Sound(j: Journal, now: int, grain: int)
    requires grain > 0
  {
    match j.status.dryRun
    case None => j.spans == [] && j.back == 0 && !j.underWay
    case Some(d) => SoundFor(d, j, now, grain)
  }

  /** Where measuring is kept to have begun makes no odds to how finished ones overlap. */
  lemma {:induction false} StartMoves(spans: seq<Stretch>, start: int, earlier: int)
    requires earlier <= start && forall i :: 0 <= i < |spans| ==> start <= spans[i].from <= spans[i].to
    ensures Overlapped(spans, earlier) == Overlapped(spans, start)
    ensures spans != [] ==> Reach(spans, earlier) == Reach(spans, start)
  {
    if spans != [] {
      StartMoves(spans[..|spans| - 1], start, earlier);
    }
  }

  lemma TrackKeepsSound(j: Journal, before: int, now: int, grain: int)
    requires grain > 0 && Sound(j, before, grain) && before <= now
    ensures Sound(j.(status := Tracked(j.status, now)), now, grain)
  {
  }

  lemma BeginKeepsSound(j: Journal, before: int, now: int, resources: Option<Snapshot>, grain: int)
    requires grain > 0 && Sound(j, before, grain) && before <= now && !j.status.idle
    ensures Sound(Journal(Begun(j.status, now, resources), j.spans, j.back, true, now), now, grain)
  {
  }

  lemma WriteKeepsSound(j: Journal, now: int, grain: int)
    requires grain > 0 && Sound(j, now, grain)
    ensures Sound(StoredJournal(j, grain), now, grain)
  {
    if j.status.dryRun.Some? {
      var d := j.status.dryRun.value;
      FloorBounds(d.since, grain);
      StartMoves(j.spans, d.since, Floor(d.since, grain));
      if j.underWay {
        FloorTwice(j.at, grain);
        FloorInOrder(d.since, j.status.changed.value, grain);
      }
    }
  }

  /** A finished would-be pause follows the one before, but for what a write rounded down. */
  lemma EndIsTimed(d: Measured, j: Journal, next: Journal, now: int, end: int, grain: int, span: Stretch)
    requires grain > 0 && Within(d, j, j.at, grain) && j.at <= now && end <= now
    requires IsMeasured(j.status) && j.status.dryRun.value == d
    requires d.since <= j.status.changed.value
             && (j.status.changed.value == j.at || j.status.changed.value == Floor(j.at, grain))
    requires span.from == j.status.changed.value && span.to == span.from + SleptFor(j.status, end)
    requires next.spans == j.spans + [span] && next.back == j.back + (if ReachesBack(j, end) then 1 else 0)
    ensures Within(d, next, now, grain) && Length(next.spans) == Length(j.spans) + (span.to - span.from)
  {
    FloorBounds(j.at, grain);
    ReachJoins(j.spans, span, d.since);
  }

  /** What ending a measured would-be pause does to the measurement. */
  lemma EndAdds(s: Status, end: int, now: int)
    requires IsMeasured(s)
    ensures var d, slept := s.dryRun.value, SleptFor(s, end);
            var e := Ended(s, end, now);
            && e.dryRun.Some? && !e.idle
            && var n := e.dryRun.value;
            && n.since == d.since && n.pauses == d.pauses && n.slept == d.slept + slept
            && n.freedCpu == d.freedCpu + Added(Cores(Freed(d)), slept)
            && n.freedMemory == d.freedMemory + Added(Gib(Freed(d)), slept)
  {
  }

  lemma SpanKeepsSound(d: Measured, j: Journal, n: Measured, next: Journal, before: int, now: int, end: int, grain: int,
                       span: Stretch)
    requires grain > 0 && SoundFor(d, j, before, grain) && before <= now && end <= now && j.underWay
    requires IsMeasured(j.status) && j.status.dryRun.value == d
    requires span.from == j.status.changed.value && span.to == span.from + SleptFor(j.status, end)
    requires next.spans == j.spans + [span] && next.back == j.back + (if ReachesBack(j, end) then 1 else 0)
    requires !next.underWay && !next.status.idle
    requires n.since == d.since && n.pauses == d.pauses && n.slept == d.slept + (span.to - span.from)
    requires n.freedCpu == d.freedCpu + Added(Cores(span.what.rs), span.to - span.from)
    requires n.freedMemory == d.freedMemory + Added(Gib(span.what.rs), span.to - span.from)
    ensures SoundFor(n, next, now, grain)
  {
    EndIsTimed(d, j, next, now, end, grain, span);
    assert Within(n, next, now, grain) == Within(d, next, now, grain);
    AddedRounds();
    RoundedJoins(d.freedCpu, j.spans, span, Cores, Added);
    RoundedJoins(d.freedMemory, j.spans, span, Gib, Added);
  }

  lemma EndKeepsSound(j: Journal, before: int, now: int, end: int, grain: int)
    requires grain > 0 && Sound(j, before, grain) && before <= now && end <= now && j.status.idle
    ensures Sound(EndedJournal(j, end, now), now, grain)
  {
    if IsMeasured(j.status) {
      var d, from := j.status.dryRun.value, j.status.changed.value;
      var next := EndedJournal(j, end, now);
      EndAdds(j.status, end, now);
      SpanKeepsSound(d, j, next.status.dryRun.value, next, before, now, end, grain,
                     Span(from, from + SleptFor(j.status, end), Counting(true, Freed(d))));
    }
  }

  lemma LaterIsSound(j: Journal, before: int, now: int, grain: int)
    requires grain > 0 && Sound(j, before, grain) && before <= now
    ensures Sound(j, now, grain)
  {
  }

  lemma StepKeepsSound(k: Desk, before: int, now: int, e: Event, grain: int)
    requires grain > 0 && Sound(k.written, before, grain) && Sound(k.working, before, grain) && before <= now
    requires Allowed(k.working, e, before)
    requires e.Tracks? || e.Begins? || e.Ends? ==> now == e.now
    ensures Sound(After(k, e, grain).written, now, grain) && Sound(After(k, e, grain).working, now, grain)
  {
    LaterIsSound(k.written, before, now, grain);
    match e {
      case Tracks(_) => TrackKeepsSound(k.working, before, now, grain);
      case Begins(_, resources) => BeginKeepsSound(k.working, before, now, resources, grain);
      case Ends(_, end) => EndKeepsSound(k.working, before, now, end, grain);
      case Writes =>
        WriteKeepsSound(k.working, before, grain);
        LaterIsSound(StoredJournal(k.working, grain), before, now, grain);
      case LosesWrite =>
      case Leaves =>
    }
  }

  lemma {:induction false} DesksAreSound(events: seq<Event>, idle: bool, changed: Option<int>, start: int, grain: int)
    requires grain > 0 && IsRun(events, idle, changed, start, grain)
    ensures var k := DeskAfter(events, idle, changed, grain);
            Sound(k.written, Latest(events, start), grain) && Sound(k.working, Latest(events, start), grain)
    decreases |events|
  {
    if events != [] {
      var before := events[..|events| - 1];
      DesksAreSound(before, idle, changed, start, grain);
      StepKeepsSound(DeskAfter(before, idle, changed, grain), Latest(before, start), Latest(events, start),
                     events[|events| - 1], grain);
    }
  }

  /**
   * Over any run of dry-run's would-be pauses, with writes failing, restarts between them and dry-run left and entered:
   * those finished are stretches that follow one another since measuring began, Pauses counts them and the one under
   * way, Slept is their length, and what they'd have freed is right to half a billionth of an hour a pause. Slept is at
   * most the time since, but for what stretches overlap; and they overlap exactly when one began, as a write kept it,
   * before those finished had ended, each by less than a grain.
   */
  lemma PausesAreMeasuredOnce(events: seq<Event>, idle: bool, changed: Option<int>, start: int, grain: int)
    requires grain > 0 && IsRun(events, idle, changed, start, grain)
    ensures var j := DeskAfter(events, idle, changed, grain).working;
            j.status.dryRun.Some? ==>
              var d := j.status.dryRun.value;
              && d.pauses == |j.spans| + (if j.underWay then 1 else 0)
              && Ordered(j.spans, d.since, Latest(events, start), grain)
              && d.slept == Length(j.spans) <= Latest(events, start) - d.since + Overlapped(j.spans, d.since)
              && (Overlapped(j.spans, d.since) == 0 <==> j.back == 0)
              && Overlapped(j.spans, d.since) <= Slack(|j.spans|, grain)
              && RoundedFrom(d.freedCpu, j.spans, Cores) && RoundedFrom(d.freedMemory, j.spans, Gib)
  {
    DesksAreSound(events, idle, changed, start, grain);
    var j := DeskAfter(events, idle, changed, grain).working;
    if j.status.dryRun.Some? {
      LengthIsReached(j.spans, j.status.dryRun.value.since);
    }
  }

  /** A would-be pause just short of a second long, and another from then, written, to the second. */
  function AroundASecond(): seq<Event> {
    [Begins(0, None), Ends(SECOND - 1, SECOND - 1), Begins(SECOND - 1, None), Event.Writes, Ends(SECOND, SECOND)]
  }

  lemma RunGoesOn(events: seq<Event>, e: Event)
    requires IsRun(events, false, None, 0, SECOND)
    requires Allowed(DeskAfter(events, false, None, SECOND).working, e, Latest(events, 0))
    ensures IsRun(events + [e], false, None, 0, SECOND)
    ensures DeskAfter(events + [e], false, None, SECOND) == After(DeskAfter(events, false, None, SECOND), e, SECOND)
    ensures Latest(events + [e], 0) ==
              match e
              case Tracks(now) => now
              case Begins(now, _) => now
              case Ends(now, _) => now
              case _ => Latest(events, 0)
  {
    assert (events + [e])[..|events|] == events;
  }

  /** The first of them, finished. */
  lemma FirstMeasured()
    ensures var events := AroundASecond()[..2];
            && IsRun(events, false, None, 0, SECOND) && Latest(events, 0) == SECOND - 1
            && var j := DeskAfter(events, false, None, SECOND).working;
            && j.status.dryRun.Some? && !j.status.idle && j.back == 0 && Reach(j.spans, 0) == SECOND - 1
            && var d := j.status.dryRun.value;
            && d.since == 0 && d.pauses == 1 && d.slept == SECOND - 1
  {
    var begins, ends := Begins(0, None), Ends(SECOND - 1, SECOND - 1);
    RunGoesOn([], begins);
    assert [] + [begins] == [begins] && [begins] + [ends] == AroundASecond()[..2];
    RunGoesOn([begins], ends);
    var j := DeskAfter([begins], false, None, SECOND).working;
    ReachJoins([], Span(0, SECOND - 1, Counting(true, Freed(j.status.dryRun.value))), 0);
  }

  /** The second of them begins again where the first did: in a second, they sleep for two, less a moment. */
  lemma WriteMeasuresASecondTwice()
    ensures IsRun(AroundASecond(), false, None, 0, SECOND)
    ensures var j := DeskAfter(AroundASecond(), false, None, SECOND).working;
            && j.status.dryRun.Some? && j.back == 1
            && j.status.dryRun.value.slept == 2 * SECOND - 1 > Latest(AroundASecond(), 0) - j.status.dryRun.value.since
  {
    FirstMeasured();
    var e2, e3 := AroundASecond()[..2], AroundASecond()[..3];
    assert e2 + [Begins(SECOND - 1, None)] == e3 && e3 + [Event.Writes] == AroundASecond()[..4];
    assert AroundASecond()[..4] + [Ends(SECOND, SECOND)] == AroundASecond();
    RunGoesOn(e2, Begins(SECOND - 1, None));
    RunGoesOn(e3, Event.Writes);
    RunGoesOn(AroundASecond()[..4], Ends(SECOND, SECOND));
  }
}

/** When the hours a month's pauses are credited with stay within those counted as paused, over any run. */
module SavingsRuns {
  import opened CostTotals
  import opened Savings
  import opened Shortfall
  import opened Times
  import opened Workloads
  import opened Wrappers
  import CostRuns
  import HeldPaused
  import Sampler
  import SamplerRuns

  /**
   * What a sample finds of the workload when it's paused: its share of the shortfalls, with what it was paused, and
   * when.
   */
  datatype Sighting = Sighting(share: Resources, rs: Snapshot, pausedAt: int)

  datatype Event =
    | Settles(now: int, found: Found)
    | Samples(now: int, seen: Option<Sighting>)
    | SampleFails
    | Writes
    | LosesWrite
    | Restarts

  /**
   * What befell the month's books so far; the credits drained into the totals written, and into the operator's own; and
   * the sampler's last sample, and the credits pending.
   */
  datatype State =
    State(befell: seq<CostRuns.Event>, written: seq<Credit>, drained: seq<Credit>, sampledAt: Option<int>,
          pending: seq<Credit>)

  const NOTHING_YET := State([], [], [], None, [])

  /** The operator's ledger. */
  function Working(s: State, monthOf: int -> int, grain: int, add: (real, int) -> int): CostRuns.Ledger
    requires grain > 0
  {
    CostRuns.BooksAfter(s.befell, monthOf, grain, add).working
  }

  /** A sample's credit, if the workload has one. */
  function CreditOf(last: Option<int>, now: int, seen: Option<Sighting>): (credits: seq<Credit>)
    ensures |credits| <= 1
  {
    if seen.None? || Sampler.Earned(last, now, Some(seen.value.share), seen.value.pausedAt).None? then []
    else
      [Span(now - Sampler.Covered(last.value, now, seen.value.pausedAt), now,
            Crediting(seen.value.share, seen.value.rs))]
  }

  function Hoarded(pending: seq<Credit>): (real, real) {
    (Credited(pending, Cpu), Credited(pending, Memory))
  }

  /** The credits drained into a month's totals once a settle has, unless it can't count yet. */
  function DrainedBy(l: CostRuns.Ledger, now: int, f: Found, monthOf: int -> int, drained: seq<Credit>,
                     pending: seq<Credit>): seq<Credit>
  {
    (if CostRuns.NewMonth(l.totals, now, monthOf) then [] else drained)
    + if Drains(l, now, f, monthOf) then pending else []
  }

  predicate Drains(l: CostRuns.Ledger, now: int, f: Found, monthOf: int -> int) {
    CountedAt(MonthStarted(l.totals, now, monthOf), f).Some?
  }

  function After(s: State, e: Event, monthOf: int -> int, grain: int, add: (real, int) -> int): State
    requires grain > 0
  {
    match e
    case Settles(now, f) =>
      var l := Working(s, monthOf, grain, add);
      s.(befell := s.befell + [CostRuns.Settles(now, f, Hoarded(s.pending))],
         drained := DrainedBy(l, now, f, monthOf, s.drained, s.pending),
         pending := if Drains(l, now, f, monthOf) then [] else s.pending)
    case Samples(now, seen) => s.(sampledAt := Some(now), pending := s.pending + CreditOf(s.sampledAt, now, seen))
    case SampleFails => s.(sampledAt := None)
    case Writes => s.(befell := s.befell + [CostRuns.Writes], written := s.drained)
    case LosesWrite => s.(befell := s.befell + [CostRuns.LosesWrite], drained := s.written)
    case Restarts => State(s.befell + [CostRuns.LosesWrite], s.written, s.written, None, [])
  }

  function StateAfter(events: seq<Event>, monthOf: int -> int, grain: int, add: (real, int) -> int): State
    requires grain > 0
  {
    if events == [] then NOTHING_YET
    else After(StateAfter(events[..|events| - 1], monthOf, grain, add), events[|events| - 1], monthOf, grain, add)
  }

  /** What samples find of a pause is within what it holds. */
  ghost predicate FindsWithin(events: seq<Event>) {
    forall i :: 0 <= i < |events| && events[i].Samples? && events[i].seen.Some? ==>
      Within(events[i].seen.value.share, events[i].seen.value.rs)
  }

  /** As whatever they find is. */
  lemma FoundIsWithin(workloads: seq<HeldPaused.Workload>, spare: map<Pool, Resources>, uid: Uid, rs: Snapshot,
                      pausedAt: int)
    requires HeldPaused.Distinct(workloads) && forall p, d: Dim :: p in spare ==> spare[p].Of(d) >= 0.0
    requires forall w :: w in workloads && w.uid == uid && HeldPaused.Counts(w) ==>
               w.pause == Some(HeldPaused.Pause(Some(rs), Some(pausedAt)))
    ensures var share := SamplerRuns.ShareFound(workloads, spare, uid); share.Some? ==> Within(share.value, rs)
  {
    SamplerRuns.ShareFoundIsWithin(workloads, spare, uid, rs, pausedAt);
  }

  ghost predicate SamplesInOrder(events: seq<Event>) {
    forall i, j :: 0 <= i < j < |events| && events[i].Samples? && events[j].Samples? ==> events[i].now <= events[j].now
  }

  // Shares

  lemma CreditFits(last: Option<int>, now: int, seen: Option<Sighting>)
    requires seen.Some? ==> Within(seen.value.share, seen.value.rs)
    ensures AllWithin(CreditOf(last, now, seen))
  {
  }

  /** Credits in the books, and those pending, are all of shares within what the pause holds. */
  lemma {:induction false} SharesFit(events: seq<Event>, monthOf: int -> int, grain: int, add: (real, int) -> int)
    requires grain > 0 && FindsWithin(events)
    ensures var s := StateAfter(events, monthOf, grain, add);
            AllWithin(s.written) && AllWithin(s.drained) && AllWithin(s.pending)
  {
    if events != [] {
      var before, e := events[..|events| - 1], events[|events| - 1];
      assert FindsWithin(before) by {
        assert forall i :: 0 <= i < |before| ==> before[i] == events[i];
      }
      SharesFit(before, monthOf, grain, add);
      if e.Samples? {
        CreditFits(StateAfter(before, monthOf, grain, add).sampledAt, e.now, e.seen);
      }
    }
  }

  // Totals

  function SavedHours(t: Totals, d: Dim): int {
    if d.Cpu? then t.savedCpu else t.savedMemory
  }

  function PausedHours(t: Totals, d: Dim): int {
    if d.Cpu? then t.pausedCpu else t.pausedMemory
  }

  /** Billionths of an hour are hours, to half of one a settle. */
  ghost predicate Near(billionths: int, hours: real, settles: nat) {
    -0.5 * settles as real <= billionths as real - hours * 1000000000.0 <= 0.5 * settles as real
  }

  /** Saved hours are those of the credits drained. */
  ghost predicate Saved(l: CostRuns.Ledger, drained: seq<Credit>, d: Dim) {
    Near(SavedHours(l.totals, d), Credited(drained, d), |l.spans|)
  }

  lemma NearAdds(before: int, hours: real, settles: nat, added: int, more: real, add: (real, int) -> int)
    requires Near(before, hours, settles) && added == add(more, HOUR) && CostRuns.IsRounding(add)
    ensures Near(before + added, hours + more, settles + 1)
  {
    assert CostRuns.RoundsAt(add, more, HOUR);
    AnHour(more);
  }

  lemma AnHour(hours: real)
    ensures NanoHours(hours, HOUR) == hours * 1000000000.0
  {
    assert Hours(HOUR) == 1.0;
  }

  /** What a settle adds to the saved hours, once its month has begun. */
  lemma SettleAdds(l: CostRuns.Ledger, now: int, monthOf: int -> int, f: Found, pending: seq<Credit>,
                   add: (real, int) -> int, d: Dim)
    ensures var b := CostRuns.Opened(l, now, monthOf);
            var next := CostRuns.SettledLedger(l, now, monthOf, f, Hoarded(pending), add);
            && (!Drains(l, now, f, monthOf) ==> next == b)
            && (Drains(l, now, f, monthOf) ==>
                  && SavedHours(next.totals, d) == SavedHours(b.totals, d) + add(Credited(pending, d), HOUR)
                  && |next.spans| == |b.spans| + 1)
  {
    var b, started := CostRuns.Opened(l, now, monthOf), MonthStarted(l.totals, now, monthOf);
    assert b.totals == started;
    if Drains(l, now, f, monthOf) {
      var t := Settled(l.totals, now, monthOf, f, Hoarded(pending), add);
      assert t.savedCpu == started.savedCpu + add(Hoarded(pending).0, HOUR);
      assert t.savedMemory == started.savedMemory + add(Hoarded(pending).1, HOUR);
      assert CostRuns.SettledLedger(l, now, monthOf, f, Hoarded(pending), add).totals == t;
    }
  }

  lemma SettleSaves(l: CostRuns.Ledger, now: int, monthOf: int -> int, f: Found, drained: seq<Credit>,
                    pending: seq<Credit>, add: (real, int) -> int, d: Dim)
    requires CostRuns.IsRounding(add) && Saved(l, drained, d)
    ensures Saved(CostRuns.SettledLedger(l, now, monthOf, f, Hoarded(pending), add),
                  DrainedBy(l, now, f, monthOf, drained, pending), d)
  {
    var b, begun := CostRuns.Opened(l, now, monthOf), if CostRuns.NewMonth(l.totals, now, monthOf) then [] else drained;
    assert Saved(b, begun, d);
    SettleAdds(l, now, monthOf, f, pending, add, d);
    if Drains(l, now, f, monthOf) {
      CreditedJoins(begun, pending, d);
      NearAdds(SavedHours(b.totals, d), Credited(begun, d), |b.spans|, add(Credited(pending, d), HOUR),
               Credited(pending, d), add);
    } else {
      assert begun + [] == begun;
    }
  }

  lemma BooksGoOn(befell: seq<CostRuns.Event>, e: CostRuns.Event, monthOf: int -> int, grain: int,
                  add: (real, int) -> int)
    requires grain > 0
    ensures CostRuns.BooksAfter(befell + [e], monthOf, grain, add)
            == CostRuns.After(CostRuns.BooksAfter(befell, monthOf, grain, add), e, monthOf, grain, add)
  {
    assert (befell + [e])[..|befell|] == befell;
  }

  lemma {:induction false} SavedIsDrained(events: seq<Event>, monthOf: int -> int, grain: int, add: (real, int) -> int,
                                          d: Dim)
    requires grain > 0 && CostRuns.IsRounding(add)
    ensures var s := StateAfter(events, monthOf, grain, add);
            var b := CostRuns.BooksAfter(s.befell, monthOf, grain, add);
            Saved(b.written, s.written, d) && Saved(b.working, s.drained, d)
  {
    if events != [] {
      var before, e := events[..|events| - 1], events[|events| - 1];
      SavedIsDrained(before, monthOf, grain, add, d);
      var s := StateAfter(before, monthOf, grain, add);
      match e {
        case Settles(now, f) =>
          BooksGoOn(s.befell, CostRuns.Settles(now, f, Hoarded(s.pending)), monthOf, grain, add);
          var l := Working(s, monthOf, grain, add);
          SettleSaves(l, now, monthOf, f, s.drained, s.pending, add, d);
        case Samples(_, _) =>
        case SampleFails =>
        case Writes => BooksGoOn(s.befell, CostRuns.Writes, monthOf, grain, add);
        case LosesWrite => BooksGoOn(s.befell, CostRuns.LosesWrite, monthOf, grain, add);
        case Restarts => BooksGoOn(s.befell, CostRuns.LosesWrite, monthOf, grain, add);
      }
    }
  }

  lemma PausedIsCounted(befell: seq<CostRuns.Event>, monthOf: int -> int, grain: int, d: Dim)
    requires grain > 0
    ensures var l := CostRuns.BooksAfter(befell, monthOf, grain, Added).working;
            Near(PausedHours(l.totals, d), PausedFor(l.spans, d), |l.spans|)
  {
    CostRuns.HoursAreWhatWasRequested(befell, monthOf, grain);
    var l := CostRuns.BooksAfter(befell, monthOf, grain, Added).working;
    if d.Cpu? {
      ExactIsPaused(l.spans, Cores, d);
    } else {
      ExactIsPaused(l.spans, Gib, d);
    }
    PhaseIsPart(l.spans, false);
  }

  // Samples in order

  ghost predicate Timely(s: State, to: int) {
    Apart(s.written + s.pending, to) && Apart(s.drained + s.pending, to)
  }

  lemma DrainIsTimely(s: State, next: State, begun: seq<Credit>, drains: bool, to: int)
    requires Timely(s, to) && (begun == [] || begun == s.drained)
    requires next.written == s.written && next.drained == begun + (if drains then s.pending else [])
    requires next.pending == if drains then [] else s.pending
    ensures Timely(next, to)
  {
    PartsAreApart(s.written, s.pending, to);
    PartsAreApart(s.drained, s.pending, to);
    assert next.drained + next.pending == begun + s.pending;
    assert [] + s.pending == s.pending && s.written + [] == s.written;
  }

  lemma CreditIsApart(credits: seq<Credit>, last: Option<int>, now: int, seen: Option<Sighting>, to: int)
    requires Apart(credits, now) && (last.Some? ==> Apart(credits, last.value)) && now <= to
    ensures Apart(credits + CreditOf(last, now, seen), now) && Apart(credits + CreditOf(last, now, seen), to)
  {
    if CreditOf(last, now, seen) == [] {
      assert credits + [] == credits;
    }
  }

  lemma SampleIsTimely(s: State, now: int, seen: Option<Sighting>, to: int)
    requires Timely(s, now) && (s.sampledAt.Some? ==> Timely(s, s.sampledAt.value)) && now <= to
    ensures var next := s.(sampledAt := Some(now), pending := s.pending + CreditOf(s.sampledAt, now, seen));
            Timely(next, now) && Timely(next, to)
  {
    var credits := CreditOf(s.sampledAt, now, seen);
    assert s.written + (s.pending + credits) == (s.written + s.pending) + credits;
    assert s.drained + (s.pending + credits) == (s.drained + s.pending) + credits;
    CreditIsApart(s.written + s.pending, s.sampledAt, now, seen, to);
    CreditIsApart(s.drained + s.pending, s.sampledAt, now, seen, to);
  }

  lemma OtherIsTimely(s: State, next: State, to: int)
    requires Timely(s, to) && next.written in {s.written, s.drained} && next.drained in {s.written, s.drained}
    requires next.pending == s.pending || next.pending == []
    ensures Timely(next, to)
  {
    PartsAreApart(s.written, s.pending, to);
    PartsAreApart(s.drained, s.pending, to);
    assert next.pending == [] ==>
             next.written + next.pending == next.written && next.drained + next.pending == next.drained;
  }

  lemma StepIsTimely(s: State, e: Event, monthOf: int -> int, grain: int, add: (real, int) -> int, to: int)
    requires grain > 0 && !e.Samples? && Timely(s, to)
    ensures Timely(After(s, e, monthOf, grain, add), to)
  {
    var next := After(s, e, monthOf, grain, add);
    if e.Settles? {
      var l := Working(s, monthOf, grain, add);
      DrainIsTimely(s, next, if CostRuns.NewMonth(l.totals, e.now, monthOf) then [] else s.drained,
                    Drains(l, e.now, e.found, monthOf), to);
    } else {
      OtherIsTimely(s, next, to);
    }
  }

  ghost predicate SampledBy(events: seq<Event>, to: int) {
    forall i :: 0 <= i < |events| && events[i].Samples? ==> events[i].now <= to
  }

  lemma EarlierInOrder(events: seq<Event>, to: int)
    requires events != [] && SamplesInOrder(events) && SampledBy(events, to)
    ensures var before, e := events[..|events| - 1], events[|events| - 1];
            SamplesInOrder(before) && SampledBy(before, to) && (e.Samples? ==> SampledBy(before, e.now) && e.now <= to)
  {
    var before := events[..|events| - 1];
    assert forall i :: 0 <= i < |before| ==> before[i] == events[i];
  }

  /** Nothing is credited past the last sample, if the next is to credit any time since. */
  ghost predicate Sampled(s: State, to: int) {
    Timely(s, to) && (s.sampledAt.Some? ==> s.sampledAt.value <= to && Timely(s, s.sampledAt.value))
  }

  lemma StepIsSampled(s: State, e: Event, monthOf: int -> int, grain: int, add: (real, int) -> int, to: int)
    requires grain > 0 && Sampled(s, if e.Samples? then e.now else to) && (e.Samples? ==> e.now <= to)
    ensures Sampled(After(s, e, monthOf, grain, add), to)
  {
    if e.Samples? {
      SampleIsTimely(s, e.now, e.seen, to);
    } else {
      StepIsTimely(s, e, monthOf, grain, add, to);
      if s.sampledAt.Some? {
        StepIsTimely(s, e, monthOf, grain, add, s.sampledAt.value);
      }
    }
  }

  /** Samples that are in order credit no time twice. */
  lemma {:induction false} CreditsAreApart(events: seq<Event>, monthOf: int -> int, grain: int, add: (real, int) -> int,
                                           to: int)
    requires grain > 0 && SamplesInOrder(events) && SampledBy(events, to)
    ensures Sampled(StateAfter(events, monthOf, grain, add), to)
    decreases |events|
  {
    if events != [] {
      var before, e := events[..|events| - 1], events[|events| - 1];
      EarlierInOrder(events, to);
      CreditsAreApart(before, monthOf, grain, add, if e.Samples? then e.now else to);
      StepIsSampled(StateAfter(before, monthOf, grain, add), e, monthOf, grain, add, to);
    }
  }

  /** A time no sample is after. */
  ghost function LastSample(events: seq<Event>): (to: int)
    ensures SampledBy(events, to)
  {
    if events == [] then 0
    else
      var before, e := events[..|events| - 1], events[|events| - 1];
      if e.Samples? then Max(e.now, LastSample(before)) else LastSample(before)
  }

  lemma DrainedAreApart(events: seq<Event>, monthOf: int -> int, grain: int, add: (real, int) -> int,
                        spans: seq<Stretch>, d: Dim)
    requires grain > 0 && SamplesInOrder(events) && CostRuns.Forward(spans)
    ensures Uncredited(spans, StateAfter(events, monthOf, grain, add).drained, d) >= 0.0
  {
    var to := LastSample(events);
    CreditsAreApart(events, monthOf, grain, add, to);
    var s := StateAfter(events, monthOf, grain, add);
    PartsAreApart(s.drained, s.pending, to);
    UncreditedIsPositive(spans, s.drained, to, d);
  }

  /**
   * Over a month of any pauses and wakes, samples, settles, writes, lost writes and restarts: saved hours are those of
   * the credits drained, and paused ones those of the time counted as paused, to half a billionth a settle. What is
   * saved differs from what is paused by what's due for time credited and not counted as paused, less what's counted
   * for time not credited and what shares fall short of all that's held. So it's within it exactly when the first is no
   * more than the others, whatever the shares when it's no more than what isn't credited, and when shares are all
   * that's held only then. Neither is below nothing while samples are in order and no stretch reaches back.
   */
  lemma SavedIsWithinPaused(events: seq<Event>, monthOf: int -> int, grain: int, d: Dim)
    requires grain > 0 && FindsWithin(events)
    ensures var s := StateAfter(events, monthOf, grain, Added);
            var l := Working(s, monthOf, grain, Added);
            var credited, paused := Credited(s.drained, d), PausedFor(l.spans, d);
            var outside, uncredited := Outside(s.drained, l.spans, d), Uncredited(l.spans, s.drained, d);
            var short := Due(s.drained, d) - credited;
            && Near(SavedHours(l.totals, d), credited, |l.spans|) && Near(PausedHours(l.totals, d), paused, |l.spans|)
            && credited - paused == outside - uncredited - short
            && short >= 0.0 && (AllHeld(s.drained, d) ==> short == 0.0)
            && (credited <= paused <==> outside <= uncredited + short)
            && (credited <= paused ==> SavedHours(l.totals, d) <= PausedHours(l.totals, d) + |l.spans|)
            && (SamplesInOrder(events) ==> uncredited >= 0.0)
            && (CostRuns.IsMonthOf(monthOf, grain) && l.back == 0 ==> outside >= 0.0)
  {
    CostRuns.AddedRounds();
    var s := StateAfter(events, monthOf, grain, Added);
    var l := Working(s, monthOf, grain, Added);
    SavedIsDrained(events, monthOf, grain, Added, d);
    PausedIsCounted(s.befell, monthOf, grain, d);
    SharesFit(events, monthOf, grain, Added);
    CreditedIsDue(s.drained, d);
    DueAgainstPaused(s.drained, l.spans, d);
    CostRuns.StretchesGoForward(s.befell, monthOf, grain, Added);
    if SamplesInOrder(events) {
      DrainedAreApart(events, monthOf, grain, Added, l.spans, d);
    }
    if CostRuns.IsMonthOf(monthOf, grain) && l.back == 0 {
      CostRuns.TotalsCountNothingTwice(s.befell, monthOf, grain);
      OutsideIsPositive(s.drained, l.spans, if l.totals.last.Some? then monthOf(l.totals.last.value) else 0, d);
    }
  }

  // Saving more than is paused

  /** Where a state stands: its last settle, the billionths of hours saved and paused, and what its sampler has. */
  ghost predicate Stands(s: State, monthOf: int -> int, grain: int, last: Option<int>, saved: int, paused: int,
                         sampledAt: Option<int>, pending: seq<Credit>)
    requires grain > 0
  {
    var t := Working(s, monthOf, grain, Added).totals;
    t.last == last && t.savedCpu == saved && t.pausedCpu == paused && s.sampledAt == sampledAt && s.pending == pending
  }

  lemma NothingStands(monthOf: int -> int, grain: int)
    requires grain > 0
    ensures Stands(StateAfter([], monthOf, grain, Added), monthOf, grain, None, 0, 0, None, [])
  {
  }

  lemma StateGoesOn(events: seq<Event>, e: Event, monthOf: int -> int, grain: int, add: (real, int) -> int)
    requires grain > 0
    ensures StateAfter(events + [e], monthOf, grain, add)
            == After(StateAfter(events, monthOf, grain, add), e, monthOf, grain, add)
  {
    assert (events + [e])[..|events|] == events;
  }

  lemma SampleStands(events: seq<Event>, now: int, seen: Option<Sighting>, monthOf: int -> int, grain: int,
                     last: Option<int>, saved: int, paused: int, sampledAt: Option<int>, pending: seq<Credit>)
    requires grain > 0
    requires Stands(StateAfter(events, monthOf, grain, Added), monthOf, grain, last, saved, paused, sampledAt, pending)
    ensures Stands(StateAfter(events + [Samples(now, seen)], monthOf, grain, Added), monthOf, grain,
                   last, saved, paused, Some(now), pending + CreditOf(sampledAt, now, seen))
  {
    StateGoesOn(events, Samples(now, seen), monthOf, grain, Added);
  }

  /** What a settle of an awake workload reads. */
  function Running(rs: Snapshot): Found {
    Awake(Reads(Some(rs.replicas), None, None))
  }

  lemma TotalsGoOn(s: State, now: int, f: Found, monthOf: int -> int, grain: int, add: (real, int) -> int)
    requires grain > 0
    ensures var t := Working(s, monthOf, grain, add).totals;
            var b := MonthStarted(t, now, monthOf);
            var rs, elapsed := CountedAt(b, f), Counted(now - From(b, now));
            rs.Some? ==>
              var next := Working(After(s, Settles(now, f), monthOf, grain, add), monthOf, grain, add).totals;
              && next.last == Some(now) && next.savedCpu == b.savedCpu + add(Credited(s.pending, Cpu), HOUR)
              && next.pausedCpu == b.pausedCpu + if f.Paused? then add(Cores(rs.value), elapsed) else 0
  {
    BooksGoOn(s.befell, CostRuns.Settles(now, f, Hoarded(s.pending)), monthOf, grain, add);
  }

  /** A settle in the same month as the last. */
  lemma SettleGoesOn(s: State, now: int, rs: Snapshot, awake: bool, monthOf: int -> int, grain: int,
                     last: Option<int>, saved: int, paused: int, sampledAt: Option<int>, pending: seq<Credit>)
    requires grain > 0 && Stands(s, monthOf, grain, last, saved, paused, sampledAt, pending)
    requires last.Some? ==> monthOf(last.value) == monthOf(now)
    ensures var elapsed := Counted(now - if last.Some? then last.value else now);
            Stands(After(s, Settles(now, if awake then Running(rs) else Paused(Some(rs))), monthOf, grain, Added),
                   monthOf, grain,
                   Some(now), saved + Added(Credited(pending, Cpu), HOUR),
                   paused + (if awake then 0 else Added(Cores(rs), elapsed)), sampledAt, [])
  {
    TotalsGoOn(s, now, if awake then Running(rs) else Paused(Some(rs)), monthOf, grain, Added);
  }

  lemma SettleStands(events: seq<Event>, now: int, rs: Snapshot, awake: bool, monthOf: int -> int, grain: int,
                     last: Option<int>, saved: int, paused: int, sampledAt: Option<int>, pending: seq<Credit>)
    requires grain > 0
    requires Stands(StateAfter(events, monthOf, grain, Added), monthOf, grain, last, saved, paused, sampledAt, pending)
    requires last.Some? ==> monthOf(last.value) == monthOf(now)
    ensures var elapsed := Counted(now - if last.Some? then last.value else now);
            var f := if awake then Running(rs) else Paused(Some(rs));
            Stands(StateAfter(events + [Settles(now, f)], monthOf, grain, Added), monthOf, grain,
                   Some(now), saved + Added(Credited(pending, Cpu), HOUR),
                   paused + (if awake then 0 else Added(Cores(rs), elapsed)), sampledAt, [])
  {
    StateGoesOn(events, Settles(now, if awake then Running(rs) else Paused(Some(rs))), monthOf, grain, Added);
    SettleGoesOn(StateAfter(events, monthOf, grain, Added), now, rs, awake, monthOf, grain, last, saved, paused,
                 sampledAt, pending);
  }

  /** A settle in a later month, at its start. */
  lemma NewMonthStands(events: seq<Event>, month: int, rs: Snapshot, monthOf: int -> int, grain: int,
                       last: int, saved: int, paused: int, sampledAt: Option<int>, pending: seq<Credit>)
    requires grain > 0 && last < month == monthOf(month) && monthOf(last) != month
    requires Stands(StateAfter(events, monthOf, grain, Added), monthOf, grain, Some(last), saved, paused, sampledAt,
                    pending)
    ensures Stands(StateAfter(events + [Settles(month, Paused(Some(rs)))], monthOf, grain, Added), monthOf, grain,
                   Some(month), Added(Credited(pending, Cpu), HOUR), Added(Cores(rs), 0), sampledAt, [])
  {
    StateGoesOn(events, Settles(month, Paused(Some(rs))), monthOf, grain, Added);
    TotalsGoOn(StateAfter(events, monthOf, grain, Added), month, Paused(Some(rs)), monthOf, grain, Added);
  }

  /** All the pause holds. */
  function Whole(rs: Snapshot, pausedAt: int): Option<Sighting> {
    Some(Sighting(HeldPaused.TotalOf(rs), rs, pausedAt))
  }

  lemma WholeIsWithin(rs: Snapshot)
    ensures Within(HeldPaused.TotalOf(rs), rs)
  {
    ProductIsPositive(rs.replicas, rs.cpuMillis);
    ProductIsPositive(rs.replicas, rs.memoryBytes);
  }

  /**
   * Scaled to zero and sampled at a time; its pods stopped, and settled into Paused, four minutes later; sampled again,
   * at all it holds, and woken, in a minute more.
   */
  function WhilePodsStop(pausedAt: int, rs: Snapshot): seq<Event> {
    [Settles(pausedAt, Running(rs)), Samples(pausedAt, None), Settles(pausedAt + 4 * MINUTE, Running(rs)),
     Samples(pausedAt + 5 * MINUTE, Whole(rs, pausedAt)), Settles(pausedAt + 5 * MINUTE, Paused(Some(rs)))]
  }

  /** Paused ten minutes before a month, sampled then and in five minutes, and settled as the month begins. */
  function AroundTheMonth(month: int, rs: Snapshot): seq<Event> {
    var pausedAt := month - 10 * MINUTE;
    [Settles(pausedAt, Running(rs)), Samples(pausedAt, Whole(rs, pausedAt)),
     Samples(month - 5 * MINUTE, Whole(rs, pausedAt)), Settles(month, Paused(Some(rs)))]
  }

  lemma WhilePodsStopIsFound(pausedAt: int, rs: Snapshot)
    ensures FindsWithin(WhilePodsStop(pausedAt, rs)) && SamplesInOrder(WhilePodsStop(pausedAt, rs))
  {
    WholeIsWithin(rs);
  }

  lemma AroundTheMonthIsFound(month: int, rs: Snapshot)
    ensures FindsWithin(AroundTheMonth(month, rs)) && SamplesInOrder(AroundTheMonth(month, rs))
  {
    WholeIsWithin(rs);
  }

  /** Five minutes at all a pause holds come to more than one. */
  lemma MoreThanAMinute(rs: Snapshot, c: Credit)
    requires c.to - c.from == 5 * MINUTE && c.what == Crediting(HeldPaused.TotalOf(rs), rs) && Cores(rs) >= 0.001
    ensures Added(Credited([c], Cpu), HOUR) > Added(Cores(rs), MINUTE) >= 0
  {
    assert [c][..0] == [];
    SamplerRuns.CreditIsRate(c.what.share, 5 * MINUTE, Cpu);
    assert Credited([c], Cpu) == Cores(rs) * Hours(5 * MINUTE);
    assert Hours(5 * MINUTE) == 1.0 / 12.0 && Hours(MINUTE) == 1.0 / 60.0;
    AnHour(Credited([c], Cpu));
  }

  lemma SomeCores(rs: Snapshot)
    requires rs.replicas > 0 && rs.cpuMillis > 0
    ensures Cores(rs) >= 0.001
  {
    AtLeastOne(rs.replicas, rs.cpuMillis);
  }

  lemma AtLeastOne(a: nat, b: nat)
    requires a > 0 && b > 0
    ensures a as real * b as real >= 1.0
  {
    HoursGrow(1.0, a as real, b as real);
  }

  /** Settled awake, and sampled for the first time. */
  lemma FirstSampled(now: int, seen: Option<Sighting>, rs: Snapshot, monthOf: int -> int, grain: int)
    requires grain > 0
    ensures Stands(StateAfter([Settles(now, Running(rs)), Samples(now, seen)], monthOf, grain, Added), monthOf, grain,
                   Some(now), 0, 0, Some(now), [])
  {
    var first := [Settles(now, Running(rs))];
    NothingAdded(HOUR);
    NothingStands(monthOf, grain);
    SettleStands([], now, rs, true, monthOf, grain, None, 0, 0, None, []);
    assert [] + first == first;
    SampleStands(first, now, seen, monthOf, grain, Some(now), 0, 0, None, []);
    assert [] + CreditOf(None, now, seen) == [];
    assert first + [Samples(now, seen)] == [Settles(now, Running(rs)), Samples(now, seen)];
  }

  /** Sampled at all the pause holds, five minutes after the last sample. */
  lemma WholeSampled(events: seq<Event>, now: int, pausedAt: int, rs: Snapshot, monthOf: int -> int, grain: int,
                     last: int)
    requires grain > 0 && Cores(rs) >= 0.001 && pausedAt == now - 5 * MINUTE
    requires Stands(StateAfter(events, monthOf, grain, Added), monthOf, grain, Some(last), 0, 0, Some(pausedAt), [])
    ensures Stands(StateAfter(events + [Samples(now, Whole(rs, pausedAt))], monthOf, grain, Added), monthOf, grain,
                   Some(last), 0, 0, Some(now), [Span(pausedAt, now, Crediting(HeldPaused.TotalOf(rs), rs))])
  {
    SampleStands(events, now, Whole(rs, pausedAt), monthOf, grain, Some(last), 0, 0, Some(pausedAt), []);
    assert CreditOf(Some(pausedAt), now, Whole(rs, pausedAt))
           == [Span(pausedAt, now, Crediting(HeldPaused.TotalOf(rs), rs))];
    var credits := CreditOf(Some(pausedAt), now, Whole(rs, pausedAt));
    assert [] + credits == credits;
  }

  lemma WokenSoonAfter(events: seq<Event>, pausedAt: int, rs: Snapshot, monthOf: int -> int, grain: int)
    requires grain > 0 && Cores(rs) >= 0.001
    requires monthOf(pausedAt) == monthOf(pausedAt + 4 * MINUTE) == monthOf(pausedAt + 5 * MINUTE)
    requires Stands(StateAfter(events, monthOf, grain, Added), monthOf, grain, Some(pausedAt), 0, 0, Some(pausedAt), [])
    ensures var stopped, sampled := pausedAt + 4 * MINUTE, pausedAt + 5 * MINUTE;
            var all := events + [Settles(stopped, Running(rs))] + [Samples(sampled, Whole(rs, pausedAt))]
                       + [Settles(sampled, Paused(Some(rs)))];
            var t := Working(StateAfter(all, monthOf, grain, Added), monthOf, grain, Added).totals;
            t.last == Some(sampled) && t.pausedCpu == Added(Cores(rs), MINUTE) < t.savedCpu
  {
    var stopped, sampled := pausedAt + 4 * MINUTE, pausedAt + 5 * MINUTE;
    var e1 := events + [Settles(stopped, Running(rs))];
    var c := Span(pausedAt, sampled, Crediting(HeldPaused.TotalOf(rs), rs));
    NothingAdded(HOUR);
    SettleStands(events, stopped, rs, true, monthOf, grain, Some(pausedAt), 0, 0, Some(pausedAt), []);
    WholeSampled(e1, sampled, pausedAt, rs, monthOf, grain, stopped);
    SettleStands(e1 + [Samples(sampled, Whole(rs, pausedAt))], sampled, rs, false, monthOf, grain, Some(stopped), 0, 0,
                 Some(sampled), [c]);
    MoreThanAMinute(rs, c);
  }

  /**
   * Time counts as awake until the pods have stopped, and is credited from when the target was scaled to zero: woken
   * soon after that's sampled, a workload saves more than it was paused for.
   */
  lemma StoppingPodsSaveMoreThanPaused(pausedAt: int, rs: Snapshot, monthOf: int -> int, grain: int)
    requires grain > 0 && CostRuns.IsMonthOf(monthOf, grain) && monthOf(pausedAt) == monthOf(pausedAt + 5 * MINUTE)
    requires rs.replicas > 0 && rs.cpuMillis > 0
    ensures var events := WhilePodsStop(pausedAt, rs);
            var t := Working(StateAfter(events, monthOf, grain, Added), monthOf, grain, Added).totals;
            && FindsWithin(events) && SamplesInOrder(events)
            && t.last == Some(pausedAt + 5 * MINUTE) && t.pausedCpu == Added(Cores(rs), MINUTE) < t.savedCpu
  {
    var stopped, sampled := pausedAt + 4 * MINUTE, pausedAt + 5 * MINUTE;
    assert CostRuns.MonthsInOrder(monthOf, pausedAt, stopped) && CostRuns.MonthsInOrder(monthOf, stopped, sampled);
    SomeCores(rs);
    WhilePodsStopIsFound(pausedAt, rs);
    FirstSampled(pausedAt, None, rs, monthOf, grain);
    WokenSoonAfter([Settles(pausedAt, Running(rs)), Samples(pausedAt, None)], pausedAt, rs, monthOf, grain);
    assert [Settles(pausedAt, Running(rs)), Samples(pausedAt, None)] + [Settles(stopped, Running(rs))]
           + [Samples(sampled, Whole(rs, pausedAt))] + [Settles(sampled, Paused(Some(rs)))]
             == WhilePodsStop(pausedAt, rs);
  }

  lemma NothingCounted(rate: real)
    ensures Added(rate, 0) == 0
  {
    assert Hours(0) == 0.0;
  }

  lemma TurnsTheMonth(events: seq<Event>, month: int, rs: Snapshot, monthOf: int -> int, grain: int)
    requires grain > 0 && Cores(rs) >= 0.001 && monthOf(month) == month && monthOf(month - 10 * MINUTE) != month
    requires Stands(StateAfter(events, monthOf, grain, Added), monthOf, grain, Some(month - 10 * MINUTE), 0, 0,
                    Some(month - 10 * MINUTE), [])
    ensures var pausedAt := month - 10 * MINUTE;
            var all := events + [Samples(month - 5 * MINUTE, Whole(rs, pausedAt))] + [Settles(month, Paused(Some(rs)))];
            var t := Working(StateAfter(all, monthOf, grain, Added), monthOf, grain, Added).totals;
            t.last == Some(month) && t.pausedCpu == 0 < t.savedCpu
  {
    var pausedAt, sampled := month - 10 * MINUTE, month - 5 * MINUTE;
    var c := Span(pausedAt, sampled, Crediting(HeldPaused.TotalOf(rs), rs));
    WholeSampled(events, sampled, pausedAt, rs, monthOf, grain, pausedAt);
    NewMonthStands(events + [Samples(sampled, Whole(rs, pausedAt))], month, rs, monthOf, grain, pausedAt, 0, 0,
                   Some(sampled), [c]);
    MoreThanAMinute(rs, c);
    NothingCounted(Cores(rs));
  }

  /** What was credited before a month began is drained into it: more is saved in it than was paused. */
  lemma NewMonthSavesMoreThanPaused(month: int, rs: Snapshot, monthOf: int -> int, grain: int)
    requires grain > 0 && CostRuns.IsMonthOf(monthOf, grain) && monthOf(month) == month
    requires rs.replicas > 0 && rs.cpuMillis > 0
    ensures var events := AroundTheMonth(month, rs);
            var t := Working(StateAfter(events, monthOf, grain, Added), monthOf, grain, Added).totals;
            && FindsWithin(events) && SamplesInOrder(events)
            && t.last == Some(month) && t.pausedCpu == 0 < t.savedCpu
  {
    var pausedAt := month - 10 * MINUTE;
    assert CostRuns.MonthAt(monthOf, grain, pausedAt);
    SomeCores(rs);
    AroundTheMonthIsFound(month, rs);
    FirstSampled(pausedAt, Whole(rs, pausedAt), rs, monthOf, grain);
    TurnsTheMonth([Settles(pausedAt, Running(rs)), Samples(pausedAt, Whole(rs, pausedAt))], month, rs, monthOf, grain);
    assert [Settles(pausedAt, Running(rs)), Samples(pausedAt, Whole(rs, pausedAt))]
           + [Samples(month - 5 * MINUTE, Whole(rs, pausedAt))] + [Settles(month, Paused(Some(rs)))]
             == AroundTheMonth(month, rs);
  }
}

/** That no run of samples credits a pause with more than it held paused, or any instant twice. */
module SamplerRuns {
  import opened HeldPaused
  import opened Sampler
  import opened Shortfall
  import opened Times
  import opened Workloads
  import opened Wrappers

  /** What befalls one workload: samples, of which it may have no share, failed ones, drains and restarts. */
  datatype Event =
    | Sampled(now: int, share: Option<Resources>, pausedAt: int, present: bool)
    | Failed
    | Drained
    | Restarted

  /** The sampler's state for the workload, what its status was given, the last sample, and the spans credited. */
  datatype Account = Account(sampledAt: Option<int>, pending: Resources, given: Resources, latest: int,
                             spans: seq<Span<Resources>>)

  function After(a: Account, e: Event): Account {
    match e
    case Sampled(now, share, pausedAt, present) =>
      var earned := Earned(a.sampledAt, now, share, pausedAt);
      a.(sampledAt := Some(now), latest := now,
         pending := Plus(if present then a.pending else ZERO, earned),
         spans := if earned.None? then a.spans
                  else a.spans + [Span(now - Covered(a.sampledAt.value, now, pausedAt), now, share.value)])
    case Failed => a.(sampledAt := None)
    case Drained => a.(pending := ZERO, given := a.given.Add(a.pending))
    case Restarted => a.(sampledAt := None, pending := ZERO)
  }

  function AccountAfter(a: Account, events: seq<Event>): Account {
    if events == [] then a else After(AccountAfter(a, events[..|events| - 1]), events[|events| - 1])
  }

  ghost predicate Within(share: Resources, held: Resources) {
    0.0 <= share.cpu <= held.cpu && 0.0 <= share.memory <= held.memory
  }

  /** Samples of one pause, in order: each share of it is within what it holds. */
  ghost predicate OnePause(a: Account, events: seq<Event>, pausedAt: int, held: Resources)
    decreases |events|
  {
    events == [] ||
    (OnePause(a, events[..|events| - 1], pausedAt, held) &&
     var before, e := AccountAfter(a, events[..|events| - 1]), events[|events| - 1];
     e.Sampled? ==> e.now >= before.latest && e.pausedAt == pausedAt && (e.share.Some? ==> Within(e.share.value, held)))
  }

  /** A sampler as the pause began, with hours an earlier pause earned it perhaps yet to drain. */
  ghost predicate Fresh(a: Account, pausedAt: int) {
    a.spans == [] && a.latest <= pausedAt && (a.sampledAt.Some? ==> a.sampledAt.value == a.latest)
    && 0.0 <= a.pending.cpu && 0.0 <= a.pending.memory
  }

  /** What's held, in cores and GiB. */
  function Rate(r: Resources, d: Dim): real {
    if d.Cpu? then r.cpu else r.memory / BYTES_PER_GIB
  }

  /** Spans in order, none overlapping, from the pause to the last sample. */
  ghost predicate Disjoint(spans: seq<Span<Resources>>, from: int, to: int) {
    && (forall i :: 0 <= i < |spans| ==> from <= spans[i].from < spans[i].to <= to)
    && (forall i, j :: 0 <= i < j < |spans| ==> spans[i].to <= spans[j].from)
  }

  /** The most hours a pause may be credited with for a length of time: by all it holds. */
  ghost predicate Bounds(bound: (Dim, int) -> real, held: Resources) {
    forall d, t :: BoundAt(bound, held, d, t)
  }

  /** All that's held, for the time. */
  ghost function Most(held: Resources): (Dim, int) -> real {
    (d: Dim, t: int) => Rate(held, d) * Hours(t)
  }

  ghost predicate BoundAt(bound: (Dim, int) -> real, held: Resources, d: Dim, t: int) {
    bound(d, t) == Rate(held, d) * Hours(t)
  }

  ghost predicate Inv(a: Account, start: Account, pausedAt: int, bound: (Dim, int) -> real) {
    && (a.sampledAt.Some? ==> a.sampledAt.value == a.latest)
    && Disjoint(a.spans, pausedAt, a.latest)
    && 0 <= Length(a.spans) <= Max(0, a.latest - pausedAt)
    && 0.0 <= a.pending.cpu && 0.0 <= a.pending.memory
    && (forall d: Dim :: Total(a, d) <= Total(start, d) + bound(d, Length(a.spans)))
  }

  /** Hours credited, drained or not. */
  function Total(a: Account, d: Dim): real {
    a.given.Of(d) + a.pending.Of(d)
  }

  lemma CreditIsRate(share: Resources, covered: int, d: Dim)
    ensures Credit(share, covered).Of(d) == Rate(share, d) * Hours(covered)
  {
  }

  lemma RateIsWithin(share: Resources, held: Resources, d: Dim)
    requires Within(share, held)
    ensures 0.0 <= Rate(share, d) <= Rate(held, d)
  {
  }

  lemma RateOver(rate: real, held: real, covered: int)
    requires 0.0 <= rate <= held && covered >= 0
    ensures 0.0 <= rate * Hours(covered) <= held * Hours(covered)
  {
  }

  lemma CreditIsWithin(bound: (Dim, int) -> real, held: Resources, share: Resources, covered: int, d: Dim)
    requires Bounds(bound, held) && Within(share, held) && covered >= 0
    ensures 0.0 <= Credit(share, covered).Of(d) <= bound(d, covered)
  {
    assert BoundAt(bound, held, d, covered);
    CreditIsRate(share, covered, d);
    RateIsWithin(share, held, d);
    RateOver(Rate(share, d), Rate(held, d), covered);
  }

  lemma BoundAdds(bound: (Dim, int) -> real, held: Resources, d: Dim, a: int, b: int)
    requires Bounds(bound, held)
    ensures bound(d, a + b) == bound(d, a) + bound(d, b)
  {
    assert BoundAt(bound, held, d, a + b) && BoundAt(bound, held, d, a) && BoundAt(bound, held, d, b);
    assert Hours(a + b) == Hours(a) + Hours(b);
  }

  lemma DisjointJoins(spans: seq<Span<Resources>>, span: Span<Resources>, from: int, to: int)
    requires Disjoint(spans, from, to) && to <= span.from && from <= span.from < span.to
    ensures Disjoint(spans + [span], from, span.to)
  {
  }

  lemma SpanKeepsInv(a: Account, next: Account, start: Account, pausedAt: int, bound: (Dim, int) -> real,
                     span: Span<Resources>)
    requires Inv(a, start, pausedAt, bound)
    requires next.sampledAt == Some(span.to) && next.latest == span.to >= a.latest && next.spans == a.spans + [span]
    requires pausedAt <= span.from < span.to && a.latest <= span.from
    requires 0.0 <= next.pending.cpu && 0.0 <= next.pending.memory
    requires forall d: Dim :: Total(next, d) <= Total(start, d) + bound(d, Length(a.spans) + (span.to - span.from))
    ensures Inv(next, start, pausedAt, bound)
  {
    DisjointJoins(a.spans, span, pausedAt, a.latest);
    LengthJoins(a.spans, span);
  }

  lemma SampleKeepsInv(a: Account, start: Account, pausedAt: int, held: Resources, bound: (Dim, int) -> real, e: Event)
    requires Bounds(bound, held)
    requires Inv(a, start, pausedAt, bound) && e.Sampled? && e.now >= a.latest && e.pausedAt == pausedAt
    requires e.share.Some? && Within(e.share.value, held)
    requires Earned(a.sampledAt, e.now, e.share, pausedAt).Some?
    ensures Inv(After(a, e), start, pausedAt, bound)
  {
    var covered := Covered(a.sampledAt.value, e.now, pausedAt);
    var credit := Credit(e.share.value, covered);
    CreditIsBounded(bound, held, e.share.value, covered, Length(a.spans));
    CreditKeepsTotals(a, start, bound, credit, covered, e.present);
    var next := After(a, e);
    assert next.pending == Plus(if e.present then a.pending else ZERO, Some(credit)) && next.given == a.given;
    SpanKeepsInv(a, next, start, pausedAt, bound, Span(e.now - covered, e.now, e.share.value));
  }

  lemma CreditIsBounded(bound: (Dim, int) -> real, held: Resources, share: Resources, covered: int, before: int)
    requires Bounds(bound, held) && Within(share, held) && covered >= 0
    ensures forall d: Dim :: 0.0 <= Credit(share, covered).Of(d) <= bound(d, covered)
    ensures forall d: Dim :: bound(d, before + covered) == bound(d, before) + bound(d, covered)
  {
    forall d: Dim
      ensures 0.0 <= Credit(share, covered).Of(d) <= bound(d, covered)
      ensures bound(d, before + covered) == bound(d, before) + bound(d, covered)
    {
      CreditIsWithin(bound, held, share, covered, d);
      BoundAdds(bound, held, d, before, covered);
    }
  }

  lemma CreditKeepsTotals(a: Account, start: Account, bound: (Dim, int) -> real, credit: Resources, covered: int,
                          present: bool)
    requires 0.0 <= a.pending.cpu && 0.0 <= a.pending.memory
    requires forall d: Dim :: Total(a, d) <= Total(start, d) + bound(d, Length(a.spans))
    requires forall d: Dim :: 0.0 <= credit.Of(d) <= bound(d, covered)
    requires forall d: Dim ::
               bound(d, Length(a.spans) + covered) == bound(d, Length(a.spans)) + bound(d, covered)
    ensures var pending := Plus(if present then a.pending else ZERO, Some(credit));
            && 0.0 <= pending.cpu && 0.0 <= pending.memory
            && forall d: Dim :: a.given.Of(d) + pending.Of(d) <= Total(start, d) + bound(d, Length(a.spans) + covered)
  {
    assert 0.0 <= credit.Of(Cpu) && 0.0 <= credit.Of(Memory);
    forall d: Dim
      ensures a.given.Of(d) + Plus(if present then a.pending else ZERO, Some(credit)).Of(d)
              <= Total(start, d) + bound(d, Length(a.spans) + covered)
    {
      assert Total(a, d) <= Total(start, d) + bound(d, Length(a.spans));
    }
  }

  lemma {:induction false} AlwaysInv(start: Account, events: seq<Event>, pausedAt: int, held: Resources,
                                     bound: (Dim, int) -> real)
    requires Bounds(bound, held) && Fresh(start, pausedAt) && OnePause(start, events, pausedAt, held)
    ensures Inv(AccountAfter(start, events), start, pausedAt, bound)
    decreases |events|
  {
    if events == [] {
      forall d: Dim
        ensures bound(d, 0) == 0.0
      {
        assert BoundAt(bound, held, d, 0);
      }
    } else {
      var before, e := events[..|events| - 1], events[|events| - 1];
      AlwaysInv(start, before, pausedAt, held, bound);
      OtherKeepsInv(AccountAfter(start, before), start, pausedAt, held, bound, e);
    }
  }

  lemma OtherKeepsInv(a: Account, start: Account, pausedAt: int, held: Resources, bound: (Dim, int) -> real, e: Event)
    requires Bounds(bound, held) && Inv(a, start, pausedAt, bound)
    requires e.Sampled? ==>
               e.now >= a.latest && e.pausedAt == pausedAt && (e.share.Some? ==> Within(e.share.value, held))
    ensures Inv(After(a, e), start, pausedAt, bound)
  {
    if e.Sampled? && Earned(a.sampledAt, e.now, e.share, e.pausedAt).Some? {
      SampleKeepsInv(a, start, pausedAt, held, bound, e);
    } else {
      forall d: Dim
        ensures Total(After(a, e), d) <= Total(a, d)
      {
      }
    }
  }

  /** An account of shares within what the pause holds has at most that for the time it has lasted. */
  lemma AccountIsWithinPause(start: Account, events: seq<Event>, pausedAt: int, held: Resources, d: Dim)
    requires Fresh(start, pausedAt) && OnePause(start, events, pausedAt, held)
    requires held.cpu >= 0.0 && held.memory >= 0.0
    ensures var a := AccountAfter(start, events);
            && Disjoint(a.spans, pausedAt, a.latest) && 0 <= Length(a.spans) <= Max(0, a.latest - pausedAt)
            && Total(a, d) <= Total(start, d) + Most(held)(d, Length(a.spans))
            && Most(held)(d, Length(a.spans)) <= Most(held)(d, Max(0, a.latest - pausedAt))
  {
    TotalIsBounded(start, events, pausedAt, held, d);
    var a := AccountAfter(start, events);
    MostGrows(held, d, Length(a.spans), Max(0, a.latest - pausedAt));
  }

  /** What befalls all workloads: samples of what there is, failed ones, drains and restarts. */
  datatype Happening =
    | Samples(now: int, workloads: seq<Workload>, spare: map<Pool, Resources>)
    | SampleFails
    | Drains
    | Restarts

  /** What a sample credits the workload by: its share of the shortfalls, if any was found of what it holds paused. */
  ghost function ShareFound(workloads: seq<Workload>, spare: map<Pool, Resources>, uid: Uid): Option<Resources> {
    if exists h :: h in Splits(workloads) && h.workload == uid
    then Some(Resources(ShareIn(Splits(workloads), spare, Cpu)(uid), ShareIn(Splits(workloads), spare, Memory)(uid)))
    else None
  }

  /** What it is to one workload, in a pause that began when it says. */
  ghost function AsFor(e: Happening, uid: Uid, pausedAt: int): Event {
    match e
    case Samples(now, workloads, spare) =>
      Sampled(now, ShareFound(workloads, spare, uid), pausedAt, exists w :: w in workloads && w.uid == uid)
    case SampleFails => Failed
    case Drains => Drained
    case Restarts => Restarted
  }

  ghost function AllAsFor(events: seq<Happening>, uid: Uid, pausedAt: int): seq<Event> {
    if events == [] then []
    else AllAsFor(events[..|events| - 1], uid, pausedAt) + [AsFor(events[|events| - 1], uid, pausedAt)]
  }

  /**
   * Samples are in order, of what workloads and spare there may be, and find the workload in that one pause if at all.
   */
  ghost predicate OfOnePause(start: Account, events: seq<Happening>, uid: Uid, rs: Snapshot, pausedAt: int)
    decreases |events|
  {
    events == [] ||
    (var before, e := events[..|events| - 1], events[|events| - 1];
     && OfOnePause(start, before, uid, rs, pausedAt)
     && (e.Samples? ==>
           && e.now >= AccountAfter(start, AllAsFor(before, uid, pausedAt)).latest
           && Distinct(e.workloads) && (forall p, d: Dim :: p in e.spare ==> e.spare[p].Of(d) >= 0.0)
           && forall w :: w in e.workloads && w.uid == uid && Counts(w) ==>
                w.pause == Some(Pause(Some(rs), Some(pausedAt)))))
  }

  lemma ShareFoundIsWithin(workloads: seq<Workload>, spare: map<Pool, Resources>, uid: Uid, rs: Snapshot, pausedAt: int)
    requires Distinct(workloads) && forall p, d: Dim :: p in spare ==> spare[p].Of(d) >= 0.0
    requires forall w :: w in workloads && w.uid == uid && Counts(w) ==>
               w.pause == Some(Pause(Some(rs), Some(pausedAt)))
    ensures var share := ShareFound(workloads, spare, uid); share.Some? ==> Within(share.value, TotalOf(rs))
  {
    if h :| h in Splits(workloads) && h.workload == uid {
      SplitsAreOf(workloads);
      var w :| w in workloads && Counts(w) && w.uid == uid;
      var i :| 0 <= i < |workloads| && workloads[i] == w;
      ShareIsWithinTotal(workloads, spare, i, Cpu);
      ShareIsWithinTotal(workloads, spare, i, Memory);
    }
  }

  lemma {:induction false} SharesAreWithin(start: Account, events: seq<Happening>, uid: Uid, rs: Snapshot,
                                           pausedAt: int)
    requires OfOnePause(start, events, uid, rs, pausedAt)
    ensures OnePause(start, AllAsFor(events, uid, pausedAt), pausedAt, TotalOf(rs))
  {
    if events != [] {
      var before, e := events[..|events| - 1], events[|events| - 1];
      SharesAreWithin(start, before, uid, rs, pausedAt);
      var all := AllAsFor(events, uid, pausedAt);
      assert all[..|all| - 1] == AllAsFor(before, uid, pausedAt);
      if e.Samples? {
        ShareFoundIsWithin(e.workloads, e.spare, uid, rs, pausedAt);
      }
    }
  }

  /**
   * Over any run of samples of whatever the cluster has, failed samples, drains and restarts, a pause is credited with
   * at most what it holds for the time it has lasted, and no instant is credited twice.
   */
  lemma CreditIsWithinPause(start: Account, events: seq<Happening>, uid: Uid, rs: Snapshot, pausedAt: int, d: Dim)
    requires Fresh(start, pausedAt) && OfOnePause(start, events, uid, rs, pausedAt)
    ensures var a, held := AccountAfter(start, AllAsFor(events, uid, pausedAt)), TotalOf(rs);
            && Disjoint(a.spans, pausedAt, a.latest) && 0 <= Length(a.spans) <= Max(0, a.latest - pausedAt)
            && Total(a, d) <= Total(start, d) + Most(held)(d, Length(a.spans))
            && Most(held)(d, Length(a.spans)) <= Most(held)(d, Max(0, a.latest - pausedAt))
  {
    SharesAreWithin(start, events, uid, rs, pausedAt);
    AccountIsWithinPause(start, AllAsFor(events, uid, pausedAt), pausedAt, TotalOf(rs), d);
  }

  lemma MostGrows(held: Resources, d: Dim, less: int, more: int)
    requires held.cpu >= 0.0 && held.memory >= 0.0 && less <= more
    ensures Most(held)(d, less) <= Most(held)(d, more)
  {
    RateIsWithin(held, held, d);
    MoreHours(Rate(held, d), less, more);
  }

  lemma TotalIsBounded(start: Account, events: seq<Event>, pausedAt: int, held: Resources, d: Dim)
    requires Fresh(start, pausedAt) && OnePause(start, events, pausedAt, held)
    ensures var a := AccountAfter(start, events);
            && Disjoint(a.spans, pausedAt, a.latest) && 0 <= Length(a.spans) <= Max(0, a.latest - pausedAt)
            && Total(a, d) <= Total(start, d) + Most(held)(d, Length(a.spans))
  {
    MostBounds(held);
    AlwaysInv(start, events, pausedAt, held, Most(held));
    var a := AccountAfter(start, events);
    assert Inv(a, start, pausedAt, Most(held));
  }

  lemma MostBounds(held: Resources)
    ensures Bounds(Most(held), held)
  {
  }

  lemma MoreHours(rate: real, less: int, more: int)
    requires rate >= 0.0 && less <= more
    ensures rate * Hours(less) <= rate * Hours(more)
  {
  }

  /**
   * While no sample fails, no restart intervenes and samples keep up, all of the time since the one before is credited,
   * at exactly the workload's share.
   */
  lemma KeepingUpCreditsAll(a: Account, e: Event, d: Dim)
    requires e.Sampled? && a.sampledAt.Some? && Earned(a.sampledAt, e.now, e.share, e.pausedAt).Some?
    requires e.now - a.sampledAt.value <= SAMPLE_INTERVAL && e.pausedAt <= a.sampledAt.value && e.present
    ensures After(a, e).spans == a.spans + [Span(a.sampledAt.value, e.now, e.share.value)]
    ensures Total(After(a, e), d) == Total(a, d) + Rate(e.share.value, d) * Hours(e.now - a.sampledAt.value)
  {
    CreditIsRate(e.share.value, e.now - a.sampledAt.value, d);
  }
}

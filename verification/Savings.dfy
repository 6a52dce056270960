/** What credits to a workload's pauses come to, against the stretches counted as paused. */
module Savings {
  import opened CostTotals
  import opened Shortfall
  import opened Times
  import opened Workloads
  import CostRuns
  import Sampler
  import SamplerRuns

  /** At what share a stretch is credited, of a pause that holds what. */
  datatype Crediting = Crediting(share: Resources, rs: Snapshot)

  type Credit = Span<Crediting>

  type Stretch = CostRuns.Stretch

  /** What a snapshot requests: cores, or GiB. */
  function Rate(rs: Snapshot, d: Dim): real {
    if d.Cpu? then Cores(rs) else Gib(rs)
  }

  /** An hourly rate over a time. */
  function Full(rate: real, t: int): real {
    rate * Hours(t)
  }

  ghost predicate Within(share: Resources, rs: Snapshot) {
    forall d :: 0.0 <= SamplerRuns.Rate(share, d) <= Rate(rs, d)
  }

  ghost predicate AllWithin(credits: seq<Credit>) {
    forall i :: 0 <= i < |credits| ==>
        credits[i].from < credits[i].to && Within(credits[i].what.share, credits[i].what.rs)
  }

  /** Every share is all the pause holds. */
  ghost predicate AllHeld(credits: seq<Credit>, d: Dim) {
    forall i :: 0 <= i < |credits| ==> SamplerRuns.Rate(credits[i].what.share, d) == Rate(credits[i].what.rs, d)
  }

  /** The hours credits come to, of a core or a GiB. */
  function Credited(credits: seq<Credit>, d: Dim): real {
    if credits == [] then 0.0
    else
      var last := credits[|credits| - 1];
      Credited(credits[..|credits| - 1], d) + Sampler.Credit(last.what.share, last.to - last.from).Of(d)
  }

  /** What credits would come to at all that's held. */
  function Due(credits: seq<Credit>, d: Dim): real {
    if credits == [] then 0.0
    else
      var last := credits[|credits| - 1];
      Due(credits[..|credits| - 1], d) + Full(Rate(last.what.rs, d), last.to - last.from)
  }

  /** What a stretch counts as paused, an hour. */
  function Freed(p: Stretch, d: Dim): real {
    if p.what.awake then 0.0 else Rate(p.what.rs, d)
  }

  /** What stretches count as paused. */
  function PausedFor(spans: seq<Stretch>, d: Dim): real {
    if spans == [] then 0.0
    else
      var last := spans[|spans| - 1];
      PausedFor(spans[..|spans| - 1], d) + Full(Freed(last, d), last.to - last.from)
  }

  /**
   * The time a credit has in common with a stretch, when that is counted as paused with what the credit's pause holds.
   */
  function Common(c: Credit, p: Stretch): int {
    if p.what.awake || p.what.rs != c.what.rs then 0 else Max(0, Min(c.to, p.to) - Max(c.from, p.from))
  }

  /** The time of a credit that stretches count. */
  function TimeCounted(c: Credit, spans: seq<Stretch>): int {
    if spans == [] then 0 else TimeCounted(c, spans[..|spans| - 1]) + Common(c, spans[|spans| - 1])
  }

  /** The time of a stretch that's credited. */
  function TimeCredited(p: Stretch, credits: seq<Credit>): int {
    if credits == [] then 0 else TimeCredited(p, credits[..|credits| - 1]) + Common(credits[|credits| - 1], p)
  }

  /** The hours due for the time of credits that no stretch counts. */
  function Outside(credits: seq<Credit>, spans: seq<Stretch>, d: Dim): real {
    if credits == [] then 0.0
    else
      var last := credits[|credits| - 1];
      Outside(credits[..|credits| - 1], spans, d)
        + Full(Rate(last.what.rs, d), last.to - last.from - TimeCounted(last, spans))
  }

  /** The hours counted as paused for the time that no credit covers. */
  function Uncredited(spans: seq<Stretch>, credits: seq<Credit>, d: Dim): real {
    if spans == [] then 0.0
    else
      var last := spans[|spans| - 1];
      Uncredited(spans[..|spans| - 1], credits, d)
        + Full(Freed(last, d), last.to - last.from - TimeCredited(last, credits))
  }

  /** The hours both count, credit by credit. */
  function BothByCredit(credits: seq<Credit>, spans: seq<Stretch>, d: Dim): real {
    if credits == [] then 0.0
    else
      var last := credits[|credits| - 1];
      BothByCredit(credits[..|credits| - 1], spans, d) + Full(Rate(last.what.rs, d), TimeCounted(last, spans))
  }

  /** And stretch by stretch. */
  function BothByStretch(spans: seq<Stretch>, credits: seq<Credit>, d: Dim): real {
    if spans == [] then 0.0
    else
      var last := spans[|spans| - 1];
      BothByStretch(spans[..|spans| - 1], credits, d) + Full(Freed(last, d), TimeCredited(last, credits))
  }

  // What's due against what's paused

  lemma FullAdds(rate: real, t: int, u: int)
    ensures Full(rate, t + u) == Full(rate, t) + Full(rate, u) && Full(rate, 0) == 0.0
  {
  }

  lemma NothingFreed(t: int)
    ensures Full(0.0, t) == 0.0
  {
  }

  lemma CommonIsBoth(c: Credit, p: Stretch, d: Dim)
    ensures Full(Freed(p, d), Common(c, p)) == Full(Rate(c.what.rs, d), Common(c, p))
  {
    FullAdds(Rate(c.what.rs, d), 0, 0);
    FullAdds(Freed(p, d), 0, 0);
  }

  lemma {:induction false} NoneByStretch(spans: seq<Stretch>, d: Dim)
    ensures BothByStretch(spans, [], d) == 0.0
  {
    if spans != [] {
      NoneByStretch(spans[..|spans| - 1], d);
      FullAdds(Freed(spans[|spans| - 1], d), 0, 0);
    }
  }

  /** What another credit adds to stretches is what stretches count of it. */
  lemma {:induction false} CreditJoins(spans: seq<Stretch>, credits: seq<Credit>, c: Credit, d: Dim)
    ensures BothByStretch(spans, credits + [c], d)
            == BothByStretch(spans, credits, d) + Full(Rate(c.what.rs, d), TimeCounted(c, spans))
  {
    assert (credits + [c])[..|credits|] == credits;
    if spans == [] {
      FullAdds(Rate(c.what.rs, d), 0, 0);
    } else {
      var before, p := spans[..|spans| - 1], spans[|spans| - 1];
      CreditJoins(before, credits, c, d);
      FullAdds(Freed(p, d), TimeCredited(p, credits), Common(c, p));
      FullAdds(Rate(c.what.rs, d), TimeCounted(c, before), Common(c, p));
      CommonIsBoth(c, p, d);
    }
  }

  lemma {:induction false} BothAreOne(credits: seq<Credit>, spans: seq<Stretch>, d: Dim)
    ensures BothByCredit(credits, spans, d) == BothByStretch(spans, credits, d)
  {
    if credits == [] {
      NoneByStretch(spans, d);
    } else {
      var before, last := credits[..|credits| - 1], credits[|credits| - 1];
      BothAreOne(before, spans, d);
      CreditJoins(spans, before, last, d);
      assert before + [last] == credits;
    }
  }

  lemma {:induction false} DueIsBothAndOutside(credits: seq<Credit>, spans: seq<Stretch>, d: Dim)
    ensures Due(credits, d) == BothByCredit(credits, spans, d) + Outside(credits, spans, d)
  {
    if credits != [] {
      var last := credits[|credits| - 1];
      DueIsBothAndOutside(credits[..|credits| - 1], spans, d);
      FullAdds(Rate(last.what.rs, d), TimeCounted(last, spans), last.to - last.from - TimeCounted(last, spans));
    }
  }

  lemma {:induction false} PausedIsBothAndUncredited(spans: seq<Stretch>, credits: seq<Credit>, d: Dim)
    ensures PausedFor(spans, d) == BothByStretch(spans, credits, d) + Uncredited(spans, credits, d)
  {
    if spans != [] {
      var last := spans[|spans| - 1];
      PausedIsBothAndUncredited(spans[..|spans| - 1], credits, d);
      FullAdds(Freed(last, d), TimeCredited(last, credits), last.to - last.from - TimeCredited(last, credits));
    }
  }

  /** What's due beyond what's credited of the time counted, against what's counted beyond what's credited. */
  lemma DueAgainstPaused(credits: seq<Credit>, spans: seq<Stretch>, d: Dim)
    ensures Due(credits, d) - Outside(credits, spans, d) == PausedFor(spans, d) - Uncredited(spans, credits, d)
  {
    DueIsBothAndOutside(credits, spans, d);
    PausedIsBothAndUncredited(spans, credits, d);
    BothAreOne(credits, spans, d);
  }

  // Shares

  lemma FullGrows(less: real, more: real, t: int)
    requires less <= more && t >= 0
    ensures Full(less, t) <= Full(more, t)
  {
    HoursGrow(less, more, Hours(t));
  }

  lemma HoursGrow(less: real, more: real, t: real)
    requires less <= more && t >= 0.0
    ensures less * t <= more * t
  {
  }

  lemma CreditIsWithin(c: Credit, d: Dim)
    requires c.from < c.to && Within(c.what.share, c.what.rs)
    ensures var hours := Sampler.Credit(c.what.share, c.to - c.from).Of(d);
            && hours <= Full(Rate(c.what.rs, d), c.to - c.from)
            && (SamplerRuns.Rate(c.what.share, d) == Rate(c.what.rs, d) ==>
                  hours == Full(Rate(c.what.rs, d), c.to - c.from))
  {
    SamplerRuns.CreditIsRate(c.what.share, c.to - c.from, d);
    FullGrows(SamplerRuns.Rate(c.what.share, d), Rate(c.what.rs, d), c.to - c.from);
  }

  lemma {:induction false} CreditedIsDue(credits: seq<Credit>, d: Dim)
    requires AllWithin(credits)
    ensures Credited(credits, d) <= Due(credits, d)
    ensures AllHeld(credits, d) ==> Credited(credits, d) == Due(credits, d)
  {
    if credits != [] {
      CreditedIsDue(credits[..|credits| - 1], d);
      CreditIsWithin(credits[|credits| - 1], d);
    }
  }

  lemma {:induction false} CreditedJoins(a: seq<Credit>, b: seq<Credit>, d: Dim)
    ensures Credited(a + b, d) == Credited(a, d) + Credited(b, d)
    decreases |b|
  {
    if b == [] {
      assert a + b == a;
    } else {
      CreditedJoins(a, b[..|b| - 1], d);
      assert (a + b)[..|a + b| - 1] == a + b[..|b| - 1];
    }
  }

  // Counting, and crediting, once

  /** Credits follow one another, none overlapping, up to a time. */
  ghost predicate Apart(credits: seq<Credit>, to: int) {
    && (forall i :: 0 <= i < |credits| ==> credits[i].from < credits[i].to <= to)
    && (forall i, j :: 0 <= i < j < |credits| ==> credits[i].to <= credits[j].from)
  }

  lemma PartsAreApart(a: seq<Credit>, b: seq<Credit>, to: int)
    requires Apart(a + b, to)
    ensures Apart(a, to) && Apart(b, to)
  {
    assert forall i :: 0 <= i < |a| ==> a[i] == (a + b)[i];
    assert forall i :: 0 <= i < |b| ==> b[i] == (a + b)[|a| + i];
  }

  lemma {:induction false} CreditedOnce(p: Stretch, credits: seq<Credit>, to: int)
    requires Apart(credits, to)
    ensures 0 <= TimeCredited(p, credits) <= Max(0, Min(p.to, to) - p.from)
  {
    if credits != [] {
      CreditedOnce(p, credits[..|credits| - 1], credits[|credits| - 1].from);
    }
  }

  /** Stretches none of which overlaps those before count no time of a credit twice. */
  lemma {:induction false} CountedOnce(c: Credit, spans: seq<Stretch>, start: int)
    requires CostRuns.Forward(spans) && CostRuns.Overlapped(spans, start) == 0 && c.from <= c.to
    ensures 0 <= TimeCounted(c, spans) <= Max(0, Min(c.to, CostRuns.Reach(spans, start)) - c.from)
  {
    if spans != [] {
      var before := spans[..|spans| - 1];
      CostRuns.LengthIsReached(before, start);
      CountedOnce(c, before, start);
    }
  }

  lemma ProductIsPositive(a: nat, b: nat)
    ensures a as real * b as real >= 0.0
  {
  }

  lemma RateIsPositive(rs: Snapshot, t: int, d: Dim)
    requires t >= 0
    ensures Full(Rate(rs, d), t) >= 0.0
  {
    ProductIsPositive(rs.replicas, rs.cpuMillis);
    ProductIsPositive(rs.replicas, rs.memoryBytes);
    FullGrows(0.0, Rate(rs, d), t);
    NothingFreed(t);
  }

  lemma {:induction false} UncreditedIsPositive(spans: seq<Stretch>, credits: seq<Credit>, to: int, d: Dim)
    requires CostRuns.Forward(spans) && Apart(credits, to)
    ensures Uncredited(spans, credits, d) >= 0.0
  {
    if spans != [] {
      var last := spans[|spans| - 1];
      UncreditedIsPositive(spans[..|spans| - 1], credits, to, d);
      CreditedOnce(last, credits, to);
      RateIsPositive(last.what.rs, last.to - last.from - TimeCredited(last, credits), d);
      NothingFreed(last.to - last.from - TimeCredited(last, credits));
    }
  }

  lemma {:induction false} OutsideIsPositive(credits: seq<Credit>, spans: seq<Stretch>, start: int, d: Dim)
    requires CostRuns.Forward(spans) && CostRuns.Overlapped(spans, start) == 0 && AllWithin(credits)
    ensures Outside(credits, spans, d) >= 0.0
  {
    if credits != [] {
      var last := credits[|credits| - 1];
      OutsideIsPositive(credits[..|credits| - 1], spans, start, d);
      CountedOnce(last, spans, start);
      RateIsPositive(last.what.rs, last.to - last.from - TimeCounted(last, spans), d);
    }
  }

  // Hours as they're counted

  lemma NanoHoursAreFull(rate: real, t: int)
    ensures NanoHours(rate, t) == Full(rate, t) * 1000000000.0
  {
  }

  lemma ExactJoins(own: seq<Stretch>, last: Stretch, rate: Snapshot -> real)
    ensures CostRuns.Exact(own + [last], rate)
            == CostRuns.Exact(own, rate) + NanoHours(rate(last.what.rs), last.to - last.from)
  {
    assert (own + [last])[..|own|] == own;
  }

  lemma InPhaseJoins(before: seq<Stretch>, last: Stretch)
    ensures CostRuns.InPhase(before + [last], false)
            == CostRuns.InPhase(before, false) + if last.what.awake then [] else [last]
  {
    assert (before + [last])[..|before|] == before;
  }

  lemma PausedForJoins(before: seq<Stretch>, last: Stretch, d: Dim)
    ensures PausedFor(before + [last], d) == PausedFor(before, d) + Full(Freed(last, d), last.to - last.from)
  {
    assert (before + [last])[..|before|] == before;
  }

  /** The stretches counted as paused come to what is paused for. */
  lemma {:induction false} ExactIsPaused(spans: seq<Stretch>, rate: Snapshot -> real, d: Dim)
    requires forall rs: Snapshot :: rate(rs) == Rate(rs, d)
    ensures CostRuns.Exact(CostRuns.InPhase(spans, false), rate) == PausedFor(spans, d) * 1000000000.0
  {
    if spans != [] {
      var before, last := spans[..|spans| - 1], spans[|spans| - 1];
      assert before + [last] == spans;
      ExactIsPaused(before, rate, d);
      InPhaseJoins(before, last);
      PausedForJoins(before, last, d);
      ExactJoins(CostRuns.InPhase(before, false), last, rate);
      NothingFreed(last.to - last.from);
      NanoHoursAreFull(rate(last.what.rs), last.to - last.from);
      assert CostRuns.InPhase(before, false) + [] == CostRuns.InPhase(before, false);
    }
  }

  lemma {:induction false} PhaseIsPart(spans: seq<Stretch>, awake: bool)
    ensures |CostRuns.InPhase(spans, awake)| <= |spans|
  {
    if spans != [] {
      PhaseIsPart(spans[..|spans| - 1], awake);
    }
  }
}

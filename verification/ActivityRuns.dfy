/** What a clock pause says of the time before it, over any run of checks, restarts and resets of one workload. */
module ActivityRuns {
  import opened ActivityClock
  import opened Times
  import opened Wrappers

  datatype Event =
    | Checked(look: Look)
    | Restarted(at: int)
    | Reset(at: int, source: Source)

  /** The operator's memory, the clocks there have been, any of which a status may have, and the last evaluation. */
  datatype World = World(memo: Option<Remembered>, made: set<Clock>, now: int, evaluated: Option<int>)

  function Time(e: Event): int {
    if e.Checked? then e.look.now else e.at
  }

  /** A clock as a status keeps it, with times to the second. */
  function StoredClock(c: Clock): Clock {
    c.(lastActivity := Seconds(c.lastActivity), pauseAt := Seconds(c.pauseAt),
       lastEvaluated := if c.lastEvaluated.Some? then Some(Seconds(c.lastEvaluated.value)) else None)
  }

  /** A status has no clock, or one made some time before: writes fail, and reads are stale. */
  ghost predicate Reads(w: World, read: Option<Clock>) {
    read.None? || exists c :: c in w.made && read.value == StoredClock(c)
  }

  ghost predicate Allowed(w: World, e: Event) {
    Time(e) >= w.now && (e.Checked? ==> Reads(w, e.look.read))
  }

  function Put(w: World, c: Clock, now: int, evaluated: bool): World {
    World(Some(Remembered(c, now)), w.made + {c}, now, if evaluated then Some(now) else w.evaluated)
  }

  function After(w: World, e: Event, idleAfter: int): World {
    match e
    case Checked(l) => Put(w, Observed(w.memo, l, idleAfter), l.now, Readable(l) || l.read.None?)
    case Restarted(t) => w.(memo := None, now := t)
    case Reset(t, source) => Put(w, Started(t, source, idleAfter), t, true)
  }

  function WorldAt(events: seq<Event>, idleAfter: int, k: nat): World
    requires k <= |events|
  {
    if k == 0 then World(None, {}, 0, None) else After(WorldAt(events, idleAfter, k - 1), events[k - 1], idleAfter)
  }

  ghost predicate IsRun(events: seq<Event>, idleAfter: int) {
    forall k: nat :: k < |events| ==> AllowedAt(events, idleAfter, k)
  }

  ghost predicate AllowedAt(events: seq<Event>, idleAfter: int, k: nat)
    requires k < |events|
  {
    Allowed(WorldAt(events, idleAfter, k), events[k])
  }

  /** The clock a check leaves. */
  function ClockOf(events: seq<Event>, idleAfter: int, k: nat): Clock
    requires k < |events| && events[k].Checked?
  {
    Observed(WorldAt(events, idleAfter, k).memo, events[k].look, idleAfter)
  }

  /** The times an event moves the clock to of its own accord. */
  ghost function MarksAt(events: seq<Event>, idleAfter: int, k: nat): set<int>
    requires k < |events|
  {
    match events[k]
    case Checked(l) => Marks(WorldAt(events, idleAfter, k).memo, l, idleAfter)
    case Restarted(_) => {}
    case Reset(t, _) => {t}
  }

  /** A restarted operator's first check, in a would-be pause: it goes by a status that may be behind. */
  ghost predicate Forgets(events: seq<Event>, idleAfter: int, k: nat)
    requires k < |events|
  {
    && events[k].Checked? && events[k].look.dryRun && events[k].look.idle && events[k].look.read.Some?
    && WorldAt(events, idleAfter, k).memo.None?
  }

  /** Since a time, no such check has been made. */
  ghost predicate RemembersSince(events: seq<Event>, idleAfter: int, since: int, k: nat)
    requires k < |events|
  {
    forall i: nat :: i < k && Time(events[i]) > since ==> !Forgets(events, idleAfter, i)
  }

  // What holds throughout

  ghost predicate Consistent(w: World) {
    && (w.memo.Some? ==> w.memo.value.clock in w.made)
    && (forall c :: c in w.made ==>
          c.lastEvaluated.Some? && w.evaluated.Some? && c.lastEvaluated.value <= w.evaluated.value)
  }

  lemma ReadsSome(w: World, l: Look)
    requires Consistent(w) && Reads(w, l.read) && l.read.Some?
    ensures l.read.value.lastEvaluated.Some? && w.evaluated.Some?
            && l.read.value.lastEvaluated.value <= w.evaluated.value
  {
  }

  lemma StepKeepsConsistent(w: World, e: Event, idleAfter: int)
    requires Consistent(w) && Allowed(w, e) && (w.evaluated.Some? ==> w.evaluated.value <= w.now)
    ensures Consistent(After(w, e, idleAfter))
    ensures var n := After(w, e, idleAfter); n.now == Time(e) && (n.evaluated.Some? ==> n.evaluated.value <= n.now)
  {
    if e.Checked? {
      if e.look.read.Some? {
        ReadsSome(w, e.look);
      }
      EvaluatedOf(w.memo, e.look, idleAfter);
    }
  }

  /** Of a check that can't evaluate, the clock keeps its last evaluation. */
  lemma EvaluatedOf(memo: Option<Remembered>, l: Look, idleAfter: int)
    ensures var c := Observed(memo, l, idleAfter);
            c.lastEvaluated == if Readable(l) then Some(l.now) else Resumed(memo, l, idleAfter).lastEvaluated
  {
    var resumed := Resumed(memo, l, idleAfter);
    var watched :=
      if Restarts(memo, l, idleAfter) then resumed.(lastActivity := l.now, source := Unobserved) else resumed;
    MovedByAllMeans(MovedIf(watched, l.rollout, l.now, Rollout), l.annotations, l.now);
  }

  lemma {:induction false} AlwaysConsistent(events: seq<Event>, idleAfter: int, k: nat)
    requires IsRun(events, idleAfter) && k <= |events|
    ensures var w := WorldAt(events, idleAfter, k);
            && Consistent(w) && (w.evaluated.Some? ==> w.evaluated.value <= w.now)
            && (k > 0 ==> w.now == Time(events[k - 1]))
  {
    if k > 0 {
      AlwaysConsistent(events, idleAfter, k - 1);
      assert AllowedAt(events, idleAfter, k - 1);
      StepKeepsConsistent(WorldAt(events, idleAfter, k - 1), events[k - 1], idleAfter);
    }
  }

  lemma {:induction false} TimeGoesOn(events: seq<Event>, idleAfter: int, i: nat, k: nat)
    requires IsRun(events, idleAfter) && i <= k < |events|
    ensures Time(events[i]) <= Time(events[k])
  {
    if i < k {
      TimeGoesOn(events, idleAfter, i, k - 1);
      AlwaysConsistent(events, idleAfter, k);
      assert AllowedAt(events, idleAfter, k);
    }
  }

  // No mark is lost

  /** A memory the operator has, if it has any, is of a clock past the time. */
  ghost predicate Past(w: World, since: int) {
    w.memo.Some? ==> w.memo.value.clock.lastActivity > since
  }

  lemma StepKeepsPast(w: World, e: Event, idleAfter: int, since: int)
    requires Consistent(w) && Allowed(w, e) && Past(w, since) && Time(e) > since
    requires e.Checked? && InWouldBePause(e.look) && e.look.read.Some? ==> w.memo.Some?
    ensures Past(After(w, e, idleAfter), since)
  {
    if e.Checked? {
      ObservedMeans(w.memo, e.look, idleAfter);
      if e.look.read.Some? {
        ReadsSome(w, e.look);
      }
    }
  }

  /** A mark past the time keeps every later clock past it, whatever is restarted, misread or unread meanwhile. */
  lemma {:induction false} MarkLasts(events: seq<Event>, idleAfter: int, i: nat, k: nat, since: int)
    requires IsRun(events, idleAfter) && i < k <= |events|
    requires exists m :: m in MarksAt(events, idleAfter, i) && m > since
    requires Time(events[i]) > since
    requires forall j: nat :: i < j < k ==> !Forgets(events, idleAfter, j)
    ensures Past(WorldAt(events, idleAfter, k), since)
  {
    assert Past(WorldAt(events, idleAfter, i + 1), since) by {
      if events[i].Checked? {
        ObservedMeans(WorldAt(events, idleAfter, i).memo, events[i].look, idleAfter);
      }
    }
    PastLasts(events, idleAfter, i + 1, k, since);
  }

  lemma {:induction false} PastLasts(events: seq<Event>, idleAfter: int, i: nat, k: nat, since: int)
    requires IsRun(events, idleAfter) && 0 < i <= k <= |events| && Time(events[i - 1]) > since
    requires Past(WorldAt(events, idleAfter, i), since)
    requires forall j: nat :: i <= j < k ==> !Forgets(events, idleAfter, j)
    ensures Past(WorldAt(events, idleAfter, k), since)
  {
    if i < k {
      PastLasts(events, idleAfter, i, k - 1, since);
      AlwaysConsistent(events, idleAfter, k - 1);
      TimeGoesOn(events, idleAfter, i - 1, k - 1);
      assert AllowedAt(events, idleAfter, k - 1) && !Forgets(events, idleAfter, k - 1);
      StepKeepsPast(WorldAt(events, idleAfter, k - 1), events[k - 1], idleAfter, since);
    }
  }

  lemma MarksAreSeen(events: seq<Event>, idleAfter: int, i: nat, m: int)
    requires i < |events| && m in MarksAt(events, idleAfter, i)
    ensures m <= Time(events[i])
  {
  }

  // No clock is from nowhere

  ghost predicate Marked(events: seq<Event>, idleAfter: int, k: nat, t: int)
    requires k <= |events|
  {
    exists i: nat, m :: i < k && m in MarksAt(events, idleAfter, i) && t <= m
  }

  /** Every clock there has been is at some mark, or at one as a status keeps it. */
  lemma {:induction false} ClocksAreMarked(events: seq<Event>, idleAfter: int, k: nat, c: Clock)
    requires IsRun(events, idleAfter) && k <= |events| && c in WorldAt(events, idleAfter, k).made
    ensures Marked(events, idleAfter, k, c.lastActivity)
    decreases k, 0
  {
    var before, e := WorldAt(events, idleAfter, k - 1), events[k - 1];
    if c in before.made {
      ClocksAreMarked(events, idleAfter, k - 1, c);
    } else if e.Checked? {
      CheckIsMarked(events, idleAfter, k - 1);
    } else {
      assert e.at in MarksAt(events, idleAfter, k - 1);
    }
  }

  lemma {:induction false} CheckIsMarked(events: seq<Event>, idleAfter: int, k: nat)
    requires IsRun(events, idleAfter) && k < |events| && events[k].Checked?
    ensures Marked(events, idleAfter, k + 1, ClockOf(events, idleAfter, k).lastActivity)
    decreases k, 1
  {
    var w, l := WorldAt(events, idleAfter, k), events[k].look;
    var c := ClockOf(events, idleAfter, k);
    ObservedMeans(w.memo, l, idleAfter);
    AlwaysConsistent(events, idleAfter, k);
    assert AllowedAt(events, idleAfter, k);
    if c.lastActivity in Marks(w.memo, l, idleAfter) {
      assert c.lastActivity in MarksAt(events, idleAfter, k);
    } else if l.read.Some? && c.lastActivity == l.read.value.lastActivity {
      var made :| made in w.made && l.read.value == StoredClock(made);
      ClocksAreMarked(events, idleAfter, k, made);
    } else {
      ClocksAreMarked(events, idleAfter, k, w.memo.value.clock);
    }
  }

  // What a clock pause means

  /** A check that could pause a Running workload, with nothing but the clock to go by. */
  ghost predicate ClockDecides(events: seq<Event>, k: nat, o: Circumstances) {
    && k < |events| && events[k].Checked? && !events[k].look.idle
    && events[k].look.cpu != Unreadable && events[k].look.prom != Unreadable
    && !o.early && o.activeUntil <= events[k].look.now && !o.vetoed && !o.held
  }

  /** The clock pauses a Running workload exactly when nothing has marked it for idleAfter. */
  lemma PausesExactlyWhenUnmarked(events: seq<Event>, idleAfter: int, k: nat, o: Circumstances)
    requires IsRun(events, idleAfter) && ClockDecides(events, k, o)
    requires RemembersSince(events, idleAfter, events[k].look.now - idleAfter, k)
    ensures Decide(ClockOf(events, idleAfter, k), events[k].look, o) == Pauses <==>
              forall i: nat, m :: i <= k && m in MarksAt(events, idleAfter, i) ==> m <= events[k].look.now - idleAfter
  {
    var l := events[k].look;
    var c, since := ClockOf(events, idleAfter, k), l.now - idleAfter;
    assert c.pauseAt == c.lastActivity + idleAfter;
    assert Decide(c, l, o) == Pauses <==> c.lastActivity <= since;
    forall i: nat, m | i <= k && m in MarksAt(events, idleAfter, i) && m > since
      ensures c.lastActivity > since
    {
      MarkReachesCheck(events, idleAfter, i, m, k, since);
    }
    CheckIsMarked(events, idleAfter, k);
  }

  lemma MarkReachesCheck(events: seq<Event>, idleAfter: int, i: nat, m: int, k: nat, since: int)
    requires IsRun(events, idleAfter) && i <= k < |events| && events[k].Checked? && !InWouldBePause(events[k].look)
    requires m in MarksAt(events, idleAfter, i) && m > since && RemembersSince(events, idleAfter, since, k)
    ensures ClockOf(events, idleAfter, k).lastActivity > since
  {
    var w, e := WorldAt(events, idleAfter, k), events[k];
    MarksAreSeen(events, idleAfter, i, m);
    TimeGoesOn(events, idleAfter, i, k);
    if i == k {
      ObservedMeans(w.memo, e.look, idleAfter);
    } else {
      forall j: nat | i < j < k
        ensures Time(events[j]) > since
      {
        TimeGoesOn(events, idleAfter, i, j);
      }
      MarkLasts(events, idleAfter, i, k, since);
      AlwaysConsistent(events, idleAfter, k);
      assert AllowedAt(events, idleAfter, k);
      StepKeepsPast(w, e, idleAfter, since);
    }
  }

  /**
   * Nothing at an event counts against the workload's having been idle since the time: it's a check, not a restarted
   * operator's first, that saw no activity since, with the last evaluation no further back than is tolerated unless
   * the workload is in a would-be pause.
   */
  ghost predicate Unremarkable(w: World, e: Event, idleAfter: int, since: int) {
    match e
    case Restarted(_) => true
    case Reset(_, _) => false
    case Checked(l) =>
      && w.memo.Some? && l.read.Some?
      && !l.wakeRequested && !l.rollout && l.cpu != Active
      && (l.cpu != Unreadable && l.prom == Active ==> l.dryRun && l.idle && l.queryHeld)
      && (forall t :: t in l.annotations ==> Min(t, l.now) <= since)
      && w.evaluated.Some? && ((l.dryRun && l.idle) || l.now - w.evaluated.value <= GapTolerance(idleAfter))
  }

  lemma UnmarkedIsUnremarkable(w: World, e: Event, idleAfter: int, since: int)
    requires Consistent(w) && Allowed(w, e) && Time(e) > since
    requires e.Checked? ==> forall m :: m in Marks(w.memo, e.look, idleAfter) ==> m <= since
    requires e.Checked? && InWouldBePause(e.look) && e.look.read.Some? ==> w.memo.Some?
    requires !e.Reset?
    ensures Unremarkable(w, e, idleAfter, since)
  {
    if e.Checked? {
      var l := e.look;
      assert l.now > since && l.now !in Marks(w.memo, l, idleAfter);
      forall t | t in l.annotations
        ensures Min(t, l.now) in Marks(w.memo, l, idleAfter)
      {
      }
      ReadsSome(w, l);
    }
  }

  /**
   * A gap in watching never causes a pause: when the clock pauses a Running workload, everything since idleAfter ago
   * is unremarkable, across restarts, stale statuses and unreadable sources.
   */
  lemma PauseMeansWatchedIdle(events: seq<Event>, idleAfter: int, k: nat, o: Circumstances, i: nat)
    requires IsRun(events, idleAfter) && ClockDecides(events, k, o)
    requires RemembersSince(events, idleAfter, events[k].look.now - idleAfter, k)
    requires Decide(ClockOf(events, idleAfter, k), events[k].look, o) == Pauses
    requires i <= k && Time(events[i]) > events[k].look.now - idleAfter
    ensures Unremarkable(WorldAt(events, idleAfter, i), events[i], idleAfter, events[k].look.now - idleAfter)
  {
    assert events[i].Reset? ==> events[i].at in MarksAt(events, idleAfter, i);
    PausesExactlyWhenUnmarked(events, idleAfter, k, o);
    AlwaysConsistent(events, idleAfter, i);
    assert AllowedAt(events, idleAfter, i);
    var since := events[k].look.now - idleAfter;
    assert forall m :: m in MarksAt(events, idleAfter, i) ==> m <= since;
    UnmarkedIsUnremarkable(WorldAt(events, idleAfter, i), events[i], idleAfter, since);
  }

  /** Nor does the clock pause within idleAfter of a check that saw activity, but for queries it held back. */
  lemma NoPauseSoonAfterActivity(events: seq<Event>, idleAfter: int, k: nat, o: Circumstances, i: nat)
    requires IsRun(events, idleAfter) && ClockDecides(events, k, o)
    requires RemembersSince(events, idleAfter, events[k].look.now - idleAfter, k)
    requires i <= k && events[i].Checked? && SeesActivity(events[i].look)
    requires events[k].look.now < events[i].look.now + idleAfter
    ensures Decide(ClockOf(events, idleAfter, k), events[k].look, o) != Pauses
  {
    if Decide(ClockOf(events, idleAfter, k), events[k].look, o) == Pauses {
      PauseMeansWatchedIdle(events, idleAfter, k, o, i);
      assert false;
    }
  }

  predicate Evaluates(e: Event) {
    match e
    case Checked(l) => Readable(l) || l.read.None?
    case Restarted(_) => false
    case Reset(_, _) => true
  }

  lemma {:induction false} LastEvaluation(events: seq<Event>, idleAfter: int, k: nat) returns (j: nat)
    requires IsRun(events, idleAfter) && k <= |events| && WorldAt(events, idleAfter, k).evaluated.Some?
    ensures j < k && Evaluates(events[j]) && Time(events[j]) == WorldAt(events, idleAfter, k).evaluated.value
  {
    if Evaluates(events[k - 1]) {
      j := k - 1;
    } else {
      j := LastEvaluation(events, idleAfter, k - 1);
    }
  }

  lemma {:induction false} EvaluationLasts(events: seq<Event>, idleAfter: int, j: nat, i: nat)
    requires IsRun(events, idleAfter) && j < i <= |events| && Evaluates(events[j])
    ensures var e := WorldAt(events, idleAfter, i).evaluated; e.Some? && e.value >= Time(events[j])
  {
    if j + 1 < i {
      EvaluationLasts(events, idleAfter, j, i - 1);
      TimeGoesOn(events, idleAfter, j, i - 1);
    }
  }

  /** A check that read every source, within the tolerated gap of a time. */
  ghost predicate IsWatched(events: seq<Event>, idleAfter: int, from: int, j: nat) {
    && j < |events| && events[j].Checked? && events[j].look.cpu != Unreadable && events[j].look.prom != Unreadable
    && from < events[j].look.now <= from + GapTolerance(idleAfter)
  }

  /** A check in a would-be pause whose gap, longer than is tolerated, reaches from a time to past the tolerated gap. */
  ghost predicate HidesGap(events: seq<Event>, idleAfter: int, from: int, i: nat)
    requires i < |events|
  {
    var evaluated := WorldAt(events, idleAfter, i).evaluated;
    && events[i].Checked? && InWouldBePause(events[i].look)
    && evaluated.Some? && evaluated.value <= from && from + GapTolerance(idleAfter) < events[i].look.now
  }

  /** Goes back from an evaluation past a time to the first past it, which is soon enough or hides a gap. */
  lemma {:induction false} FirstEvaluation(events: seq<Event>, idleAfter: int, k: nat, o: Circumstances, from: int,
                                           upTo: nat)
    returns (j: nat)
    requires IsRun(events, idleAfter) && ClockDecides(events, k, o)
    requires RemembersSince(events, idleAfter, events[k].look.now - idleAfter, k)
    requires Decide(ClockOf(events, idleAfter, k), events[k].look, o) == Pauses
    requires events[k].look.now - idleAfter <= from && upTo <= k && Evaluates(events[upTo]) && from < Time(events[upTo])
    ensures j <= k && (IsWatched(events, idleAfter, from, j) || HidesGap(events, idleAfter, from, j))
    decreases upTo
  {
    PauseMeansWatchedIdle(events, idleAfter, k, o, upTo);
    var w := WorldAt(events, idleAfter, upTo);
    if w.evaluated.value <= from {
      j := upTo;
    } else {
      var before := LastEvaluation(events, idleAfter, upTo);
      j := FirstEvaluation(events, idleAfter, k, o, from, before);
    }
  }

  /**
   * So every stretch of the tolerated gap since idleAfter ago has a check in it that read every source, but exactly
   * those that a gap hidden in a would-be pause covers.
   */
  lemma EveryStretchIsEvaluated(events: seq<Event>, idleAfter: int, k: nat, o: Circumstances, from: int)
    requires IsRun(events, idleAfter) && ClockDecides(events, k, o)
    requires RemembersSince(events, idleAfter, events[k].look.now - idleAfter, k)
    requires Decide(ClockOf(events, idleAfter, k), events[k].look, o) == Pauses
    requires events[k].look.now - idleAfter <= from < events[k].look.now
    ensures (exists j: nat :: j <= k && IsWatched(events, idleAfter, from, j)) <==>
            !(exists i: nat :: i <= k && HidesGap(events, idleAfter, from, i))
  {
    if i: nat, j: nat :|
      (i <= k && j <= k && IsWatched(events, idleAfter, from, j) && HidesGap(events, idleAfter, from, i)) {
      if i <= j {
        TimeGoesOn(events, idleAfter, i, j);
      } else {
        EvaluationLasts(events, idleAfter, j, i);
      }
    }
    var _ := FirstEvaluation(events, idleAfter, k, o, from, k);
  }

  // What a restart in a would-be pause forgets

  /** An event's mark, or the status it read, is past the time. */
  ghost predicate Shows(events: seq<Event>, idleAfter: int, since: int, i: nat)
    requires i < |events|
  {
    || (exists m :: m in MarksAt(events, idleAfter, i) && m > since)
    || (events[i].Checked? && events[i].look.read.Some? && events[i].look.read.value.lastActivity > since)
  }

  ghost predicate ShownSince(events: seq<Event>, idleAfter: int, since: int, b: nat, k: nat)
    requires k <= |events|
  {
    exists i: nat :: b <= i < k && Shows(events, idleAfter, since, i)
  }

  /** What a memory is of was shown since there was none. */
  lemma {:induction false} MemoIsShown(events: seq<Event>, idleAfter: int, since: int, b: nat, k: nat)
    requires b <= k <= |events| && WorldAt(events, idleAfter, b).memo.None?
    requires !ShownSince(events, idleAfter, since, b, k)
    ensures var memo := WorldAt(events, idleAfter, k).memo; memo.Some? ==> memo.value.clock.lastActivity <= since
  {
    if b < k {
      assert !Shows(events, idleAfter, since, k - 1);
      MemoIsShown(events, idleAfter, since, b, k - 1);
      match events[k - 1] {
        case Checked(l) => ObservedMeans(WorldAt(events, idleAfter, k - 1).memo, l, idleAfter);
        case Restarted(_) =>
        case Reset(t, _) => assert t in MarksAt(events, idleAfter, k - 1);
      }
    }
  }

  lemma ReadIsOfThePast(events: seq<Event>, idleAfter: int, k: nat)
    requires IsRun(events, idleAfter) && k < |events| && events[k].Checked? && events[k].look.read.Some?
    ensures events[k].look.read.value.lastActivity <= events[k].look.now
  {
    var read := events[k].look.read.value;
    assert AllowedAt(events, idleAfter, k);
    var made :| made in WorldAt(events, idleAfter, k).made && read == StoredClock(made);
    ClocksAreMarked(events, idleAfter, k, made);
    var i: nat, m :| i < k && m in MarksAt(events, idleAfter, i) && made.lastActivity <= m;
    MarksAreSeen(events, idleAfter, i, m);
    TimeGoesOn(events, idleAfter, i, k);
  }

  /** What an event shows, the clock it leaves is past. */
  lemma ShownIsPast(events: seq<Event>, idleAfter: int, since: int, i: nat)
    requires IsRun(events, idleAfter) && i < |events| && Shows(events, idleAfter, since, i)
    ensures Time(events[i]) > since && Past(WorldAt(events, idleAfter, i + 1), since)
    ensures events[i].Checked? ==> ClockOf(events, idleAfter, i).lastActivity > since
  {
    if m :| m in MarksAt(events, idleAfter, i) && m > since {
      MarksAreSeen(events, idleAfter, i, m);
    } else {
      ReadIsOfThePast(events, idleAfter, i);
    }
    if events[i].Checked? {
      var w, l := WorldAt(events, idleAfter, i), events[i].look;
      ObservedMeans(w.memo, l, idleAfter);
      ReadIsKept(w.memo, l, idleAfter);
    }
  }

  /** A check leaves the clock no further back than the status it read, unless a gap restarts it. */
  lemma ReadIsKept(memo: Option<Remembered>, l: Look, idleAfter: int)
    ensures l.read.Some? && !Restarts(memo, l, idleAfter) ==>
              Observed(memo, l, idleAfter).lastActivity >= l.read.value.lastActivity
  {
    MovedByAllMeans(MovedIf(Resumed(memo, l, idleAfter), l.rollout, l.now, Rollout), l.annotations, l.now);
  }

  /**
   * In any run at all: from the last point that left an operator without a memory and in a would-be pause, or from the
   * beginning, the clock pauses a Running workload exactly when nothing since has marked it for idleAfter, and no
   * status read since shows later activity. All that was only in the memory before is forgotten.
   */
  lemma PausesExactlyWhenUnshown(events: seq<Event>, idleAfter: int, k: nat, o: Circumstances, b: nat)
    requires IsRun(events, idleAfter) && ClockDecides(events, k, o) && b <= k
             && (b == 0 || Forgets(events, idleAfter, b))
    requires forall i: nat :: b < i <= k ==> !Forgets(events, idleAfter, i)
    ensures Decide(ClockOf(events, idleAfter, k), events[k].look, o) == Pauses <==>
              !ShownSince(events, idleAfter, events[k].look.now - idleAfter, b, k + 1)
  {
    var c, since := ClockOf(events, idleAfter, k), events[k].look.now - idleAfter;
    if i: nat :| b <= i <= k && Shows(events, idleAfter, since, i) {
      ShownIsPast(events, idleAfter, since, i);
      if i < k {
        PastLasts(events, idleAfter, i + 1, k + 1, since);
      }
    } else {
      MemoIsShown(events, idleAfter, since, b, k + 1);
    }
    assert WorldAt(events, idleAfter, k + 1).memo == Some(Remembered(c, events[k].look.now));
  }

  // Why would-be pauses differ

  function QuietLook(now: int, read: Option<Clock>, idle: bool, annotations: seq<int>): Look {
    Look(now, read, false, idle, if idle then Some(2 * MINUTE) else None, true, false, false, annotations, Quiet, Quiet)
  }

  /**
   * Idle in dry-run two minutes in, found two hours later with an annotation from ten seconds in, and looked at again.
   */
  function DryRunEvents(found: seq<Clock>): seq<Event>
    requires |found| == 3
  {
    [Checked(QuietLook(0, None, false, [])),
     Checked(QuietLook(2 * MINUTE, Some(found[0]), false, [])),
     Checked(QuietLook(120 * MINUTE, Some(found[1]), true, [130 * SECOND])),
     Checked(QuietLook(121 * MINUTE, Some(found[2]), false, [130 * SECOND]))]
  }

  function DryRunClock(source: Source, lastActivity: int, evaluated: int): Clock {
    Clock(lastActivity, source, Some(evaluated), lastActivity + 2 * MINUTE)
  }

  /** A gap in a would-be pause does count as idle: a dry-run workload pauses within idleAfter of one two hours long. */
  lemma DryRunCountsAGap() returns (events: seq<Event>, o: Circumstances)
    ensures IsRun(events, 2 * MINUTE) && ClockDecides(events, 3, o) && forall e :: e in events ==> e.Checked?
    ensures Decide(ClockOf(events, 2 * MINUTE, 1), events[1].look, o) == Pauses
    ensures Decide(ClockOf(events, 2 * MINUTE, 2), events[2].look, o) == StaysUp
    ensures Decide(ClockOf(events, 2 * MINUTE, 3), events[3].look, o) == Pauses
    ensures Time(events[2]) > Time(events[3]) - 2 * MINUTE
    ensures WorldAt(events, 2 * MINUTE, 2).evaluated == Some(Time(events[1]))
    ensures Time(events[2]) - Time(events[1]) > GapTolerance(2 * MINUTE)
  {
    o := Circumstances(false, 0, false, false);
    var c0, c1, c2 := DryRunClock(Created, 0, 0), DryRunClock(Created, 0, 2 * MINUTE),
                      DryRunClock(Annotation, 130 * SECOND, 120 * MINUTE);
    events := DryRunEvents([c0, c1, c2]);
    assert MovedByAll(c1, [], 120 * MINUTE) == c1;
    assert [130 * SECOND][..0] == [];
    var w0 := WorldAt(events, 2 * MINUTE, 0);
    var w1 := WorldAt(events, 2 * MINUTE, 1);
    assert w1.memo.value.clock == c0;
    var w2 := WorldAt(events, 2 * MINUTE, 2);
    assert w2.memo.value.clock == c1;
    var w3 := WorldAt(events, 2 * MINUTE, 3);
    assert w3.memo.value.clock == c2;
    assert StoredClock(c0) == c0 && StoredClock(c1) == c1 && StoredClock(c2) == c2;
    assert MovedByAll(c2, [130 * SECOND], 121 * MINUTE) == c2;
    assert ClockOf(events, 2 * MINUTE, 3) == c2.(lastEvaluated := Some(121 * MINUTE));
    assert c0 in w1.made && c1 in w2.made && c2 in w3.made;
  }

  /** Idle in dry-run two minutes in, active at three, restarted with the status from two, and looked at twice more. */
  function RestartEvents(found: seq<Clock>): seq<Event>
    requires |found| == 2
  {
    [Checked(QuietLook(0, None, false, [])),
     Checked(QuietLook(2 * MINUTE, Some(found[0]), false, [])),
     Checked(QuietLook(3 * MINUTE, Some(found[1]), true, []).(cpu := Active)),
     Restarted(3 * MINUTE),
     Checked(QuietLook(4 * MINUTE, Some(found[1]), true, [])),
     Checked(QuietLook(270 * SECOND, Some(found[1]), false, []))]
  }

  /** A restart in a would-be pause loses activity no write recorded: the clock pauses within idleAfter of it. */
  lemma RestartForgetsActivity() returns (events: seq<Event>, o: Circumstances)
    ensures IsRun(events, 2 * MINUTE) && ClockDecides(events, 5, o) && Forgets(events, 2 * MINUTE, 4)
    ensures Decide(ClockOf(events, 2 * MINUTE, 5), events[5].look, o) == Pauses
    ensures events[2].Checked? && events[2].look.cpu == Active && Time(events[2]) > Time(events[5]) - 2 * MINUTE
  {
    o := Circumstances(false, 0, false, false);
    var c0, c1 := DryRunClock(Created, 0, 0), DryRunClock(Created, 0, 2 * MINUTE);
    var c2 := Clock(3 * MINUTE, Cpu, Some(3 * MINUTE), 5 * MINUTE);
    events := RestartEvents([c0, c1]);
    var w0, w1 := WorldAt(events, 2 * MINUTE, 0), WorldAt(events, 2 * MINUTE, 1);
    assert w1.memo.value.clock == c0;
    var w2 := WorldAt(events, 2 * MINUTE, 2);
    assert w2.memo.value.clock == c1;
    var w3 := WorldAt(events, 2 * MINUTE, 3);
    assert w3.memo.value.clock == c2;
    var w4 := WorldAt(events, 2 * MINUTE, 4);
    var w5 := WorldAt(events, 2 * MINUTE, 5);
    assert w5.memo.value.clock == DryRunClock(Created, 0, 4 * MINUTE);
    assert StoredClock(c0) == c0 && StoredClock(c1) == c1;
    assert c0 in w1.made && c1 in w2.made && c1 in w4.made && c1 in w5.made;
  }
}

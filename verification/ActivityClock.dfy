/**
 * The activity clock: what a look at a workload makes of a status that may be stale, a memory a restart loses, and
 * sources that may be unreadable, and what a pause it decides says of the time before it.
 */
module ActivityClock {
  import opened Times
  import opened Workloads
  import opened Wrappers

  const CHECK_INTERVAL := MINUTE
  const FLUSH_INTERVAL := 5 * MINUTE
  const UNOBSERVED_GAP := 2 * CHECK_INTERVAL + FLUSH_INTERVAL

  datatype Source = Created | Woke | ScaledUp | Unobserved | Rollout | Annotation | Cpu | Prometheus

  datatype Clock = Clock(lastActivity: int, source: Source, lastEvaluated: Option<int>, pauseAt: int)

  /** A clock as the latest check left it, and when that was. */
  datatype Remembered = Remembered(clock: Clock, checked: int)

  datatype Reading = Unreadable | Quiet | Active

  /**
   * What a check finds: the clock in the status it read; whether the workload is Idle, since when, and in dry-run;
   * and what each source shows. queryHeld says queries have shown activity ever since a would-be pause was asked for.
   */
  datatype Look = Look(now: int, read: Option<Clock>, wakeRequested: bool, idle: bool, began: Option<int>, dryRun: bool,
                       queryHeld: bool, rollout: bool, annotations: seq<int>, cpu: Reading, prom: Reading)

  /** The longest gap in watching that counts as idle time. */
  function GapTolerance(idleAfter: int): (gap: int)
    ensures idleAfter <= 4 * MINUTE ==> gap == 2 * MINUTE
    ensures 4 * MINUTE <= idleAfter <= 14 * MINUTE ==> gap == idleAfter / 2
    ensures idleAfter >= 14 * MINUTE ==> gap == 7 * MINUTE
  {
    Min(UNOBSERVED_GAP, Max(2 * CHECK_INTERVAL, idleAfter / 2))
  }

  /** Later activity moves the clock; earlier never moves it back. */
  function Moved(c: Clock, t: int, source: Source): Clock {
    if t > c.lastActivity then c.(lastActivity := t, source := source) else c
  }

  function MovedIf(c: Clock, cond: bool, t: int, source: Source): Clock {
    if cond then Moved(c, t, source) else c
  }

  function MovedByAll(c: Clock, times: seq<int>, now: int): Clock {
    if times == [] then c
    else
      var last := |times| - 1;
      Moved(MovedByAll(c, times[..last], now), Min(times[last], now), Annotation)
  }

  function Later(a: Option<int>, b: Option<int>): Option<int> {
    if b.Some? && (a.None? || b.value > a.value) then b else a
  }

  predicate InWouldBePause(l: Look) {
    l.dryRun && l.idle
  }

  predicate Readable(l: Look) {
    l.cpu != Unreadable && l.prom != Unreadable
  }

  /** Queries aren't asked while the CPU can't be read, nor heeded while a would-be pause holds them back. */
  predicate QueriesActive(l: Look) {
    l.cpu != Unreadable && l.prom == Active && !(InWouldBePause(l) && l.queryHeld)
  }

  function Started(now: int, source: Source, idleAfter: int): Clock {
    Clock(now, source, Some(now), now + idleAfter)
  }

  /** The clock a check goes on from: the status's, started if it has none, brought up to the memory's. */
  function Resumed(memo: Option<Remembered>, l: Look, idleAfter: int): Clock {
    match l.read
    case None => Started(l.now, Created, idleAfter)
    case Some(read) =>
      var c := MovedIf(read, l.wakeRequested, l.now, Annotation);
      match memo
      case None => c
      case Some(m) =>
        Moved(c, m.clock.lastActivity, m.clock.source).(lastEvaluated := Later(c.lastEvaluated, m.clock.lastEvaluated))
  }

  /** Whether a gap in watching restarts the clock: any across a restart, and any in memory longer than tolerated. */
  predicate Restarts(memo: Option<Remembered>, l: Look, idleAfter: int) {
    var c := Resumed(memo, l, idleAfter);
    && c.lastEvaluated.Some? && !InWouldBePause(l)
    && ((memo.None? && l.read.Some?) || l.now - c.lastEvaluated.value > GapTolerance(idleAfter))
  }

  function Observed(memo: Option<Remembered>, l: Look, idleAfter: int): Clock {
    var resumed := Resumed(memo, l, idleAfter);
    var watched :=
      if Restarts(memo, l, idleAfter) then resumed.(lastActivity := l.now, source := Unobserved) else resumed;
    var rolled := MovedIf(watched, l.rollout, l.now, Rollout);
    var annotated := MovedByAll(rolled, l.annotations, l.now);
    var used := MovedIf(annotated, l.cpu == Active, l.now, Cpu);
    var queried := MovedIf(used, QueriesActive(l), l.now, Prometheus);
    queried.(lastEvaluated := if Readable(l) then Some(l.now) else queried.lastEvaluated,
             pauseAt := queried.lastActivity + idleAfter)
  }

  // The decision

  datatype Verdict = NotDecided | StaysUp | Vetoed | HeldByDependents | Pauses

  /** What else bears on a pause: the forecast bringing it forward, a hold, the forecast's veto and awake dependents. */
  datatype Circumstances = Circumstances(early: bool, activeUntil: int, vetoed: bool, held: bool)

  predicate ActiveSinceClockRanOut(c: Clock, l: Look) {
    if l.idle && l.began.Some? then
      if c.source == Annotation then c.lastActivity >= Seconds(l.began.value)
      else c.lastActivity > l.began.value
    else l.now < c.pauseAt
  }

  /**
   * A Running workload's clock has run out at pauseAt, and an Idle one's unless there was activity after it went Idle,
   * or for an annotation, whose times are in seconds, from the second that was in.
   */
  lemma ClockRunsOut(c: Clock, l: Look)
    ensures !l.idle || l.began.None? ==> (!ActiveSinceClockRanOut(c, l) <==> c.pauseAt <= l.now)
    ensures l.idle && l.began.Some? && c.source != Annotation ==>
              (!ActiveSinceClockRanOut(c, l) <==> c.lastActivity <= l.began.value)
    ensures l.idle && l.began.Some? && c.source == Annotation ==>
              (!ActiveSinceClockRanOut(c, l) <==> c.lastActivity < l.began.value / SECOND * SECOND)
  {
  }

  /** Nothing is decided blind, and no pause overrides a hold, activity, a veto yet to be overtaken, or dependents. */
  function Decide(c: Clock, l: Look, o: Circumstances): (v: Verdict)
    ensures v == NotDecided <==> l.cpu == Unreadable || l.prom == Unreadable
    ensures v == Pauses || v == HeldByDependents <==>
              && l.cpu != Unreadable && l.prom != Unreadable && (l.idle || !o.vetoed)
              && (o.early || (o.activeUntil <= l.now && !ActiveSinceClockRanOut(c, l)))
    ensures v == HeldByDependents ==> o.held
    ensures v == Pauses ==> !o.held
    ensures v == Vetoed ==>
              !l.idle && o.vetoed && (o.early || (o.activeUntil <= l.now && !ActiveSinceClockRanOut(c, l)))
  {
    if !Readable(l) then NotDecided
    else if !o.early && (o.activeUntil > l.now || ActiveSinceClockRanOut(c, l)) then StaysUp
    else if !l.idle && o.vetoed then Vetoed
    else if o.held then HeldByDependents
    else Pauses
  }

  /** The clocks an operator keeps between status writes. */
  class Memo {
    var clocks: map<Uid, Remembered>

    constructor ()
      ensures clocks == map[]
    {
      clocks := map[];
    }

    function Get(uid: Uid): Option<Remembered>
      reads this
    {
      if uid in clocks then Some(clocks[uid]) else None
    }

    /** Starts the clock fresh, as on creation or wake. */
    method Reset(uid: Uid, now: int, source: Source, idleAfter: int) returns (status: Clock)
      modifies this
      ensures status == Started(now, source, idleAfter)
      ensures status == Clock(now, source, Some(now), now + idleAfter)
      ensures clocks == old(clocks)[uid := Remembered(status, now)]
    {
      status := Clock(now, source, Some(now), now + idleAfter);
      clocks := clocks[uid := Remembered(status, now)];
    }

    /** The clock to go on from, and whether this operator has it in memory. */
    method Resume(uid: Uid, l: Look, idleAfter: int) returns (status: Clock, inMemory: bool)
      modifies this
      ensures status == Resumed(old(Get(uid)), l, idleAfter)
      ensures inMemory <==> old(Get(uid)).Some? || l.read.None?
      ensures forall u :: u != uid ==> Get(u) == old(Get(u))
    {
      if l.read.None? {
        status := Reset(uid, l.now, Created, idleAfter);
      } else {
        status := l.read.value;
        if l.wakeRequested {
          status := Moved(status, l.now, Annotation);
        }
      }
      inMemory := uid in clocks;
      if inMemory {
        var r := clocks[uid].clock;
        status := Moved(status, r.lastActivity, r.source);
        if r.lastEvaluated.Some? && (status.lastEvaluated.None? || r.lastEvaluated.value > status.lastEvaluated.value) {
          status := status.(lastEvaluated := r.lastEvaluated);
        }
      }
    }

    /** Reads every source, and moves the clock and what's remembered of it. */
    method Observe(uid: Uid, l: Look, idleAfter: int) returns (status: Clock)
      modifies this
      ensures status == Observed(old(Get(uid)), l, idleAfter)
      ensures Get(uid) == Some(Remembered(status, l.now))
      ensures forall u :: u != uid ==> Get(u) == old(Get(u))
    {
      var inMemory: bool;
      status, inMemory := Resume(uid, l, idleAfter);
      if status.lastEvaluated.Some? && !(l.dryRun && l.idle) {
        var gap := l.now - status.lastEvaluated.value;
        if !inMemory || gap > GapTolerance(idleAfter) {
          status := status.(lastActivity := l.now, source := Unobserved);
        }
      }
      if l.rollout {
        status := Moved(status, l.now, Rollout);
      }
      status := NoteAnnotations(status, l.annotations, l.now);
      if l.cpu == Active {
        status := Moved(status, l.now, Cpu);
      }
      if l.cpu != Unreadable && l.prom == Active && !(l.dryRun && l.idle && l.queryHeld) {
        status := Moved(status, l.now, Prometheus);
      }
      if l.cpu != Unreadable && l.prom != Unreadable {
        status := status.(lastEvaluated := Some(l.now));
      }
      status := status.(pauseAt := status.lastActivity + idleAfter);
      clocks := clocks[uid := Remembered(status, l.now)];
    }
  }

  /** Activity annotations count, one in the future as now. */
  method NoteAnnotations(c: Clock, times: seq<int>, now: int) returns (status: Clock)
    ensures status == MovedByAll(c, times, now)
  {
    status := c;
    for i := 0 to |times|
      invariant status == MovedByAll(c, times[..i], now)
    {
      assert times[..i + 1][..i] == times[..i];
      status := Moved(status, if times[i] > now then now else times[i], Annotation);
    }
    assert times[..|times|] == times;
  }

  // What a look adds

  /** The times a look moves the clock to of its own accord, whether or not it's there already. */
  ghost function Marks(memo: Option<Remembered>, l: Look, idleAfter: int): set<int> {
    (if l.read.None? || l.wakeRequested || Restarts(memo, l, idleAfter) || l.rollout || l.cpu == Active
     || QueriesActive(l)
     then {l.now} else {}) +
    set t | t in l.annotations :: Min(t, l.now)
  }

  lemma {:induction false} MovedByAllMeans(c: Clock, times: seq<int>, now: int)
    ensures var m := MovedByAll(c, times, now);
            && m.lastActivity >= c.lastActivity && m.lastEvaluated == c.lastEvaluated
            && (forall t :: t in times ==> m.lastActivity >= Min(t, now))
            && (m.lastActivity == c.lastActivity || exists t :: t in times && m.lastActivity == Min(t, now))
  {
    if times != [] {
      var last := |times| - 1;
      MovedByAllMeans(c, times[..last], now);
      assert times == times[..last] + [times[last]];
    }
  }

  /**
   * Where a look leaves the clock: at the latest of its own marks, and of the status's and the memory's clocks unless
   * watching had a gap.
   */
  lemma ObservedMeans(memo: Option<Remembered>, l: Look, idleAfter: int)
    ensures var c := Observed(memo, l, idleAfter);
            && (forall m :: m in Marks(memo, l, idleAfter) ==> c.lastActivity >= m)
            && (memo.Some? && !Restarts(memo, l, idleAfter) && l.read.Some? ==>
                  c.lastActivity >= memo.value.clock.lastActivity)
            && (|| c.lastActivity in Marks(memo, l, idleAfter)
                || (l.read.Some? && c.lastActivity == l.read.value.lastActivity)
                || (memo.Some? && c.lastActivity == memo.value.clock.lastActivity))
  {
    var resumed := Resumed(memo, l, idleAfter);
    var watched :=
      if Restarts(memo, l, idleAfter) then resumed.(lastActivity := l.now, source := Unobserved) else resumed;
    var rolled := MovedIf(watched, l.rollout, l.now, Rollout);
    MovedByAllMeans(rolled, l.annotations, l.now);
  }

  /** A source a check can read is active: queries only with the CPU, and not those a would-be pause holds back. */
  predicate SeesActivity(l: Look) {
    l.cpu == Active || (l.cpu == Quiet && l.prom == Active && !(l.dryRun && l.idle && l.queryHeld))
  }

  /** Activity a check sees leaves the clock at now or later. */
  lemma ActivitySeenCounts(memo: Option<Remembered>, l: Look, idleAfter: int)
    requires SeesActivity(l)
    ensures Observed(memo, l, idleAfter).lastActivity >= l.now
    ensures Observed(memo, l, idleAfter).pauseAt >= l.now + idleAfter
  {
    ObservedMeans(memo, l, idleAfter);
    assert l.now in Marks(memo, l, idleAfter);
  }

  lemma {:induction false} AnnotationMoves(c: Clock, times: seq<int>, now: int)
    ensures var m := MovedByAll(c, times, now);
            && (c.lastActivity >= now ==> m == c)
            && (c.lastActivity < now && (exists t :: t in times && t >= now) ==>
                  m.lastActivity == now && m.source == Annotation)
            && (c.lastActivity < now && (forall t :: t in times ==> t < now) ==> m.lastActivity < now)
  {
    if times != [] {
      var last := |times| - 1;
      AnnotationMoves(c, times[..last], now);
      assert times == times[..last] + [times[last]];
      var before := MovedByAll(c, times[..last], now);
      if t :| t in times[..last] && t >= now {
        assert t in times;
        assert c.lastActivity < now ==> before.lastActivity == now;
      } else {
        assert times[last] >= now ==> times[last] in times;
        assert c.lastActivity < now ==> before.lastActivity < now;
      }
    }
  }

  /** The first source that says the workload is active now, in the order they're looked at. */
  ghost function FirstSource(memo: Option<Remembered>, l: Look, idleAfter: int): Option<Source> {
    if Restarts(memo, l, idleAfter) then Some(Unobserved)
    else if l.wakeRequested then Some(Annotation)
    else if l.rollout then Some(Rollout)
    else if exists t :: t in l.annotations && t >= l.now then Some(Annotation)
    else if l.cpu == Active then Some(Cpu)
    else if SeesActivity(l) then Some(Prometheus)
    else None
  }

  /** Which is where a clock that was before now says its activity is from; and with none it stays before now. */
  lemma SourceIsTheFirst(memo: Option<Remembered>, l: Look, idleAfter: int)
    requires l.read.Some? && l.read.value.lastActivity < l.now && (memo.Some? ==> memo.value.clock.lastActivity < l.now)
    ensures var c, source := Observed(memo, l, idleAfter), FirstSource(memo, l, idleAfter);
            if source.Some? then c.lastActivity == l.now && c.source == source.value else c.lastActivity < l.now
  {
    var resumed := Resumed(memo, l, idleAfter);
    var watched :=
      if Restarts(memo, l, idleAfter) then resumed.(lastActivity := l.now, source := Unobserved) else resumed;
    AnnotationMoves(MovedIf(watched, l.rollout, l.now, Rollout), l.annotations, l.now);
  }

  /** When the clock to go on from was last evaluated, as the status it read and the memory have it. */
  ghost function Evaluations(memo: Option<Remembered>, read: Option<Clock>): set<int> {
    (if read.Some? && read.value.lastEvaluated.Some? then {read.value.lastEvaluated.value} else {}) +
    (if read.Some? && memo.Some? && memo.value.clock.lastEvaluated.Some? then {memo.value.clock.lastEvaluated.value}
     else {})
  }

  /**
   * Outside a would-be pause, a clock that has been evaluated restarts exactly when a restarted operator goes by its
   * status alone, or neither that nor the memory has an evaluation within the tolerated gap.
   */
  lemma RestartsAfterAGap(memo: Option<Remembered>, l: Look, idleAfter: int)
    ensures Restarts(memo, l, idleAfter) <==>
              && Evaluations(memo, l.read) != {} && !(l.dryRun && l.idle)
              && (memo.None? || forall e :: e in Evaluations(memo, l.read) ==> l.now - e > GapTolerance(idleAfter))
  {
    if l.read.Some? {
      assert l.read.value.lastEvaluated.Some? ==> l.read.value.lastEvaluated.value in Evaluations(memo, l.read);
      assert memo.Some? && memo.value.clock.lastEvaluated.Some? ==>
          memo.value.clock.lastEvaluated.value in Evaluations(memo, l.read);
    }
  }

  /**
   * Once Idle, whatever else holds it, a workload stays up exactly for activity after that: a check's own marks end it
   * when they're later, and activity from before, which a pause asked for may find recent, doesn't.
   */
  lemma OnlyLaterActivityEndsIdle(memo: Option<Remembered>, l: Look, idleAfter: int, o: Circumstances)
    requires l.idle && l.began.Some? && Readable(l) && !o.early && o.activeUntil <= l.now
    ensures (exists m :: m in Marks(memo, l, idleAfter) && m > l.began.value) ==>
              Decide(Observed(memo, l, idleAfter), l, o) == StaysUp
    ensures var second := Seconds(l.began.value);
            (forall m :: m in Marks(memo, l, idleAfter) ==> m < second)
            && (l.read.Some? ==> l.read.value.lastActivity < second)
            && (memo.Some? ==> memo.value.clock.lastActivity < second) ==>
              Decide(Observed(memo, l, idleAfter), l, o) != StaysUp
  {
    ObservedMeans(memo, l, idleAfter);
  }
}

/** What finding a workload's ScaledObject remembers between calls, however they interleave, and how old it may be. */
module ScaledObjectFinder {
  import opened Times
  import opened Wrappers

  const KEDA_RECHECK := 10 * MINUTE
  const REUSE := 15 * SECOND

  datatype Namespace = Namespace(n: nat)

  datatype ScaledObject = ScaledObject(n: nat)

  /** What a look at the API server finds. */
  datatype Answer = NoKeda | Objects(items: seq<ScaledObject>)

  /** A namespace's ScaledObjects as listed by a call that read the clock at a time. */
  datatype Listing = Listing(items: seq<ScaledObject>, at: int)

  /** What a finder remembers. */
  datatype Memory = Memory(noKedaUntil: Option<int>, listed: map<Namespace, Listing>)

  /** What's remembered well enough for a call at a time to use. */
  function Recalled(m: Memory, ns: Namespace, at: int): Option<Answer> {
    if m.noKedaUntil.Some? && at < m.noKedaUntil.value then Some(NoKeda)
    else if ns in m.listed && at - m.listed[ns].at < REUSE then Some(Objects(m.listed[ns].items))
    else None
  }

  function Learned(m: Memory, ns: Namespace, at: int, a: Answer): Memory {
    match a
    case NoKeda => Memory(Some(at + KEDA_RECHECK), map[])
    case Objects(items) =>
      Memory(None, (map n | n in m.listed && at - m.listed[n].at < REUSE :: m.listed[n])[ns := Listing(items, at)])
  }

  class Finder {
    var noKedaUntil: Option<int>
    var listed: map<Namespace, Listing>

    constructor ()
      ensures Mem() == Memory(None, map[])
    {
      noKedaUntil, listed := None, map[];
    }

    function Mem(): Memory
      reads this
    {
      Memory(noKedaUntil, listed)
    }

    /** The first locked section: what a call can use without asking, which one that wants it as it is now can't. */
    method Recall(ns: Namespace, at: int, now: bool) returns (a: Option<Answer>)
      ensures a == if now then None else Recalled(Mem(), ns, at)
    {
      if !now {
        if noKedaUntil.Some? && at < noKedaUntil.value {
          return Some(NoKeda);
        }
        if ns in listed && at - listed[ns].at < REUSE {
          return Some(Objects(listed[ns].items));
        }
      }
      return None;
    }

    /** The second: remembers what a call that read the clock at a time then listed. */
    method Learn(ns: Namespace, at: int, a: Answer)
      modifies this
      ensures Mem() == Learned(old(Mem()), ns, at, a)
    {
      if a.NoKeda? {
        noKedaUntil, listed := Some(at + KEDA_RECHECK), map[];
        return;
      }
      noKedaUntil := None;
      var todo := listed.Keys;
      while todo != {}
        invariant noKedaUntil == None && todo <= listed.Keys <= old(listed).Keys
        invariant forall n :: n in old(listed) && (n in todo || at - old(listed)[n].at < REUSE) ==> n in listed
        invariant forall n :: n in listed ==>
                    listed[n] == old(listed)[n] && (n in todo || at - listed[n].at < REUSE)
      {
        var n := Pick(todo);
        if at - listed[n].at >= REUSE {
          listed := listed - {n};
        }
        todo := todo - {n};
      }
      listed := listed[ns := Listing(a.items, at)];
    }
  }

  /**
   * What's learned is used: KEDA's absence for any namespace for ten minutes, and ScaledObjects for their own for
   * fifteen seconds, and no longer, whatever is learned of others meanwhile; and finding KEDA puts an end to its
   * absence.
   */
  lemma RecallsWhatItLearned(m: Memory, ns: Namespace, at: int, a: Answer, other: Namespace, later: int)
    ensures var learned := Learned(m, ns, at, a);
            && (a.NoKeda? && later < at + 600 * SECOND ==> Recalled(learned, other, later) == Some(NoKeda))
            && (a.NoKeda? && later >= at + 600 * SECOND ==> Recalled(learned, other, later) == None)
            && (a.Objects? ==>
                  Recalled(learned, ns, later) == if later < at + 15 * SECOND then Some(a) else None)
            && (a.Objects? && other != ns && at <= later && Recalled(m, other, later) != Some(NoKeda) ==>
                  Recalled(learned, other, later) == Recalled(m, other, later))
            && (a.Objects? && other != ns && m.noKedaUntil.Some? && other !in m.listed ==>
                  Recalled(learned, other, later) == None)
  {
  }

  // Calls that interleave

  /** The API server over time: when KEDA is installed, and each namespace's ScaledObjects. */
  datatype Truth = Truth(keda: int -> bool, objects: (Namespace, int) -> seq<ScaledObject>)

  /** A call under way: whether it wants things as they are now, when it read the clock, and what it has listed when. */
  datatype Call = Call(ns: Namespace, asNow: bool, at: int, found: Option<(Answer, int)>)

  /** A call's answer: of its namespace, when it read the clock and was answered. */
  datatype Reply = Reply(call: Call, answer: Answer, when: int)

  datatype State = State(now: int, mem: Memory, calls: map<nat, Call>, replies: seq<Reply>)

  datatype Action =
    | Tick(to: int)
    | Begin(id: nat, ns: Namespace, asNow: bool)
    | List(id: nat)
    | Fail(id: nat)
    | Finish(id: nat)

  function AnswerAt(world: Truth, ns: Namespace, t: int): Answer {
    if world.keda(t) then Objects(world.objects(ns, t)) else NoKeda
  }

  ghost predicate Enabled(s: State, a: Action) {
    match a
    case Tick(to) => to >= s.now
    case Begin(id, _, _) => id !in s.calls
    case List(id) => id in s.calls && s.calls[id].found.None?
    case Fail(id) => id in s.calls
    case Finish(id) => id in s.calls && s.calls[id].found.Some?
  }

  function Next(world: Truth, s: State, a: Action): State {
    match a
    case Tick(to) => s.(now := to)
    case Begin(id, ns, asNow) =>
      var call := Call(ns, asNow, s.now, None);
      var known := if asNow then None else Recalled(s.mem, ns, s.now);
      if known.Some? then s.(replies := s.replies + [Reply(call, known.value, s.now)])
      else s.(calls := s.calls[id := call])
    case List(id) =>
      if id !in s.calls then s
      else
        var call := s.calls[id];
        s.(calls := s.calls[id := call.(found := Some((AnswerAt(world, call.ns, s.now), s.now)))])
    case Fail(id) => s.(calls := s.calls - {id})
    case Finish(id) =>
      if id !in s.calls || s.calls[id].found.None? then s
      else
        var call := s.calls[id];
        var answer := call.found.value.0;
        State(s.now, Learned(s.mem, call.ns, call.at, answer), s.calls - {id}, s.replies + [Reply(call, answer, s.now)])
  }

  /** The answer held at an instant from one time to another. */
  ghost predicate HeldBetween(world: Truth, ns: Namespace, a: Answer, from: int, to: int) {
    exists t :: from <= t <= to && AnswerAt(world, ns, t) == a
  }

  /** KEDA was absent at an instant from one time to another. */
  ghost predicate AbsentBetween(world: Truth, from: int, to: int) {
    exists t :: from <= t <= to && !world.keda(t)
  }

  /** A reply is right as of an instant no older than may be, and never before a call that wants things as they are. */
  ghost predicate IsTimely(world: Truth, r: Reply) {
    var c := r.call;
    if c.asNow then HeldBetween(world, c.ns, r.answer, c.at, r.when)
    else if r.answer.NoKeda? then AbsentBetween(world, c.at - KEDA_RECHECK + 1, r.when)
    else HeldBetween(world, c.ns, r.answer, c.at - REUSE + 1, r.when)
  }

  ghost predicate Inv(world: Truth, s: State) {
    && (s.mem.noKedaUntil.Some? ==> AbsentBetween(world, s.mem.noKedaUntil.value - KEDA_RECHECK, s.now))
    && (forall ns :: ns in s.mem.listed ==>
          HeldBetween(world, ns, Objects(s.mem.listed[ns].items), s.mem.listed[ns].at, s.now))
    && (forall id :: id in s.calls ==> CallIsRight(world, s.calls[id], s.now))
    && (forall r :: r in s.replies ==> IsTimely(world, r))
  }

  ghost predicate CallIsRight(world: Truth, c: Call, now: int) {
    c.at <= now &&
    (c.found.Some? ==> c.at <= c.found.value.1 <= now && c.found.value.0 == AnswerAt(world, c.ns, c.found.value.1))
  }

  lemma TickKeepsInv(world: Truth, s: State, to: int)
    requires Inv(world, s) && to >= s.now
    ensures Inv(world, s.(now := to))
  {
  }

  lemma BeginKeepsInv(world: Truth, s: State, id: nat, ns: Namespace, asNow: bool)
    requires Inv(world, s) && Enabled(s, Begin(id, ns, asNow))
    ensures Inv(world, Next(world, s, Begin(id, ns, asNow)))
  {
  }

  lemma FinishKeepsInv(world: Truth, s: State, id: nat)
    requires Inv(world, s) && Enabled(s, Finish(id))
    ensures Inv(world, Next(world, s, Finish(id)))
  {
  }

  lemma StepKeepsInv(world: Truth, s: State, a: Action)
    requires Inv(world, s) && Enabled(s, a)
    ensures Inv(world, Next(world, s, a))
  {
    match a {
      case Tick(to) => TickKeepsInv(world, s, to);
      case Begin(id, ns, asNow) => BeginKeepsInv(world, s, id, ns, asNow);
      case Finish(id) => FinishKeepsInv(world, s, id);
      case List(_) =>
      case Fail(_) =>
    }
  }

  function Ran(world: Truth, s: State, actions: seq<Action>): State
    decreases |actions|
  {
    if actions == [] then s else Ran(world, Next(world, s, actions[0]), actions[1..])
  }

  ghost predicate IsRun(world: Truth, s: State, actions: seq<Action>)
    decreases |actions|
  {
    actions != [] ==> Enabled(s, actions[0]) && IsRun(world, Next(world, s, actions[0]), actions[1..])
  }

  lemma {:induction false} RunKeepsInv(world: Truth, s: State, actions: seq<Action>)
    requires Inv(world, s) && IsRun(world, s, actions)
    ensures Inv(world, Ran(world, s, actions))
    decreases |actions|
  {
    if actions != [] {
      StepKeepsInv(world, s, actions[0]);
      RunKeepsInv(world, Next(world, s, actions[0]), actions[1..]);
    }
  }

  /**
   * However calls interleave, each is answered rightly as of an instant: less than 15 seconds before it for
   * ScaledObjects listed, less than 10 minutes for KEDA's absence, and never before a call that wants things as they
   * are.
   */
  lemma RepliesAreTimely(world: Truth, start: int, actions: seq<Action>, r: Reply)
    requires IsRun(world, State(start, Memory(None, map[]), map[], []), actions)
    requires r in Ran(world, State(start, Memory(None, map[]), map[], []), actions).replies
    ensures IsTimely(world, r)
  {
    RunKeepsInv(world, State(start, Memory(None, map[]), map[], []), actions);
  }
}

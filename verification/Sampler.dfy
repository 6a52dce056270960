/** The saved resource-hours samples credit paused workloads with, until they're drained into their statuses. */
module Sampler {
  import opened Shortfall
  import opened Times
  import opened Workloads
  import opened Wrappers

  const SAMPLE_INTERVAL := 5 * MINUTE

  /** The part of the time since the last sample that a workload is credited for: what it was paused for. */
  function Covered(last: int, now: int, pausedAt: int): int {
    Min(Min(now - last, SAMPLE_INTERVAL), now - pausedAt)
  }

  /** Which is all of it since the pause began, but for what's more than five minutes ago. */
  lemma CoversWhatItWasPausedFor(last: int, now: int, pausedAt: int, t: int)
    ensures now - Covered(last, now, pausedAt) <= t < now <==>
              last <= t < now && pausedAt <= t && now - 300 * SECOND <= t
  {
  }

  function Credit(share: Resources, covered: int): Resources {
    Resources(share.cpu * Hours(covered), share.memory / BYTES_PER_GIB * Hours(covered))
  }

  /** A sample's credit to a workload, if it has a share of the shortfalls. */
  function Earned(last: Option<int>, now: int, share: Option<Resources>, pausedAt: int): (earned: Option<Resources>)
    ensures earned.Some? <==> last.Some? && share.Some? && last.value < now && pausedAt < now
                              && (share.value.cpu > 0.0 || share.value.memory > 0.0)
  {
    if last.None? || share.None? then None
    else
      var covered := Covered(last.value, now, pausedAt);
      if covered <= 0 || (share.value.cpu <= 0.0 && share.value.memory <= 0.0) then None
      else Some(Credit(share.value, covered))
  }

  function Plus(h: Resources, earned: Option<Resources>): Resources {
    if earned.Some? then h.Add(earned.value) else h
  }

  function ShareOf(shares: map<Uid, Resources>, uid: Uid): Option<Resources> {
    if uid in shares then Some(shares[uid]) else None
  }

  class Sampler {
    /** None when no sample has been taken, or the last one failed. */
    var sampledAt: Option<int>
    var saved: map<Uid, Resources>

    constructor ()
      ensures sampledAt == None && forall u :: Pending(u) == ZERO
    {
      sampledAt, saved := None, map[];
    }

    /** The hours credited to a workload since it was last drained. */
    function Pending(uid: Uid): Resources
      reads this
    {
      if uid in saved then saved[uid] else ZERO
    }

    /** Returns the hours credited, and forgets them. */
    method Drain(uid: Uid) returns (hours: Resources)
      modifies this`saved
      ensures hours == old(Pending(uid)) && Pending(uid) == ZERO
      ensures forall u :: u != uid ==> Pending(u) == old(Pending(u))
    {
      hours := if uid in saved then saved[uid] else ZERO;
      saved := saved - {uid};
    }

    /** Has the next sample start afresh. */
    method ForgetSample()
      modifies this`sampledAt
      ensures sampledAt == None
    {
      sampledAt := None;
    }

    /** Forgets what's credited to workloads that are gone. */
    method DropGone(known: set<Uid>)
      modifies this`saved
      ensures forall u :: Pending(u) == if u in known then old(Pending(u)) else ZERO
    {
      var todo := saved.Keys;
      while todo != {}
        invariant todo <= saved.Keys <= old(saved).Keys
        invariant forall u :: u in old(saved) && (u in todo || u in known) ==> u in saved
        invariant forall u :: u in saved ==> saved[u] == old(saved)[u] && (u in todo || u in known)
      {
        var uid := Pick(todo);
        if uid !in known {
          saved := saved - {uid};
        }
        todo := todo - {uid};
      }
    }

    /** Adds each workload's share over the time since the last sample it was paused for. */
    method CreditShares(now: int, shares: map<Uid, Resources>, pausedAt: map<Uid, int>, known: set<Uid>)
      requires shares.Keys <= pausedAt.Keys
      modifies this
      ensures sampledAt == Some(now)
      ensures forall u :: Pending(u) ==
                Plus(if u in known then old(Pending(u)) else ZERO,
                     Earned(old(sampledAt), now, ShareOf(shares, u), if u in pausedAt then pausedAt[u] else 0))
    {
      var last := sampledAt;
      sampledAt := Some(now);
      DropGone(known);
      if last.None? {
        return;
      }
      var interval := Min(now - last.value, SAMPLE_INTERVAL);
      ghost var before := saved;
      var todo := shares.Keys;
      while todo != {}
        invariant sampledAt == Some(now) && todo <= shares.Keys
        invariant forall u :: Pending(u) ==
                    Plus(if u in before then before[u] else ZERO,
                         if u in todo then None
                         else Earned(last, now, ShareOf(shares, u), if u in pausedAt then pausedAt[u] else 0))
      {
        var uid := Pick(todo);
        var share, covered := shares[uid], Min(interval, now - pausedAt[uid]);
        todo := todo - {uid};
        if covered > 0 && (share.cpu > 0.0 || share.memory > 0.0) {
          var h := if uid in saved then saved[uid] else ZERO;
          saved := saved[uid := h.Add(Credit(share, covered))];
        }
      }
    }
  }
}

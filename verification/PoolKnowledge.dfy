/** Every step keeps what the threads, and the messages, have seen. */
module PoolKnowledge {
  import opened Machine
  import opened Params
  import opened Indexing
  import opened Fill
  import opened SliceView
  import opened Pool
  import opened PoolInvariant
  import opened PoolControl
  import opened PoolLeader

  /** One view has seen at least what another has. */
  predicate Leq(a: Seen, b: Seen) {
    && a.lane <= b.lane && a.arrived <= b.arrived && a.generation <= b.generation
    && a.lost <= b.lost && a.stop <= b.stop && a.events <= b.events
  }

  predicate Appended(old_: History, new_: History) {
    |new_| == |old_| + 1 && new_[..|old_|] == old_
  }

  // ---------------------------------------------------------------------------
  // A step of any thread that leaves the slice and the other threads alone
  // ---------------------------------------------------------------------------

  /** What thread `i` may do to the log and the lane counter: add to it, and see what it added. */
  ghost predicate Recorded(s: State, s': State, i: nat, seen: Seen) {
    && (s'.log == s.log
        || (|s'.log| == |s.log| + 1 && s'.log[..|s.log|] == s.log && s'.log[|s.log|].thread == i
          && |s.log| in seen.events))
    && (s'.nextLane == s.nextLane
        || (Appended(s.nextLane, s'.nextLane) && Newest(s'.nextLane).writer == i && seen.lane == |s.nextLane|))
  }

  ghost predicate Step(s: State, s': State, i: nat, x: Thread) {
    && i < |s.threads|
    && s'.threads == s.threads[i := x]
    && Leq(s.threads[i].seen, x.seen)
    && Bounded(s', x.seen)
    && Recorded(s, s', i, x.seen)
    && !x.pc.Unborn? && !x.pc.Refused? && !s.threads[i].pc.Unborn? && !s.threads[i].pc.Refused?
    && s'.epoch == s.epoch && s'.base == s.base
    && (s'.arrived == s.arrived || (Appended(s.arrived, s'.arrived) && Bounded(s', Newest(s'.arrived).seen)))
    && (s'.lost == s.lost || (Appended(s.lost, s'.lost) && Bounded(s', Newest(s'.lost).seen)))
    && (s'.generation == s.generation
        || (Appended(s.generation, s'.generation) && Bounded(s', Newest(s'.generation).seen)
            && s.epoch < |s.generation| && Newest(s'.generation).seen.stop >= 1))
    && (s'.stop == s.stop || Appended(s.stop, s'.stop))
  }

  lemma StepBounded(s: State, s': State, i: nat, x: Thread)
    requires Step(s, s', i, x) && AllBounded(s)
    ensures AllBounded(s')
  {
    hide Leq;
    assert forall seen :: Bounded(s, seen) ==> Bounded(s', seen);
    forall k | 0 <= k < |s'.arrived|
      ensures Bounded(s', s'.arrived[k].seen)
    {
      if k < |s.arrived| {
        assert s'.arrived[k] == s.arrived[k];
      }
    }
    forall k | 0 <= k < |s'.generation|
      ensures Bounded(s', s'.generation[k].seen) && s'.generation[k].seen.generation <= k
    {
      if k < |s.generation| {
        assert s'.generation[k] == s.generation[k];
      }
    }
    forall k | 0 <= k < |s'.lost|
      ensures Bounded(s', s'.lost[k].seen)
    {
      if k < |s.lost| {
        assert s'.lost[k] == s.lost[k];
      }
    }
  }

  lemma SeesOwnKept(s: State, s': State, i: nat, x: Thread, j: nat, seen: Seen)
    requires Step(s, s', i, x) && j < |s.threads| && j != i && SeesOwn(s, j, seen)
    ensures SeesOwn(s', j, seen)
  {
    hide Leq, Bounded;
    forall k | 0 <= k < |s'.log| && s'.log[k].thread == j
      ensures k in seen.events
    {
      assert k < |s.log| ==> s'.log[k] == s.log[k];
    }
    forall k | 0 <= k < |s'.nextLane| && s'.nextLane[k].writer == j
      ensures k <= seen.lane
    {
      assert k < |s.nextLane| ==> s'.nextLane[k] == s.nextLane[k];
    }
  }

  lemma SeesOwnMoved(s: State, s': State, i: nat, x: Thread)
    requires Step(s, s', i, x) && SeesOwn(s, i, s.threads[i].seen)
    ensures SeesOwn(s', i, x.seen)
  {
    hide Bounded;
    forall k | 0 <= k < |s'.log| && s'.log[k].thread == i
      ensures k in x.seen.events
    {
      assert k < |s.log| ==> s'.log[k] == s.log[k];
    }
    forall k | 0 <= k < |s'.nextLane| && s'.nextLane[k].writer == i
      ensures k <= x.seen.lane
    {
      assert k < |s.nextLane| ==> s'.nextLane[k] == s.nextLane[k];
    }
  }

  lemma StepOwn(s: State, s': State, i: nat, x: Thread)
    requires Step(s, s', i, x) && Own(s)
    ensures Own(s')
  {
    hide SeesOwn, Leq, Bounded;
    forall j | 0 <= j < |s'.threads|
      ensures SeesOwn(s', j, s'.threads[j].seen)
    {
      if j == i {
        SeesOwnMoved(s, s', i, x);
      } else {
        SeesOwnKept(s, s', i, x, j, s.threads[j].seen);
      }
    }
    forall k | 0 <= k < |s'.log|
      ensures s'.log[k].thread < |s'.threads|
      ensures !s'.threads[s'.log[k].thread].pc.Unborn? && !s'.threads[s'.log[k].thread].pc.Refused?
    {
      assert k < |s.log| ==> s'.log[k] == s.log[k];
    }
    forall k | 0 <= k < |s'.nextLane|
      ensures s'.nextLane[k].writer < |s'.threads|
      ensures !s'.threads[s'.nextLane[k].writer].pc.Unborn? && !s'.threads[s'.nextLane[k].writer].pc.Refused?
    {
      assert k < |s.nextLane| ==> s'.nextLane[k] == s.nextLane[k];
    }
  }

  /** The other helpers know what they knew. */
  lemma StepHelpers(c: Config, s: State, s': State, i: nat, x: Thread)
    requires Step(s, s', i, x)
    requires forall j :: 1 <= j < |s.threads| ==> HelperSeen(c, s, j)
    requires i > 0 ==> HelperSeen(c, s', i)
    ensures forall j :: 1 <= j < |s'.threads| ==> HelperSeen(c, s', j)
  {
    hide Leq, Bounded, Recorded;
    forall j | 1 <= j < |s'.threads|
      ensures HelperSeen(c, s', j)
    {
      assert j != i ==> HelperSeen(c, s, j);
    }
  }

  /** What a helper's step may do to the arrivals: the parked helpers' knowledge is passed on. */
  ghost predicate PassesOn(s: State, s': State, i: nat, x: Thread)
    requires i < |s.threads|
  {
    if s'.arrived == s.arrived then
      Waiting(x.pc, s.epoch) ==> Waiting(s.threads[i].pc, s.epoch) && s'.log == s.log && s'.nextLane == s.nextLane
    else
      && Appended(s.arrived, s'.arrived)
      && Leq(Newest(s.arrived).seen, Newest(s'.arrived).seen) && Leq(x.seen, Newest(s'.arrived).seen)
  }

  lemma SeesOwnGrows(s: State, i: nat, a: Seen, b: Seen)
    requires i < |s.threads| && SeesOwn(s, i, a) && Leq(a, b)
    ensures SeesOwn(s, i, b)
  {
  }

  lemma StepPublished(c: Config, s: State, s': State, i: nat, x: Thread)
    requires Step(s, s', i, x) && Published(c, s) && SeesOwn(s, i, s.threads[i].seen)
    requires |s.threads| > 0 && (i == 0 && Left(LeaderPc(s)) ==> Left(x.pc)) && !LeaderPc(s).Publishing?
    requires i > 0 ==> PassesOn(s, s', i, x)
    requires i == 0 ==> s'.arrived == s.arrived || x.pc.Publishing?
    ensures Published(c, s')
  {
    hide SeesOwn, Leq, Bounded;
    if s.epoch < |s'.generation| {
      assert s.epoch < |s.generation| ==> s'.generation[s.epoch] == s.generation[s.epoch];
    }
    forall k | s.epoch < k < |s'.generation|
      ensures s'.generation[k].seen.stop >= 1
    {
      assert k < |s.generation| ==> s'.generation[k] == s.generation[k];
    }
    forall j | 1 <= j < |s'.threads| && Waiting(s'.threads[j].pc, s.epoch) && !Left(LeaderPc(s'))
      && !LeaderPc(s').Publishing?
      ensures SeesOwn(s', j, Newest(s'.arrived).seen)
    {
      if j != i {
        SeesOwnKept(s, s', i, x, j, Newest(s.arrived).seen);
        if s'.arrived != s.arrived {
          SeesOwnGrows(s', j, Newest(s.arrived).seen, Newest(s'.arrived).seen);
        }
      } else if s'.arrived == s.arrived {
        SeesOwnSame(s, s', i, Newest(s.arrived).seen);
      } else {
        SeesOwnMoved(s, s', i, x);
        SeesOwnGrows(s', i, x.seen, Newest(s'.arrived).seen);
      }
    }
  }

  lemma SeesOwnSame(s: State, s': State, i: nat, seen: Seen)
    requires |s'.threads| == |s.threads| && i < |s.threads| && SeesOwn(s, i, seen)
    requires s'.log == s.log && s'.nextLane == s.nextLane
    ensures SeesOwn(s', i, seen)
  {
  }

  /** The leader's own knowledge, when a helper moves: it is not past the barrier unless nobody arrives. */
  lemma StepLeaderSeen(c: Config, s: State, s': State, i: nat, x: Thread)
    requires Step(s, s', i, x) && i > 0 && LeaderSeen'(c, s)
    requires s'.generation == s.generation && s'.stop == s.stop && s'.arrivedBase == s.arrivedBase
    requires LeaderPc(s).CheckingLost? ==> s'.arrived == s.arrived && s'.lost == s.lost
    requires Quiet(LeaderPc(s)) ==> s'.arrived == s.arrived && s'.log == s.log
    ensures s.arrivedBase < |s'.arrived| && LeaderSeen(c, s')
  {
    hide Leq, Bounded;
    var pc := LeaderPc(s);
    if pc.LoadingLost? {
      assert s'.arrived[s.arrivedBase + pc.arrived] == s.arrived[s.arrivedBase + pc.arrived];
    }
  }

  ghost predicate LeaderSeen'(c: Config, s: State) {
    |s.threads| > 0 && s.arrivedBase < |s.arrived| && LeaderSeen(c, s)
  }

  /** A helper's step keeps all knowledge, if it keeps the helper's own. */
  lemma HelperKnowledge(c: Config, s: State, s': State, i: nat, x: Thread)
    requires Shape(c, s) && Shape(c, s') && Knowledge(c, s) && 1 <= i < |s.threads|
    requires Step(s, s', i, x) && PassesOn(s, s', i, x) && HelperSeen(c, s', i)
    requires s'.generation == s.generation && s'.stop == s.stop && s'.arrivedBase == s.arrivedBase
    requires LeaderPc(s).CheckingLost? ==> s'.arrived == s.arrived && s'.lost == s.lost
    requires Quiet(LeaderPc(s)) ==> s'.arrived == s.arrived && s'.log == s.log
    ensures Knowledge(c, s')
  {
    hide Shape, Step, PassesOn, HelperSeen, AllBounded, LeaderSeen, Published, SeesOwn;
    assert |s.threads| > 0 && s.arrivedBase < |s.arrived| by { LengthsOf(c, s); }
    StepBounded(s, s', i, x);
    StepOwn(s, s', i, x);
    StepHelpers(c, s, s', i, x);
    StepLeaderSeen(c, s, s', i, x);
    if LeaderPc(s).Publishing? {
      PublishedWhilePublishing(c, s, s', i, x);
    } else {
      StepPublished(c, s, s', i, x);
    }
  }

  lemma LengthsOf(c: Config, s: State)
    requires Shape(c, s)
    ensures |s.threads| > 0 && s.arrivedBase < |s.arrived|
  {
  }

  lemma PublishedWhilePublishing(c: Config, s: State, s': State, i: nat, x: Thread)
    requires Step(s, s', i, x) && |s.threads| > 0 && Published(c, s) && i > 0 && LeaderPc(s).Publishing?
    requires s'.generation == s.generation
    ensures Published(c, s')
  {
    hide SeesOwn, Leq, Bounded, Recorded;
  }

  /** A leader's step keeps all knowledge, if it keeps the leader's own. */
  lemma LeaderKnowledge(c: Config, s: State, s': State, x: Thread)
    requires Shape(c, s) && Shape(c, s') && Knowledge(c, s)
    requires Step(s, s', 0, x) && LeaderSeen(c, s') && !LeaderPc(s).Publishing?
    requires Left(LeaderPc(s)) ==> Left(x.pc)
    requires s'.arrived == s.arrived || x.pc.Publishing?
    ensures Knowledge(c, s')
  {
    hide Shape, Step, HelperSeen, AllBounded, LeaderSeen, Published, SeesOwn;
    assert |s.threads| > 0 && s.arrivedBase < |s.arrived| by { LengthsOf(c, s); }
    StepBounded(s, s', 0, x);
    StepOwn(s, s', 0, x);
    StepHelpers(c, s, s', 0, x);
    StepPublished(c, s, s', 0, x);
  }
}

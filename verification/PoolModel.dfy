/** What the step system allows: how many threads there are, what may fail, and what orders nothing. */
module PoolModel {
  import opened Machine
  import opened Params
  import opened Indexing
  import opened Fill
  import opened SliceView
  import opened Pool
  import opened PoolInvariant
  import opened PoolSafety
  import opened PoolLiveness

  /** As many threads as the instance has, one of them the leader, and four slices a pass. */
  lemma PoolSize(c: Config)
    requires ValidConfig(c)
    ensures Workers(c) == c.inst.threads && Helpers(c) == c.inst.threads - 1 && Slices(c) == 4 * c.inst.passes
    ensures |Initial(c).threads| == c.inst.threads && Initial(c).mem == c.initial
  {
  }

  /** The leader spawns every helper, one after the other, and then goes on. */
  lemma EveryHelperIsSpawned(c: Config, s: State, m: Move, k: nat)
    requires Typed(c, s) && Enabled(c, s, m) && m.thread == 0 && |s.threads| > 0 && s.threads[0].pc == Spawning(k)
    requires 1 <= k
    ensures var s' := Next(c, s, m);
            if k < c.inst.threads then
              && s'.threads[0].pc == Spawning(k + 1)
              && s'.threads[k].pc == (if m.fails then Refused else Claiming(0))
            else s'.threads[0].pc == Charging
  {
  }

  /**
   A load may read any message from the newest its thread has seen on, however stale: the wait loops, the
   relaxed loads of the stop flag, and the leader's second look at the lost helpers.
   */
  lemma LoadsMayBeStale(c: Config, s: State, i: nat, read: nat, fails: bool)
    requires i < |s.threads|
    ensures var th, m := s.threads[i], Move(i, read, fails);
            && (th.pc.LoadingGeneration? && th.seen.generation <= read < |s.generation| ==> Enabled(c, s, m))
            && (th.pc.LoadingStop? && th.seen.stop <= read < |s.stop| ==> Enabled(c, s, m))
            && (th.pc.CheckingStop? && th.seen.stop <= read < |s.stop| ==> Enabled(c, s, m))
            && (th.pc.LoadingArrived? && th.seen.arrived <= read < |s.arrived| ==> Enabled(c, s, m))
            && (th.pc.LoadingLost? && th.seen.lost <= read < |s.lost| ==> Enabled(c, s, m))
            && (th.pc.CheckingLost? && th.seen.lost <= read < |s.lost| ==> Enabled(c, s, m))
  {
  }

  /** Any other thread that has not ended can step at any time; the join waits for the helpers. */
  lemma StepsAreFree(c: Config, s: State, i: nat, read: nat, fails: bool)
    requires i < |s.threads|
    ensures var pc, m := s.threads[i].pc, Move(i, read, fails);
            && (pc.Claiming? || pc.Filling? || pc.Arriving? || pc.Unwinding? ==> Enabled(c, s, m))
            && (pc.Spawning? || pc.Charging? || pc.Tracing? || pc.ResettingLane? || pc.ResettingArrived?
                || pc.Publishing? || pc.Stopping? || pc.BumpingStop? || pc.Releasing? || pc.BumpingRelease?
                ==> Enabled(c, s, m))
            && (pc.Joining? && (forall k :: 1 <= k < |s.threads| ==> Ended(s.threads[k].pc)) ==> Enabled(c, s, m))
  {
  }

  /** Filling a block may unwind, in a helper or in the leader, and so may the trace. */
  lemma AnythingMayUnwind(c: Config, s: State, m: Move)
    requires Typed(c, s) && Enabled(c, s, m) && m.fails
    ensures var pc, pc' := s.threads[m.thread].pc, Next(c, s, m).threads[m.thread].pc;
            && (pc.Filling? ==> pc' == if m.thread == 0 then Releasing(false) else Unwinding)
            && (pc.Tracing? && m.thread == 0 ==> pc' == Releasing(false))
            && (pc.Filling? ==> Next(c, s, m).mem == s.mem)
  {
    hide WriteBlock, RefOffset, PseudoRand, WellFormed;
  }

  /**
   A relaxed store publishes nothing, a relaxed addition passes on what the message before it carried, and
   a relaxed load takes nothing from the message it reads.
   */
  lemma RelaxedOrdersNothing(c: Config, s: State, t: nat, read: nat)
    requires |s.threads| > 0
    ensures Newest(StepResetLane(s, t).nextLane).seen == NOTHING
    ensures Newest(StepResetArrived(s, t).arrived).seen == NOTHING
    ensures Newest(StepStop(s, Releasing(true)).stop).seen == NOTHING
    ensures Newest(StepCharge(c, s).lost).seen == Newest(s.lost).seen
    ensures read < |s.lost| ==>
              StepCheckLost(c, s, t, read).threads[0].seen == s.threads[0].seen.(lost := read)
  {
  }

  lemma HelpersRelaxedOrdersNothing(c: Config, s: State, i: nat, t: nat, read: nat)
    requires i < |s.threads|
    ensures Newest(StepClaim(c, s, i, t).nextLane).seen == Newest(s.nextLane).seen
    ensures StepClaim(c, s, i, t).threads[i].seen.events == s.threads[i].seen.events
    ensures read < |s.stop| ==> StepLoadStop(s, i, t, read).threads[i].seen == s.threads[i].seen.(stop := read)
    ensures read < |s.stop| ==> StepCheckStop(c, s, i, t, read).threads[i].seen == s.threads[i].seen.(stop := read)
  {
  }

  /** The message a thread is about to acquire carries an access. */
  predicate Acquires(s: State, th: Thread, read: nat, e: nat) {
    || (th.pc.LoadingGeneration? && read < |s.generation| && e in s.generation[read].seen.events)
    || (th.pc.LoadingArrived? && read < |s.arrived| && e in s.arrived[read].seen.events)
    || (th.pc.LoadingLost? && read < |s.lost| && e in s.lost[read].seen.events)
  }

  /** A thread's own access, an acquire load, the join, or being spawned: nothing else adds to a view. */
  predicate MayLearn(s: State, m: Move, i: nat, e: nat)
    requires i < |s.threads|
  {
    var th := s.threads[i];
    || (i == m.thread && e == |s.log| && (th.pc.Filling? || th.pc.Tracing?))
    || (i == m.thread && (Acquires(s, th, m.read, e) || th.pc.Joining?))
    || (m.thread == 0 && s.threads[0].pc == Spawning(i) && e in s.threads[0].seen.events)
  }

  lemma HelperLearns(c: Config, s: State, m: Move, s': State, i: nat, e: nat)
    requires Inv(c, s) && Typed(c, s) && Enabled(c, s, m) && s' == Next(c, s, m) && m.thread > 0
    requires i < |s.threads| && i < |s'.threads|
    requires e !in s.threads[i].seen.events && e in s'.threads[i].seen.events
    ensures MayLearn(s, m, i, e)
  {
    hide Inv, WriteBlock, RefOffset, PseudoRand, WellFormed, WrapAdd, Stamp, StartIndex;
    WhoIsWhere(c, s, m.thread);
  }

  lemma LeaderLearns(c: Config, s: State, m: Move, s': State, i: nat, e: nat)
    requires Inv(c, s) && Typed(c, s) && Enabled(c, s, m) && s' == Next(c, s, m) && m.thread == 0
    requires i < |s.threads| && i < |s'.threads|
    requires e !in s.threads[i].seen.events && e in s'.threads[i].seen.events
    ensures MayLearn(s, m, i, e)
  {
    hide Inv, WriteBlock, RefOffset, PseudoRand, WellFormed, JoinAll, SomeoneLost, WrapAdd, Stamp, StartIndex;
    WhoIsWhere(c, s, 0);
    LeaderPlace(c, s);
  }

  /** Only making an access or acquiring it puts it into a thread's view. */
  lemma ViewsGrowByAcquiring(c: Config, s: State, m: Move, s': State, i: nat, e: nat)
    requires Inv(c, s) && Typed(c, s) && Enabled(c, s, m) && s' == Next(c, s, m)
    requires i < |s.threads| && i < |s'.threads|
    requires e !in s.threads[i].seen.events && e in s'.threads[i].seen.events
    ensures MayLearn(s, m, i, e)
  {
    hide Inv, Typed, Enabled, Next, MayLearn;
    if m.thread == 0 {
      LeaderLearns(c, s, m, s', i, e);
    } else {
      HelperLearns(c, s, m, s', i, e);
    }
  }
}

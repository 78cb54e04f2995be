/** How a fill ends: it returns when nobody unwinds, and raises when somebody did. */
module PoolOutcome {
  import opened Machine
  import opened Params
  import opened Indexing
  import opened Fill
  import opened SliceView
  import opened Pool
  import opened PoolInvariant
  import opened PoolControl
  import opened PoolKnowledge
  import opened PoolLeader
  import opened PoolViews
  import opened PoolSafety
  import opened PoolFairness
  import PoolTheorems

  /** A move in which a lane's fill, or the trace callback, unwinds. */
  predicate Unwinds(s: State, m: Move) {
    m.fails && m.thread < |s.threads| && (s.threads[m.thread].pc.Filling? || s.threads[m.thread].pc.Tracing?)
  }

  /** Nobody has unwound, and the leader does not think so either. */
  ghost predicate Clean(s: State) {
    && |s.threads| > 0
    && (forall i :: 1 <= i < |s.threads| ==> !s.threads[i].pc.Unwinding? && !s.threads[i].pc.Lost?)
    && match LeaderPc(s)
       case Stopping => false
       case BumpingStop => false
       case Releasing(clean) => clean
       case BumpingRelease(clean) => clean
       case Joining(clean) => clean
       case Raised => false
       case _ => true
  }

  lemma CleanCheck(c: Config, s: State, t: nat, read: nat)
    requires Inv(c, s) && Clean(s) && LeaderPc(s) == CheckingLost(t) && s.threads[0].seen.lost <= read < |s.lost|
    ensures StepCheckLost(c, s, t, read).threads[0].pc != Stopping
  {
    hide Memory, Record, Control, Knowledge;
    CheckLostDecides(c, s, t, read);
    CountToNone(s.threads, Gone, |s.threads|);
  }

  lemma CleanHelper(c: Config, s: State, m: Move)
    requires Inv(c, s) && Typed(c, s) && Enabled(c, s, m) && Clean(s) && !Unwinds(s, m) && m.thread > 0
    ensures Clean(Next(c, s, m))
  {
    hide Inv, WriteBlock, RefOffset, PseudoRand, Stamp, WrapAdd, WellFormed, StartIndex;
    WhoIsWhere(c, s, m.thread);
    assert LeaderPc(Next(c, s, m)) == LeaderPc(s);
  }

  lemma CleanLeader(c: Config, s: State, m: Move)
    requires Inv(c, s) && Typed(c, s) && Enabled(c, s, m) && Clean(s) && !Unwinds(s, m) && m.thread == 0
    ensures Clean(Next(c, s, m))
  {
    hide Inv, WriteBlock, RefOffset, PseudoRand, Stamp, WrapAdd, JoinAll, WellFormed, StartIndex;
    WhoIsWhere(c, s, 0);
    if s.threads[0].pc.CheckingLost? {
      CleanCheck(c, s, s.threads[0].pc.t, m.read);
    }
  }

  lemma CleanNext(c: Config, s: State, m: Move)
    requires Inv(c, s) && Typed(c, s) && Enabled(c, s, m) && Clean(s) && !Unwinds(s, m)
    ensures Clean(Next(c, s, m))
  {
    hide *;
    if m.thread == 0 {
      CleanLeader(c, s, m);
    } else {
      CleanHelper(c, s, m);
    }
  }

  lemma {:induction false} CleanRun(c: Config, states: seq<State>, moves: seq<Move>, k: nat)
    requires IsRun(c, states, moves) && k < |states|
    requires forall j :: 0 <= j < k ==> !Unwinds(states[j], moves[j])
    ensures Clean(states[k])
  {
    hide Inv, Next, Typed, Unwinds, Clean;
    if k == 0 {
      InitialClean(c);
    } else {
      CleanRun(c, states, moves, k - 1);
      Reachable(c, states, moves, k - 1);
      CleanNext(c, states[k - 1], moves[k - 1]);
    }
  }

  lemma InitialClean(c: Config)
    requires ValidConfig(c)
    ensures Clean(Initial(c))
  {
  }

  /**
   If neither a lane nor the trace unwinds, a fill that ends has returned, with the sequential memory;
   however many of its threads were refused. Read the other way: a fill raises only what was raised.
   */
  lemma RefusedThreadsDoNotMatter(c: Config, states: seq<State>, moves: seq<Move>, k: nat)
    requires IsRun(c, states, moves) && k < |states| && |states[k].threads| > 0 && Final(states[k])
    requires forall j :: 0 <= j < k ==> !Unwinds(states[j], moves[j])
    ensures LeaderPc(states[k]).Returned?
    ensures states[k].mem == SequentialFill(c.inst, c.initial, 4 * c.inst.passes)
  {
    hide Unwinds, IsRun;
    CleanRun(c, states, moves, k);
    PoolTheorems.ParallelEqualsSequential(c, states, moves, k);
  }
}

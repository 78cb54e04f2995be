/**
 From wherever a run has got to it can be finished: at most two turns of a wait loop separate any
 reachable state from a step that decreases the measure. So a run that returns exists.
 */
module PoolProgress {
  import opened Machine
  import opened Params
  import opened Indexing
  import opened Fill
  import opened SliceView
  import opened Pool
  import opened PoolInvariant
  import opened PoolControl
  import opened PoolLeader
  import opened PoolSafety
  import opened PoolLiveness
  import opened PoolFairness
  import PoolOutcome
  import PoolTheorems

  /** Part of a run, from any state, in which nothing unwinds and no thread is refused. */
  ghost predicate Path(c: Config, states: seq<State>, moves: seq<Move>) {
    && |states| == |moves| + 1
    && forall k :: 0 <= k < |moves| ==> Follows(c, states[k], moves[k], states[k + 1])
  }

  ghost predicate Follows(c: Config, s: State, m: Move, s': State) {
    Typed(c, s) && Enabled(c, s, m) && !m.fails && s' == Next(c, s, m)
  }

  function End(states: seq<State>): State
    requires |states| > 0
  {
    states[|states| - 1]
  }

  lemma PathsJoin(c: Config, states1: seq<State>, moves1: seq<Move>, states2: seq<State>, moves2: seq<Move>)
    requires Path(c, states1, moves1) && Path(c, states2, moves2) && End(states1) == states2[0]
    ensures Path(c, states1 + states2[1..], moves1 + moves2)
    ensures (states1 + states2[1..])[0] == states1[0] && End(states1 + states2[1..]) == End(states2)
  {
    hide Follows;
    var states, moves, n := states1 + states2[1..], moves1 + moves2, |moves1|;
    assert forall k :: n <= k < |states| ==> states[k] == states2[k - n];
    forall k | 0 <= k < |moves|
      ensures Follows(c, states[k], moves[k], states[k + 1])
    {
      if k >= n {
        assert Follows(c, states2[k - n], moves2[k - n], states2[k - n + 1]);
      } else {
        assert Follows(c, states1[k], moves1[k], states1[k + 1]);
      }
    }
  }

  // ---------------------------------------------------------------------------
  // Getting out of a wait loop
  // ---------------------------------------------------------------------------

  /** A path that makes progress. */
  ghost predicate Advances(c: Config, s: State, states: seq<State>, moves: seq<Move>) {
    && Path(c, states, moves) && states[0] == s && Inv(c, End(states))
    && Less(MeasureOf(c, End(states)), MeasureOf(c, s))
  }

  lemma FreshIsEnabled(c: Config, s: State, i: nat)
    requires Inv(c, s) && CanMove(s, i)
    ensures i < |s.threads| && Typed(c, s) && Enabled(c, s, Freshest(s, i))
  {
    hide Inv;
    InvIsTyped(c, s);
    BoundedOf(c, s, i);
  }

  /** A step that loads the newest message either makes progress or is a spin that changes nothing. */
  lemma FreshStep(c: Config, s: State, i: nat) returns (s': State)
    requires Inv(c, s) && CanMove(s, i)
    ensures i < |s.threads| && Follows(c, s, Freshest(s, i), s') && Inv(c, s')
    ensures if IsSpin(c, s, Freshest(s, i)) then
              SameShared(s, s') && s'.threads == s.threads[i := s'.threads[i]] && MeasureOf(c, s') == MeasureOf(c, s)
            else Less(MeasureOf(c, s'), MeasureOf(c, s))
  {
    hide Inv, Typed, Next, Enabled, MeasureOf, Less, IsSpin, SameShared, CanMove;
    FreshIsEnabled(c, s, i);
    var m := Freshest(s, i);
    s' := Next(c, s, m);
    NextKeeps(c, s, m);
    if IsSpin(c, s, m) {
      SpinChangesNothing(c, s, m);
    } else {
      ProgressDecreases(c, s, m);
    }
  }

  lemma OneStep(c: Config, s: State, i: nat) returns (states: seq<State>, moves: seq<Move>)
    requires Inv(c, s) && CanMove(s, i)
    requires Typed(c, s) && Enabled(c, s, Freshest(s, i)) ==> !IsSpin(c, s, Freshest(s, i))
    ensures Advances(c, s, states, moves) && |moves| == 1
  {
    hide Inv, Typed, Next, Enabled, MeasureOf, Less, IsSpin, SameShared, CanMove;
    var s' := FreshStep(c, s, i);
    states, moves := [s, s'], [Freshest(s, i)];
  }

  lemma NotInALoop(c: Config, s: State, i: nat) returns (states: seq<State>, moves: seq<Move>)
    requires Inv(c, s) && CanMove(s, i)
    requires !HelperSpins(s.threads[i].pc) && !LeaderSpins(s.threads[i].pc)
    ensures Advances(c, s, states, moves) && |moves| == 1
  {
    hide Inv, Typed, Next, Enabled, Advances;
    states, moves := OneStep(c, s, i);
  }

  /** One spin, and then progress. */
  lemma AfterSpin(c: Config, s: State, m: Move, s': State, states: seq<State>, moves: seq<Move>)
    requires Follows(c, s, m, s') && MeasureOf(c, s') == MeasureOf(c, s)
    requires Advances(c, s', states, moves)
    ensures Advances(c, s, [s] + states, [m] + moves)
  {
    hide Follows, Inv, MeasureOf, Less;
    PathsJoin(c, [s, s'], [m], states, moves);
    assert [s, s'] + states[1..] == [s] + states;
  }

  /** What a helper in its loop waits for is there. */
  ghost predicate Released(s: State, i: nat)
    requires i < |s.threads| && HelperSpins(s.threads[i].pc)
  {
    Newest(s.generation).value == Stamp(s.threads[i].pc.t + 1) || Newest(s.stop).value == 1
  }

  /** A spin of a released helper leaves it at the other load, where it will not spin. */
  lemma OtherLoad(c: Config, s: State, i: nat, s': State)
    requires i < |s.threads| && HelperSpins(s.threads[i].pc) && Released(s, i)
    requires Follows(c, s, Freshest(s, i), s') && IsSpin(c, s, Freshest(s, i)) && SameShared(s, s')
    ensures i < |s'.threads| && HelperSpins(s'.threads[i].pc) && CanMove(s', i)
    ensures Typed(c, s') && Enabled(c, s', Freshest(s', i)) ==> !IsSpin(c, s', Freshest(s', i))
  {
    hide Typed, Stamp;
  }

  lemma HelperGetsOut(c: Config, s: State, i: nat) returns (states: seq<State>, moves: seq<Move>)
    requires Inv(c, s) && i < |s.threads| && HelperSpins(s.threads[i].pc) && Released(s, i)
    ensures Advances(c, s, states, moves) && |moves| <= 2
  {
    hide Inv, Typed, Next, Enabled, Advances, MeasureOf, Less, IsSpin, SameShared, Released, Follows;
    var s' := FreshStep(c, s, i);
    assert Typed(c, s) && Enabled(c, s, Freshest(s, i)) by { FreshIsEnabled(c, s, i); }
    if IsSpin(c, s, Freshest(s, i)) {
      OtherLoad(c, s, i, s');
      states, moves := OneStep(c, s', i);
      AfterSpin(c, s, Freshest(s, i), s', states, moves);
      states, moves := [s] + states, [Freshest(s, i)] + moves;
    } else {
      states, moves := OneStep(c, s, i);
    }
  }

  /** The newest counters would let the leader go. */
  predicate CountersMeet(c: Config, s: State) { Newest(s.arrived).value + Newest(s.lost).value >= Helpers(c) }

  lemma ArrivedIsFresh(c: Config, s: State, s': State)
    requires |s.threads| > 0 && LeaderPc(s).LoadingArrived? && CountersMeet(c, s)
    requires Follows(c, s, Freshest(s, 0), s') && SameShared(s, s')
    ensures IsSpin(c, s, Freshest(s, 0)) && CanMove(s', 0)
    ensures Typed(c, s') && Enabled(c, s', Freshest(s', 0)) ==> !IsSpin(c, s', Freshest(s', 0))
  {
    hide Typed;
  }

  lemma ArrivedSpins(c: Config, s: State)
    requires |s.threads| > 0 && LeaderPc(s).LoadingArrived?
    requires Typed(c, s) && Enabled(c, s, Freshest(s, 0))
    ensures IsSpin(c, s, Freshest(s, 0))
  {
    hide Typed;
  }

  lemma ArrivedThenLost(c: Config, s: State) returns (states: seq<State>, moves: seq<Move>)
    requires Inv(c, s) && |s.threads| > 0 && LeaderPc(s).LoadingArrived? && CountersMeet(c, s)
    ensures Advances(c, s, states, moves) && |moves| <= 2
  {
    hide Inv, Typed, Next, Enabled, Advances, MeasureOf, Less, IsSpin, SameShared, Follows, CountersMeet;
    FreshIsEnabled(c, s, 0);
    ArrivedSpins(c, s);
    var s' := FreshStep(c, s, 0);
    ArrivedIsFresh(c, s, s');
    states, moves := OneStep(c, s', 0);
    AfterSpin(c, s, Freshest(s, 0), s', states, moves);
    states, moves := [s] + states, [Freshest(s, 0)] + moves;
  }

  lemma LostSpins(c: Config, s: State, s': State)
    requires |s.threads| > 0 && LeaderPc(s).LoadingLost? && CountersMeet(c, s)
    requires Follows(c, s, Freshest(s, 0), s') && IsSpin(c, s, Freshest(s, 0)) && SameShared(s, s')
    ensures |s'.threads| > 0 && LeaderPc(s').LoadingArrived? && CountersMeet(c, s')
  {
    hide Typed;
  }

  lemma LeaderGetsOut(c: Config, s: State) returns (states: seq<State>, moves: seq<Move>)
    requires Inv(c, s) && |s.threads| > 0 && LeaderSpins(LeaderPc(s)) && CountersMeet(c, s)
    ensures Advances(c, s, states, moves) && |moves| <= 3
  {
    hide Inv, Typed, Next, Enabled, Advances, MeasureOf, Less, IsSpin, SameShared, Follows, CountersMeet;
    if LeaderPc(s).LoadingArrived? {
      states, moves := ArrivedThenLost(c, s);
    } else {
      var s' := FreshStep(c, s, 0);
      FreshIsEnabled(c, s, 0);
      if IsSpin(c, s, Freshest(s, 0)) {
        LostSpins(c, s, s');
        states, moves := ArrivedThenLost(c, s');
        AfterSpin(c, s, Freshest(s, 0), s', states, moves);
        states, moves := [s] + states, [Freshest(s, 0)] + moves;
      } else {
        states, moves := OneStep(c, s, 0);
      }
    }
  }

  // ---------------------------------------------------------------------------
  // From any reachable state
  // ---------------------------------------------------------------------------

  /** While the leader waits, a helper that is not settled has a step, or is one slice behind and released. */
  lemma Unsettled(c: Config, s: State, i: nat) returns (states: seq<State>, moves: seq<Move>)
    requires Inv(c, s) && 1 <= i < |s.threads| && LeaderSpins(LeaderPc(s))
    requires !Belongs(s.threads[i].pc, SettledAt(s.epoch))
    ensures Advances(c, s, states, moves) && |moves| <= 3
  {
    hide Inv, Advances, Stamp;
    WhoIsWhere(c, s, i);
    NotUnborn(c, s, i);
    HelperPlace(c, s, i);
    if HelperSpins(s.threads[i].pc) {
      InvGenerations(c, s);
      states, moves := HelperGetsOut(c, s, i);
    } else {
      states, moves := NotInALoop(c, s, i);
    }
  }

  /** When the leader joins, a helper that has not ended has a step, or is released. */
  lemma Unjoined(c: Config, s: State, i: nat) returns (states: seq<State>, moves: seq<Move>)
    requires Inv(c, s) && 1 <= i < |s.threads| && LeaderPc(s).Joining? && !Ended(s.threads[i].pc)
    ensures Advances(c, s, states, moves) && |moves| <= 3
  {
    hide Inv, Advances, Stamp;
    WhoIsWhere(c, s, i);
    NotUnborn(c, s, i);
    if HelperSpins(s.threads[i].pc) {
      StopIsSet(c, s);
      InvGenerations(c, s);
      states, moves := HelperGetsOut(c, s, i);
    } else {
      states, moves := NotInALoop(c, s, i);
    }
  }

  /** Within three steps, at least one of them no spin, progress can be made. */
  lemma CanAdvance(c: Config, s: State) returns (states: seq<State>, moves: seq<Move>)
    requires Inv(c, s) && |s.threads| > 0 && !Final(s)
    ensures Advances(c, s, states, moves) && |moves| <= 3
  {
    hide Inv, Advances, Belongs;
    WhoIsWhere'(c, s);
    WhoIsWhere(c, s, 0);
    if CanMove(s, 0) && !LeaderSpins(LeaderPc(s)) {
      states, moves := NotInALoop(c, s, 0);
    } else if LeaderSpins(LeaderPc(s)) {
      if i :| 1 <= i < |s.threads| && !Belongs(s.threads[i].pc, SettledAt(s.epoch)) {
        states, moves := Unsettled(c, s, i);
      } else {
        CountersSuffice(c, s);
        states, moves := LeaderGetsOut(c, s);
      }
    } else {
      var j :| 1 <= j < |s.threads| && !Ended(s.threads[j].pc);
      states, moves := Unjoined(c, s, j);
    }
  }

  /** Any state can be followed to the end. */
  lemma {:induction false} CanFinish(c: Config, s: State) returns (states: seq<State>, moves: seq<Move>)
    requires Inv(c, s) && |s.threads| > 0
    ensures Path(c, states, moves) && states[0] == s && |End(states).threads| > 0 && Final(End(states))
    decreases MeasureOf(c, s).slices, MeasureOf(c, s).leader, MeasureOf(c, s).helpers, MeasureOf(c, s).work
  {
    hide Inv, Follows, MeasureOf;
    if Final(s) {
      states, moves := [s], [];
    } else {
      var states1, moves1 := CanAdvance(c, s);
      WhoIsWhere'(c, End(states1));
      var states2, moves2 := CanFinish(c, End(states1));
      PathsJoin(c, states1, moves1, states2, moves2);
      states, moves := states1 + states2[1..], moves1 + moves2;
    }
  }

  // ---------------------------------------------------------------------------
  // Runs
  // ---------------------------------------------------------------------------

  lemma RunContinues(c: Config, states: seq<State>, moves: seq<Move>, k: nat, tail: seq<State>, more: seq<Move>)
    requires IsRun(c, states, moves) && k < |states| && Path(c, tail, more) && tail[0] == states[k]
    ensures IsRun(c, states[..k] + tail, moves[..k] + more)
  {
    hide Typed, Next, Enabled, Initial, ValidConfig;
    var states', moves' := states[..k] + tail, moves[..k] + more;
    assert states'[0] == states[0];
    forall j | 0 <= j < |moves'|
      ensures Typed(c, states'[j]) && Enabled(c, states'[j], moves'[j])
      ensures states'[j + 1] == Next(c, states'[j], moves'[j])
    {
      if j >= k {
        var i := j - k;
        assert Follows(c, tail[i], more[i], tail[i + 1]);
        assert states'[j] == tail[i] && states'[j + 1] == tail[i + 1] && moves'[j] == more[i];
      } else {
        assert states'[j] == states[j] && states'[j + 1] == states[j + 1] && moves'[j] == moves[j];
      }
    }
  }

  /** From every state of every run, threads refused and lost included, the run can be finished. */
  lemma EveryRunCanFinish(c: Config, states: seq<State>, moves: seq<Move>, k: nat)
    returns (states': seq<State>, moves': seq<Move>)
    requires IsRun(c, states, moves) && k < |states|
    ensures IsRun(c, states', moves') && k <= |moves'| && states[..k] <= states' && moves[..k] <= moves'
    ensures |End(states').threads| > 0 && Final(End(states'))
    ensures forall j :: k <= j < |moves'| ==> !moves'[j].fails
  {
    hide Inv, Final, Initial, Follows;
    Reachable(c, states, moves, k);
    assert |states[k].threads| > 0 by { WhoIsWhere'(c, states[k]); }
    var tail, more := CanFinish(c, states[k]);
    RunContinues(c, states, moves, k, tail, more);
    states', moves' := states[..k] + tail, moves[..k] + more;
    hide IsRun;
    forall j | k <= j < |moves'|
      ensures !moves'[j].fails
    {
      NoneFails(c, tail, more, j - k);
    }
  }

  lemma NoneFails(c: Config, states: seq<State>, moves: seq<Move>, k: nat)
    requires Path(c, states, moves) && k < |moves|
    ensures !moves[k].fails
  {
    hide Typed, Next, Enabled;
    assert Follows(c, states[k], moves[k], states[k + 1]);
  }

  /** A run that has returned. */
  ghost predicate Returns(c: Config, states: seq<State>, moves: seq<Move>) {
    IsRun(c, states, moves) && |End(states).threads| > 0 && LeaderPc(End(states)).Returned?
  }

  /** Every fill has a run that returns. */
  lemma SomeRunReturns(c: Config) returns (states: seq<State>, moves: seq<Move>)
    requires ValidConfig(c)
    ensures Returns(c, states, moves)
  {
    hide Inv, Typed, Next, Enabled, Initial;
    states, moves := EveryRunCanFinish(c, [Initial(c)], [], 0);
    PoolOutcome.RefusedThreadsDoNotMatter(c, states, moves, |moves|);
  }

  lemma ReturnExists(c: Config)
    requires ValidConfig(c)
    ensures exists states, moves :: Returns(c, states, moves)
  {
    hide Returns;
    var states, moves := SomeRunReturns(c);
  }
}

/** No fair run of the worker pool goes on for ever, and none gets stuck: the pool always terminates. */
module PoolFairness {
  import opened Machine
  import opened Params
  import opened Indexing
  import opened Fill
  import opened SliceView
  import opened Pool
  import opened PoolInvariant
  import opened PoolControl
  import opened PoolKnowledge
  import opened PoolLeader
  import opened PoolViews
  import opened PoolSafety
  import opened PoolLiveness

  // ---------------------------------------------------------------------------
  // Nobody is stuck
  // ---------------------------------------------------------------------------

  /** Whether a thread has a step: it has not ended, and if it joins the others have. */
  predicate CanMove(s: State, i: nat) {
    && i < |s.threads|
    && match s.threads[i].pc
       case Unborn => false
       case Refused => false
       case Lost => false
       case Done => false
       case Returned => false
       case Raised => false
       case Joining(_) => forall j :: 1 <= j < |s.threads| ==> Ended(s.threads[j].pc)
       case _ => true
  }

  predicate Final(s: State)
    requires |s.threads| > 0
  {
    LeaderPc(s).Returned? || LeaderPc(s).Raised?
  }

  /** The move of a thread that loads the newest message. */
  function Freshest(s: State, i: nat): Move
    requires i < |s.threads|
  {
    match s.threads[i].pc
    case LoadingGeneration(_) => Move(i, |s.generation| - 1, false)
    case LoadingStop(_) => Move(i, |s.stop| - 1, false)
    case CheckingStop(_) => Move(i, |s.stop| - 1, false)
    case LoadingArrived(_) => Move(i, |s.arrived| - 1, false)
    case LoadingLost(_, _) => Move(i, |s.lost| - 1, false)
    case CheckingLost(_) => Move(i, |s.lost| - 1, false)
    case _ => Move(i, 0, false)
  }

  lemma BoundedOf(c: Config, s: State, i: nat)
    requires Inv(c, s) && i < |s.threads|
    ensures Bounded(s, s.threads[i].seen)
  {
    hide Control, Memory, Record, Own, LeaderSeen, HelperSeen, Published;
  }

  lemma CanMoveIsEnabled(c: Config, s: State, i: nat)
    requires Inv(c, s)
    ensures CanMove(s, i) <==> exists m: Move :: m.thread == i && Enabled(c, s, m)
  {
    hide Inv;
    if CanMove(s, i) {
      BoundedOf(c, s, i);
      assert Enabled(c, s, Freshest(s, i));
    }
  }

  /** No reachable state short of the end is a deadlock. */
  lemma NoDeadlock(c: Config, states: seq<State>, moves: seq<Move>, k: nat)
    requires IsRun(c, states, moves) && k < |states|
    ensures |states[k].threads| > 0
    ensures !Final(states[k]) ==> exists m: Move :: Enabled(c, states[k], m)
  {
    hide Inv, Typed, Next, Initial, Enabled, CanMove;
    Reachable(c, states, moves, k);
    SomeoneCanMove(c, states[k]);
    var s := states[k];
    if !Final(s) {
      var i :| CanMove(s, i);
      CanMoveIsEnabled(c, s, i);
    }
  }

  lemma SomeoneCanMove(c: Config, s: State)
    requires Inv(c, s)
    ensures |s.threads| > 0 && (Final(s) || exists i :: CanMove(s, i))
  {
    hide Inv;
    WhoIsWhere'(c, s);
    if !Final(s) && !CanMove(s, 0) {
      var j :| 1 <= j < |s.threads| && !Ended(s.threads[j].pc);
      NotUnborn(c, s, j);
      WhoIsWhere(c, s, j);
      assert CanMove(s, j);
    }
  }

  lemma WhoIsWhere'(c: Config, s: State)
    requires Inv(c, s)
    ensures |s.threads| == Workers(c) && |s.threads| > 0
    ensures !Final(s) && !CanMove(s, 0) ==>
      LeaderPc(s).Joining? && exists j :: 1 <= j < |s.threads| && !Ended(s.threads[j].pc)
  {
    hide Memory, Knowledge, Record, Spawns, Losses, Generations, Arrivals, Lanes, Claimed, Partition, Stages;
  }

  lemma NotUnborn(c: Config, s: State, j: nat)
    requires Inv(c, s) && 1 <= j < |s.threads| && !LeaderPc(s).Spawning?
    ensures !s.threads[j].pc.Unborn?
    ensures !Left(LeaderPc(s)) ==> !s.threads[j].pc.Done?
  {
    hide Memory, Knowledge, Record, Losses, Generations, Arrivals, Lanes, Claimed, Partition, Stages;
  }

  // ---------------------------------------------------------------------------
  // Endless runs
  // ---------------------------------------------------------------------------

  ghost predicate StepAt(c: Config, states: nat -> State, moves: nat -> Move, k: nat) {
    && Typed(c, states(k)) && Enabled(c, states(k), moves(k))
    && states(k + 1) == Next(c, states(k), moves(k))
  }

  ghost predicate Endless(c: Config, states: nat -> State, moves: nat -> Move) {
    && ValidConfig(c) && states(0) == Initial(c)
    && forall k: nat :: StepAt(c, states, moves, k)
  }

  /** From `n` on, thread `i` gets a turn or has no step to make. */
  ghost predicate Turn(states: nat -> State, moves: nat -> Move, n: nat, i: nat) {
    exists k: nat :: k >= n && (moves(k).thread == i || !CanMove(states(k), i))
  }

  /** Weak fairness of the scheduler. */
  ghost predicate Scheduled(c: Config, states: nat -> State, moves: nat -> Move) {
    forall n: nat, i: nat :: i < Workers(c) ==> Turn(states, moves, n, i)
  }

  /** A load of the wait loops reads nothing older than what `old_` already held. */
  predicate ReadsAtLeast(s: State, m: Move, old_: State) {
    m.thread < |s.threads| ==>
      match s.threads[m.thread].pc
      case LoadingGeneration(_) => m.read >= |old_.generation| - 1
      case LoadingStop(_) => m.read >= |old_.stop| - 1
      case LoadingArrived(_) => m.read >= |old_.arrived| - 1
      case LoadingLost(_, _) => m.read >= |old_.lost| - 1
      case _ => true
  }

  ghost predicate ReadsFrom(states: nat -> State, moves: nat -> Move, n: nat, i: nat, k: nat) {
    forall j: nat :: j >= k && moves(j).thread == i ==> ReadsAtLeast(states(j), moves(j), states(n))
  }

  ghost predicate SeenInTheEnd(states: nat -> State, moves: nat -> Move, n: nat, i: nat) {
    exists k: nat :: k >= n && ReadsFrom(states, moves, n, i, k)
  }

  /** Every store becomes visible to every thread in the end. */
  ghost predicate Visible(states: nat -> State, moves: nat -> Move) {
    forall n: nat, i: nat :: SeenInTheEnd(states, moves, n, i)
  }

  ghost predicate SpinAt(c: Config, states: nat -> State, moves: nat -> Move, k: nat) {
    && Typed(c, states(k)) && Enabled(c, states(k), moves(k)) && IsSpin(c, states(k), moves(k))
  }

  ghost predicate Spins(c: Config, states: nat -> State, moves: nat -> Move, n: nat) {
    forall k: nat :: k >= n ==> SpinAt(c, states, moves, k)
  }

  lemma {:induction false} ReachableAt(c: Config, states: nat -> State, moves: nat -> Move, k: nat)
    requires Endless(c, states, moves)
    ensures Inv(c, states(k))
  {
    hide Inv, Typed, Next, Initial, Enabled;
    if k == 0 {
      InitialHolds(c);
    } else {
      ReachableAt(c, states, moves, k - 1);
      assert StepAt(c, states, moves, k - 1);
      NextKeeps(c, states(k - 1), moves(k - 1));
    }
  }

  lemma {:induction false} MeasureFalls(c: Config, states: nat -> State, moves: nat -> Move, n: nat, k: nat)
    requires Endless(c, states, moves) && n <= k
    ensures var a, b := MeasureOf(c, states(k)), MeasureOf(c, states(n)); a == b || Less(a, b)
    decreases k
  {
    hide Inv, Typed, Next, Initial, Enabled, MeasureOf, IsSpin, SameShared;
    if n < k {
      MeasureFalls(c, states, moves, n, k - 1);
      ReachableAt(c, states, moves, k - 1);
      assert StepAt(c, states, moves, k - 1);
      if IsSpin(c, states(k - 1), moves(k - 1)) {
        SpinChangesNothing(c, states(k - 1), moves(k - 1));
      } else {
        ProgressDecreases(c, states(k - 1), moves(k - 1));
      }
    }
  }

  /** An endless run does nothing but spin from some point on. */
  lemma {:induction false} Settles(c: Config, states: nat -> State, moves: nat -> Move, n: nat) returns (last: nat)
    requires Endless(c, states, moves)
    ensures Spins(c, states, moves, last)
    decreases MeasureOf(c, states(n)).slices, MeasureOf(c, states(n)).leader, MeasureOf(c, states(n)).helpers,
      MeasureOf(c, states(n)).work
  {
    hide Inv, Typed, Next, Initial, Enabled, MeasureOf, IsSpin;
    if Spins(c, states, moves, n) {
      last := n;
    } else {
      var k: nat :| k >= n && !SpinAt(c, states, moves, k);
      assert StepAt(c, states, moves, k);
      ReachableAt(c, states, moves, k);
      MeasureFalls(c, states, moves, n, k);
      ProgressDecreases(c, states(k), moves(k));
      last := Settles(c, states, moves, k + 1);
    }
  }

  // ---------------------------------------------------------------------------
  // When everyone spins
  // ---------------------------------------------------------------------------

  predicate HelperSpins(pc: Pc) { pc.LoadingGeneration? || pc.LoadingStop? }

  predicate LeaderSpins(pc: Pc) { pc.LoadingArrived? || pc.LoadingLost? }

  /** Two places of one wait loop. */
  predicate Kin(a: Pc, b: Pc) {
    || a == b
    || (HelperSpins(a) && HelperSpins(b) && a.t == b.t)
    || (LeaderSpins(a) && LeaderSpins(b) && a.t == b.t)
  }

  /** Spins leave all that is shared, and every thread in the loop it was in. */
  lemma {:induction false} Frozen(c: Config, states: nat -> State, moves: nat -> Move, n: nat, k: nat)
    requires Endless(c, states, moves) && Spins(c, states, moves, n) && n <= k
    ensures SameShared(states(n), states(k))
    ensures forall i :: 0 <= i < |states(n).threads| ==> Kin(states(n).threads[i].pc, states(k).threads[i].pc)
    decreases k
  {
    hide Inv, Typed, Next, Initial, Enabled, MeasureOf, IsSpin;
    if n < k {
      Frozen(c, states, moves, n, k - 1);
      assert StepAt(c, states, moves, k - 1) && SpinAt(c, states, moves, k - 1);
      SpinChangesNothing(c, states(k - 1), moves(k - 1));
    }
  }

  /** The first turn thread `i` gets: until then it stays where it is. */
  lemma {:induction false} FirstTurn(c: Config, states: nat -> State, moves: nat -> Move, n: nat, i: nat, later: nat)
      returns (k: nat)
    requires Endless(c, states, moves) && Spins(c, states, moves, n) && n <= later && moves(later).thread == i
    requires i < |states(n).threads|
    ensures n <= k && moves(k).thread == i && i < |states(k).threads|
    ensures states(k).threads[i] == states(n).threads[i]
    decreases later - n
  {
    hide Inv, Typed, Next, Initial, Enabled, MeasureOf, IsSpin;
    if moves(n).thread == i {
      k := n;
    } else {
      assert StepAt(c, states, moves, n) && SpinAt(c, states, moves, n);
      SpinChangesNothing(c, states(n), moves(n));
      assert Spins(c, states, moves, n + 1);
      k := FirstTurn(c, states, moves, n + 1, i, later);
    }
  }

  /** A thread in a wait loop gets a turn, where it is now. */
  lemma SpinnerTurn(c: Config, states: nat -> State, moves: nat -> Move, n: nat, i: nat) returns (k: nat)
    requires Endless(c, states, moves) && Spins(c, states, moves, n) && Scheduled(c, states, moves)
    requires i < |states(n).threads| == Workers(c)
    requires HelperSpins(states(n).threads[i].pc) || LeaderSpins(states(n).threads[i].pc)
    ensures n <= k && moves(k).thread == i && i < |states(k).threads|
    ensures states(k).threads[i] == states(n).threads[i]
  {
    hide Inv, Typed, Next, Initial, Enabled, Spins;
    assert Turn(states, moves, n, i);
    var later: nat :| later >= n && (moves(later).thread == i || !CanMove(states(later), i));
    Frozen(c, states, moves, n, later);
    assert Kin(states(n).threads[i].pc, states(later).threads[i].pc);
    k := FirstTurn(c, states, moves, n, i, later);
  }

  /** A thread that is in no wait loop cannot have a step left. */
  lemma OnlySpinnersMove(c: Config, states: nat -> State, moves: nat -> Move, n: nat, i: nat)
    requires Endless(c, states, moves) && Spins(c, states, moves, n) && Scheduled(c, states, moves)
    requires i < |states(n).threads| == Workers(c)
    requires CanMove(states(n), i)
    ensures HelperSpins(states(n).threads[i].pc) || LeaderSpins(states(n).threads[i].pc)
  {
    hide Inv, Typed, Next, Initial, Enabled, Spins;
    var pc := states(n).threads[i].pc;
    if !HelperSpins(pc) && !LeaderSpins(pc) {
      assert Turn(states, moves, n, i);
      var k: nat :| k >= n && (moves(k).thread == i || !CanMove(states(k), i));
      Frozen(c, states, moves, n, k);
      assert forall j :: 0 <= j < |states(n).threads| ==> Kin(states(n).threads[j].pc, states(k).threads[j].pc);
      assert CanMove(states(k), i);
      assert SpinAt(c, states, moves, k) by { SpinsAt(c, states, moves, n, k); }
      SpinChangesNothing(c, states(k), moves(k));
    }
  }

  lemma SpinsAt(c: Config, states: nat -> State, moves: nat -> Move, n: nat, k: nat)
    requires Spins(c, states, moves, n) && n <= k
    ensures SpinAt(c, states, moves, k) && Spins(c, states, moves, k)
  {
    hide SpinAt;
  }

  /** What the next state looks like after a spin. */
  lemma SpinStep(c: Config, states: nat -> State, moves: nat -> Move, n: nat, k: nat)
    requires Endless(c, states, moves) && Spins(c, states, moves, n) && n <= k
    ensures Typed(c, states(k)) && Enabled(c, states(k), moves(k)) && states(k + 1) == Next(c, states(k), moves(k))
    ensures moves(k).thread < |states(k).threads| == |states(k + 1).threads|
    ensures Spinning(states(k).threads[moves(k).thread].pc, states(k + 1).threads[moves(k).thread].pc)
  {
    hide Inv, Typed, Next, Initial, IsSpin, MeasureOf, Spinning;
    assert StepAt(c, states, moves, k) && SpinAt(c, states, moves, k);
    SpinChangesNothing(c, states(k), moves(k));
  }

  /** A helper in its wait loop comes to load the generation, and to load the stop flag. */
  lemma HelperTurn(c: Config, states: nat -> State, moves: nat -> Move, n: nat, i: nat, generation: bool)
      returns (k: nat)
    requires Endless(c, states, moves) && Spins(c, states, moves, n) && Scheduled(c, states, moves)
    requires i < |states(n).threads| == Workers(c) && HelperSpins(states(n).threads[i].pc)
    ensures n <= k && moves(k).thread == i && i < |states(k).threads|
    ensures var t := states(n).threads[i].pc.t;
            states(k).threads[i].pc == if generation then LoadingGeneration(t) else LoadingStop(t)
  {
    hide Inv, Typed, Next, Initial, Enabled, Spins, Scheduled;
    k := SpinnerTurn(c, states, moves, n, i);
    if states(k).threads[i].pc.LoadingGeneration? != generation {
      SpinStep(c, states, moves, n, k);
      SpinsAt(c, states, moves, n, k + 1);
      Frozen(c, states, moves, n, k + 1);
      k := SpinnerTurn(c, states, moves, k + 1, i);
    }
  }

  /** Visibility, from a later point on. */
  lemma VisibleFrom(states: nat -> State, moves: nat -> Move, n: nat, i: nat) returns (k: nat)
    requires Visible(states, moves)
    ensures k >= n && ReadsFrom(states, moves, n, i, k)
  {
    hide ReadsFrom;
    assert SeenInTheEnd(states, moves, n, i);
    k :| k >= n && ReadsFrom(states, moves, n, i, k);
  }

  lemma ReadsAt(states: nat -> State, moves: nat -> Move, n: nat, i: nat, from: nat, k: nat)
    requires ReadsFrom(states, moves, n, i, from) && from <= k && moves(k).thread == i
    ensures ReadsAtLeast(states(k), moves(k), states(n))
  {
    hide ReadsAtLeast;
  }

  /** Reading the newest generation, a helper one slice behind leaves its loop. */
  lemma GenerationEndsWait(c: Config, s: State, m: Move, old_: State)
    requires Typed(c, s) && Enabled(c, s, m) && ReadsAtLeast(s, m, old_) && s.generation == old_.generation
    requires s.threads[m.thread].pc.LoadingGeneration?
    requires Newest(s.generation).value == Stamp(s.threads[m.thread].pc.t + 1)
    ensures !Spinning(s.threads[m.thread].pc, Next(c, s, m).threads[m.thread].pc)
  {
    hide Stamp, Typed;
  }

  /** Reading the newest stop flag, once it is set, a helper leaves its loop. */
  lemma StopEndsWait(c: Config, s: State, m: Move, old_: State)
    requires Typed(c, s) && Enabled(c, s, m) && ReadsAtLeast(s, m, old_) && s.stop == old_.stop
    requires s.threads[m.thread].pc.LoadingStop? && Newest(s.stop).value == 1
    ensures !Spinning(s.threads[m.thread].pc, Next(c, s, m).threads[m.thread].pc)
  {
    hide Typed;
  }

  lemma LostEndsWait(c: Config, s: State, m: Move, old_: State)
    requires Typed(c, s) && Enabled(c, s, m) && ReadsAtLeast(s, m, old_) && s.lost == old_.lost
    requires m.thread == 0 && s.threads[0].pc.LoadingLost?
    requires s.threads[0].pc.arrived + Newest(s.lost).value >= Helpers(c)
    ensures !Spinning(s.threads[0].pc, Next(c, s, m).threads[0].pc)
  {
    hide Typed;
  }

  lemma ArrivedIsLoaded(c: Config, s: State, m: Move, old_: State)
    requires Typed(c, s) && Enabled(c, s, m) && ReadsAtLeast(s, m, old_) && s.arrived == old_.arrived
    requires m.thread == 0 && s.threads[0].pc.LoadingArrived?
    ensures Next(c, s, m).threads[0].pc == LoadingLost(s.threads[0].pc.t, Newest(s.arrived).value)
  {
    hide Typed;
  }

  /** A helper behind the leader would see the generation it waits for. */
  lemma HelperIsNotBehind(c: Config, states: nat -> State, moves: nat -> Move, n: nat, i: nat)
    requires Endless(c, states, moves) && Spins(c, states, moves, n) && Scheduled(c, states, moves)
    requires Visible(states, moves)
    requires 1 <= i < |states(n).threads| == Workers(c) && HelperSpins(states(n).threads[i].pc)
    requires Inv(c, states(n)) && !Left(LeaderPc(states(n)))
    ensures states(n).threads[i].pc.t == states(n).epoch
  {
    hide Inv, Initial, Spins, Scheduled, Visible, Stamp, Endless, Next, Enabled, Typed, ReadsFrom, ReadsAtLeast,
         Spinning;
    var s := states(n);
    var t := s.threads[i].pc.t;
    HelperPlace(c, s, i);
    if t + 1 == s.epoch {
      var from := VisibleFrom(states, moves, n, i);
      SpinsAt(c, states, moves, n, from);
      Frozen(c, states, moves, n, from);
      var k := HelperTurn(c, states, moves, from, i, true);
      ReadsAt(states, moves, n, i, from, k);
      Frozen(c, states, moves, n, k);
      InvGenerations(c, s);
      SpinStep(c, states, moves, n, k);
      GenerationEndsWait(c, states(k), moves(k), s);
    }
  }

  lemma InvGenerations(c: Config, s: State)
    requires Inv(c, s)
    ensures |s.threads| > 0 && s.epoch < |s.generation|
    ensures !Left(LeaderPc(s)) ==> |s.generation| == s.epoch + 1
    ensures forall i :: 0 <= i < |s.generation| ==> s.generation[i].value == Stamp(i)
    ensures forall i :: 1 <= i < |s.stop| ==> s.stop[i].value == 1
  {
    hide Memory, Knowledge, Record, Pcs, Spawns, Losses, Arrivals, Lanes, Claimed, Partition, Stages, Stamp;
  }

  /** With every helper at the barrier, refused or lost, the newest counters release the leader. */
  lemma CountersSuffice(c: Config, s: State)
    requires Inv(c, s) && LeaderSpins(LeaderPc(s))
    requires forall i :: 1 <= i < |s.threads| ==> Belongs(s.threads[i].pc, SettledAt(s.epoch))
    ensures Newest(s.arrived).value + Newest(s.lost).value >= Helpers(c)
  {
    hide Memory, Knowledge, Record, Pcs, Spawns, Generations, Lanes, Claimed, Partition, Stages, WellFormed, Sized;
    Basics(c);
    CountToSplit(s.threads, s.epoch, |s.threads|);
    CountToAll(s.threads, SettledAt(s.epoch), |s.threads|);
  }

  lemma {:induction false} CountToAll(threads: seq<Thread>, k: Class, n: nat)
    requires 1 <= n <= |threads| && forall i :: 1 <= i < n ==> Belongs(threads[i].pc, k)
    ensures CountTo(threads, k, n) == n - 1
  {
    if n > 1 {
      CountToAll(threads, k, n - 1);
    }
  }

  lemma SettledOf(c: Config, states: nat -> State, moves: nat -> Move, n: nat, i: nat)
    requires Endless(c, states, moves) && Spins(c, states, moves, n) && Scheduled(c, states, moves)
    requires Visible(states, moves)
    requires 1 <= i < |states(n).threads| == Workers(c)
    requires Inv(c, states(n)) && LeaderSpins(LeaderPc(states(n)))
    ensures Belongs(states(n).threads[i].pc, SettledAt(states(n).epoch))
  {
    hide Inv, Initial, Spins, Scheduled, Visible, Typed, Next, Enabled;
    var s := states(n);
    WhoIsWhere(c, s, i);
    NotUnborn(c, s, i);
    if CanMove(s, i) {
      OnlySpinnersMove(c, states, moves, n, i);
      HelperIsNotBehind(c, states, moves, n, i);
    }
  }

  /** The leader, in its loop, comes to load the arrivals. */
  lemma LeaderTurn(c: Config, states: nat -> State, moves: nat -> Move, n: nat, from: nat) returns (k: nat)
    requires Endless(c, states, moves) && Spins(c, states, moves, n) && Scheduled(c, states, moves) && n <= from
    requires |states(n).threads| == Workers(c) > 0 && LeaderSpins(LeaderPc(states(n)))
    ensures from <= k && moves(k).thread == 0 && |states(k).threads| == Workers(c)
    ensures states(k).threads[0].pc.LoadingArrived?
  {
    hide Inv, Initial, Spins, Scheduled, Endless, Next, Enabled, Typed;
    SpinsAt(c, states, moves, n, from);
    Frozen(c, states, moves, n, from);
    k := SpinnerTurn(c, states, moves, from, 0);
    Frozen(c, states, moves, n, k);
    if states(k).threads[0].pc.LoadingLost? {
      SpinStep(c, states, moves, n, k);
      SpinsAt(c, states, moves, n, k + 1);
      k := SpinnerTurn(c, states, moves, k + 1, 0);
      Frozen(c, states, moves, n, k);
    }
  }

  /** The leader does not spin for ever. */
  lemma LeaderIsNotSpinning(c: Config, states: nat -> State, moves: nat -> Move, n: nat)
    requires Endless(c, states, moves) && Spins(c, states, moves, n) && Scheduled(c, states, moves)
    requires Visible(states, moves)
    requires Inv(c, states(n)) && |states(n).threads| == Workers(c) > 0
    ensures !LeaderSpins(LeaderPc(states(n)))
  {
    hide Inv, Initial, Spins, Scheduled, Visible, Endless, Next, Enabled, Typed, ReadsFrom, ReadsAtLeast, Belongs;
    var s := states(n);
    if LeaderSpins(LeaderPc(s)) {
      forall i | 1 <= i < |s.threads|
        ensures Belongs(s.threads[i].pc, SettledAt(s.epoch))
      {
        SettledOf(c, states, moves, n, i);
      }
      CountersSuffice(c, s);
      var from := VisibleFrom(states, moves, n, 0);
      var k := LeaderTurn(c, states, moves, n, from);
      ReadsAt(states, moves, n, 0, from, k);
      SpinStep(c, states, moves, n, k);
      Frozen(c, states, moves, n, k);
      ArrivedIsLoaded(c, states(k), moves(k), s);
      SpinsAt(c, states, moves, n, k + 1);
      var l := SpinnerTurn(c, states, moves, k + 1, 0);
      ReadsAt(states, moves, n, 0, from, l);
      Frozen(c, states, moves, n, l);
      SpinStep(c, states, moves, n, l);
      LostEndsWait(c, states(l), moves(l), s);
    }
  }

  lemma StopIsSet(c: Config, s: State)
    requires Inv(c, s) && |s.threads| > 0 && LeaderPc(s).Joining?
    ensures |s.stop| >= 2
  {
    hide Memory, Record, Pcs, Spawns, Losses, Arrivals, Generations, Lanes, Claimed, Partition, Stages, AllBounded, Own,
         HelperSeen, Published;
  }

  /** Once the leader joins, a parked helper sees the stop flag. */
  lemma HelperIsReleased(c: Config, states: nat -> State, moves: nat -> Move, n: nat, i: nat)
    requires Endless(c, states, moves) && Spins(c, states, moves, n) && Scheduled(c, states, moves)
    requires Visible(states, moves)
    requires 1 <= i < |states(n).threads| == Workers(c)
    requires Inv(c, states(n)) && LeaderPc(states(n)).Joining?
    ensures !HelperSpins(states(n).threads[i].pc)
  {
    hide Inv, Initial, Spins, Scheduled, Visible, Endless, Next, Enabled, Typed, ReadsFrom, ReadsAtLeast, Spinning,
         Stamp;
    var s := states(n);
    if HelperSpins(s.threads[i].pc) {
      StopIsSet(c, s);
      InvGenerations(c, s);
      var from := VisibleFrom(states, moves, n, i);
      SpinsAt(c, states, moves, n, from);
      Frozen(c, states, moves, n, from);
      var k := HelperTurn(c, states, moves, from, i, false);
      ReadsAt(states, moves, n, i, from, k);
      Frozen(c, states, moves, n, k);
      SpinStep(c, states, moves, n, k);
      StopEndsWait(c, states(k), moves(k), s);
    }
  }

  /**
   No fair run goes on for ever. Fair means that a thread with a step to make gets its turn, and that
   a store is seen in the end by every thread that keeps loading. Threads may be refused, helpers may
   unwind in the middle of a lane, the leader may unwind in a lane or in the trace.
   */
  lemma FairRunsEnd(c: Config, states: nat -> State, moves: nat -> Move)
    ensures !(Endless(c, states, moves) && Scheduled(c, states, moves) && Visible(states, moves))
  {
    hide Inv, Initial, Spins, Scheduled, Visible, Typed, Endless, Next;
    if Endless(c, states, moves) && Scheduled(c, states, moves) && Visible(states, moves) {
      var n := Settles(c, states, moves, 0);
      ReachableAt(c, states, moves, n);
      var s := states(n);
      WhoIsWhere'(c, s);
      LeaderIsNotSpinning(c, states, moves, n);
      if CanMove(s, 0) {
        OnlySpinnersMove(c, states, moves, n, 0);
        WhoIsWhere(c, s, 0);
      } else if LeaderPc(s).Joining? {
        var j :| 1 <= j < |s.threads| && !Ended(s.threads[j].pc);
        NotUnborn(c, s, j);
        WhoIsWhere(c, s, j);
        assert CanMove(s, j);
        OnlySpinnersMove(c, states, moves, n, j);
        HelperIsReleased(c, states, moves, n, j);
      } else {
        NobodyIsLeft(c, states, moves, n);
      }
    }
  }

  lemma NobodyIsLeft(c: Config, states: nat -> State, moves: nat -> Move, n: nat)
    requires Endless(c, states, moves) && Inv(c, states(n)) && |states(n).threads| > 0
    ensures !Final(states(n))
  {
    hide Inv, Initial, Typed, Next;
    LeaderPlace(c, states(n));
    assert StepAt(c, states, moves, n);
  }
}

/** Step by step: what each step of the pool lets its thread know. */
module PoolViews {
  import opened Machine
  import opened Params
  import opened Indexing
  import opened Fill
  import opened SliceView
  import opened Pool
  import opened PoolInvariant
  import opened PoolControl
  import opened PoolLeader
  import opened PoolKnowledge

  // ---------------------------------------------------------------------------
  // What the invariant says about one thread
  // ---------------------------------------------------------------------------

  /** A helper's knowledge, its place, and what the leader can be doing meanwhile. */
  lemma HelperFacts(c: Config, s: State, i: nat)
    requires Control(c, s) && Knowledge(c, s) && 1 <= i < |s.threads|
    ensures HelperOk(c, s, s.threads[i].pc) && HelperSeen(c, s, i) && Bounded(s, s.threads[i].seen)
    ensures SeesOwn(s, i, s.threads[i].seen)
    ensures LeaderPc(s).CheckingLost? ==> Belongs(s.threads[i].pc, SettledAt(s.epoch))
    ensures Quiet(LeaderPc(s)) ==> Waiting(s.threads[i].pc, s.epoch) || s.threads[i].pc.Refused?
  {
    hide Shape, Spawns, Losses, Generations, Arrivals, Lanes, Claimed, Partition, LeaderSeen, Published, SeesOwn,
         LeaderOk, HelperOk, HelperSeen;
  }

  lemma LeaderFacts(c: Config, s: State)
    requires Control(c, s) && Knowledge(c, s)
    ensures |s.threads| > 0 && s.arrivedBase < |s.arrived| && s.base <= |s.log|
    ensures LeaderOk(c, s) && LeaderSeen(c, s) && Bounded(s, s.threads[0].seen)
    ensures SeesOwn(s, 0, s.threads[0].seen)
  {
    hide Spawns, Losses, Generations, Arrivals, Lanes, Claimed, Partition, Stages, Published, SeesOwn, HelperOk,
         HelperSeen, LeaderOk, LeaderSeen;
  }

  /** The generations are their own indices, modulo 2^32, and at most three are ahead of a helper. */
  lemma GenerationFacts(c: Config, s: State)
    requires Control(c, s)
    ensures s.epoch < |s.generation| <= s.epoch + 3
    ensures !Left(LeaderPc(s)) ==> |s.generation| == s.epoch + 1 && |s.stop| == 1
    ensures forall i :: 0 <= i < |s.generation| ==> s.generation[i].value == Stamp(i)
    ensures s.stop[0].value == 0 && forall i :: 1 <= i < |s.stop| ==> s.stop[i].value == 1
  {
    hide Spawns, Losses, Arrivals, Lanes, Claimed, Partition, Stages, Pcs, Stamp;
  }

  // ---------------------------------------------------------------------------
  // Helpers
  // ---------------------------------------------------------------------------

  lemma ClaimViews(c: Config, s: State, i: nat, t: nat)
    requires Control(c, s) && Knowledge(c, s) && i < |s.threads| && s.threads[i].pc == Claiming(t)
    requires Control(c, StepClaim(c, s, i, t))
    ensures Knowledge(c, StepClaim(c, s, i, t))
  {
    hide Control, Knowledge, Shape;
    ShapeOf(c, s);
    if i == 0 {
      LeaderClaims(c, s, t);
    } else {
      HelperClaims(c, s, i, t);
    }
  }

  lemma LeaderClaims(c: Config, s: State, t: nat)
    requires Control(c, s) && Knowledge(c, s) && |s.threads| > 0 && s.threads[0].pc == Claiming(t)
    requires Control(c, StepClaim(c, s, 0, t))
    ensures Knowledge(c, StepClaim(c, s, 0, t))
  {
    hide Control, Shape, AllBounded, Published, Own, SeesOwn, SeesBase;
    LeaderFacts(c, s);
    var s' := StepClaim(c, s, 0, t);
    var x := s'.threads[0];
    assert Shape(c, s) && Shape(c, s') by { ShapeOf(c, s); ShapeOf(c, s'); }
    SeesBaseGrows(s, s', s.threads[0].seen, x.seen);
    assert Step(s, s', 0, x);
    assert LeaderSeen(c, s');
    hide Knowledge;
    LeaderKnowledge(c, s, s', x);
  }

  lemma HelperClaims(c: Config, s: State, i: nat, t: nat)
    requires Control(c, s) && Knowledge(c, s) && 1 <= i < |s.threads| && s.threads[i].pc == Claiming(t)
    requires Control(c, StepClaim(c, s, i, t))
    ensures Knowledge(c, StepClaim(c, s, i, t))
  {
    hide Control, Shape, AllBounded, Published, Own, SeesOwn, SeesBase, LeaderSeen;
    LeaderFacts(c, s);
    var s' := StepClaim(c, s, i, t);
    var x := s'.threads[i];
    assert Shape(c, s) && Shape(c, s') by { ShapeOf(c, s); ShapeOf(c, s'); }
    HelperFacts(c, s, i);
    SeesBaseGrows(s, s', s.threads[i].seen, x.seen);
    assert Step(s, s', i, x) && PassesOn(s, s', i, x);
    hide Knowledge;
    HelperKnowledge(c, s, s', i, x);
  }

  lemma ShapeOf(c: Config, s: State)
    requires Control(c, s)
    ensures Shape(c, s)
  {
  }

  lemma FillViews(c: Config, s: State, i: nat, t: nat, lane: nat, index: nat)
    requires Control(c, s) && Typed(c, s) && Knowledge(c, s) && i < |s.threads|
    requires s.threads[i].pc == Filling(t, lane, index) && index < c.inst.layout.segmentLength
    requires Control(c, StepFill(c, s, i, t, lane, index))
    ensures Knowledge(c, StepFill(c, s, i, t, lane, index))
  {
    hide Control, Shape, AllBounded, Published, Own, SeesOwn, SeesBase, WriteBlock, RefOffset, PseudoRand;
    LeaderFacts(c, s);
    var s' := StepFill(c, s, i, t, lane, index);
    var x := s'.threads[i];
    assert Shape(c, s) && Shape(c, s') by { ShapeOf(c, s); ShapeOf(c, s'); }
    assert SeesBase(s, s.threads[i].seen) ==>
      SeesBase(s', x.seen) by { SeesBaseGrows(s, s', s.threads[i].seen, x.seen); }
    if i == 0 {
      assert Step(s, s', i, x);
      assert LeaderSeen(c, s');
      hide Knowledge;
      LeaderKnowledge(c, s, s', x);
    } else {
      HelperFacts(c, s, i);
      assert Step(s, s', i, x) && PassesOn(s, s', i, x);
      hide Knowledge;
      HelperKnowledge(c, s, s', i, x);
    }
  }

  lemma SeesBaseGrows(s: State, s': State, a: Seen, b: Seen)
    requires s'.base == s.base && Leq(a, b)
    ensures SeesBase(s, a) ==> SeesBase(s', b)
  {
  }

  /** The end of a segment, or an unwinding: nothing new is seen. */
  lemma MoveViews(c: Config, s: State, i: nat, pc: Pc)
    requires Control(c, s) && Knowledge(c, s) && i < |s.threads| && s.threads[i].pc.Filling?
    requires (pc == Claiming(s.threads[i].pc.t)) || (i > 0 && pc == Unwinding) || (i == 0 && pc == Releasing(false))
    requires Control(c, Goto(s, i, pc))
    ensures Knowledge(c, Goto(s, i, pc))
  {
    hide Control, Shape, AllBounded, Published, Own, SeesOwn, SeesBase;
    LeaderFacts(c, s);
    var s' := Goto(s, i, pc);
    var x := s'.threads[i];
    assert Shape(c, s) && Shape(c, s') by { ShapeOf(c, s); ShapeOf(c, s'); }
    SeesBaseGrows(s, s', s.threads[i].seen, x.seen);
    if i == 0 {
      assert Step(s, s', i, x);
      assert LeaderSeen(c, s');
      hide Knowledge;
      LeaderKnowledge(c, s, s', x);
    } else {
      HelperFacts(c, s, i);
      assert Step(s, s', i, x) && PassesOn(s, s', i, x);
      hide Knowledge;
      HelperKnowledge(c, s, s', i, x);
    }
  }

  lemma ArriveViews(c: Config, s: State, i: nat, t: nat)
    requires Control(c, s) && Knowledge(c, s) && 1 <= i < |s.threads| && s.threads[i].pc == Arriving(t)
    requires Control(c, StepArrive(s, i, t))
    ensures Knowledge(c, StepArrive(s, i, t))
  {
    hide Control, Shape, Published, Own, SeesOwn, SeesBase;
    LeaderFacts(c, s);
    var s' := StepArrive(s, i, t);
    var x := s'.threads[i];
    assert Shape(c, s) && Shape(c, s') by { ShapeOf(c, s); ShapeOf(c, s'); }
    HelperFacts(c, s, i);
    assert Bounded(s, Newest(s.arrived).seen);
    assert Step(s, s', i, x) && PassesOn(s, s', i, x);
    hide Knowledge;
    HelperKnowledge(c, s, s', i, x);
  }

  /** Generations a helper waiting at sync point `t` can read as the one it waits for. */
  lemma StampMatches(t: nat, read: nat)
    requires t <= read <= t + 3
    ensures Stamp(read) == Stamp(t + 1) <==> read == t + 1
  {
  }

  /**
   The acquire load of the generation. A helper that reads the value it waits for has read the
   leader's publication, or the bump that goes with `stop`; either way it knows what it must.
   */
  lemma LoadGenerationViews(c: Config, s: State, i: nat, t: nat, read: nat)
    requires Control(c, s) && Knowledge(c, s) && 1 <= i < |s.threads| && s.threads[i].pc == LoadingGeneration(t)
    requires s.threads[i].seen.generation <= read < |s.generation|
    requires Control(c, StepLoadGeneration(s, i, t, read))
    ensures Knowledge(c, StepLoadGeneration(s, i, t, read))
  {
    hide Control, Shape, Own, SeesOwn, Stamp;
    LeaderFacts(c, s);
    var s' := StepLoadGeneration(s, i, t, read);
    var x := s'.threads[i];
    assert Shape(c, s) && Shape(c, s') by { ShapeOf(c, s); ShapeOf(c, s'); }
    HelperFacts(c, s, i);
    GenerationFacts(c, s);
    StampMatches(t, read);
    assert HelperSeen(c, s', i);
    hide SeesBase;
    assert Step(s, s', i, x) && PassesOn(s, s', i, x);
    hide Knowledge;
    HelperKnowledge(c, s, s', i, x);
  }

  lemma LoadStopViews(c: Config, s: State, i: nat, t: nat, read: nat)
    requires Control(c, s) && Knowledge(c, s) && 1 <= i < |s.threads| && s.threads[i].pc == LoadingStop(t)
    requires s.threads[i].seen.stop <= read < |s.stop|
    requires Control(c, StepLoadStop(s, i, t, read))
    ensures Knowledge(c, StepLoadStop(s, i, t, read))
  {
    hide Control, Shape, Own, SeesOwn, AllBounded, Published, SeesBase;
    LeaderFacts(c, s);
    var s' := StepLoadStop(s, i, t, read);
    var x := s'.threads[i];
    assert Shape(c, s) && Shape(c, s') by { ShapeOf(c, s); ShapeOf(c, s'); }
    HelperFacts(c, s, i);
    GenerationFacts(c, s);
    assert HelperSeen(c, s', i);
    assert Step(s, s', i, x) && PassesOn(s, s', i, x);
    hide Knowledge;
    HelperKnowledge(c, s, s', i, x);
  }

  lemma CheckStopViews(c: Config, s: State, i: nat, t: nat, read: nat)
    requires Control(c, s) && Knowledge(c, s) && 1 <= i < |s.threads| && s.threads[i].pc == CheckingStop(t)
    requires s.threads[i].seen.stop <= read < |s.stop|
    requires Control(c, StepCheckStop(c, s, i, t, read))
    ensures Knowledge(c, StepCheckStop(c, s, i, t, read))
  {
    hide Control, Shape, Own, SeesOwn, AllBounded, Published, SeesBase;
    LeaderFacts(c, s);
    var s' := StepCheckStop(c, s, i, t, read);
    var x := s'.threads[i];
    assert Shape(c, s) && Shape(c, s') by { ShapeOf(c, s); ShapeOf(c, s'); }
    HelperFacts(c, s, i);
    GenerationFacts(c, s);
    SeesBaseGrows(s, s', s.threads[i].seen, x.seen);
    assert HelperSeen(c, s', i);
    assert Step(s, s', i, x) && PassesOn(s, s', i, x);
    hide Knowledge;
    HelperKnowledge(c, s, s', i, x);
  }

  lemma BailViews(c: Config, s: State, i: nat)
    requires Control(c, s) && Knowledge(c, s) && 1 <= i < |s.threads| && s.threads[i].pc == Unwinding
    requires Control(c, StepBail(s, i))
    ensures Knowledge(c, StepBail(s, i))
  {
    hide Control, Shape, Own, SeesOwn, Published, SeesBase;
    LeaderFacts(c, s);
    var s' := StepBail(s, i);
    var x := s'.threads[i];
    assert Shape(c, s) && Shape(c, s') by { ShapeOf(c, s); ShapeOf(c, s'); }
    HelperFacts(c, s, i);
    assert HelperSeen(c, s', i);
    assert Bounded(s, Newest(s.lost).seen);
    assert Step(s, s', i, x) && PassesOn(s, s', i, x);
    hide Knowledge;
    HelperKnowledge(c, s, s', i, x);
  }

  // ---------------------------------------------------------------------------
  // The leader
  // ---------------------------------------------------------------------------

  lemma SpawnedViews(c: Config, s: State)
    requires Control(c, s) && Knowledge(c, s) && LeaderPc(s).Spawning?
    requires Control(c, Goto(s, 0, Charging))
    ensures Knowledge(c, Goto(s, 0, Charging))
  {
    hide Control, Shape, AllBounded, Published, Own, SeesOwn, SeesBase;
    LeaderFacts(c, s);
    var s' := Goto(s, 0, Charging);
    var x := s'.threads[0];
    assert Shape(c, s) && Shape(c, s') by { ShapeOf(c, s); ShapeOf(c, s'); }
    SeesBaseGrows(s, s', s.threads[0].seen, x.seen);
    assert Step(s, s', 0, x);
    assert LeaderSeen(c, s');
    hide Knowledge;
    LeaderKnowledge(c, s, s', x);
  }

  lemma SpawnUnborn(c: Config, s: State, k: nat)
    requires Control(c, s) && LeaderPc(s) == Spawning(k) && k < |s.threads|
    ensures 1 <= k && s.threads[k].pc.Unborn? && s.epoch == 0
  {
    hide Losses, Generations, Arrivals, Lanes, Claimed, Partition, Stages, Shape;
  }

  lemma SpawnOwn(c: Config, s: State, k: nat, fails: bool)
    requires Control(c, s) && Knowledge(c, s) && LeaderPc(s) == Spawning(k) && k < |s.threads|
    ensures Own(StepSpawn(c, s, k, fails))
  {
    hide Control, AllBounded, LeaderSeen, HelperSeen, Published;
    SpawnUnborn(c, s, k);
    var s' := StepSpawn(c, s, k, fails);
    forall j | 0 <= j < |s'.threads|
      ensures SeesOwn(s', j, s'.threads[j].seen)
    {
      assert SeesOwn(s, j, s.threads[j].seen);
    }
  }

  lemma SpawnViews(c: Config, s: State, k: nat, fails: bool)
    requires Control(c, s) && Knowledge(c, s) && LeaderPc(s) == Spawning(k) && k < |s.threads|
    requires Control(c, StepSpawn(c, s, k, fails))
    ensures Knowledge(c, StepSpawn(c, s, k, fails))
  {
    hide Control, Shape, Own, SeesOwn, SeesBase, HelperSeen, AllBounded, LeaderSeen;
    var s' := StepSpawn(c, s, k, fails);
    assert Shape(c, s) && Shape(c, s') by { ShapeOf(c, s); ShapeOf(c, s'); }
    SpawnOwn(c, s, k, fails);
    SpawnUnborn(c, s, k);
    SpawnSeen(c, s, k, fails);
    SpawnPublished(c, s, k, fails);
  }

  lemma SpawnSeen(c: Config, s: State, k: nat, fails: bool)
    requires Control(c, s) && Knowledge(c, s) && LeaderPc(s) == Spawning(k) && k < |s.threads|
    requires Shape(c, StepSpawn(c, s, k, fails))
    ensures var s' := StepSpawn(c, s, k, fails);
            && AllBounded(s') && LeaderSeen(c, s')
            && forall i :: 1 <= i < |s'.threads| ==> HelperSeen(c, s', i)
  {
    hide Control, Own, SeesOwn, SeesBase, Published;
    LeaderFacts(c, s);
    SpawnUnborn(c, s, k);
    var s' := StepSpawn(c, s, k, fails);
    forall seen: Seen
      ensures SeesBase(s, seen) == SeesBase(s', seen)
      ensures Bounded(s, seen) == Bounded(s', seen)
    {
      SeesBaseSame(s, s', seen);
    }
    assert AllBounded(s');
    assert LeaderSeen(c, s');
    hide AllBounded, LeaderSeen, Shape;
    forall i | 1 <= i < |s'.threads|
      ensures HelperSeen(c, s', i)
    {
      assert HelperSeen(c, s, i);
    }
  }

  lemma SpawnPublished(c: Config, s: State, k: nat, fails: bool)
    requires Control(c, s) && Knowledge(c, s) && LeaderPc(s) == Spawning(k) && k < |s.threads|
    requires Shape(c, StepSpawn(c, s, k, fails))
    ensures Published(c, StepSpawn(c, s, k, fails))
  {
    hide Control, Shape, Own, SeesOwn, SeesBase, AllBounded, LeaderSeen, HelperSeen;
    LeaderFacts(c, s);
    SpawnUnborn(c, s, k);
    var s' := StepSpawn(c, s, k, fails);
    forall seen: Seen
      ensures SeesBase(s, seen) == SeesBase(s', seen)
    {
      SeesBaseSame(s, s', seen);
    }
    forall i | 1 <= i < |s'.threads| && Waiting(s'.threads[i].pc, s.epoch)
      ensures SeesOwn(s', i, Newest(s'.arrived).seen)
    {
      SeesOwnSame(s, s', i, Newest(s.arrived).seen);
    }
    assert Published(c, s');
  }

  lemma SeesBaseSame(s: State, s': State, seen: Seen)
    requires s'.base == s.base
    ensures SeesBase(s, seen) == SeesBase(s', seen)
  {
  }

  lemma ChargeViews(c: Config, s: State)
    requires Control(c, s) && Knowledge(c, s) && LeaderPc(s).Charging?
    requires Control(c, StepCharge(c, s))
    ensures Knowledge(c, StepCharge(c, s))
  {
    hide Control, Shape, Published, Own, SeesOwn, SeesBase, WrapAdd;
    LeaderFacts(c, s);
    var s' := StepCharge(c, s);
    var x := s'.threads[0];
    assert Shape(c, s) && Shape(c, s') by { ShapeOf(c, s); ShapeOf(c, s'); }
    SeesBaseGrows(s, s', s.threads[0].seen, x.seen);
    assert Bounded(s, Newest(s.lost).seen);
    assert Step(s, s', 0, x);
    assert LeaderSeen(c, s');
    hide Knowledge;
    LeaderKnowledge(c, s, s', x);
  }

  lemma LoadArrivedViews(c: Config, s: State, t: nat, read: nat)
    requires Control(c, s) && Knowledge(c, s) && LeaderPc(s) == LoadingArrived(t)
    requires s.threads[0].seen.arrived <= read < |s.arrived|
    requires Control(c, StepLoadArrived(s, t, read))
    ensures Knowledge(c, StepLoadArrived(s, t, read))
  {
    hide Control, Shape, Published, Own, SeesOwn, SeesBase;
    LeaderFacts(c, s);
    var s' := StepLoadArrived(s, t, read);
    var x := s'.threads[0];
    assert Shape(c, s) && Shape(c, s') by { ShapeOf(c, s); ShapeOf(c, s'); }
    assert Step(s, s', 0, x);
    SeesBaseGrows(s, s', s.threads[0].seen, x.seen);
    assert s.arrived[read].value == read - s.arrivedBase by { ArrivedValue(c, s, read); }
    assert LeaderSeen(c, s');
    hide Knowledge;
    LeaderKnowledge(c, s, s', x);
  }

  lemma ArrivedValue(c: Config, s: State, read: nat)
    requires Control(c, s) && !Left(LeaderPc(s)) && s.arrivedBase <= read < |s.arrived|
    ensures s.arrived[read].value == read - s.arrivedBase
  {
    hide Pcs, Spawns, Losses, Generations, Lanes, Claimed, Partition, Stages, Count;
  }

  lemma LoadLostViews(c: Config, s: State, t: nat, arrived: nat, read: nat)
    requires Control(c, s) && Knowledge(c, s) && LeaderPc(s) == LoadingLost(t, arrived)
    requires s.threads[0].seen.lost <= read < |s.lost|
    requires Control(c, StepLoadLost(c, s, t, arrived, read))
    ensures Knowledge(c, StepLoadLost(c, s, t, arrived, read))
  {
    hide Control, Shape, Published, Own, SeesOwn, SeesBase;
    LeaderFacts(c, s);
    var s' := StepLoadLost(c, s, t, arrived, read);
    var x := s'.threads[0];
    assert Shape(c, s) && Shape(c, s') by { ShapeOf(c, s); ShapeOf(c, s'); }
    assert Step(s, s', 0, x);
    SeesBaseGrows(s, s', s.threads[0].seen, x.seen);
    if arrived + s.lost[read].value >= Helpers(c) {
      BarrierMet(c, s, t, arrived, read);
    }
    assert LeaderSeen(c, s');
    hide Knowledge;
    LeaderKnowledge(c, s, s', x);
  }

  lemma CheckLostViews(c: Config, s: State, t: nat, read: nat)
    requires Control(c, s) && Knowledge(c, s) && LeaderPc(s) == CheckingLost(t)
    requires s.threads[0].seen.lost <= read < |s.lost|
    requires Control(c, StepCheckLost(c, s, t, read))
    ensures Knowledge(c, StepCheckLost(c, s, t, read))
  {
    hide Control, Shape, AllBounded, Published, Own, SeesOwn, SeesBase;
    LeaderFacts(c, s);
    var s' := StepCheckLost(c, s, t, read);
    var x := s'.threads[0];
    assert Shape(c, s) && Shape(c, s') by { ShapeOf(c, s); ShapeOf(c, s'); }
    assert Step(s, s', 0, x);
    SeesBaseGrows(s, s', s.threads[0].seen, x.seen);
    assert LeaderSeen(c, s');
    hide Knowledge;
    LeaderKnowledge(c, s, s', x);
  }

  lemma TraceViews(c: Config, s: State, t: nat, fails: bool)
    requires Control(c, s) && Knowledge(c, s) && LeaderPc(s) == Tracing(t)
    requires Control(c, StepTrace(s, t, fails))
    ensures Knowledge(c, StepTrace(s, t, fails))
  {
    hide Control, Shape, AllBounded, Published, Own, SeesOwn, SeesBase;
    LeaderFacts(c, s);
    var s' := StepTrace(s, t, fails);
    var x := s'.threads[0];
    assert Shape(c, s) && Shape(c, s') by { ShapeOf(c, s); ShapeOf(c, s'); }
    assert Step(s, s', 0, x);
    SeesBaseGrows(s, s', s.threads[0].seen, x.seen);
    assert LeaderSeen(c, s');
    hide Knowledge;
    LeaderKnowledge(c, s, s', x);
  }

  lemma ResetLaneViews(c: Config, s: State, t: nat)
    requires Control(c, s) && Knowledge(c, s) && LeaderPc(s) == ResettingLane(t)
    requires Control(c, StepResetLane(s, t))
    ensures Knowledge(c, StepResetLane(s, t))
  {
    hide Control, Shape, AllBounded, Published, Own, SeesOwn, SeesBase;
    LeaderFacts(c, s);
    var s' := StepResetLane(s, t);
    var x := s'.threads[0];
    assert Shape(c, s) && Shape(c, s') by { ShapeOf(c, s); ShapeOf(c, s'); }
    assert Step(s, s', 0, x);
    SeesBaseGrows(s, s', s.threads[0].seen, x.seen);
    assert LeaderSeen(c, s');
    hide Knowledge;
    LeaderKnowledge(c, s, s', x);
  }

  /**
   The heart of the barrier: a leader that has read the newest arrival has seen every access so far.
   The parked helpers' accesses come with the arrivals, its own it has made itself, and a helper that
   was refused has made none.
   */
  lemma CaughtUpSeesAll(c: Config, s: State)
    requires Control(c, s) && Knowledge(c, s) && Quiet(LeaderPc(s)) && !LeaderPc(s).Publishing?
    ensures SeesAll(s, s.threads[0].seen)
    ensures s.threads[0].seen.lane == |s.nextLane| - 1
    ensures s.threads[0].seen.arrived == |s.arrived| - 1
    ensures s.threads[0].seen.generation == |s.generation| - 1
  {
    hide Control, AllBounded, HelperSeen;
    LeaderFacts(c, s);
    var seen := s.threads[0].seen;
    assert CaughtUp(s, seen) && Own(s) && Published(c, s);
    hide LeaderSeen;
    forall k | 0 <= k < |s.log|
      ensures k in seen.events
    {
      var i := s.log[k].thread;
      if i > 0 {
        HelperFacts(c, s, i);
        assert SeesOwn(s, i, Newest(s.arrived).seen);
      }
    }
    var k := |s.nextLane| - 1;
    var i := s.nextLane[k].writer;
    if i > 0 {
      HelperFacts(c, s, i);
      assert SeesOwn(s, i, Newest(s.arrived).seen);
    }
  }

  lemma ResetArrivedViews(c: Config, s: State, t: nat)
    requires Control(c, s) && Knowledge(c, s) && LeaderPc(s) == ResettingArrived(t)
    requires Control(c, StepResetArrived(s, t))
    ensures Knowledge(c, StepResetArrived(s, t))
  {
    hide Control, Shape, AllBounded, Published, Own, SeesOwn, SeesBase;
    LeaderFacts(c, s);
    var s' := StepResetArrived(s, t);
    var x := s'.threads[0];
    assert Shape(c, s) && Shape(c, s') by { ShapeOf(c, s); ShapeOf(c, s'); }
    assert Step(s, s', 0, x);
    SeesBaseGrows(s, s', s.threads[0].seen, x.seen);
    CaughtUpSeesAll(c, s);
    assert LeaderSeen(c, s');
    hide Knowledge;
    LeaderKnowledge(c, s, s', x);
  }

  /** Nobody is between a generation and its stop flag when the next slice is published. */
  lemma NobodyChecking(c: Config, s: State, t: nat, i: nat)
    requires Control(c, s) && Knowledge(c, s) && LeaderPc(s) == Publishing(t) && 1 <= i < |s.threads|
    ensures !s.threads[i].pc.CheckingStop?
    ensures Waiting(s.threads[i].pc, t) || s.threads[i].pc.Refused?
    ensures t == s.epoch
  {
    hide Control, Shape, Own, Published, LeaderSeen;
    HelperFacts(c, s, i);
    LeaderFacts(c, s);
    GenerationFacts(c, s);
  }

  lemma PublishOwn(s: State, s': State)
    requires Own(s) && |s'.threads| == |s.threads| > 0 && s'.log == s.log && s'.nextLane == s.nextLane
    requires forall i :: 1 <= i < |s.threads| ==> s'.threads[i] == s.threads[i]
    requires Leq(s.threads[0].seen, s'.threads[0].seen)
    requires !s'.threads[0].pc.Unborn? && !s'.threads[0].pc.Refused?
    ensures Own(s')
  {
    hide Leq, SeesOwn;
    forall j | 0 <= j < |s'.threads|
      ensures SeesOwn(s', j, s'.threads[j].seen)
    {
      SeesOwnSame(s, s', j, s.threads[j].seen);
      if j == 0 {
        SeesOwnGrows(s', 0, s.threads[0].seen, s'.threads[0].seen);
      }
    }
  }

  lemma PublishViews(c: Config, s: State, t: nat)
    requires Control(c, s) && Knowledge(c, s) && LeaderPc(s) == Publishing(t)
    requires Control(c, StepPublish(c, s, t))
    ensures Knowledge(c, StepPublish(c, s, t))
  {
    hide Control, Shape, Own, SeesOwn, Stamp;
    LeaderFacts(c, s);
    var s' := StepPublish(c, s, t);
    assert Shape(c, s) && Shape(c, s') by { ShapeOf(c, s); ShapeOf(c, s'); }
    GenerationFacts(c, s);
    assert t == s.epoch;
    PublishOwn(s, s');
    assert forall seen :: Bounded(s, seen) ==> Bounded(s', seen);
    assert AllBounded(s') by {
      hide SeesBase, Published, HelperSeen;
    }
    assert SeesBase(s', s'.threads[0].seen);
    hide SeesBase;
    assert LeaderSeen(c, s');
    forall i | 1 <= i < |s'.threads|
      ensures HelperSeen(c, s', i)
      ensures !Waiting(s'.threads[i].pc, t + 1)
    {
      HelperFacts(c, s, i);
      NobodyChecking(c, s, t, i);
    }
    assert Published(c, s');
  }

  lemma StopViews(c: Config, s: State, next: Pc)
    requires Control(c, s) && Knowledge(c, s)
    requires (LeaderPc(s).Stopping? && next == BumpingStop)
      || (LeaderPc(s).Releasing? && next == BumpingRelease(LeaderPc(s).clean))
    requires Control(c, StepStop(s, next))
    ensures Knowledge(c, StepStop(s, next))
  {
    hide Control, Shape, AllBounded, Published, Own, SeesOwn, SeesBase;
    LeaderFacts(c, s);
    var s' := StepStop(s, next);
    var x := s'.threads[0];
    assert Shape(c, s) && Shape(c, s') by { ShapeOf(c, s); ShapeOf(c, s'); }
    assert Step(s, s', 0, x);
    SeesBaseGrows(s, s', s.threads[0].seen, x.seen);
    assert LeaderSeen(c, s');
    hide Knowledge;
    LeaderKnowledge(c, s, s', x);
  }

  lemma BumpViews(c: Config, s: State, next: Pc)
    requires Control(c, s) && Knowledge(c, s)
    requires (LeaderPc(s).BumpingStop? && next == Releasing(true))
      || (LeaderPc(s).BumpingRelease? && next == Joining(LeaderPc(s).clean))
    requires Control(c, StepBump(s, next))
    ensures Knowledge(c, StepBump(s, next))
  {
    hide Control, Shape, Published, Own, SeesOwn, SeesBase, WrapAdd;
    LeaderFacts(c, s);
    var s' := StepBump(s, next);
    var x := s'.threads[0];
    assert Shape(c, s) && Shape(c, s') by { ShapeOf(c, s); ShapeOf(c, s'); }
    GenerationFacts(c, s);
    assert Bounded(s, Newest(s.generation).seen);
    assert Step(s, s', 0, x);
    SeesBaseGrows(s, s', s.threads[0].seen, x.seen);
    assert LeaderSeen(c, s');
    hide Knowledge;
    LeaderKnowledge(c, s, s', x);
  }

  lemma {:induction false} JoinAllBounds(s: State, n: nat)
    requires n <= |s.threads| && forall i :: 0 <= i < |s.threads| ==> Bounded(s, s.threads[i].seen)
    ensures Bounded(s, JoinAll(s.threads, n))
    ensures forall i :: 0 <= i < n ==> Leq(s.threads[i].seen, JoinAll(s.threads, n))
  {
    if n > 0 {
      JoinAllBounds(s, n - 1);
    }
  }

  lemma JoinViews(c: Config, s: State, clean: bool)
    requires Control(c, s) && Knowledge(c, s) && LeaderPc(s) == Joining(clean)
    requires Control(c, StepJoin(s, clean))
    ensures Knowledge(c, StepJoin(s, clean))
  {
    hide Control, Shape, Published, Own, SeesOwn, SeesBase, JoinAll, SomeoneLost;
    LeaderFacts(c, s);
    var s' := StepJoin(s, clean);
    var x := s'.threads[0];
    assert Shape(c, s) && Shape(c, s') by { ShapeOf(c, s); ShapeOf(c, s'); }
    JoinAllBounds(s, |s.threads|);
    assert Step(s, s', 0, x);
    SeesBaseGrows(s, s', s.threads[0].seen, x.seen);
    assert LeaderSeen(c, s');
    hide Knowledge;
    LeaderKnowledge(c, s, s', x);
  }
}

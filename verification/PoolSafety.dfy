/**
 Safety over every run of the worker pool: the invariant holds in every state reached, a normal
 return leaves the sequential memory, and no two conflicting accesses are unordered.
 */
module PoolSafety {
  import opened Machine
  import opened Params
  import opened Indexing
  import opened Fill
  import opened SliceView
  import opened Pool
  import opened PoolInvariant
  import opened PoolControl
  import opened PoolLeader
  import opened PoolMemory
  import opened PoolKnowledge
  import opened PoolViews
  import opened PoolRecord

  // ---------------------------------------------------------------------------
  // Every step keeps the invariant
  // ---------------------------------------------------------------------------

  /** A step whose memory, traces and accesses are those it started with. */
  lemma QuietStep(c: Config, s: State, s': State, i: nat, x: Thread)
    requires Inv(c, s) && Control(c, s') && Knowledge(c, s') && i < |s.threads|
    requires s'.log == s.log && s'.epoch == s.epoch && s'.base == s.base && s'.progress == s.progress
    requires s'.mem == s.mem && s'.traces == s.traces
    requires s'.threads == s.threads[i := x] && !x.pc.Filling?
    requires if i == 0 then (Traced(s.threads[0].pc) || Left(s.threads[0].pc) ==> Traced(x.pc) || Left(x.pc))
             else Waiting(s.threads[i].pc, s.epoch) || Ended(s.threads[i].pc) ==> Waiting(x.pc, s.epoch) || Ended(x.pc)
    requires PassesTraced(s') == PassesTraced(s)
    ensures Inv(c, s')
  {
    hide Control, Shape, Memory, Knowledge, Record;
    ShapeOf(c, s);
    ShapeOf(c, s');
    MemoryFrame(c, s, s');
    RecordMove(c, s, s', i, x);
  }

  lemma ClaimStep(c: Config, s: State, i: nat, t: nat)
    requires Inv(c, s) && i < |s.threads| && s.threads[i].pc == Claiming(t)
    ensures Inv(c, StepClaim(c, s, i, t))
  {
    hide Shape, Memory, Knowledge, Record, Pcs, Spawns, Losses, Generations, Arrivals, Lanes, Claimed, Partition,
         Stages;
    ClaimHere(c, s, i, t);
    ClaimControl(c, s, i, t);
    ClaimViews(c, s, i, t);
    var s' := StepClaim(c, s, i, t);
    ClaimRecord(c, s, i, t);
    assert PassesTraced(s') == PassesTraced(s);
    MemoryFrame(c, s, s');
  }

  lemma FillStep(c: Config, s: State, i: nat, t: nat, lane: nat, index: nat)
    requires Inv(c, s) && Typed(c, s) && i < |s.threads|
    requires s.threads[i].pc == Filling(t, lane, index) && index < c.inst.layout.segmentLength
    ensures Inv(c, StepFill(c, s, i, t, lane, index))
  {
    hide Shape, Memory, Knowledge, Record, Pcs, Spawns, Losses, Generations, Arrivals, Lanes, Claimed, Partition,
         Stages;
    FillHereProgress(c, s, i);
    FillControl(c, s, i, t, lane, index);
    FillViews(c, s, i, t, lane, index);
    if i > 0 {
      HelperFacts(c, s, i);
    } else {
      LeaderFacts(c, s);
    }
    FillMemory(c, s, i, t, lane, index);
    FillRecord(c, s, i, t, lane, index);
  }

  lemma FillEndStep(c: Config, s: State, i: nat, fails: bool)
    requires Inv(c, s) && i < |s.threads| && s.threads[i].pc.Filling?
    requires fails || s.threads[i].pc.index == c.inst.layout.segmentLength
    ensures Inv(c, Goto(s, i, if !fails then Claiming(s.threads[i].pc.t) else if i == 0 then Releasing(false)
      else Unwinding))
  {
    hide Shape, Memory, Knowledge, Record, Pcs, Spawns, Losses, Generations, Arrivals, Lanes, Claimed, Partition,
         Stages;
    FillHereProgress(c, s, i);
    var pc := if !fails then Claiming(s.threads[i].pc.t) else if i == 0 then Releasing(false) else Unwinding;
    var s' := Goto(s, i, pc);
    if i == 0 && fails {
      LeavingMove(c, s, s'.threads[0]);
    } else {
      FillEndControl(c, s, i, s'.threads[i]);
    }
    MoveViews(c, s, i, pc);
    QuietStep(c, s, s', i, s'.threads[i]);
  }

  lemma HelperWaits(c: Config, s: State, m: Move)
    requires Inv(c, s) && Typed(c, s) && Enabled(c, s, m) && 1 <= m.thread
    requires var pc := s.threads[m.thread].pc; pc.LoadingGeneration? || pc.LoadingStop?
    ensures Inv(c, Next(c, s, m))
  {
    hide Shape, Memory, Knowledge, Record, Pcs, Spawns, Losses, Generations, Arrivals, Lanes, Claimed, Partition,
         Stages, Stamp;
    var i, s' := m.thread, Next(c, s, m);
    var x := s'.threads[i];
    HelperFacts(c, s, i);
    assert s' == s.(threads := s.threads[i := x]);
    assert HelperOk(c, s, x.pc);
    WaitingStages(c, s, i, x, s.threads[i].pc.t);
    SimilarMove(c, s, i, x);
    if s.threads[i].pc.LoadingGeneration? {
      LoadGenerationViews(c, s, i, s.threads[i].pc.t, m.read);
    } else {
      LoadStopViews(c, s, i, s.threads[i].pc.t, m.read);
    }
    QuietStep(c, s, s', i, x);
  }

  lemma WaitingStages(c: Config, s: State, i: nat, x: Thread, t: nat)
    requires Control(c, s) && 1 <= i < |s.threads|
    requires Waiting(s.threads[i].pc, t) && Waiting(x.pc, t)
    ensures Stages(c, s.(threads := s.threads[i := x]))
  {
    hide Shape, Pcs, Spawns, Losses, Generations, Arrivals, Lanes, Claimed, Partition;
  }

  lemma HelperLeaves(c: Config, s: State, m: Move)
    requires Inv(c, s) && Typed(c, s) && Enabled(c, s, m) && 1 <= m.thread
    requires var pc := s.threads[m.thread].pc; pc.Arriving? || pc.CheckingStop? || pc.Unwinding?
    ensures Inv(c, Next(c, s, m))
  {
    hide Shape, Memory, Knowledge, Record, Pcs, Spawns, Losses, Generations, Arrivals, Lanes, Claimed, Partition,
         Stages;
    var i, s' := m.thread, Next(c, s, m);
    var pc := s.threads[i].pc;
    HelperFacts(c, s, i);
    if pc.Arriving? {
      ArriveControl(c, s, i, pc.t);
      ArriveViews(c, s, i, pc.t);
    } else if pc.CheckingStop? {
      CheckStopHere(c, s, i, pc.t, m.read);
      CheckStopControl(c, s, i, pc.t, m.read);
      CheckStopViews(c, s, i, pc.t, m.read);
    } else {
      BailControl(c, s, i);
      BailViews(c, s, i);
    }
    QuietStep(c, s, s', i, s'.threads[i]);
  }

  lemma SpawnStep(c: Config, s: State, m: Move)
    requires Inv(c, s) && Typed(c, s) && Enabled(c, s, m) && m.thread == 0 && LeaderPc(s).Spawning?
    ensures Inv(c, Next(c, s, m))
  {
    hide Shape, Memory, Knowledge, Record, Pcs, Spawns, Losses, Generations, Arrivals, Lanes, Claimed, Partition,
         Stages;
    var s', k := Next(c, s, m), LeaderPc(s).next;
    if k >= |s.threads| {
      SpawnedControl(c, s, k);
      SpawnedViews(c, s);
      QuietStep(c, s, s', 0, s'.threads[0]);
    } else {
      SpawnUnborn(c, s, k);
      SpawnControl(c, s, k, m.fails);
      SpawnViews(c, s, k, m.fails);
      SpawnRecord(c, s, k, m.fails);
      MemoryFrame(c, s, s');
    }
  }

  /** The leader's steps that access nothing and do not trace or publish. */
  lemma LeaderMoves(c: Config, s: State, m: Move)
    requires Inv(c, s) && Typed(c, s) && Enabled(c, s, m) && m.thread == 0
    requires var pc := LeaderPc(s);
             pc.Charging? || pc.LoadingArrived? || pc.LoadingLost? || pc.ResettingLane? || pc.ResettingArrived?
    ensures Inv(c, Next(c, s, m))
  {
    hide Shape, Memory, Knowledge, Record, Pcs, Spawns, Losses, Generations, Arrivals, Lanes, Claimed, Partition,
         Stages;
    var s', pc := Next(c, s, m), LeaderPc(s);
    if pc.Charging? {
      ChargeControl(c, s);
      ChargeViews(c, s);
    } else if pc.LoadingArrived? {
      LoadArrivedControl(c, s, pc.t, m.read);
      LoadArrivedViews(c, s, pc.t, m.read);
    } else if pc.LoadingLost? {
      LoadLostControl(c, s, pc.t, pc.arrived, m.read);
      LoadLostViews(c, s, pc.t, pc.arrived, m.read);
    } else if pc.ResettingLane? {
      ResetLaneControl(c, s, pc.t);
      ResetLaneViews(c, s, pc.t);
    } else {
      ResetArrivedControl(c, s, pc.t);
      ResetArrivedViews(c, s, pc.t);
    }
    QuietStep(c, s, s', 0, s'.threads[0]);
  }

  lemma LeaderStops(c: Config, s: State, m: Move)
    requires Inv(c, s) && Typed(c, s) && Enabled(c, s, m) && m.thread == 0
    requires LeaderPc(s).Stopping? || LeaderPc(s).Releasing?
    ensures Inv(c, Next(c, s, m))
  {
    hide Shape, Memory, Knowledge, Record, Pcs, Spawns, Losses, Generations, Arrivals, Lanes, Claimed, Partition,
         Stages;
    var s' := Next(c, s, m);
    StopControl(c, s, s'.threads[0].pc);
    StopViews(c, s, s'.threads[0].pc);
    QuietStep(c, s, s', 0, s'.threads[0]);
  }

  lemma LeaderBumps(c: Config, s: State, m: Move)
    requires Inv(c, s) && Typed(c, s) && Enabled(c, s, m) && m.thread == 0
    requires LeaderPc(s).BumpingStop? || LeaderPc(s).BumpingRelease?
    ensures Inv(c, Next(c, s, m))
  {
    hide Shape, Memory, Knowledge, Record, Pcs, Spawns, Losses, Generations, Arrivals, Lanes, Claimed, Partition,
         Stages;
    var s' := Next(c, s, m);
    BumpControl(c, s, s'.threads[0].pc);
    BumpViews(c, s, s'.threads[0].pc);
    QuietStep(c, s, s', 0, s'.threads[0]);
  }

  lemma LeaderJoins(c: Config, s: State, m: Move)
    requires Inv(c, s) && Typed(c, s) && Enabled(c, s, m) && m.thread == 0 && LeaderPc(s).Joining?
    ensures Inv(c, Next(c, s, m))
  {
    hide Shape, Memory, Knowledge, Record, Pcs, Spawns, Losses, Generations, Arrivals, Lanes, Claimed, Partition,
         Stages, JoinAll, SomeoneLost;
    var s' := Next(c, s, m);
    JoinControl(c, s, LeaderPc(s).clean);
    JoinViews(c, s, LeaderPc(s).clean);
    QuietStep(c, s, s', 0, s'.threads[0]);
  }

  lemma LeaderEnds(c: Config, s: State, m: Move)
    requires Inv(c, s) && Typed(c, s) && Enabled(c, s, m) && m.thread == 0 && Left(LeaderPc(s))
    ensures Inv(c, Next(c, s, m))
  {
    hide Shape, Memory, Knowledge, Record, Pcs, Spawns, Losses, Generations, Arrivals, Lanes, Claimed, Partition,
         Stages, JoinAll, SomeoneLost;
    if LeaderPc(s).Stopping? || LeaderPc(s).Releasing? {
      LeaderStops(c, s, m);
    } else if LeaderPc(s).BumpingStop? || LeaderPc(s).BumpingRelease? {
      LeaderBumps(c, s, m);
    } else if LeaderPc(s).Joining? {
      LeaderJoins(c, s, m);
    } else {
      hide Inv;
    }
  }

  lemma CheckLostStep(c: Config, s: State, m: Move)
    requires Inv(c, s) && Typed(c, s) && Enabled(c, s, m) && m.thread == 0 && LeaderPc(s).CheckingLost?
    ensures Inv(c, Next(c, s, m))
  {
    hide Shape, Memory, Knowledge, Record, Pcs, Spawns, Losses, Generations, Arrivals, Lanes, Claimed, Partition,
         Stages;
    var s', t := Next(c, s, m), LeaderPc(s).t;
    LeaderFacts(c, s);
    CheckLostControl(c, s, t, m.read);
    CheckLostViews(c, s, t, m.read);
    CheckLostMemory(c, s, t, m.read);
    RecordMove(c, s, s', 0, s'.threads[0]);
  }

  lemma TraceStep(c: Config, s: State, t: nat, fails: bool)
    requires Inv(c, s) && |s.threads| > 0 && LeaderPc(s) == Tracing(t)
    ensures Inv(c, StepTrace(s, t, fails))
  {
    hide Shape, Memory, Knowledge, Record, Pcs, Spawns, Losses, Generations, Arrivals, Lanes, Claimed, Partition,
         Stages;
    LeaderFacts(c, s);
    QuietHere(c, s);
    QuietMemory(c, s);
    CaughtUpSeesAll(c, s);
    TraceControl(c, s, t, fails);
    TraceViews(c, s, t, fails);
    TraceMemory(c, s, t, fails);
    TraceRecord(c, s, t, fails);
  }

  lemma PublishStep(c: Config, s: State, t: nat)
    requires Inv(c, s) && |s.threads| > 0 && LeaderPc(s) == Publishing(t)
    ensures Inv(c, StepPublish(c, s, t))
  {
    hide Shape, Memory, Knowledge, Record, Pcs, Spawns, Losses, Generations, Arrivals, Lanes, Claimed, Partition,
         Stages, Stamp;
    LeaderFacts(c, s);
    QuietHere(c, s);
    QuietMemory(c, s);
    PublishControl(c, s, t);
    PublishViews(c, s, t);
    PublishMemory(c, s, t);
    PublishRecord(c, s, t);
  }

  /** Every step any thread can make keeps the invariant. */
  lemma NextKeeps(c: Config, s: State, m: Move)
    requires Inv(c, s) && Typed(c, s) && Enabled(c, s, m)
    ensures Inv(c, Next(c, s, m))
  {
    hide Inv, StepClaim, StepFill, StepArrive, StepLoadGeneration, StepLoadStop, StepCheckStop, StepBail, StepSpawn,
         StepCharge, StepLoadArrived, StepLoadLost, StepCheckLost, StepTrace, StepResetLane, StepResetArrived,
         StepPublish, StepStop, StepBump, StepJoin;
    var i := m.thread;
    WhoIsWhere(c, s, i);
    match s.threads[i].pc
    case Claiming(t) =>
      ClaimStep(c, s, i, t);
    case Filling(t, lane, index) =>
      if !m.fails && index < c.inst.layout.segmentLength {
        FillStep(c, s, i, t, lane, index);
      } else {
        FillEndStep(c, s, i, m.fails);
      }
    case LoadingGeneration(_) => HelperWaits(c, s, m);
    case LoadingStop(_) => HelperWaits(c, s, m);
    case Arriving(_) => HelperLeaves(c, s, m);
    case CheckingStop(_) => HelperLeaves(c, s, m);
    case Unwinding => HelperLeaves(c, s, m);
    case Spawning(_) => SpawnStep(c, s, m);
    case CheckingLost(_) => CheckLostStep(c, s, m);
    case Tracing(t) => TraceStep(c, s, t, m.fails);
    case Publishing(t) => PublishStep(c, s, t);
    case Charging => LeaderMoves(c, s, m);
    case LoadingArrived(_) => LeaderMoves(c, s, m);
    case LoadingLost(_, _) => LeaderMoves(c, s, m);
    case ResettingLane(_) => LeaderMoves(c, s, m);
    case ResettingArrived(_) => LeaderMoves(c, s, m);
    case _ => LeaderEnds(c, s, m);
  }

  /** Only the leader is at the leader's places, and only helpers at theirs. */
  lemma WhoIsWhere(c: Config, s: State, i: nat)
    requires Inv(c, s) && i < |s.threads|
    ensures |s.threads| > 0
    ensures var pc := s.threads[i].pc;
            if i == 0 then
              || pc.Spawning? || pc.Charging? || pc.Claiming? || pc.Filling? || pc.LoadingArrived?
              || pc.LoadingLost? || pc.CheckingLost? || Quiet(pc) || Left(pc)
            else
              || pc.Claiming? || pc.Filling? || pc.Arriving? || pc.LoadingGeneration? || pc.LoadingStop?
              || pc.CheckingStop? || pc.Unwinding? || Ended(pc) || pc.Unborn?
  {
    hide Memory, Knowledge, Record, Spawns, Losses, Generations, Arrivals, Lanes, Claimed, Partition, Stages;
    assert i > 0 ==> HelperOk(c, s, s.threads[i].pc);
  }

  // ---------------------------------------------------------------------------
  // Every run
  // ---------------------------------------------------------------------------

  /** Every state of every run satisfies the invariant. */
  lemma {:induction false} Reachable(c: Config, states: seq<State>, moves: seq<Move>, k: nat)
    requires IsRun(c, states, moves) && k < |states|
    ensures Inv(c, states[k]) && Typed(c, states[k])
  {
    hide Inv, Next, Typed;
    if k == 0 {
      InitialHolds(c);
    } else {
      Reachable(c, states, moves, k - 1);
      NextKeeps(c, states[k - 1], moves[k - 1]);
    }
    InvIsTyped(c, states[k]);
  }
}

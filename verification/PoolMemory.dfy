/** Every step keeps the memory and the traces equal to the sequential ones. */
module PoolMemory {
  import opened Machine
  import opened Params
  import opened Indexing
  import opened Fill
  import opened SliceView
  import opened Pool
  import opened PoolInvariant
  import opened PoolControl
  import opened PoolLeader

  // ---------------------------------------------------------------------------
  // On values
  // ---------------------------------------------------------------------------

  lemma MemoryGrows(c: Config, t: nat, progress: Progress, mem: seq<Block>, lane: nat)
    requires ValidConfig(c) && t < Slices(c) && ValidProgress(c.inst, t, progress)
    requires lane < c.inst.lanes && progress[lane] < c.inst.layout.segmentLength
    requires MemoryAt(c, t, progress, mem)
    ensures Sized(c.inst, mem)
    ensures MemoryAt(c, t, progress[lane := progress[lane] + 1],
      WriteBlock(c.inst, mem, PositionAt(c.inst, t, lane, progress[lane])))
  {
    ViewStep(c.inst, SequentialFill(c.inst, c.initial, t), t, progress, lane);
    hide View, WriteBlock, WellFormed;
  }

  lemma MemoryEnds(c: Config, t: nat, mem: seq<Block>)
    requires ValidConfig(c) && t < Slices(c) && ValidProgress(c.inst, t, FullProgress(c.inst))
    requires MemoryAt(c, t, FullProgress(c.inst), mem)
    ensures mem == SequentialFill(c.inst, c.initial, t + 1)
  {
    ViewAtEnd(c.inst, SequentialFill(c.inst, c.initial, t), t);
    hide View, WellFormed;
  }

  lemma MemoryBegins(c: Config, t: nat, mem: seq<Block>)
    requires ValidConfig(c) && t <= Slices(c) && mem == SequentialFill(c.inst, c.initial, t)
    requires t < Slices(c) ==> ValidProgress(c.inst, t, NoProgress(c.inst, t))
    ensures MemoryAt(c, t, NoProgress(c.inst, t), mem)
  {
    if t < Slices(c) {
      ViewAtStart(c.inst, mem, t);
    }
    hide View, WellFormed;
  }

  lemma TracesGrow(c: Config, t: nat, traces: seq<seq<Block>>)
    requires ValidConfig(c) && t < Slices(c) && t % 4 == 3 && c.traced && TracesAt(c, t / 4, traces)
    ensures TracesAt(c, t / 4 + 1, traces + [SequentialFill(c.inst, c.initial, t + 1)])
  {
    PassEnd(t);
    hide SequentialFill, WellFormed;
  }

  lemma PassEnd(t: nat)
    requires t % 4 == 3
    ensures 4 * (t / 4 + 1) == t + 1 && (t + 1) / 4 == t / 4 + 1
  {
  }

  lemma NotPassEnd(t: nat)
    requires t % 4 != 3
    ensures (t + 1) / 4 == t / 4 && (t + 1) % 4 != 0
  {
  }

  // ---------------------------------------------------------------------------
  // On states
  // ---------------------------------------------------------------------------

  /** A step that writes nothing and stays in its slice. */
  lemma MemoryFrame(c: Config, s: State, s': State)
    requires Shape(c, s) && Memory(c, s) && Shape(c, s')
    requires s'.mem == s.mem && s'.epoch == s.epoch && s'.progress == s.progress && s'.traces == s.traces
    requires PassesTraced(s') == PassesTraced(s)
    ensures Memory(c, s')
  {
    hide Shape, MemoryAt, TracesAt, PassesTraced, WellFormed;
  }

  lemma FillHereProgress(c: Config, s: State, i: nat)
    requires Control(c, s) && i < |s.threads| && s.threads[i].pc.Filling?
    ensures FillingOk(c, s, s.threads[i].pc)
    ensures s.progress[s.threads[i].pc.lane] == s.threads[i].pc.index
    ensures !Traced(LeaderPc(s))
  {
    FillHere(c, s, i);
    hide Pcs, Spawns, Losses, Generations, Arrivals, Lanes, Claimed, Stages, WellFormed;
  }

  lemma FillMemory(c: Config, s: State, i: nat, t: nat, lane: nat, index: nat)
    requires Shape(c, s) && Memory(c, s) && i < |s.threads|
    requires t == s.epoch < Slices(c) && lane < c.inst.lanes
    requires StartIndex(t) <= index == s.progress[lane] < c.inst.layout.segmentLength
    requires s.threads[i].pc == Filling(t, lane, index) && !Traced(LeaderPc(s))
    requires Shape(c, StepFill(c, s, i, t, lane, index))
    ensures Memory(c, StepFill(c, s, i, t, lane, index))
  {
    hide WellFormed, MemoryAt, TracesAt, WriteBlock, RefOffset, PseudoRand;
    MemoryGrows(c, t, s.progress, s.mem, lane);
  }

  /** With everyone parked the memory is the sequential one at the end of the slice. */
  lemma QuietMemory(c: Config, s: State)
    requires Control(c, s) && Memory(c, s) && Quiet(LeaderPc(s))
    ensures s.epoch < Slices(c) && s.mem == SequentialFill(c.inst, c.initial, s.epoch + 1)
  {
    QuietHere(c, s);
    hide Pcs, Spawns, Losses, Generations, Arrivals, Lanes, Claimed, Stages, Partition, WellFormed, MemoryAt, TracesAt;
    MemoryEnds(c, s.epoch, s.mem);
  }

  lemma TraceMemory(c: Config, s: State, t: nat, fails: bool)
    requires Shape(c, s) && Memory(c, s) && LeaderPc(s) == Tracing(t)
    requires t == s.epoch < Slices(c) && t % 4 == 3 && c.traced
    requires s.mem == SequentialFill(c.inst, c.initial, t + 1)
    requires Shape(c, StepTrace(s, t, fails))
    ensures Memory(c, StepTrace(s, t, fails))
  {
    hide WellFormed, MemoryAt, TracesAt, ValidProgress, SequentialFill;
    TracesGrow(c, t, s.traces);
  }

  /** The leader goes on without a trace: none was asked for, or the pass is not over. */
  lemma CheckLostMemory(c: Config, s: State, t: nat, read: nat)
    requires Shape(c, s) && Memory(c, s) && LeaderPc(s) == CheckingLost(t) && read < |s.lost|
    requires t == s.epoch < Slices(c)
    requires Shape(c, StepCheckLost(c, s, t, read))
    ensures Memory(c, StepCheckLost(c, s, t, read))
  {
    hide WellFormed, MemoryAt, ValidProgress;
    if t % 4 == 3 {
      PassEnd(t);
    }
  }

  lemma PublishPasses(c: Config, s: State, t: nat)
    requires |s.threads| > 0 && LeaderPc(s) == Publishing(t) && t == s.epoch
    ensures PassesTraced(StepPublish(c, s, t)) == PassesTraced(s)
  {
    if t % 4 == 3 {
      PassEnd(t);
    } else {
      NotPassEnd(t);
    }
  }

  /** The next slice begins where the last one ended. */
  lemma MemoryNext(c: Config, s: State, s': State)
    requires Shape(c, s) && Memory(c, s) && Shape(c, s')
    requires s.mem == s'.mem == SequentialFill(c.inst, c.initial, s'.epoch) && s'.traces == s.traces
    requires s'.progress == NoProgress(c.inst, s'.epoch) && PassesTraced(s') == PassesTraced(s)
    ensures Memory(c, s')
  {
    hide WellFormed, MemoryAt, TracesAt, PassesTraced, SequentialFill, NoProgress, ValidProgress, Slices;
    MemoryBegins(c, s'.epoch, s.mem);
  }

  lemma PublishMemory(c: Config, s: State, t: nat)
    requires Shape(c, s) && Memory(c, s) && LeaderPc(s) == Publishing(t)
    requires t == s.epoch < Slices(c) && s.mem == SequentialFill(c.inst, c.initial, t + 1)
    requires Shape(c, StepPublish(c, s, t))
    ensures Memory(c, StepPublish(c, s, t))
  {
    hide WellFormed, Memory, PassesTraced, SequentialFill, NoProgress, ValidProgress, Sized, Stamp;
    PublishPasses(c, s, t);
    MemoryNext(c, s, StepPublish(c, s, t));
  }
}

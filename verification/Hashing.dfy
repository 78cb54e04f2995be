/** A whole computation in an arena: pre-hash, first blocks, fill on one thread or on the pool, finalization. */
module Hashing {
  import opened Machine
  import opened Params
  import opened Indexing
  import opened Fill
  import opened LittleEndian
  import opened Blake2Stream
  import opened Blake2Long
  import opened Pool
  import opened PoolProgress
  import opened Tag
  import PoolTheorems

  // ---------------------------------------------------------------------------
  // What the pool does
  // ---------------------------------------------------------------------------

  datatype Run = Run(states: seq<State>, moves: seq<Move>)

  /** How the threads of each fill are scheduled: some run of the pool. */
  type Schedule = Config -> Run

  /** Each fill returns: by `PoolOutcome.RefusedThreadsDoNotMatter`, it does if nothing unwinds. */
  ghost predicate AlwaysReturns(schedule: Schedule) {
    forall c :: ValidConfig(c) ==> Returns(c, schedule(c).states, schedule(c).moves)
  }

  ghost function SomeRun(c: Config): (run: Run)
    requires ValidConfig(c)
    ensures Returns(c, run.states, run.moves)
  {
    ReturnExists(c);
    var states, moves :| Returns(c, states, moves);
    Run(states, moves)
  }

  /** There are such schedules. */
  lemma SchedulesExist()
    ensures exists schedule: Schedule :: AlwaysReturns(schedule)
  {
    hide Returns, ValidConfig;
    ghost var schedule: Schedule := (c: Config) => if ValidConfig(c) then SomeRun(c) else Run([], []);
    assert AlwaysReturns(schedule);
  }

  lemma RunIsNotEmpty(c: Config, run: Run)
    requires IsRun(c, run.states, run.moves)
    ensures |run.states| > 0
  {
  }

  /** `fill_pooled`, under one schedule. */
  method FillPooled(inst: Instance, mem: array<Block>, traced: bool, schedule: Schedule)
      returns (traces: seq<seq<Block>>)
    requires WellFormed(inst) && Sized(inst, mem[..]) && AlwaysReturns(schedule)
    modifies mem
    ensures mem[..] == SequentialFill(inst, old(mem[..]), 4 * inst.passes)
    ensures traces == if traced then SequentialTraces(inst, old(mem[..]), inst.passes) else []
  {
    hide IsRun, WellFormed, SequentialFill, SequentialTraces;
    var c := Config(inst, traced, mem[..]);
    var run := schedule(c);
    assert |run.states| > 0 by { RunIsNotEmpty(c, run); }
    var last := End(run.states);
    PoolTheorems.ParallelEqualsSequential(c, run.states, run.moves, |run.states| - 1);
    for i := 0 to mem.Length
      invariant mem[..i] == last.mem[..i]
    {
      mem[i] := last.mem[i];
    }
    assert mem[..] == last.mem;
    traces := last.traces;
  }

  /** `fill_memory_blocks_traced`: the pool from two threads and two lanes on. */
  method FillMemoryBlocks(inst: Instance, mem: array<Block>, traced: bool, schedule: Schedule)
    returns (traces: seq<seq<Block>>)
    requires WellFormed(inst) && Sized(inst, mem[..]) && AlwaysReturns(schedule)
    modifies mem
    ensures mem[..] == SequentialFill(inst, old(mem[..]), 4 * inst.passes)
    ensures traces == if traced then SequentialTraces(inst, old(mem[..]), inst.passes) else []
  {
    hide SequentialFill, SequentialTraces, AlwaysReturns;
    if inst.threads > 1 && inst.lanes > 1 {
      traces := FillPooled(inst, mem, traced, schedule);
    } else {
      traces := FillMemoryBlocksSt(inst, mem, traced);
    }
  }

  // ---------------------------------------------------------------------------
  // The whole computation
  // ---------------------------------------------------------------------------

  /**
   `hash_in_arena`, single-threaded or on the pool: tag, traces and final memory come from the inputs
   alone, whatever the arena held and however the threads are scheduled. An arena of another size than
   the costs call for is refused.
   */
  method HashInArena(arena: array<Block>, j: Job, out: array<u8>, vector: bool, traced: bool, schedule: Schedule)
    returns (r: Result<()>, traces: seq<seq<Block>>)
    requires Valid(j.costs) && out.Length == j.costs.tagLen && AlwaysReturns(schedule)
    modifies arena, out
    ensures r == if arena.Length == MemoryLayout(j.costs).blocks then Ok(()) else Err(MemoryAllocationError)
    ensures r.Err? ==> out[..] == old(out[..]) && arena[..] == old(arena[..])
    ensures r.Ok? ==> out[..] == JobTag(j) && arena[..] == JobArena(j)
    ensures r.Ok? ==> traces == if traced then JobTraces(j) else []
  {
    hide PreHashInput, Digest, FirstBlocks, SequentialFill, HPrime, LastBlocks, SequentialTraces, FilledArena,
         AlwaysReturns;
    traces := [];
    var layout := MemoryLayout(j.costs);
    if arena.Length != layout.blocks {
      return Err(MemoryAllocationError), [];
    }
    LayoutFacts(j.costs);
    var inst := InstanceOf(j);
    var blockhash := InitialHash(j.algorithm, j.version, j.costs, j.pwd, j.salt, j.secret, j.ad, vector);
    ghost var h0 := blockhash[..64];
    LastLaneFits(inst);
    var _ := FillFirstBlocks(blockhash, arena, j.costs.lanes, layout.laneLength, vector);
    OldContentsDoNotMatter(inst, h0, old(arena[..]));
    OldContentsAreNotTraced(inst, h0, old(arena[..]), inst.passes);
    traces := FillMemoryBlocks(inst, arena, traced, schedule);
    assert arena[..] == FilledArena(inst, h0);
    var finalized := Finalize(arena, j.costs.lanes, layout.laneLength, out, vector);
    r := Ok(());
  }
}

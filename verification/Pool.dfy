/**
 The worker pool, as a step system over view-based memory.

 Every atomic is a history of messages, in modification order. A message carries what its writer had
 seen, if it was a release. A thread may read any message not older than the newest it has seen;
 an acquire load adds what the message carries to what the thread has seen. A read-modify-write reads
 the newest message and passes on what that message carried. Nothing else orders the threads.
 */
module Pool {
  import opened Machine
  import opened Params
  import opened Indexing
  import opened Fill
  import opened SliceView

  // ---------------------------------------------------------------------------
  // View-based memory
  // ---------------------------------------------------------------------------

  /** For each atomic the newest message seen, and the arena accesses that happened before. */
  datatype Seen = Seen(
    lane: nat,
    arrived: nat,
    generation: nat,
    lost: nat,
    stop: nat,
    events: set<nat>)

  const NOTHING: Seen := Seen(0, 0, 0, 0, 0, {})

  function Max(a: nat, b: nat): nat { if a < b then b else a }

  function Join(a: Seen, b: Seen): Seen {
    Seen(Max(a.lane, b.lane), Max(a.arrived, b.arrived), Max(a.generation, b.generation),
         Max(a.lost, b.lost), Max(a.stop, b.stop), a.events + b.events)
  }

  datatype Message = Message(value: u32, seen: Seen, writer: nat)

  type History = h: seq<Message> | |h| > 0 witness [Message(0, NOTHING, 0)]

  function Newest(h: History): Message { h[|h| - 1] }

  /** A relaxed store starts a new release sequence: it carries nothing. */
  function StoreRelaxed(h: History, value: u32, writer: nat): History { h + [Message(value, NOTHING, writer)] }

  function StoreRelease(h: History, value: u32, seen: Seen, writer: nat): History {
    h + [Message(value, seen, writer)]
  }

  function AddRelaxed(h: History, n: u32, writer: nat): History {
    h + [Message(WrapAdd(Newest(h).value, n), Newest(h).seen, writer)]
  }

  function AddRelease(h: History, n: u32, seen: Seen, writer: nat): History {
    h + [Message(WrapAdd(Newest(h).value, n), Join(Newest(h).seen, seen), writer)]
  }

  // ---------------------------------------------------------------------------
  // Threads
  // ---------------------------------------------------------------------------

  /** Where a thread is. `t` counts slices over the whole fill: pass `t / 4`, slice `t % 4`. */
  datatype Pc =
    // Every worker: `drain_lanes`
    | Claiming(t: nat)
    | Filling(t: nat, lane: nat, index: nat)
    // Helpers
    | Unborn
    | Refused
    | Arriving(t: nat)
    | LoadingGeneration(t: nat)
    | LoadingStop(t: nat)
    | CheckingStop(t: nat)
    | Unwinding
    | Lost
    | Done
    // The leader
    | Spawning(next: nat)
    | Charging
    | LoadingArrived(t: nat)
    | LoadingLost(t: nat, arrived: nat)
    | CheckingLost(t: nat)
    | Tracing(t: nat)
    | ResettingLane(t: nat)
    | ResettingArrived(t: nat)
    | Publishing(t: nat)
    | Stopping
    | BumpingStop
    | Releasing(clean: bool)
    | BumpingRelease(clean: bool)
    | Joining(clean: bool)
    | Returned
    | Raised

  datatype Thread = Thread(pc: Pc, seen: Seen)

  /** A helper that will never take another step. */
  predicate Ended(pc: Pc) { pc.Refused? || pc.Lost? || pc.Done? }

  // ---------------------------------------------------------------------------
  // The whole state
  // ---------------------------------------------------------------------------

  /** What an access touched: one block written and two read, or the whole arena read. */
  datatype Operation = FillOp(lane: nat, index: nat, reference: nat) | TraceOp

  /** An arena access, with the accesses that happened before it. */
  datatype Access = Access(thread: nat, slice: nat, op: Operation, before: set<nat>)

  datatype Claim = Claim(t: nat, lane: nat)

  /**
   `threads[0]` is the leader. The fields after `traces` record the run; no step depends on them.
   */
  datatype State = State(
    mem: seq<Block>,
    nextLane: History,
    arrived: History,
    generation: History,
    lost: History,
    stop: History,
    threads: seq<Thread>,
    spawned: nat,
    traces: seq<seq<Block>>,
    log: seq<Access>,
    claims: seq<Claim>,
    epoch: nat,
    base: nat,
    arrivedBase: nat,
    progress: Progress)

  datatype Config = Config(inst: Instance, traced: bool, initial: seq<Block>)

  predicate ValidConfig(c: Config) { WellFormed(c.inst) && Sized(c.inst, c.initial) }

  function Slices(c: Config): nat { 4 * c.inst.passes }

  /** `min(threads, lanes)`: `Instance::new` has clamped already, and the pool clamps again. */
  function Workers(c: Config): nat {
    if c.inst.threads < c.inst.lanes then c.inst.threads else c.inst.lanes
  }

  /** Helpers the leader counts on until the shortfall is charged. */
  function Helpers(c: Config): nat { if Workers(c) == 0 then 0 else Workers(c) - 1 }

  function Initial(c: Config): State
    requires ValidConfig(c)
  {
    var zero: History := [Message(0, NOTHING, 0)];
    State(c.initial, zero, zero, zero, zero, zero,
          seq(Workers(c), i => Thread(if i == 0 then Spawning(1) else Unborn, NOTHING)),
          0, [], [], [], 0, 0, 0, NoProgress(c.inst, 0))
  }

  // ---------------------------------------------------------------------------
  // Steps
  // ---------------------------------------------------------------------------

  /** Which thread moves, which message it reads, and whether it fails where it may. */
  datatype Move = Move(thread: nat, read: nat, fails: bool)

  function Goto(s: State, i: nat, pc: Pc): State
    requires i < |s.threads|
  {
    s.(threads := s.threads[i := Thread(pc, s.threads[i].seen)])
  }

  function GotoSeen(s: State, i: nat, pc: Pc, seen: Seen): State
    requires i < |s.threads|
  {
    s.(threads := s.threads[i := Thread(pc, seen)])
  }

  /** Where a worker goes when no lane is left. */
  function AfterDrain(i: nat, t: nat): Pc { if i == 0 then LoadingArrived(t) else Arriving(t) }

  /** `next_lane.fetch_add(1, Relaxed)`. */
  function StepClaim(c: Config, s: State, i: nat, t: nat): State
    requires i < |s.threads|
  {
    var lane := Newest(s.nextLane).value;
    var seen := s.threads[i].seen.(lane := |s.nextLane|);
    var s1 := s.(nextLane := AddRelaxed(s.nextLane, 1, i));
    if lane < c.inst.lanes then
      GotoSeen(s1.(claims := s.claims + [Claim(t, lane)]), i, Filling(t, lane, StartIndex(t)), seen)
    else
      GotoSeen(s1, i, AfterDrain(i, t), seen)
  }

  /** One block of `fill_segment`. */
  function StepFill(c: Config, s: State, i: nat, t: nat, lane: nat, index: nat): State
    requires ValidConfig(c) && Sized(c.inst, s.mem) && i < |s.threads|
    requires t < Slices(c) && lane < c.inst.lanes && StartIndex(t) <= index < c.inst.layout.segmentLength
    requires |s.progress| == c.inst.lanes
  {
    var pos := PositionAt(c.inst, t, lane, index);
    var reference := RefOffset(c.inst, pos, PseudoRand(c.inst, s.mem, pos));
    var seen := s.threads[i].seen;
    GotoSeen(
      s.(mem := WriteBlock(c.inst, s.mem, pos),
         log := s.log + [Access(i, t, FillOp(lane, index, reference), seen.events)],
         progress := s.progress[lane := index + 1]),
      i, Filling(t, lane, index + 1), seen.(events := seen.events + {|s.log|}))
  }

  /** `arrived.fetch_add(1, Release)`. */
  function StepArrive(s: State, i: nat, t: nat): State
    requires i < |s.threads|
  {
    var seen := s.threads[i].seen.(arrived := |s.arrived|);
    GotoSeen(s.(arrived := AddRelease(s.arrived, 1, seen, i)), i, LoadingGeneration(t), seen)
  }

  /** What a thread's own `generation += 1` has made of it by the `n`-th sync point: a `u32` wraps. */
  function Stamp(n: nat): u32 { n % 0x1_0000_0000 }

  /** `generation.load(Acquire) == generation`. */
  function StepLoadGeneration(s: State, i: nat, t: nat, read: nat): State
    requires i < |s.threads| && read < |s.generation|
  {
    var seen := Join(s.threads[i].seen, s.generation[read].seen);
    var seen' := seen.(generation := Max(seen.generation, read));
    GotoSeen(s, i, if s.generation[read].value == Stamp(t + 1) then CheckingStop(t) else LoadingStop(t), seen')
  }

  /** The other operand: `stop.load(Relaxed)`. */
  function StepLoadStop(s: State, i: nat, t: nat, read: nat): State
    requires i < |s.threads| && read < |s.stop|
  {
    GotoSeen(s, i, if s.stop[read].value != 0 then CheckingStop(t) else LoadingGeneration(t),
             s.threads[i].seen.(stop := read))
  }

  /** `if stop.load(Relaxed) { break }`, then the next slice or the end of the loops. */
  function StepCheckStop(c: Config, s: State, i: nat, t: nat, read: nat): State
    requires i < |s.threads| && read < |s.stop|
  {
    GotoSeen(s, i, if s.stop[read].value != 0 || t + 1 == Slices(c) then Done else Claiming(t + 1),
             s.threads[i].seen.(stop := read))
  }

  /** `Bail`'s drop: `lost.fetch_add(1, Release)`. */
  function StepBail(s: State, i: nat): State
    requires i < |s.threads|
  {
    var seen := s.threads[i].seen.(lost := |s.lost|);
    GotoSeen(s.(lost := AddRelease(s.lost, 1, seen, i)), i, Lost, seen)
  }

  /** One `spawn_scoped`, which the system may refuse. The child has seen what the leader has. */
  function StepSpawn(c: Config, s: State, k: nat, fails: bool): State
    requires 1 <= |s.threads|
  {
    if k >= Workers(c) || k >= |s.threads| then Goto(s, 0, Charging)
    else if fails then
      s.(threads := s.threads[k := Thread(Refused, NOTHING)][0 := Thread(Spawning(k + 1), s.threads[0].seen)])
    else
      var seen := s.threads[0].seen;
      s.(threads := s.threads[k := Thread(Claiming(0), seen)][0 := Thread(Spawning(k + 1), seen)],
         spawned := s.spawned + 1)
  }

  /** `lost.fetch_add(helpers - spawned, Relaxed)`. */
  function StepCharge(c: Config, s: State): State
    requires 1 <= |s.threads|
  {
    var shortfall: u32 := (Helpers(c) - s.spawned) % 0x1_0000_0000;
    GotoSeen(s.(lost := AddRelaxed(s.lost, shortfall, 0)), 0, Claiming(0), s.threads[0].seen.(lost := |s.lost|))
  }

  /** The first operand of the leader's wait: `arrived.load(Acquire)`. */
  function StepLoadArrived(s: State, t: nat, read: nat): State
    requires 1 <= |s.threads| && read < |s.arrived|
  {
    var seen := Join(s.threads[0].seen, s.arrived[read].seen);
    GotoSeen(s, 0, LoadingLost(t, s.arrived[read].value), seen.(arrived := Max(seen.arrived, read)))
  }

  /** The second: `lost.load(Acquire)`, and the comparison. */
  function StepLoadLost(c: Config, s: State, t: nat, arrived: nat, read: nat): State
    requires 1 <= |s.threads| && read < |s.lost|
  {
    var seen := Join(s.threads[0].seen, s.lost[read].seen);
    GotoSeen(s, 0, if arrived + s.lost[read].value >= Helpers(c) then CheckingLost(t) else LoadingArrived(t),
             seen.(lost := Max(seen.lost, read)))
  }

  /** `if lost.load(Relaxed) > helpers - spawned`. */
  function StepCheckLost(c: Config, s: State, t: nat, read: nat): State
    requires 1 <= |s.threads| && read < |s.lost|
  {
    var pc := if s.lost[read].value > Helpers(c) - s.spawned then Stopping
              else if t % 4 == 3 && c.traced then Tracing(t)
              else ResettingLane(t);
    GotoSeen(s, 0, pc, s.threads[0].seen.(lost := read))
  }

  /** The trace callback reads the whole arena; it may unwind. */
  function StepTrace(s: State, t: nat, fails: bool): State
    requires 1 <= |s.threads|
  {
    var seen := s.threads[0].seen;
    var s1 := s.(log := s.log + [Access(0, t, TraceOp, seen.events)]);
    var seen' := seen.(events := seen.events + {|s.log|});
    if fails then GotoSeen(s1, 0, Releasing(false), seen')
    else GotoSeen(s1.(traces := s.traces + [s.mem]), 0, ResettingLane(t), seen')
  }

  function StepResetLane(s: State, t: nat): State
    requires 1 <= |s.threads|
  {
    GotoSeen(s.(nextLane := StoreRelaxed(s.nextLane, 0, 0)), 0, ResettingArrived(t),
             s.threads[0].seen.(lane := |s.nextLane|))
  }

  function StepResetArrived(s: State, t: nat): State
    requires 1 <= |s.threads|
  {
    GotoSeen(s.(arrived := StoreRelaxed(s.arrived, 0, 0), arrivedBase := |s.arrived|), 0, Publishing(t),
             s.threads[0].seen.(arrived := |s.arrived|))
  }

  /** `generation.store(generation, Release)`: the next slice begins. */
  function StepPublish(c: Config, s: State, t: nat): State
    requires 1 <= |s.threads|
  {
    var seen := s.threads[0].seen.(generation := |s.generation|);
    GotoSeen(
      s.(generation := StoreRelease(s.generation, Stamp(t + 1), seen, 0),
         epoch := t + 1, base := |s.log|, progress := NoProgress(c.inst, t + 1)),
      0, if t + 1 == Slices(c) then Releasing(true) else Claiming(t + 1), seen)
  }

  function StepStop(s: State, next: Pc): State
    requires 1 <= |s.threads|
  {
    GotoSeen(s.(stop := StoreRelaxed(s.stop, 1, 0)), 0, next, s.threads[0].seen.(stop := |s.stop|))
  }

  function StepBump(s: State, next: Pc): State
    requires 1 <= |s.threads|
  {
    var seen := s.threads[0].seen.(generation := |s.generation|);
    GotoSeen(s.(generation := AddRelease(s.generation, 1, seen, 0)), 0, next, seen)
  }

  /** What all the joined helpers have seen. */
  function JoinAll(threads: seq<Thread>, n: nat): Seen
    requires n <= |threads|
  {
    if n == 0 then NOTHING else Join(JoinAll(threads, n - 1), threads[n - 1].seen)
  }

  predicate SomeoneLost(s: State) { exists i :: 0 <= i < |s.threads| && s.threads[i].pc.Lost? }

  /** The scope ends when every helper has; a helper's panic, or the leader's own, is raised. */
  function StepJoin(s: State, clean: bool): State
    requires 1 <= |s.threads|
  {
    GotoSeen(s, 0, if clean && !SomeoneLost(s) then Returned else Raised, JoinAll(s.threads, |s.threads|))
  }

  /** Whether a thread can make this move. */
  predicate Enabled(c: Config, s: State, m: Move) {
    && m.thread < |s.threads|
    && var th := s.threads[m.thread];
       match th.pc
       case LoadingGeneration(_) => th.seen.generation <= m.read < |s.generation|
       case LoadingStop(_) => th.seen.stop <= m.read < |s.stop|
       case CheckingStop(_) => th.seen.stop <= m.read < |s.stop|
       case LoadingArrived(_) => th.seen.arrived <= m.read < |s.arrived|
       case LoadingLost(_, _) => th.seen.lost <= m.read < |s.lost|
       case CheckingLost(_) => th.seen.lost <= m.read < |s.lost|
       case Joining(_) => forall i :: 1 <= i < |s.threads| ==> Ended(s.threads[i].pc)
       case Unborn => false
       case Refused => false
       case Lost => false
       case Done => false
       case Returned => false
       case Raised => false
       case _ => true
  }

  /** The bookkeeping a block needs to be written: true of every state a run reaches. */
  predicate Typed(c: Config, s: State) {
    && ValidConfig(c)
    && Sized(c.inst, s.mem)
    && |s.progress| == c.inst.lanes
    && |s.threads| == Workers(c)
    && forall i :: 0 <= i < |s.threads| && s.threads[i].pc.Filling? ==>
         var pc := s.threads[i].pc;
         pc.t < Slices(c) && pc.lane < c.inst.lanes && StartIndex(pc.t) <= pc.index <= c.inst.layout.segmentLength
  }

  function Next(c: Config, s: State, m: Move): State
    requires Typed(c, s) && Enabled(c, s, m)
  {
    var i := m.thread;
    match s.threads[i].pc
    case Claiming(t) => StepClaim(c, s, i, t)
    case Filling(t, lane, index) =>
      if m.fails then Goto(s, i, if i == 0 then Releasing(false) else Unwinding)
      else if index < c.inst.layout.segmentLength then StepFill(c, s, i, t, lane, index)
      else Goto(s, i, Claiming(t))
    case Arriving(t) => StepArrive(s, i, t)
    case LoadingGeneration(t) => StepLoadGeneration(s, i, t, m.read)
    case LoadingStop(t) => StepLoadStop(s, i, t, m.read)
    case CheckingStop(t) => StepCheckStop(c, s, i, t, m.read)
    case Unwinding => StepBail(s, i)
    case Spawning(k) => StepSpawn(c, s, k, m.fails)
    case Charging => StepCharge(c, s)
    case LoadingArrived(t) => StepLoadArrived(s, t, m.read)
    case LoadingLost(t, a) => StepLoadLost(c, s, t, a, m.read)
    case CheckingLost(t) => StepCheckLost(c, s, t, m.read)
    case Tracing(t) => StepTrace(s, t, m.fails)
    case ResettingLane(t) => StepResetLane(s, t)
    case ResettingArrived(t) => StepResetArrived(s, t)
    case Publishing(t) => StepPublish(c, s, t)
    case Stopping => StepStop(s, BumpingStop)
    case BumpingStop => StepBump(s, Releasing(true))
    case Releasing(clean) => StepStop(s, BumpingRelease(clean))
    case BumpingRelease(clean) => StepBump(s, Joining(clean))
    case Joining(clean) => StepJoin(s, clean)
    case _ => s
  }

  /** A finite run: the states it goes through, from the start. */
  ghost predicate IsRun(c: Config, states: seq<State>, moves: seq<Move>) {
    && ValidConfig(c)
    && |states| == |moves| + 1
    && states[0] == Initial(c)
    && forall k :: 0 <= k < |moves| ==>
         && Typed(c, states[k]) && Enabled(c, states[k], moves[k])
         && states[k + 1] == Next(c, states[k], moves[k])
  }
}

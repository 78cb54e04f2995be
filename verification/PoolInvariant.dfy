/** What every reachable state of the worker pool satisfies. */
module PoolInvariant {
  import opened Machine
  import opened Params
  import opened Indexing
  import opened Fill
  import opened SliceView
  import opened Pool

  // ---------------------------------------------------------------------------
  // Counting helpers
  // ---------------------------------------------------------------------------

  datatype Class =
    | ArrivedAt(t: nat)
    | Turned
    | Gone
    | SettledAt(t: nat)
    | DrainedAt(t: nat)
    | Unwound

  /** Waiting at the barrier that ends slice `t`. */
  predicate Waiting(pc: Pc, t: nat) {
    pc == LoadingGeneration(t) || pc == LoadingStop(t) || pc == CheckingStop(t)
  }

  predicate Working(pc: Pc, t: nat) {
    pc == Claiming(t) || pc == Arriving(t) || (pc.Filling? && pc.t == t)
  }

  predicate Belongs(pc: Pc, k: Class) {
    match k
    case ArrivedAt(t) => Waiting(pc, t)
    case Turned => pc.Refused?
    case Gone => pc.Lost?
    case SettledAt(t) => Waiting(pc, t) || pc.Refused? || pc.Lost?
    case DrainedAt(t) => Waiting(pc, t) || pc == Arriving(t) || pc.Done?
    case Unwound => pc.Unwinding? || pc.Lost?
  }

  /** How many helpers among the first `n` threads belong to a class. */
  function CountTo(threads: seq<Thread>, k: Class, n: nat): nat
    requires n <= |threads|
  {
    if n <= 1 then 0
    else CountTo(threads, k, n - 1) + if Belongs(threads[n - 1].pc, k) then 1 else 0
  }

  function Count(threads: seq<Thread>, k: Class): nat { CountTo(threads, k, |threads|) }

  function One(b: bool): nat { if b then 1 else 0 }

  lemma {:induction false} CountToUpdate(threads: seq<Thread>, k: Class, n: nat, i: nat, x: Thread)
    requires n <= |threads| && i < |threads|
    ensures CountTo(threads[i := x], k, n) + (if 1 <= i < n then One(Belongs(threads[i].pc, k)) else 0)
         == CountTo(threads, k, n) + (if 1 <= i < n then One(Belongs(x.pc, k)) else 0)
  {
    if n > 1 {
      CountToUpdate(threads, k, n - 1, i, x);
    }
  }

  /** Moving one helper changes the count by that helper alone; moving the leader does not. */
  lemma CountUpdate(threads: seq<Thread>, k: Class, i: nat, x: Thread)
    requires i < |threads|
    ensures Count(threads[i := x], k) + (if i == 0 then 0 else One(Belongs(threads[i].pc, k)))
         == Count(threads, k) + (if i == 0 then 0 else One(Belongs(x.pc, k)))
  {
    CountToUpdate(threads, k, |threads|, i, x);
  }

  lemma {:induction false} CountToBound(threads: seq<Thread>, k: Class, n: nat)
    requires 1 <= n <= |threads|
    ensures CountTo(threads, k, n) <= n - 1
    ensures CountTo(threads, k, n) == n - 1 ==> forall i :: 1 <= i < n ==> Belongs(threads[i].pc, k)
    ensures CountTo(threads, k, n) == 0 ==> forall i :: 1 <= i < n ==> !Belongs(threads[i].pc, k)
  {
    if n > 1 {
      CountToBound(threads, k, n - 1);
    }
  }

  /** The count is at most the number of helpers, and reaches it only when all belong. */
  lemma CountBound(threads: seq<Thread>, k: Class)
    requires 1 <= |threads|
    ensures Count(threads, k) <= |threads| - 1
    ensures Count(threads, k) == |threads| - 1 ==> forall i :: 1 <= i < |threads| ==> Belongs(threads[i].pc, k)
    ensures Count(threads, k) == 0 ==> forall i :: 1 <= i < |threads| ==> !Belongs(threads[i].pc, k)
  {
    CountToBound(threads, k, |threads|);
  }

  lemma {:induction false} CountToNone(threads: seq<Thread>, k: Class, n: nat)
    requires n <= |threads|
    requires forall i :: 1 <= i < n ==> !Belongs(threads[i].pc, k)
    ensures CountTo(threads, k, n) == 0
  {
    if n > 1 {
      CountToNone(threads, k, n - 1);
    }
  }

  lemma {:induction false} CountToSplit(threads: seq<Thread>, t: nat, n: nat)
    requires n <= |threads|
    ensures CountTo(threads, SettledAt(t), n)
         == CountTo(threads, ArrivedAt(t), n) + CountTo(threads, Turned, n) + CountTo(threads, Gone, n)
  {
    if n > 1 {
      CountToSplit(threads, t, n - 1);
    }
  }

  lemma {:induction false} CountToGrows(threads: seq<Thread>, t: nat, n: nat)
    requires n <= |threads|
    ensures CountTo(threads, ArrivedAt(t), n) <= CountTo(threads, DrainedAt(t), n)
  {
    if n > 1 {
      CountToGrows(threads, t, n - 1);
    }
  }

  // ---------------------------------------------------------------------------
  // Control: program counters and counters
  // ---------------------------------------------------------------------------

  function LeaderPc(s: State): Pc
    requires |s.threads| > 0
  {
    s.threads[0].pc
  }

  /** The leader has left the loops. */
  predicate Left(pc: Pc) {
    pc.Stopping? || pc.BumpingStop? || pc.Releasing? || pc.BumpingRelease? || pc.Joining? || pc.Returned? || pc.Raised?
  }

  /** The leader is past its own lanes. */
  predicate LeaderDrained(pc: Pc) { !(pc.Spawning? || pc.Charging? || pc.Claiming? || pc.Filling?) }

  /** Every helper is parked or was refused, and the slice is complete. */
  predicate Quiet(pc: Pc) { pc.Tracing? || pc.ResettingLane? || pc.ResettingArrived? || pc.Publishing? }

  predicate AfterReset(pc: Pc) { pc.ResettingArrived? || pc.Publishing? }

  predicate Charged(pc: Pc) { !pc.Spawning? && !pc.Charging? }

  predicate FillingOk(c: Config, s: State, pc: Pc)
    requires pc.Filling?
  {
    && pc.t == s.epoch < Slices(c)
    && pc.lane < c.inst.lanes
    && StartIndex(pc.t) <= pc.index <= c.inst.layout.segmentLength
  }

  ghost predicate LeaderOk(c: Config, s: State)
    requires |s.threads| > 0
  {
    match LeaderPc(s)
    case Spawning(k) => 1 <= k <= Workers(c) && s.epoch == 0
    case Charging => s.epoch == 0
    case Claiming(t) => t == s.epoch < Slices(c)
    case Filling(_, _, _) => FillingOk(c, s, LeaderPc(s))
    case LoadingArrived(t) => t == s.epoch < Slices(c)
    case LoadingLost(t, a) => t == s.epoch < Slices(c)
    case CheckingLost(t) => t == s.epoch < Slices(c)
    case Tracing(t) => t == s.epoch < Slices(c) && t % 4 == 3 && c.traced
    case ResettingLane(t) => t == s.epoch < Slices(c)
    case ResettingArrived(t) => t == s.epoch < Slices(c)
    case Publishing(t) => t == s.epoch < Slices(c)
    case Stopping => s.epoch < Slices(c) && Count(s.threads, Gone) > 0
    case BumpingStop => s.epoch < Slices(c) && Count(s.threads, Gone) > 0
    case Releasing(clean) => clean ==> s.epoch == Slices(c) || Count(s.threads, Gone) > 0
    case BumpingRelease(clean) => clean ==> s.epoch == Slices(c) || Count(s.threads, Gone) > 0
    case Joining(clean) => clean ==> s.epoch == Slices(c) || Count(s.threads, Gone) > 0
    case Returned => s.epoch == Slices(c) && forall i :: 1 <= i < |s.threads| ==>
      s.threads[i].pc.Done? || s.threads[i].pc.Refused?
    case Raised => forall i :: 1 <= i < |s.threads| ==> Ended(s.threads[i].pc)
    case _ => false
  }

  predicate HelperOk(c: Config, s: State, pc: Pc) {
    match pc
    case Claiming(t) => t == s.epoch < Slices(c)
    case Filling(_, _, _) => FillingOk(c, s, pc)
    case Arriving(t) => t == s.epoch < Slices(c)
    case LoadingGeneration(t) => (t == s.epoch || t + 1 == s.epoch) && t < Slices(c)
    case LoadingStop(t) => (t == s.epoch || t + 1 == s.epoch) && t < Slices(c)
    case CheckingStop(t) => (t == s.epoch || t + 1 == s.epoch) && t < Slices(c)
    case Unborn => true
    case Refused => true
    case Unwinding => true
    case Lost => true
    case Done => true
    case _ => false
  }

  ghost predicate Shape(c: Config, s: State) {
    && ValidConfig(c)
    && Sized(c.inst, s.mem)
    && |s.threads| == Workers(c)
    && |s.threads| > 0
    && s.epoch <= Slices(c)
    && |s.progress| == c.inst.lanes
    && (s.epoch < Slices(c) ==> ValidProgress(c.inst, s.epoch, s.progress))
    && s.base <= |s.log|
    && s.arrivedBase < |s.arrived|
  }

  ghost predicate Pcs(c: Config, s: State)
    requires |s.threads| > 0
  {
    && LeaderOk(c, s)
    && (forall i :: 1 <= i < |s.threads| ==> HelperOk(c, s, s.threads[i].pc))
    && (!Left(LeaderPc(s)) ==> s.epoch < Slices(c))
    && (!Left(LeaderPc(s)) ==> forall i :: 1 <= i < |s.threads| ==> !s.threads[i].pc.Done?)
  }

  ghost predicate Spawns(c: Config, s: State)
    requires |s.threads| > 0
  {
    var pc := LeaderPc(s);
    && (forall i :: 1 <= i < |s.threads| ==> (s.threads[i].pc.Unborn? <==> pc.Spawning? && pc.next <= i))
    && s.spawned + Count(s.threads, Turned) == if pc.Spawning? then pc.next - 1 else Helpers(c)
  }

  ghost predicate Losses(c: Config, s: State)
    requires |s.threads| > 0
  {
    && (forall i, j :: 0 <= i <= j < |s.lost| ==> s.lost[i].value <= s.lost[j].value)
    && Newest(s.lost).value == (if Charged(LeaderPc(s)) then Count(s.threads, Turned) else 0) + Count(s.threads, Gone)
  }

  ghost predicate Generations(c: Config, s: State)
    requires |s.threads| > 0
  {
    var pc := LeaderPc(s);
    && (forall i :: 0 <= i < |s.generation| ==> s.generation[i].value == Stamp(i))
    && s.epoch < |s.generation|
    && |s.generation| <= s.epoch + (if !Left(pc) || pc.Stopping? || pc.BumpingStop? then 1
                                    else if pc.Releasing? || pc.BumpingRelease? then 2 else 3)
    && s.stop[0].value == 0
    && (forall i :: 1 <= i < |s.stop| ==> s.stop[i].value == 1)
    && (!Left(pc) ==> |s.stop| == 1)
  }

  ghost predicate Arrivals(c: Config, s: State)
    requires |s.threads| > 0 && s.arrivedBase < |s.arrived|
  {
    !Left(LeaderPc(s)) ==>
      && (forall i :: s.arrivedBase <= i < |s.arrived| ==> s.arrived[i].value == i - s.arrivedBase)
      && |s.arrived| == s.arrivedBase + 1
                        + if LeaderPc(s).Publishing? then 0 else Count(s.threads, ArrivedAt(s.epoch))
  }

  /** The lane counter overshoots by at most one for each worker that has found no lane left. */
  ghost predicate Lanes(c: Config, s: State)
    requires |s.threads| > 0
  {
    var pc, n := LeaderPc(s), Newest(s.nextLane).value;
    && n <= c.inst.lanes + One(LeaderDrained(pc)) + Count(s.threads, DrainedAt(s.epoch))
    && (LeaderDrained(pc) && !Left(pc) && !AfterReset(pc) ==> n >= c.inst.lanes)
    && (AfterReset(pc) ==> n == 0)
  }

  function Min(a: nat, b: nat): nat { if a < b then a else b }

  function SliceClaims(t: nat, n: nat): seq<Claim> { seq(n, l requires 0 <= l => Claim(t, l)) }

  /** The claims of the sequential schedule up to lane `n` of slice `t`. */
  function ClaimsTo(lanes: nat, t: nat, n: nat): seq<Claim> {
    if t == 0 then SliceClaims(t, n) else ClaimsTo(lanes, t - 1, lanes) + SliceClaims(t, n)
  }

  /** Lanes of the live slice that have been handed out. */
  function HandedOut(c: Config, s: State): nat
    requires |s.threads| > 0
  {
    if AfterReset(LeaderPc(s)) then c.inst.lanes else Min(Newest(s.nextLane).value, c.inst.lanes)
  }

  ghost predicate Claimed(c: Config, s: State)
    requires ValidConfig(c) && |s.threads| > 0
  {
    s.claims == if s.epoch < Slices(c) then ClaimsTo(c.inst.lanes, s.epoch, HandedOut(c, s))
                else ClaimsTo(c.inst.lanes, Slices(c) - 1, c.inst.lanes)
  }

  // ---------------------------------------------------------------------------
  // Lanes: who fills what
  // ---------------------------------------------------------------------------

  predicate Fills(s: State, i: nat, lane: nat)
    requires i < |s.threads|
  {
    s.threads[i].pc.Filling? && s.threads[i].pc.lane == lane
  }

  ghost predicate Busy(s: State, lane: nat) { exists i :: 0 <= i < |s.threads| && Fills(s, i, lane) }

  /** No two workers fill one lane, and each lane is untouched, being filled, finished or abandoned. */
  ghost predicate Partition(c: Config, s: State)
    requires |s.threads| > 0 && |s.progress| == c.inst.lanes
  {
    && (forall i, j :: 0 <= i < j < |s.threads| && s.threads[i].pc.Filling? && s.threads[j].pc.Filling?
          ==> s.threads[i].pc.lane != s.threads[j].pc.lane)
    && (forall i :: 0 <= i < |s.threads| && s.threads[i].pc.Filling? ==>
          && s.threads[i].pc.lane < Newest(s.nextLane).value
          && s.threads[i].pc.lane < c.inst.lanes
          && s.progress[s.threads[i].pc.lane] == s.threads[i].pc.index)
    && (s.epoch < Slices(c) && !AfterReset(LeaderPc(s)) ==>
          forall l :: Newest(s.nextLane).value <= l < c.inst.lanes ==> s.progress[l] == StartIndex(s.epoch))
    && (!Left(LeaderPc(s)) && !AfterReset(LeaderPc(s)) ==>
          forall l :: 0 <= l < c.inst.lanes && l < Newest(s.nextLane).value ==>
            s.progress[l] == c.inst.layout.segmentLength || Busy(s, l) || Count(s.threads, Unwound) > 0)
  }

  ghost predicate Stages(c: Config, s: State)
    requires |s.threads| > 0 && |s.progress| == c.inst.lanes
  {
    && (LeaderPc(s).CheckingLost? ==>
          forall i :: 1 <= i < |s.threads| ==> Belongs(s.threads[i].pc, SettledAt(s.epoch)))
    && (Quiet(LeaderPc(s)) ==>
          && (forall i :: 1 <= i < |s.threads| ==> Waiting(s.threads[i].pc, s.epoch) || s.threads[i].pc.Refused?)
          && s.progress == FullProgress(c.inst))
  }

  ghost predicate Control(c: Config, s: State) {
    && Shape(c, s)
    && Pcs(c, s)
    && Spawns(c, s)
    && Losses(c, s)
    && Generations(c, s)
    && Arrivals(c, s)
    && Lanes(c, s)
    && Claimed(c, s)
    && Partition(c, s)
    && Stages(c, s)
  }

  // ---------------------------------------------------------------------------
  // Memory
  // ---------------------------------------------------------------------------

  predicate Traced(pc: Pc) { pc.ResettingLane? || pc.ResettingArrived? || pc.Publishing? }

  function PassesTraced(s: State): nat
    requires |s.threads| > 0
  {
    s.epoch / 4 + One(Traced(LeaderPc(s)) && s.epoch % 4 == 3)
  }

  /** The memory is the sequential one up to slice `t`, and the view of that slice on top. */
  ghost predicate MemoryAt(c: Config, t: nat, progress: Progress, mem: seq<Block>)
    requires ValidConfig(c) && t <= Slices(c)
    requires t < Slices(c) ==> ValidProgress(c.inst, t, progress)
  {
    if t < Slices(c) then mem == View(c.inst, SequentialFill(c.inst, c.initial, t), t, progress)
    else mem == SequentialFill(c.inst, c.initial, t)
  }

  /** The traces are the sequential ones of the first `n` passes. */
  ghost predicate TracesAt(c: Config, n: nat, traces: seq<seq<Block>>)
    requires ValidConfig(c)
  {
    && n <= c.inst.passes
    && traces == if c.traced then SequentialTraces(c.inst, c.initial, n) else []
  }

  ghost predicate Memory(c: Config, s: State)
    requires Shape(c, s)
  {
    MemoryAt(c, s.epoch, s.progress, s.mem) && TracesAt(c, PassesTraced(s), s.traces)
  }

  // ---------------------------------------------------------------------------
  // What has been seen
  // ---------------------------------------------------------------------------

  /** Nothing refers to a message that does not exist. */
  predicate Bounded(s: State, seen: Seen) {
    && seen.lane < |s.nextLane|
    && seen.arrived < |s.arrived|
    && seen.generation < |s.generation|
    && seen.lost < |s.lost|
    && seen.stop < |s.stop|
  }

  ghost predicate AllBounded(s: State) {
    && (forall i :: 0 <= i < |s.threads| ==> Bounded(s, s.threads[i].seen))
    && (forall i :: 0 <= i < |s.arrived| ==> Bounded(s, s.arrived[i].seen))
    && (forall i :: 0 <= i < |s.generation| ==>
      Bounded(s, s.generation[i].seen) && s.generation[i].seen.generation <= i)
    && (forall i :: 0 <= i < |s.lost| ==> Bounded(s, s.lost[i].seen))
  }

  /** Everything done before the live slice began. */
  ghost predicate SeesBase(s: State, seen: Seen) { forall k :: 0 <= k < s.base ==> k in seen.events }

  ghost predicate SeesAll(s: State, seen: Seen) { forall k :: 0 <= k < |s.log| ==> k in seen.events }

  /** A thread has seen what it did itself. */
  ghost predicate SeesOwn(s: State, i: nat, seen: Seen)
    requires i < |s.threads|
  {
    && (forall k :: 0 <= k < |s.log| && s.log[k].thread == i ==> k in seen.events)
    && (forall k :: 0 <= k < |s.nextLane| && s.nextLane[k].writer == i ==> k <= seen.lane)
  }

  ghost predicate Own(s: State) {
    && (forall i :: 0 <= i < |s.threads| ==> SeesOwn(s, i, s.threads[i].seen))
    && (forall k :: 0 <= k < |s.log| ==> s.log[k].thread < |s.threads|)
    && (forall k :: 0 <= k < |s.nextLane| ==> s.nextLane[k].writer < |s.threads|)
    && (forall k :: 0 <= k < |s.log| ==> var pc := s.threads[s.log[k].thread].pc; !pc.Unborn? && !pc.Refused?)
    && (forall k :: 0 <= k < |s.nextLane| ==> var pc := s.threads[s.nextLane[k].writer].pc; !pc.Unborn? && !pc.Refused?)
  }

  /** The leader has read the newest arrival. */
  predicate CaughtUp(s: State, seen: Seen) {
    && seen.arrived == |s.arrived| - 1
    && Newest(s.arrived).seen.events <= seen.events
    && Newest(s.arrived).seen.lane <= seen.lane
  }

  ghost predicate LeaderSeen(c: Config, s: State)
    requires |s.threads| > 0 && s.arrivedBase < |s.arrived|
  {
    var pc, seen := LeaderPc(s), s.threads[0].seen;
    && seen.generation == |s.generation| - 1
    && seen.stop == |s.stop| - 1
    && SeesBase(s, seen)
    && (!Left(pc) ==> s.arrivedBase <= seen.arrived)
    && (pc.BumpingStop? || pc.BumpingRelease? || pc.Joining? ==> seen.stop >= 1)
    && (pc.LoadingLost? ==>
          && s.arrivedBase + pc.arrived < |s.arrived|
          && s.arrivedBase + pc.arrived <= seen.arrived
          && s.arrived[s.arrivedBase + pc.arrived].seen.events <= seen.events
          && s.arrived[s.arrivedBase + pc.arrived].seen.lane <= seen.lane)
    && (pc.CheckingLost? ==>
          CaughtUp(s, seen) && seen.lost < |s.lost| && s.lost[seen.lost].value == Newest(s.lost).value)
    && (pc.Tracing? || pc.ResettingLane? || pc.ResettingArrived? ==> CaughtUp(s, seen))
    && (pc.Publishing? ==> SeesAll(s, seen))
  }

  ghost predicate HelperSeen(c: Config, s: State, i: nat)
    requires 1 <= i < |s.threads|
  {
    var pc, seen := s.threads[i].pc, s.threads[i].seen;
    && (Working(pc, s.epoch) ==> SeesBase(s, seen) && s.epoch <= seen.generation)
    && (pc.LoadingGeneration? || pc.LoadingStop? || pc.CheckingStop? ==> pc.t <= seen.generation)
    && (pc.CheckingStop? ==> seen.stop >= 1 || (pc.t + 1 == s.epoch <= seen.generation && SeesBase(s, seen)))
  }

  /** What is published: by the generations, by the bumps that stop, and by the arrivals. */
  ghost predicate Published(c: Config, s: State)
    requires |s.threads| > 0
  {
    && (s.epoch < |s.generation| ==> SeesBase(s, s.generation[s.epoch].seen))
    && (forall i :: s.epoch < i < |s.generation| ==> s.generation[i].seen.stop >= 1)
    && (!Left(LeaderPc(s)) && !LeaderPc(s).Publishing? ==>
          forall i :: 1 <= i < |s.threads| && Waiting(s.threads[i].pc, s.epoch) ==>
            SeesOwn(s, i, Newest(s.arrived).seen))
  }

  ghost predicate Knowledge(c: Config, s: State)
    requires Shape(c, s)
  {
    && AllBounded(s)
    && Own(s)
    && LeaderSeen(c, s)
    && (forall i :: 1 <= i < |s.threads| ==> HelperSeen(c, s, i))
    && Published(c, s)
  }

  // ---------------------------------------------------------------------------
  // The history of accesses
  // ---------------------------------------------------------------------------

  predicate IsFill(a: Access, t: nat, lane: nat, index: nat) {
    a.slice == t && a.op.FillOp? && a.op.lane == lane && a.op.index == index
  }

  ghost predicate Logged(log: seq<Access>, t: nat, lane: nat, index: nat) {
    exists k :: 0 <= k < |log| && IsFill(log[k], t, lane, index)
  }

  predicate SamePlace(a: Access, b: Access) {
    a.slice == b.slice && a.op.FillOp? && b.op.FillOp? && a.op.lane == b.op.lane
  }

  /** A logged fill is a position the fill visits, with the block it referred to. */
  predicate AccessOk(c: Config, a: Access)
    requires ValidConfig(c)
  {
    && a.slice < Slices(c)
    && (a.op.FillOp? ==>
          && a.op.lane < c.inst.lanes
          && StartIndex(a.slice) <= a.op.index < c.inst.layout.segmentLength)
  }

  /** The reference of a logged fill is one that some pseudo-random value chooses. */
  ghost predicate RefersTo(c: Config, a: Access)
    requires ValidConfig(c) && AccessOk(c, a)
  {
    a.op.FillOp? ==>
      exists rand: u64 :: a.op.reference == RefOffset(c.inst, PositionAt(c.inst, a.slice, a.op.lane, a.op.index), rand)
  }

  /** The trace of the live slice has been taken. */
  ghost predicate TracedHere(s: State) {
    exists k :: s.base <= k < |s.log| && s.log[k].op.TraceOp?
  }

  ghost predicate Parked(s: State)
    requires |s.threads| > 0
  {
    && (Traced(LeaderPc(s)) || Left(LeaderPc(s)))
    && forall i :: 1 <= i < |s.threads| ==> Waiting(s.threads[i].pc, s.epoch) || Ended(s.threads[i].pc)
  }

  ghost predicate Entries(c: Config, s: State)
    requires Shape(c, s)
  {
    && (forall k :: 0 <= k < |s.log| ==> AccessOk(c, s.log[k]) && RefersTo(c, s.log[k]))
    && (forall k :: 0 <= k < s.base ==> s.log[k].slice < s.epoch)
    && (forall k :: s.base <= k < |s.log| ==> s.log[k].slice == s.epoch)
    && (forall k :: s.base <= k < |s.log| && s.log[k].op.FillOp? ==> s.log[k].op.index < s.progress[s.log[k].op.lane])
    && (forall k, i :: s.base <= k < |s.log| && s.log[k].op.FillOp? && 0 <= i < |s.threads| ==>
          Fills(s, i, s.log[k].op.lane) ==> s.log[k].thread == i)
    && (TracedHere(s) ==> Parked(s))
  }

  /**
   The order of the accesses, and what happened before them: all of the slices before, all of the
   thread's own, and for a trace everything.
   */
  ghost predicate Ordered(log: seq<Access>) {
    && (forall j, k :: 0 <= j < k < |log| ==> log[j].slice <= log[k].slice)
    && (forall j, k :: 0 <= j < k < |log| &&
          (log[j].slice < log[k].slice || log[j].thread == log[k].thread || log[k].op.TraceOp?)
          ==> j in log[k].before)
    && (forall j, k :: 0 <= j < k < |log| && SamePlace(log[j], log[k])
          ==> log[j].thread == log[k].thread && log[j].op.index < log[k].op.index)
    && (forall j, k :: 0 <= j < k < |log| && log[j].op.TraceOp? ==> log[j].slice < log[k].slice)
  }

  /** Every block of the slices before, and what each lane has done of this one. */
  ghost predicate Complete(c: Config, log: seq<Access>, t: nat, progress: Progress)
    requires ValidConfig(c) && |progress| == c.inst.lanes
  {
    && (forall u, l, i :: 0 <= u < t && 0 <= l < c.inst.lanes && StartIndex(u) <= i < c.inst.layout.segmentLength
          ==> Logged(log, u, l, i))
    && (t < Slices(c) ==>
          forall l, i :: 0 <= l < c.inst.lanes && StartIndex(t) <= i < progress[l] ==> Logged(log, t, l, i))
  }

  ghost predicate Record(c: Config, s: State)
    requires Shape(c, s)
  {
    Entries(c, s) && Ordered(s.log) && Complete(c, s.log, s.epoch, s.progress)
  }

  ghost predicate Inv(c: Config, s: State) {
    && Control(c, s)
    && Memory(c, s)
    && Knowledge(c, s)
    && Record(c, s)
  }

  /** The invariant makes every state one the steps are defined on. */
  lemma InvIsTyped(c: Config, s: State)
    requires Inv(c, s)
    ensures Typed(c, s)
  {
    hide Memory, Knowledge, Record, Spawns, Losses, Generations, Arrivals, Lanes, Claimed, Partition, Stages,
         WellFormed;
    forall i | 0 <= i < |s.threads| && s.threads[i].pc.Filling?
      ensures FillingOk(c, s, s.threads[i].pc)
    {
      if i > 0 {
        assert HelperOk(c, s, s.threads[i].pc);
      }
    }
  }

  lemma InitialControl(c: Config)
    requires ValidConfig(c)
    ensures Control(c, Initial(c))
  {
    var s := Initial(c);
    assert Shape(c, s);
    hide WellFormed, Sized;
    CountToNone(s.threads, Turned, |s.threads|);
    CountToNone(s.threads, Gone, |s.threads|);
    CountToNone(s.threads, ArrivedAt(0), |s.threads|);
    CountToNone(s.threads, DrainedAt(0), |s.threads|);
    assert Pcs(c, s) && Spawns(c, s) && Losses(c, s) && Generations(c, s) && Arrivals(c, s) && Lanes(c, s);
    assert Claimed(c, s);
    assert Partition(c, s) && Stages(c, s);
  }

  lemma InitialMemory(c: Config)
    requires ValidConfig(c) && Shape(c, Initial(c))
    ensures Memory(c, Initial(c))
  {
    hide View, Shape;
    ViewAtStart(c.inst, c.initial, 0);
  }

  lemma InitialHolds(c: Config)
    requires ValidConfig(c)
    ensures Inv(c, Initial(c))
  {
    hide Memory, Sized, WellFormed, Pcs, Spawns, Losses, Generations, Arrivals, Lanes, Claimed, Partition, Stages;
    var s := Initial(c);
    InitialControl(c);
    InitialMemory(c);
    assert Knowledge(c, s);
    assert Record(c, s);
  }
}

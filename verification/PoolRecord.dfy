/** Every step keeps the history of accesses: complete, without repetition, and ordered. */
module PoolRecord {
  import opened Machine
  import opened Params
  import opened Indexing
  import opened Fill
  import opened SliceView
  import opened Pool
  import opened PoolInvariant
  import opened PoolControl
  import opened PoolLeader
  import opened PoolViews

  // ---------------------------------------------------------------------------
  // Steps that access nothing
  // ---------------------------------------------------------------------------

  /** A lane someone fills now but did not before has not been started. */
  ghost predicate FreshFills(c: Config, s: State, s': State)
    requires |s'.threads| == |s.threads| && |s.progress| == c.inst.lanes
  {
    forall i, lane :: 0 <= i < |s.threads| && 0 <= lane < c.inst.lanes && Fills(s', i, lane)
      ==> Fills(s, i, lane) || s.progress[lane] == StartIndex(s.epoch)
  }

  lemma RecordFrame(c: Config, s: State, s': State)
    requires Shape(c, s) && Shape(c, s') && Record(c, s)
    requires s'.log == s.log && s'.epoch == s.epoch && s'.base == s.base && s'.progress == s.progress
    requires FreshFills(c, s, s')
    requires TracedHere(s) && Parked(s) ==> Parked(s')
    ensures Record(c, s')
  {
    hide RefersTo, WellFormed, Sized, ValidProgress, Ordered, Complete, Parked;
    assert TracedHere(s') ==> TracedHere(s);
  }

  /** A step that takes no new lane, by a thread that is not parked or stays parked. */
  lemma RecordMove(c: Config, s: State, s': State, i: nat, x: Thread)
    requires Shape(c, s) && Shape(c, s') && Record(c, s) && i < |s.threads|
    requires s'.log == s.log && s'.epoch == s.epoch && s'.base == s.base && s'.progress == s.progress
    requires s'.threads == s.threads[i := x] && !x.pc.Filling?
    requires if i == 0 then Traced(s.threads[0].pc) || Left(s.threads[0].pc) ==> Traced(x.pc) || Left(x.pc)
             else Waiting(s.threads[i].pc, s.epoch) || Ended(s.threads[i].pc) ==> Waiting(x.pc, s.epoch) || Ended(x.pc)
    ensures Record(c, s')
  {
    hide Record, Sized, ValidProgress, WellFormed;
    RecordFrame(c, s, s');
  }

  lemma ClaimRecord(c: Config, s: State, i: nat, t: nat)
    requires Shape(c, s) && Record(c, s) && Partition(c, s) && !AfterReset(LeaderPc(s))
    requires i < |s.threads| && s.threads[i].pc == Claiming(t) && t == s.epoch < Slices(c)
    requires Shape(c, StepClaim(c, s, i, t))
    ensures Record(c, StepClaim(c, s, i, t))
  {
    hide Record, Sized, ValidProgress, WellFormed, WrapAdd;
    RecordFrame(c, s, StepClaim(c, s, i, t));
  }

  lemma SpawnRecord(c: Config, s: State, k: nat, fails: bool)
    requires Shape(c, s) && Record(c, s) && LeaderPc(s) == Spawning(k) && 1 <= k < |s.threads|
    requires Shape(c, StepSpawn(c, s, k, fails))
    ensures Record(c, StepSpawn(c, s, k, fails))
  {
    hide Record, Sized, ValidProgress, WellFormed;
    RecordFrame(c, s, StepSpawn(c, s, k, fails));
  }

  // ---------------------------------------------------------------------------
  // Filling a block
  // ---------------------------------------------------------------------------

  lemma OrderedAppend(log: seq<Access>, a: Access)
    requires Ordered(log)
    requires forall j :: 0 <= j < |log| ==> log[j].slice <= a.slice
    requires forall j :: 0 <= j < |log| && (log[j].slice < a.slice || log[j].thread == a.thread || a.op.TraceOp?) ==>
      j in a.before
    requires forall j :: 0 <= j < |log| && SamePlace(log[j], a) ==>
      log[j].thread == a.thread && log[j].op.index < a.op.index
    requires forall j :: 0 <= j < |log| && log[j].op.TraceOp? ==> log[j].slice < a.slice
    ensures Ordered(log + [a])
  {
  }

  /** What filling a block needs to know of the accesses before it. */
  lemma FillOrdered(c: Config, s: State, i: nat, a: Access)
    requires Shape(c, s) && Record(c, s) && i < |s.threads| && FillingAt(s, i, a)
    requires a.op.lane < c.inst.lanes && s.progress[a.op.lane] == a.op.index
    requires SeesBase(s, s.threads[i].seen) && SeesOwn(s, i, s.threads[i].seen)
    ensures Ordered(s.log + [a])
  {
    hide RefersTo, Complete, Sized, ValidProgress, WellFormed;
    var before := s.threads[i].seen.events;
    assert !TracedHere(s);
    assert forall j :: 0 <= j < |s.log| ==> s.log[j].slice <= a.slice;
    forall j | 0 <= j < |s.log| && SamePlace(s.log[j], a)
      ensures s.log[j].thread == a.thread && s.log[j].op.index < a.op.index
    {
      assert j >= s.base && Fills(s, i, s.log[j].op.lane);
    }
    forall j | 0 <= j < |s.log| && s.log[j].op.TraceOp?
      ensures s.log[j].slice < a.slice
    {
    }
    hide Entries;
    OrderedAppend(s.log, a);
  }

  predicate FillingAt(s: State, i: nat, a: Access)
    requires i < |s.threads|
  {
    && a.op.FillOp?
    && s.threads[i].pc == Filling(s.epoch, a.op.lane, a.op.index)
    && a.thread == i && a.slice == s.epoch && a.before == s.threads[i].seen.events
  }

  lemma LoggedAppend(log: seq<Access>, a: Access, t: nat, lane: nat, index: nat)
    requires Logged(log, t, lane, index) || IsFill(a, t, lane, index)
    ensures Logged(log + [a], t, lane, index)
  {
    if Logged(log, t, lane, index) {
      var k :| 0 <= k < |log| && IsFill(log[k], t, lane, index);
      assert (log + [a])[k] == log[k];
    } else {
      assert (log + [a])[|log|] == a;
    }
  }

  lemma CompleteAppend(c: Config, log: seq<Access>, t: nat, progress: Progress, a: Access, progress': Progress)
    requires ValidConfig(c) && |progress| == c.inst.lanes && Complete(c, log, t, progress)
    requires if a.op.FillOp? && t < Slices(c) then
               a.op.lane < c.inst.lanes && a.slice == t && progress[a.op.lane] == a.op.index
                 && progress' == progress[a.op.lane := a.op.index + 1]
             else progress' == progress
    ensures Complete(c, log + [a], t, progress')
  {
    hide Logged, IsFill, WellFormed, Sized;
    forall u, l, i | 0 <= u < t && 0 <= l < c.inst.lanes && StartIndex(u) <= i < c.inst.layout.segmentLength
      ensures Logged(log + [a], u, l, i)
    {
      LoggedAppend(log, a, u, l, i);
    }
    if t < Slices(c) {
      forall l, i | 0 <= l < c.inst.lanes && StartIndex(t) <= i < progress'[l]
        ensures Logged(log + [a], t, l, i)
      {
        if !(i < progress[l]) {
          FillIsLogged(a, t, l, i);
        }
        LoggedAppend(log, a, t, l, i);
      }
    }
  }

  lemma FillIsLogged(a: Access, t: nat, lane: nat, index: nat)
    requires a.op.FillOp? && a.slice == t && a.op.lane == lane && a.op.index == index
    ensures IsFill(a, t, lane, index)
  {
  }

  lemma FillEntries(c: Config, s: State, i: nat, t: nat, lane: nat, index: nat)
    requires Shape(c, s) && Entries(c, s) && Partition(c, s) && i < |s.threads|
    requires t == s.epoch < Slices(c) && lane < c.inst.lanes
    requires StartIndex(t) <= index == s.progress[lane] < c.inst.layout.segmentLength
    requires s.threads[i].pc == Filling(t, lane, index)
    requires !Traced(LeaderPc(s)) && (i == 0 ==> !Left(LeaderPc(s)))
    requires Shape(c, StepFill(c, s, i, t, lane, index))
    ensures Entries(c, StepFill(c, s, i, t, lane, index))
  {
    hide WellFormed, Sized, ValidProgress, WriteBlock, RefOffset, PseudoRand;
    var s' := StepFill(c, s, i, t, lane, index);
    var a := s'.log[|s.log|];
    assert s'.log == s.log + [a];
    assert RefersTo(c, a);
    hide RefersTo;
    assert !TracedHere(s);
    assert !TracedHere(s');
    forall k, j | s'.base <= k < |s'.log| && s'.log[k].op.FillOp? && 0 <= j < |s'.threads|
      && Fills(s', j, s'.log[k].op.lane)
      ensures s'.log[k].thread == j
    {
      if k < |s.log| {
        assert Fills(s, j, s.log[k].op.lane);
      }
    }
  }

  lemma FillRecord(c: Config, s: State, i: nat, t: nat, lane: nat, index: nat)
    requires Shape(c, s) && Record(c, s) && Partition(c, s) && i < |s.threads|
    requires t == s.epoch < Slices(c) && lane < c.inst.lanes
    requires StartIndex(t) <= index == s.progress[lane] < c.inst.layout.segmentLength
    requires s.threads[i].pc == Filling(t, lane, index)
    requires !Traced(LeaderPc(s)) && (i == 0 ==> !Left(LeaderPc(s)))
    requires SeesBase(s, s.threads[i].seen) && SeesOwn(s, i, s.threads[i].seen)
    requires Shape(c, StepFill(c, s, i, t, lane, index))
    ensures Record(c, StepFill(c, s, i, t, lane, index))
  {
    hide WellFormed, Sized, ValidProgress, WriteBlock, RefOffset, PseudoRand, Entries, Ordered, Complete, Partition,
         SeesBase, SeesOwn;
    var s' := StepFill(c, s, i, t, lane, index);
    var a := s'.log[|s.log|];
    assert s'.log == s.log + [a];
    FillEntries(c, s, i, t, lane, index);
    FillOrdered(c, s, i, a);
    CompleteAppend(c, s.log, s.epoch, s.progress, a, s'.progress);
  }

  // ---------------------------------------------------------------------------
  // Tracing and publishing
  // ---------------------------------------------------------------------------

  lemma TraceOrdered(c: Config, s: State, a: Access)
    requires Shape(c, s) && Record(c, s) && LeaderPc(s).Tracing?
    requires a.op.TraceOp? && a.slice == s.epoch && SeesAll(s, s.threads[0].seen)
    requires a.before == s.threads[0].seen.events
    ensures Ordered(s.log + [a])
  {
    hide RefersTo, Complete, Sized, ValidProgress, WellFormed;
    assert !TracedHere(s);
    assert forall j :: 0 <= j < |s.log| ==> s.log[j].slice <= a.slice;
    forall j | 0 <= j < |s.log| && s.log[j].op.TraceOp?
      ensures s.log[j].slice < a.slice
    {
    }
    hide Entries;
    OrderedAppend(s.log, a);
  }

  lemma TraceRecord(c: Config, s: State, t: nat, fails: bool)
    requires Shape(c, s) && Record(c, s) && LeaderPc(s) == Tracing(t) && t == s.epoch < Slices(c)
    requires forall i :: 1 <= i < |s.threads| ==> Waiting(s.threads[i].pc, s.epoch) || s.threads[i].pc.Refused?
    requires SeesAll(s, s.threads[0].seen)
    requires Shape(c, StepTrace(s, t, fails))
    ensures Record(c, StepTrace(s, t, fails))
  {
    hide WellFormed, Sized, ValidProgress, Ordered, Complete, SeesAll, RefersTo;
    var s' := StepTrace(s, t, fails);
    var a := s'.log[|s.log|];
    assert s'.log == s.log + [a];
    TraceOrdered(c, s, a);
    CompleteAppend(c, s.log, s.epoch, s.progress, a, s'.progress);
    assert RefersTo(c, a) by { TraceRefers(c, a); }
    forall k, i | s'.base <= k < |s'.log| && s'.log[k].op.FillOp? && 0 <= i < |s'.threads|
      && Fills(s', i, s'.log[k].op.lane)
      ensures s'.log[k].thread == i
    {
      assert Fills(s, i, s.log[k].op.lane);
    }
    assert Parked(s');
  }

  lemma TraceRefers(c: Config, a: Access)
    requires ValidConfig(c) && a.op.TraceOp? && AccessOk(c, a)
    ensures RefersTo(c, a)
  {
  }

  lemma PublishComplete(c: Config, log: seq<Access>, t: nat)
    requires ValidConfig(c) && t < Slices(c) && Complete(c, log, t, FullProgress(c.inst))
    ensures Complete(c, log, t + 1, NoProgress(c.inst, t + 1))
  {
    hide Logged, WellFormed, Sized;
    forall u, l, i | 0 <= u < t + 1 && 0 <= l < c.inst.lanes && StartIndex(u) <= i < c.inst.layout.segmentLength
      ensures Logged(log, u, l, i)
    {
      if u == t {
        assert i < FullProgress(c.inst)[l];
      }
    }
  }

  lemma PublishRecord(c: Config, s: State, t: nat)
    requires Shape(c, s) && Record(c, s) && LeaderPc(s) == Publishing(t) && t == s.epoch < Slices(c)
    requires s.progress == FullProgress(c.inst)
    requires Shape(c, StepPublish(c, s, t))
    ensures Record(c, StepPublish(c, s, t))
  {
    hide WellFormed, Sized, ValidProgress, Ordered, Complete, RefersTo, Stamp;
    PublishComplete(c, s.log, t);
  }
}

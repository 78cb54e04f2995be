/** The striped wipe: a region cut into stripes that workers claim from one counter. */
module Stripes {
  import opened Machine

  // ---------------------------------------------------------------------------
  // Cutting
  // ---------------------------------------------------------------------------

  function AtLeast1(n: nat): nat { if n == 0 then 1 else n }

  /** `div_ceil`. */
  function DivCeil(a: nat, b: nat): nat
    requires b > 0
  {
    if a == 0 then 0 else if a <= b then 1 else 1 + DivCeil(a - b, b)
  }

  /** `next_multiple_of`. */
  function NextMultiple(a: nat, unit: nat): nat
    requires unit > 0
  {
    Times(DivCeil(a, unit), unit)
  }

  /** The recursion counts what the division computes. */
  lemma {:induction false} DivCeilIsDivision(a: nat, b: nat)
    requires b > 0
    ensures DivCeil(a, b) == (a + b - 1) / b
  {
    if a == 0 {
      QuotientUnique(b - 1, b, 0, b - 1);
    } else if a <= b {
      QuotientUnique(a + b - 1, b, 1, a - 1);
    } else {
      DivCeilIsDivision(a - b, b);
      var q, r := (a - 1) / b, (a - 1) % b;
      QuotientUnique(a + b - 1, b, q + 1, r);
    }
  }

  /** The fewest pieces of `b` that cover `a`. */
  lemma {:induction false} DivCeilCovers(a: nat, b: nat)
    requires b > 0 && a > 0
    ensures DivCeil(a, b) >= 1
    ensures Times(DivCeil(a, b) - 1, b) < a <= Times(DivCeil(a, b), b)
  {
    if a > b {
      DivCeilCovers(a - b, b);
    }
  }

  ghost predicate IsMultiple(x: nat, unit: nat) { exists k: nat :: x == Times(k, unit) }

  /** One stripe per worker, rounded up to a whole unit; one stripe in all if that is the region. */
  datatype Cut = Cut(len: nat, per: nat, count: nat)

  function CutUp(len: nat, workers: nat, unit: nat): Cut {
    var w := AtLeast1(workers);
    var per := NextMultiple(DivCeil(len, w), AtLeast1(unit));
    if w == 1 || per >= len then Cut(len, len, 1) else Cut(len, per, DivCeil(len, per))
  }

  function Start(c: Cut, i: nat): nat { Times(i, c.per) }

  function End(c: Cut, i: nat): nat { if Times(i, c.per) + c.per < c.len then Times(i, c.per) + c.per else c.len }

  lemma {:induction false} TimesAdds(a: nat, b: nat, n: nat)
    ensures Times(a + b, n) == Times(a, n) + Times(b, n)
  {
    if b > 0 {
      TimesAdds(a, b - 1, n);
      assert a + b - 1 == a + (b - 1);
    }
  }

  lemma {:induction false} MultiplesAdd(i: nat, per: nat, unit: nat)
    requires IsMultiple(per, unit)
    ensures IsMultiple(Times(i, per), unit)
  {
    if i == 0 {
      assert Times(0, unit) == 0;
    } else {
      MultiplesAdd(i - 1, per, unit);
      var a: nat :| Times(i - 1, per) == Times(a, unit);
      var b: nat :| per == Times(b, unit);
      TimesAdds(a, b, unit);
      assert Times(i, per) == Times(a + b, unit);
    }
  }

  /** Stripes begin on whole units, follow one another, and end with the region. */
  lemma StripesFollow(len: nat, workers: nat, unit: nat, i: nat)
    requires i < CutUp(len, workers, unit).count
    ensures var c := CutUp(len, workers, unit);
            && IsMultiple(Start(c, i), AtLeast1(unit))
            && Start(c, i) <= End(c, i) <= len
            && (len > 0 ==> Start(c, i) < End(c, i))
            && (i + 1 < c.count ==> End(c, i) == Start(c, i + 1))
            && (i + 1 == c.count ==> End(c, i) == len)
  {
    var c, u := CutUp(len, workers, unit), AtLeast1(unit);
    if c.count == 1 && c.per == len {
      assert Times(0, u) == 0;
    } else {
      assert IsMultiple(c.per, u);
      MultiplesAdd(i, c.per, u);
      DivCeilCovers(len, c.per);
      if i + 1 < c.count {
        TimesMono(i + 1, c.count, c.per);
        if i + 1 < c.count - 1 {
          TimesMono(i + 1, c.count - 1, c.per);
        }
      }
    }
  }

  /** The stripe a byte lies in. */
  function StripeOf(c: Cut, x: nat): nat
    requires c.per > 0
  {
    if x < c.per then 0 else 1 + StripeOf(c, x - c.per)
  }

  lemma {:induction false} StripeOfIs(per: nat, x: nat)
    requires per > 0
    ensures Times(StripeOf(Cut(0, per, 0), x), per) <= x < Times(StripeOf(Cut(0, per, 0), x), per) + per
  {
    if x >= per {
      StripeOfIs(per, x - per);
    }
  }

  /** Every byte of the region is in one stripe and no other. */
  lemma EachByteInOneStripe(len: nat, workers: nat, unit: nat, x: nat) returns (i: nat)
    requires x < len
    ensures var c := CutUp(len, workers, unit);
            && i < c.count && Start(c, i) <= x < End(c, i)
            && forall j: nat :: j < c.count && Start(c, j) <= x < End(c, j) ==> j == i
  {
    var c := CutUp(len, workers, unit);
    if c.count == 1 && c.per == len {
      i := 0;
    } else {
      DivCeilCovers(len, c.per);
      i := StripeOf(Cut(0, c.per, 0), x);
      StripeOfIs(c.per, x);
      if i >= c.count && i > c.count {
        TimesMono(c.count, i, c.per);
      }
      forall j: nat | j < c.count && Start(c, j) <= x < End(c, j)
        ensures j == i
      {
        if j < i {
          TimesMono(j, i, c.per);
        } else if i < j {
          TimesMono(i, j, c.per);
        }
      }
    }
  }

  lemma {:induction false} TimesMonoRight(a: nat, m: nat, n: nat)
    requires m <= n
    ensures Times(a, m) <= Times(a, n)
  {
    if a > 0 {
      TimesMonoRight(a - 1, m, n);
    }
  }

  /** No more stripes than workers. */
  lemma OneStripeEach(len: nat, workers: nat, unit: nat)
    ensures 1 <= CutUp(len, workers, unit).count <= AtLeast1(workers)
  {
    var c, w := CutUp(len, workers, unit), AtLeast1(workers);
    if !(c.count == 1 && c.per == len) {
      var share := DivCeil(len, w);
      DivCeilCovers(len, w);
      DivCeilCovers(share, AtLeast1(unit));
      DivCeilCovers(len, c.per);
      TimesMonoRight(w, share, c.per);
      TimesIsProduct(w, share);
      TimesIsProduct(share, w);
      if c.count > w {
        if c.count - 1 > w {
          TimesMono(w, c.count - 1, c.per);
        }
      }
    }
  }

  /** Fewer pieces of `b` do not cover `a`, so a multiple of `unit` at least `a` is less than `a + unit`. */
  lemma NextMultipleIs(a: nat, unit: nat)
    requires unit > 0
    ensures a <= NextMultiple(a, unit) < a + unit
  {
    if a > 0 {
      DivCeilCovers(a, unit);
    }
  }

  /** No stripe is longer than an even share rounded up to a whole unit, and none but the last is shorter. */
  lemma SharesAreEven(len: nat, workers: nat, unit: nat, i: nat)
    requires i < CutUp(len, workers, unit).count
    ensures var c, w, u := CutUp(len, workers, unit), AtLeast1(workers), AtLeast1(unit);
            && End(c, i) - Start(c, i) < (len + w - 1) / w + u
            && (i + 1 < c.count ==> End(c, i) - Start(c, i) >= (len + w - 1) / w)
  {
    var c, w, u := CutUp(len, workers, unit), AtLeast1(workers), AtLeast1(unit);
    DivCeilIsDivision(len, w);
    NextMultipleIs(DivCeil(len, w), u);
    StripesFollow(len, workers, unit, i);
    if i + 1 < c.count {
      StripesFollow(len, workers, unit, i + 1);
    }
  }

  // ---------------------------------------------------------------------------
  // Wiping by whichever workers there are
  // ---------------------------------------------------------------------------

  /** The memory with one stripe zeroed. */
  function ZeroRange(mem: seq<u8>, lo: nat, hi: nat): (m: seq<u8>)
    ensures |m| == |mem|
  {
    seq(|mem|, x requires 0 <= x < |mem| => if lo <= x < hi then 0 else mem[x])
  }

  datatype Worker = Claiming | Wiping(stripe: nat) | Finished | Refused

  /** The counter, the workers, the memory, and the stripes wiped so far. */
  datatype Wipe = Wipe(next: nat, workers: seq<Worker>, mem: seq<u8>, log: seq<nat>)

  /** Worker 0 is the calling thread; any of the others may have been refused. */
  predicate Initial(mem: seq<u8>, s: Wipe) {
    && s.next == 0 && s.mem == mem && s.log == []
    && |s.workers| >= 1 && s.workers[0] == Claiming
    && forall i :: 1 <= i < |s.workers| ==> s.workers[i] == Claiming || s.workers[i] == Refused
  }

  predicate CanStep(s: Wipe, i: nat) { i < |s.workers| && !s.workers[i].Finished? && !s.workers[i].Refused? }

  /** One step: claiming a stripe or finding none left, or wiping the stripe claimed. */
  function Step(c: Cut, s: Wipe, i: nat): Wipe
    requires CanStep(s, i)
  {
    match s.workers[i]
    case Wiping(k) =>
      s.(workers := s.workers[i := Claiming], mem := ZeroRange(s.mem, Start(c, k), End(c, k)), log := s.log + [k])
    case _ =>
      s.(next := s.next + 1, workers := s.workers[i := if s.next >= c.count then Finished else Wiping(s.next)])
  }

  ghost predicate IsRun(c: Cut, mem: seq<u8>, states: seq<Wipe>, who: seq<nat>) {
    && |states| == |who| + 1
    && Initial(mem, states[0])
    && forall k :: 0 <= k < |who| ==> CanStep(states[k], who[k]) && states[k + 1] == Step(c, states[k], who[k])
  }

  ghost predicate InHand(s: Wipe, k: nat) { exists i :: 0 <= i < |s.workers| && s.workers[i] == Wiping(k) }

  /** What every interleaving keeps: a claimed stripe is in one worker's hands or wiped, never both or twice. */
  ghost predicate Inv(c: Cut, mem: seq<u8>, s: Wipe) {
    && |s.workers| >= 1 && |s.mem| == |mem| && !s.workers[0].Refused?
    && (forall i :: 0 <= i < |s.workers| && s.workers[i].Wiping? ==>
      s.workers[i].stripe < c.count && s.workers[i].stripe < s.next)
    && (forall i, j :: 0 <= i < j < |s.workers| && s.workers[i].Wiping? ==> s.workers[i] != s.workers[j])
    && (forall a, b :: 0 <= a < b < |s.log| ==> s.log[a] != s.log[b])
    && (forall k :: k in s.log ==> 0 <= k < c.count && k < s.next && !InHand(s, k))
    && (forall k: nat :: k < c.count && k < s.next ==> k in s.log || InHand(s, k))
    && ((exists i :: 0 <= i < |s.workers| && s.workers[i].Finished?) ==> s.next >= c.count)
  }

  lemma InitialInv(c: Cut, mem: seq<u8>, s: Wipe)
    requires Initial(mem, s)
    ensures Inv(c, mem, s)
  {
  }

  lemma HandsMove(s: Wipe, s': Wipe, i: nat)
    requires |s'.workers| == |s.workers| && i < |s.workers| && s'.workers == s.workers[i := s'.workers[i]]
    ensures forall k :: InHand(s, k) && s.workers[i] != Wiping(k) ==> InHand(s', k)
    ensures forall k :: InHand(s', k) && s'.workers[i] != Wiping(k) ==> InHand(s, k)
    ensures forall k :: s'.workers[i] == Wiping(k) ==> InHand(s', k)
  {
    forall k | InHand(s, k) && s.workers[i] != Wiping(k)
      ensures InHand(s', k)
    {
      var j :| 0 <= j < |s.workers| && s.workers[j] == Wiping(k);
      assert s'.workers[j] == Wiping(k);
    }
    forall k | InHand(s', k) && s'.workers[i] != Wiping(k)
      ensures InHand(s, k)
    {
      var j :| 0 <= j < |s'.workers| && s'.workers[j] == Wiping(k);
      assert s.workers[j] == Wiping(k);
    }
  }

  lemma ClaimInv(c: Cut, mem: seq<u8>, s: Wipe, i: nat)
    requires Inv(c, mem, s) && CanStep(s, i) && s.workers[i].Claiming?
    ensures Inv(c, mem, Step(c, s, i))
  {
    var s' := Step(c, s, i);
    HandsMove(s, s', i);
    hide InHand;
  }

  lemma WipeInv(c: Cut, mem: seq<u8>, s: Wipe, i: nat)
    requires Inv(c, mem, s) && CanStep(s, i) && s.workers[i].Wiping?
    ensures Inv(c, mem, Step(c, s, i))
  {
    hide Start, End, ZeroRange;
    var s', k := Step(c, s, i), s.workers[i].stripe;
    HandsMove(s, s', i);
    assert InHand(s, k);
    assert !InHand(s', k);
    hide InHand;
  }

  /** The memory is the old one with the logged stripes zeroed. */
  ghost predicate Wiped(c: Cut, mem: seq<u8>, s: Wipe) {
    && |s.mem| == |mem|
    && forall x :: 0 <= x < |mem| ==>
         s.mem[x] == if exists a :: 0 <= a < |s.log| && Start(c, s.log[a]) <= x < End(c, s.log[a]) then 0 else mem[x]
  }

  lemma WipedStep(c: Cut, mem: seq<u8>, s: Wipe, i: nat)
    requires Wiped(c, mem, s) && CanStep(s, i)
    ensures Wiped(c, mem, Step(c, s, i))
  {
    hide Start, End;
    var s' := Step(c, s, i);
    if s.workers[i].Wiping? {
      forall x | 0 <= x < |mem|
        ensures s'.mem[x] == if exists a :: 0 <= a < |s'.log| && Start(c, s'.log[a]) <= x < End(c, s'.log[a]) then 0
                             else mem[x]
      {
        if a :| 0 <= a < |s.log| && Start(c, s.log[a]) <= x < End(c, s.log[a]) {
          assert s'.log[a] == s.log[a];
        }
        assert s'.log[|s.log|] == s.workers[i].stripe;
        assert forall a :: 0 <= a < |s.log| ==> s'.log[a] == s.log[a];
      }
    }
  }

  lemma {:induction false} Reachable(c: Cut, mem: seq<u8>, states: seq<Wipe>, who: seq<nat>, k: nat)
    requires IsRun(c, mem, states, who) && k < |states|
    ensures Inv(c, mem, states[k]) && Wiped(c, mem, states[k])
  {
    hide Inv, Wiped, Step, Initial;
    if k == 0 {
      InitialInv(c, mem, states[0]);
      assert Wiped(c, mem, states[0]) by { InitialWiped(c, mem, states[0]); }
    } else {
      Reachable(c, mem, states, who, k - 1);
      WipedStep(c, mem, states[k - 1], who[k - 1]);
      if states[k - 1].workers[who[k - 1]].Wiping? {
        WipeInv(c, mem, states[k - 1], who[k - 1]);
      } else {
        ClaimInv(c, mem, states[k - 1], who[k - 1]);
      }
    }
  }

  lemma InitialWiped(c: Cut, mem: seq<u8>, s: Wipe)
    requires Initial(mem, s)
    ensures Wiped(c, mem, s)
  {
  }

  /** Every worker has gone: the scope can be left. */
  predicate AllGone(s: Wipe) { forall i :: 0 <= i < |s.workers| ==> s.workers[i].Finished? || s.workers[i].Refused? }

  /**
   Whichever workers ran and in whatever order, when all have gone every stripe has been wiped once,
   exactly the region is zero, and the rest of the memory is as it was.
   */
  lemma WipeIsExact(len: nat, workers: nat, unit: nat, mem: seq<u8>, states: seq<Wipe>, who: seq<nat>)
    requires len <= |mem| && IsRun(CutUp(len, workers, unit), mem, states, who) && AllGone(states[|who|])
    ensures var s, c := states[|who|], CutUp(len, workers, unit);
            && (forall k: nat :: k < c.count <==> k in s.log)
            && (forall a, b :: 0 <= a < b < |s.log| ==> s.log[a] != s.log[b])
            && s.mem == ZeroRange(mem, 0, len)
  {
    hide CutUp, Step, Initial, Start, End;
    var c, s := CutUp(len, workers, unit), states[|who|];
    Reachable(c, mem, states, who, |who|);
    assert s.workers[0].Finished?;
    assert s.next >= c.count;
    assert forall k :: !InHand(s, k);
    forall x | 0 <= x < |mem|
      ensures s.mem[x] == ZeroRange(mem, 0, len)[x]
    {
      if x < len {
        var i := EachByteInOneStripe(len, workers, unit, x);
        assert i in s.log;
        var a :| 0 <= a < |s.log| && s.log[a] == i;
      } else {
        forall a | 0 <= a < |s.log|
          ensures !(Start(c, s.log[a]) <= x < End(c, s.log[a]))
        {
          assert s.log[a] in s.log;
          StripesFollow(len, workers, unit, s.log[a]);
        }
      }
    }
  }

  // ---------------------------------------------------------------------------
  // The workers do go
  // ---------------------------------------------------------------------------

  /** Steps a worker has before it, not counting stripes nobody has claimed. */
  function StepsOf(w: Worker): nat { if w.Claiming? then 1 else if w.Wiping? then 2 else 0 }

  function StepsOfAll(workers: seq<Worker>): nat {
    if |workers| == 0 then 0 else StepsOfAll(workers[..|workers| - 1]) + StepsOf(workers[|workers| - 1])
  }

  /** Two steps for each stripe still to be claimed, and those of the workers. */
  function StepsLeft(c: Cut, s: Wipe): nat {
    2 * (if s.next < c.count then c.count - s.next else 0) + StepsOfAll(s.workers)
  }

  lemma {:induction false} StepsUpdate(workers: seq<Worker>, i: nat, w: Worker)
    requires i < |workers|
    ensures StepsOfAll(workers[i := w]) + StepsOf(workers[i]) == StepsOfAll(workers) + StepsOf(w)
  {
    var n := |workers| - 1;
    if i < n {
      StepsUpdate(workers[..n], i, w);
      assert workers[i := w][..n] == workers[..n][i := w];
    } else {
      assert workers[i := w][..n] == workers[..n];
    }
  }

  /** Every step of every worker takes one off what is left: no worker waits for another. */
  lemma StepSpendsOne(c: Cut, s: Wipe, i: nat)
    requires CanStep(s, i)
    ensures StepsLeft(c, Step(c, s, i)) == StepsLeft(c, s) - 1
  {
    hide StepsOfAll, Start, End, ZeroRange;
    StepsUpdate(s.workers, i, Step(c, s, i).workers[i]);
  }

  lemma {:induction false} SomeoneHasSteps(workers: seq<Worker>)
    ensures StepsOfAll(workers) > 0 <==> exists i :: 0 <= i < |workers| && !workers[i].Finished? && !workers[i].Refused?
  {
    if |workers| > 0 {
      var n := |workers| - 1;
      SomeoneHasSteps(workers[..n]);
      if i :| 0 <= i < |workers| && !workers[i].Finished? && !workers[i].Refused? {
        assert i < n ==> workers[..n][i] == workers[i];
      }
      if StepsOfAll(workers[..n]) > 0 {
        var i :| 0 <= i < n && !workers[..n][i].Finished? && !workers[..n][i].Refused?;
        assert workers[i] == workers[..n][i];
      }
    }
  }

  lemma {:induction false} StepsAfter(c: Cut, mem: seq<u8>, states: seq<Wipe>, who: seq<nat>, k: nat)
    requires IsRun(c, mem, states, who) && k < |states|
    ensures StepsLeft(c, states[k]) == StepsLeft(c, states[0]) - k
  {
    hide StepsLeft, Step, Initial;
    if k > 0 {
      StepsAfter(c, mem, states, who, k - 1);
      StepSpendsOne(c, states[k - 1], who[k - 1]);
    }
  }

  /**
   Whoever runs, however they interleave: until all have gone some worker can step, and they have all
   gone after exactly as many steps as there were at the start. So every run that is carried on ends.
   */
  lemma WorkersFinish(c: Cut, mem: seq<u8>, states: seq<Wipe>, who: seq<nat>, k: nat)
    requires IsRun(c, mem, states, who) && k < |states|
    ensures AllGone(states[k]) <==> k == StepsLeft(c, states[0])
    ensures !AllGone(states[k]) <==> exists i :: CanStep(states[k], i)
  {
    hide StepsOfAll, Step, Initial;
    StepsAfter(c, mem, states, who, k);
    var s := states[k];
    SomeoneHasSteps(s.workers);
    if AllGone(s) {
      Reachable(c, mem, states, who, k);
      assert s.workers[0].Finished?;
    } else {
      var i :| 0 <= i < |s.workers| && !s.workers[i].Finished? && !s.workers[i].Refused?;
      assert CanStep(s, i);
    }
  }

  /** `stripe_over` run by the calling thread alone: one way the workers can go. */
  method StripeOver(mem: array<u8>, len: nat, workers: nat, unit: nat)
    requires len <= mem.Length
    modifies mem
    ensures mem[..] == ZeroRange(old(mem[..]), 0, len)
  {
    var c := CutUp(len, workers, unit);
    OneStripeEach(len, workers, unit);
    hide CutUp;
    var next := 0;
    assert Start(c, 0) == 0;
    while next < c.count
      invariant next <= c.count
      invariant forall x :: 0 <= x < mem.Length ==>
        mem[x] == if x < (if next < c.count then Start(c, next) else len) then 0 else old(mem[x])
      decreases c.count - next
    {
      StripesFollow(len, workers, unit, next);
      ZeroStripe(mem, Start(c, next), End(c, next));
      next := next + 1;
    }
  }

  /** One stripe, byte by byte. */
  method ZeroStripe(mem: array<u8>, lo: nat, hi: nat)
    requires lo <= hi <= mem.Length
    modifies mem
    ensures forall x :: 0 <= x < mem.Length ==> mem[x] == if lo <= x < hi then 0 else old(mem[x])
  {
    for i := lo to hi
      invariant forall x :: 0 <= x < mem.Length ==> mem[x] == if lo <= x < i then 0 else old(mem[x])
    {
      mem[i] := 0;
    }
  }
}

/**
 The arena and the workspace that lends it: the known-zeroed flag, the window and the capacity, with
 the wipe feature on and off. First as values, over every history; then as the source's classes.
 */
module Memory {
  import opened Machine
  import opened Stripes

  /** Bytes of a block, and of a cache line. */
  const BLOCK: nat := 1024
  const ARENA_ALIGN: nat := 64
  const WIPE_THREAD_THRESHOLD: nat := 0x400_0000

  /** The largest size an allocation may have, rounded up to the alignment. */
  const MAX_LAYOUT: nat := 0x7FFF_FFFF_FFFF_FFFF

  function Bytes(blocks: nat): nat { blocks * 1024 }

  /** `checked_layout`: no blocks, or too many for an allocation, is an error. */
  predicate LayoutOk(blocks: nat) { blocks > 0 && Bytes(blocks) + 63 <= MAX_LAYOUT }

  /** In blocks: from one to 2^53 - 1. */
  lemma LayoutBounds(blocks: nat)
    ensures LayoutOk(blocks) <==> 1 <= blocks <= 9_007_199_254_740_991
  {
  }

  predicate AllZero(mem: seq<u8>) { forall i :: 0 <= i < |mem| ==> mem[i] == 0 }

  // ---------------------------------------------------------------------------
  // The arena as a value
  // ---------------------------------------------------------------------------

  /** All the capacity in bytes, the visible blocks, and the flag. */
  datatype ArenaState = ArenaState(mem: seq<u8>, len: nat, zeroed: bool)

  function Capacity(a: ArenaState): nat { |a.mem| / 1024 }

  /** The three invariants. The second holds only with the wipe feature on. */
  predicate Sound(wipe: bool, a: ArenaState) {
    && |a.mem| % 1024 == 0 && 1 <= a.len <= Capacity(a)
    && (wipe ==> forall i :: Bytes(a.len) <= i < |a.mem| ==> a.mem[i] == 0)
    && (a.zeroed ==> AllZero(a.mem))
  }

  /** `Arena::new`, when the allocator obliges. */
  function NewArena(blocks: nat): (a: ArenaState)
    ensures LayoutOk(blocks) ==> Capacity(a) == blocks && AllZero(a.mem)
  {
    ArenaState(seq(Bytes(blocks), i => 0), blocks, true)
  }

  /** A borrower reaches the window, whatever it does there; the flag is cleared before it may. */
  predicate Borrowed(a: ArenaState, b: ArenaState) {
    && |b.mem| == |a.mem| && b.len == a.len && !b.zeroed
    && forall i :: Bytes(a.len) <= i < |a.mem| ==> b.mem[i] == a.mem[i]
  }

  /** `wipe_visible`: only the window is wiped, and the flag is claimed only if it was. */
  function WipeVisible(wipe: bool, a: ArenaState): ArenaState {
    if wipe then ArenaState(ZeroRange(a.mem, 0, Bytes(a.len)), a.len, true) else a
  }

  /** `ensure_zeroed`: the whole capacity. */
  function EnsureZeroed(a: ArenaState): ArenaState {
    if a.zeroed then a else ArenaState(ZeroRange(a.mem, 0, |a.mem|), a.len, true)
  }

  /** What `drop` leaves in the memory it frees. */
  function Dropped(wipe: bool, a: ArenaState): ArenaState { if a.zeroed then a else WipeVisible(wipe, a) }

  function Retarget(a: ArenaState, blocks: nat): ArenaState { a.(len := blocks) }

  lemma NewIsSound(wipe: bool, blocks: nat)
    requires LayoutOk(blocks)
    ensures Sound(wipe, NewArena(blocks))
  {
  }

  lemma WriteKeeps(wipe: bool, a: ArenaState, b: ArenaState)
    requires Sound(wipe, a) && Borrowed(a, b)
    ensures Sound(wipe, b)
  {
  }

  /** After a wipe that wipes the whole capacity is zero, though only the window was touched. */
  lemma WipeMakesZero(wipe: bool, a: ArenaState)
    requires Sound(wipe, a)
    ensures Sound(wipe, WipeVisible(wipe, a))
    ensures wipe ==> AllZero(WipeVisible(wipe, a).mem)
  {
  }

  lemma EnsureMakesZero(wipe: bool, a: ArenaState)
    requires Sound(wipe, a)
    ensures Sound(wipe, EnsureZeroed(a)) && AllZero(EnsureZeroed(a).mem)
  {
  }

  /** With the feature on, freed memory is zero. */
  lemma DropLeavesZero(a: ArenaState)
    requires Sound(true, a)
    ensures AllZero(Dropped(true, a).mem)
  {
  }

  /** A window may move over an arena only when what it uncovers or hides is zero. */
  lemma RetargetKeeps(wipe: bool, a: ArenaState, blocks: nat)
    requires Sound(wipe, a) && 1 <= blocks <= Capacity(a) && (wipe ==> AllZero(a.mem))
    ensures Sound(wipe, Retarget(a, blocks))
  {
  }

  // ---------------------------------------------------------------------------
  // The workspace as a value
  // ---------------------------------------------------------------------------

  function ParkedCapacity(parked: Option<ArenaState>): nat { if parked.Some? then Capacity(parked.value) else 0 }

  /** While parked an arena is zero throughout, with the feature on. */
  predicate ParkedOk(wipe: bool, parked: Option<ArenaState>) {
    parked.Some? ==> Sound(wipe, parked.value) && (wipe ==> AllZero(parked.value.mem))
  }

  /** `reserve`: what is parked afterwards, and the error if any. `obliges` is the allocator's answer. */
  function Reserve(parked: Option<ArenaState>, blocks: nat, obliges: bool): (Option<ArenaState>, Result<()>) {
    if blocks == 0 || ParkedCapacity(parked) >= blocks then (parked, Ok(()))
    else if !LayoutOk(blocks) then (parked, Err(MemoryAllocationError))
    else if !obliges then (None, Err(MemoryAllocationError))
    else (Some(NewArena(blocks)), Ok(()))
  }

  /** `acquire_owned`: what is parked afterwards, and the arena or the error. */
  function Acquire(parked: Option<ArenaState>, blocks: nat, obliges: bool): (Option<ArenaState>, Result<ArenaState>) {
    if blocks == 0 || (ParkedCapacity(parked) < blocks && !LayoutOk(blocks)) then (parked, Err(MemoryAllocationError))
    else if parked.Some? && ParkedCapacity(parked) >= blocks then (None, Ok(Retarget(parked.value, blocks)))
    else if !obliges then (None, Err(MemoryAllocationError))
    else (None, Ok(NewArena(blocks)))
  }

  /** `release`: the larger of the two stays. */
  function Release(wipe: bool, parked: Option<ArenaState>, a: ArenaState): Option<ArenaState> {
    if parked.Some? && Capacity(parked.value) >= Capacity(a) then parked else Some(WipeVisible(wipe, a))
  }

  lemma ReserveKeeps(wipe: bool, parked: Option<ArenaState>, blocks: nat, obliges: bool)
    requires ParkedOk(wipe, parked)
    ensures ParkedOk(wipe, Reserve(parked, blocks, obliges).0)
    ensures Reserve(parked, blocks, obliges).1.Ok? ==> ParkedCapacity(Reserve(parked, blocks, obliges).0) >= blocks
    ensures ParkedCapacity(Reserve(parked, blocks, obliges).0)
         <= if ParkedCapacity(parked) >= blocks then ParkedCapacity(parked) else blocks
  {
    if LayoutOk(blocks) {
      NewIsSound(wipe, blocks);
    }
  }

  /** With the feature on whoever borrows finds zeros, at any size, whatever was done before. */
  lemma AcquireGivesZero(wipe: bool, parked: Option<ArenaState>, blocks: nat, obliges: bool)
    requires ParkedOk(wipe, parked)
    ensures ParkedOk(wipe, Acquire(parked, blocks, obliges).0)
    ensures var r := Acquire(parked, blocks, obliges).1;
            r.Ok? ==> Sound(wipe, r.value) && r.value.len == blocks && (wipe ==> AllZero(r.value.mem))
  {
    if parked.Some? && ParkedCapacity(parked) >= blocks > 0 {
      RetargetKeeps(wipe, parked.value, blocks);
    } else if LayoutOk(blocks) {
      NewIsSound(wipe, blocks);
    }
  }

  lemma ReleaseKeeps(wipe: bool, parked: Option<ArenaState>, a: ArenaState)
    requires ParkedOk(wipe, parked) && Sound(wipe, a)
    ensures ParkedOk(wipe, Release(wipe, parked, a))
    ensures ParkedCapacity(Release(wipe, parked, a))
         == if ParkedCapacity(parked) >= Capacity(a) then ParkedCapacity(parked) else Capacity(a)
  {
    WipeMakesZero(wipe, a);
  }

  // ---------------------------------------------------------------------------
  // Every history
  // ---------------------------------------------------------------------------

  /** The workspace, and the arenas out on loan. */
  datatype World = World(parked: Option<ArenaState>, loans: seq<ArenaState>)

  datatype Op =
    | DoReserve(blocks: nat, obliges: bool)
    | DoAcquire(blocks: nat, obliges: bool)
    | DoWrite(loan: nat, after: ArenaState)
    | DoEnsure(loan: nat)
    | DoRelease(loan: nat)
    | DoDrop(loan: nat)
    | DoClear

  predicate Possible(w: World, op: Op) {
    match op
    case DoWrite(k, after) => k < |w.loans| && Borrowed(w.loans[k], after)
    case DoEnsure(k) => k < |w.loans|
    case DoRelease(k) => k < |w.loans|
    case DoDrop(k) => k < |w.loans|
    case _ => true
  }

  function Without(loans: seq<ArenaState>, k: nat): seq<ArenaState>
    requires k < |loans|
  {
    loans[..k] + loans[k + 1..]
  }

  function Do(wipe: bool, w: World, op: Op): World
    requires Possible(w, op)
  {
    match op
    case DoReserve(n, obliges) => w.(parked := Reserve(w.parked, n, obliges).0)
    case DoAcquire(n, obliges) =>
      var r := Acquire(w.parked, n, obliges);
      World(r.0, if r.1.Ok? then w.loans + [r.1.value] else w.loans)
    case DoWrite(k, after) => w.(loans := w.loans[k := after])
    case DoEnsure(k) => w.(loans := w.loans[k := EnsureZeroed(w.loans[k])])
    case DoRelease(k) => World(Release(wipe, w.parked, w.loans[k]), Without(w.loans, k))
    case DoDrop(k) => w.(loans := Without(w.loans, k))
    case DoClear => w.(parked := None)
  }

  predicate WorldOk(wipe: bool, w: World) {
    ParkedOk(wipe, w.parked) && forall k :: 0 <= k < |w.loans| ==> Sound(wipe, w.loans[k])
  }

  lemma DoKeeps(wipe: bool, w: World, op: Op)
    requires WorldOk(wipe, w) && Possible(w, op)
    ensures WorldOk(wipe, Do(wipe, w, op))
  {
    hide Sound, ParkedOk, Borrowed, AllZero, Reserve, Acquire, Release, EnsureZeroed;
    match op
    case DoReserve(n, obliges) => ReserveKeeps(wipe, w.parked, n, obliges);
    case DoAcquire(n, obliges) => AcquireGivesZero(wipe, w.parked, n, obliges);
    case DoWrite(k, after) => WriteKeeps(wipe, w.loans[k], after);
    case DoEnsure(k) => EnsureMakesZero(wipe, w.loans[k]);
    case DoRelease(k) => ReleaseKeeps(wipe, w.parked, w.loans[k]);
    case DoDrop(k) =>
    case DoClear => assert ParkedOk(wipe, None) by { NothingParked(wipe); }
  }

  lemma NothingParked(wipe: bool)
    ensures ParkedOk(wipe, None)
  {
  }

  ghost predicate IsHistory(wipe: bool, worlds: seq<World>, ops: seq<Op>) {
    && |worlds| == |ops| + 1
    && worlds[0] == World(None, [])
    && forall k :: 0 <= k < |ops| ==> Possible(worlds[k], ops[k]) && worlds[k + 1] == Do(wipe, worlds[k], ops[k])
  }

  /** The invariants hold over every history of reserving, lending, writing, releasing and clearing. */
  lemma {:induction false} EveryHistoryKeeps(wipe: bool, worlds: seq<World>, ops: seq<Op>, k: nat)
    requires IsHistory(wipe, worlds, ops) && k < |worlds|
    ensures WorldOk(wipe, worlds[k])
  {
    hide Do, Possible, Sound, ParkedOk;
    if k == 0 {
      NothingParked(wipe);
    } else {
      EveryHistoryKeeps(wipe, worlds, ops, k - 1);
      DoKeeps(wipe, worlds[k - 1], ops[k - 1]);
    }
  }

  /** In every history the flag never lies, on loan or parked. */
  lemma FlagNeverLies(wipe: bool, worlds: seq<World>, ops: seq<Op>, k: nat)
    requires IsHistory(wipe, worlds, ops) && k < |worlds|
    ensures forall j :: 0 <= j < |worlds[k].loans| && worlds[k].loans[j].zeroed ==> AllZero(worlds[k].loans[j].mem)
    ensures worlds[k].parked.Some? && worlds[k].parked.value.zeroed ==> AllZero(worlds[k].parked.value.mem)
  {
    hide IsHistory;
    EveryHistoryKeeps(wipe, worlds, ops, k);
  }

  /** In every history, with the feature on, each new borrower finds nothing but zeros. */
  lemma NoBorrowerSeesAnother(worlds: seq<World>, ops: seq<Op>, k: nat)
    requires IsHistory(true, worlds, ops) && k < |ops| && ops[k].DoAcquire?
    ensures |worlds[k + 1].loans| > |worlds[k].loans| ==> AllZero(worlds[k + 1].loans[|worlds[k].loans|].mem)
  {
    hide Sound, ParkedOk, AllZero;
    EveryHistoryKeeps(true, worlds, ops, k);
    AcquireGivesZero(true, worlds[k].parked, ops[k].blocks, ops[k].obliges);
  }

  /**
   Without the feature an arena that is kept comes back as it was left: whoever borrows it next, at any
   size it holds, sees every byte.
   */
  lemma WithoutWipeBytesSurvive(parked: Option<ArenaState>, a: ArenaState, blocks: nat, obliges: bool)
    requires ParkedCapacity(parked) < Capacity(a) && 1 <= blocks <= Capacity(a)
    ensures var r := Acquire(Release(false, parked, a), blocks, obliges).1;
            r == Ok(Retarget(a, blocks)) && r.value.mem == a.mem
  {
  }

  /** With it, nothing survives. */
  lemma WithWipeBytesDoNot(parked: Option<ArenaState>, a: ArenaState, blocks: nat, obliges: bool)
    requires ParkedOk(true, parked) && Sound(true, a)
    ensures var r := Acquire(Release(true, parked, a), blocks, obliges).1;
            r.Ok? ==> AllZero(r.value.mem)
  {
    hide Sound, AllZero, ParkedOk, Acquire, Release;
    ReleaseKeeps(true, parked, a);
    AcquireGivesZero(true, Release(true, parked, a), blocks, obliges);
  }
}

/** The arena and the workspace as the source has them: objects whose methods update their fields. */
module Workspaces {
  import opened Machine
  import opened Stripes
  import opened Memory

  /** `Arena`: `mem` is the whole allocation, `blocks` the visible length. */
  class Arena {
    const mem: array<u8>
    var blocks: nat
    var zeroed: bool
    var workers: nat
    const wipe: bool

    ghost function State(): ArenaState
      reads this, mem
    {
      ArenaState(mem[..], blocks, zeroed)
    }

    ghost predicate Valid()
      reads this, mem
    {
      Sound(wipe, State())
    }

    /** `new`, once the allocator has obliged with zeroed memory. */
    constructor (blocks: nat, wipe: bool)
      requires LayoutOk(blocks)
      ensures Valid() && State() == NewArena(blocks) && this.wipe == wipe && fresh(mem)
    {
      mem := new u8[Bytes(blocks)](_ => 0);
      this.blocks, zeroed, workers, this.wipe := blocks, true, 1, wipe;
      new;
      NewIsSound(wipe, blocks);
      assert mem[..] == NewArena(blocks).mem;
    }

    /** `set_workers`. */
    method SetWorkers(n: nat)
      modifies this`workers
      ensures workers == if n < 1 then 1 else n
    {
      workers := if n < 1 then 1 else n;
    }

    /** What any use of a mutable view comes to: the flag is cleared, then bytes of the window change. */
    method Scribble(at: nat, bytes: seq<u8>)
      requires Valid() && at + |bytes| <= Bytes(blocks)
      modifies this`zeroed, mem
      ensures Valid() && Borrowed(old(State()), State())
      ensures mem[at..at + |bytes|] == bytes
    {
      zeroed := false;
      for i := 0 to |bytes|
        invariant !zeroed
        invariant forall j :: 0 <= j < mem.Length ==> mem[j] == if at <= j < at + i then bytes[j - at] else old(mem[j])
      {
        mem[at + i] := bytes[i];
      }
      WriteKeeps(wipe, old(State()), State());
    }

    /** `ensure_zeroed`. */
    method EnsureAllZero()
      requires Valid()
      modifies this`zeroed, mem
      ensures Valid() && State() == EnsureZeroed(old(State())) && AllZero(mem[..])
    {
      EnsureMakesZero(wipe, State());
      if zeroed {
        return;
      }
      ZeroStripe(mem, 0, mem.Length);
      zeroed := true;
      assert mem[..] == ZeroRange(old(mem[..]), 0, mem.Length);
    }

    /** `wipe_visible`: striped over the workers only above the threshold. */
    method Wipe()
      requires Valid()
      modifies this`zeroed, mem
      ensures Valid() && State() == WipeVisible(wipe, old(State()))
    {
      WipeMakesZero(wipe, State());
      if wipe {
        var bytes := Bytes(blocks);
        StripeOver(mem, bytes, if bytes >= WIPE_THREAD_THRESHOLD then workers else 1, ARENA_ALIGN);
        zeroed := true;
      }
    }

    /** `retarget`. */
    method Retarget(n: nat) returns (fits: bool)
      requires Valid() && n > 0 && (wipe ==> AllZero(mem[..]))
      modifies this`blocks
      ensures Valid() && fits == (n <= mem.Length / 1024)
      ensures State() == if fits then Memory.Retarget(old(State()), n) else old(State())
    {
      if n > mem.Length / 1024 {
        return false;
      }
      RetargetKeeps(wipe, State(), n);
      blocks := n;
      fits := true;
    }

    /** `drop`, up to the deallocation; while a panic unwinds it wipes alone. */
    method Drop(panicking: bool)
      requires Valid()
      modifies this`zeroed, this`workers, mem
      ensures Valid() && State() == Dropped(wipe, old(State()))
      ensures wipe ==> AllZero(mem[..])
    {
      if wipe {
        DropLeavesZero(State());
      }
      if !zeroed {
        if panicking {
          workers := 1;
        }
        Wipe();
      }
    }
  }

  /** `Workspace`: at most one parked arena. */
  class Workspace {
    var arena: Arena?
    const wipe: bool

    ghost function Repr(): set<object>
      reads this
    {
      if arena == null then {this} else {this, arena, arena.mem}
    }

    ghost function Parked(): Option<ArenaState>
      reads this, Repr()
    {
      if arena == null then None else Some(arena.State())
    }

    ghost predicate Valid()
      reads this, Repr()
    {
      && (arena != null ==> arena.wipe == wipe)
      && ParkedOk(wipe, Parked())
    }

    /** `capacity`. */
    function Capacity(): nat
      reads this, if arena == null then {} else {arena}
    {
      if arena == null then 0 else arena.mem.Length / 1024
    }

    constructor (wipe: bool)
      ensures Valid() && Parked() == None && arena == null && this.wipe == wipe
    {
      arena, this.wipe := null, wipe;
    }

    /** Dropping whatever is parked. */
    method DropParked()
      requires Valid()
      modifies Repr()
      ensures Valid() && arena == null
      ensures old(arena) != null && wipe ==> AllZero(old(arena.mem)[..])
    {
      var parked := arena;
      arena := null;
      if parked != null {
        parked.Drop(false);
      }
    }

    /** `reserve`: a size that can never be allocated is refused before anything is freed. */
    method ReserveBlocks(blocks: nat, obliges: bool) returns (r: Result<()>)
      requires Valid()
      modifies Repr()
      ensures Valid() && fresh(Repr() - old(Repr()))
      ensures (Parked(), r) == Reserve(old(Parked()), blocks, obliges)
    {
      if blocks == 0 || Capacity() >= blocks {
        return Ok(());
      }
      if !LayoutOk(blocks) {
        return Err(MemoryAllocationError);
      }
      DropParked();
      if !obliges {
        return Err(MemoryAllocationError);
      }
      NewIsSound(wipe, blocks);
      arena := new Arena(blocks, wipe);
      r := Ok(());
    }

    /** `acquire_owned`: no allocation when what is parked is big enough. */
    method AcquireOwned(blocks: nat, obliges: bool) returns (r: Result<Arena>)
      requires Valid()
      modifies Repr()
      ensures Valid() && arena == (if r.Ok? || (blocks > 0 && LayoutOk(blocks)) then null else old(arena))
      ensures Parked() == Acquire(old(Parked()), blocks, obliges).0
      ensures match Acquire(old(Parked()), blocks, obliges).1
              case Err(e) => r == Err(e)
              case Ok(a) => r.Ok? && r.value.Valid() && r.value.wipe == wipe && r.value.State() == a
      ensures r.Ok? ==> r.value.blocks == blocks && (wipe ==> AllZero(r.value.mem[..]))
      ensures r.Ok? ==>
                || (fresh(r.value) && fresh(r.value.mem))
                || (r.value == old(arena) && {r.value.mem} <= old(Repr()))
    {
      AcquireGivesZero(wipe, Parked(), blocks, obliges);
      if blocks == 0 {
        return Err(MemoryAllocationError);
      }
      if Capacity() < blocks {
        if !LayoutOk(blocks) {
          return Err(MemoryAllocationError);
        }
      }
      if arena != null && Capacity() >= blocks {
        var lent := arena;
        arena := null;
        var fits := lent.Retarget(blocks);
        return Ok(lent);
      }
      DropParked();
      if !obliges {
        return Err(MemoryAllocationError);
      }
      var made := new Arena(blocks, wipe);
      r := Ok(made);
    }

    /** `release`: wipe, then keep the larger of the two. */
    method ReleaseArena(a: Arena)
      requires Valid() && a.Valid() && a.wipe == wipe && a != arena && (arena != null ==> a.mem != arena.mem)
      modifies Repr(), a, a.mem
      ensures Valid() && Parked() == Release(wipe, old(Parked()), old(a.State()))
      ensures arena == old(arena) || arena == a
      ensures wipe ==> AllZero(a.mem[..])
    {
      ReleaseKeeps(wipe, Parked(), a.State());
      WipeMakesZero(wipe, a.State());
      a.Wipe();
      var keepParked := arena != null && arena.mem.Length / 1024 >= a.mem.Length / 1024;
      if !keepParked {
        DropParked();
        arena := a;
      } else {
        a.Drop(false);
      }
    }

    /** `clear`. */
    method Clear()
      requires Valid()
      modifies Repr()
      ensures Valid() && Parked() == None && arena == null
    {
      DropParked();
    }
  }
}

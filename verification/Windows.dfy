/** The visible window of an arena, as blocks. */
module Windows {
  import opened Machine
  import opened Fill
  import opened LittleEndian
  import opened Stripes
  import opened Memory
  import opened Workspaces

  /** Bytes as blocks of 1024, each 128 little-endian words. */
  function BlocksOf(bytes: seq<u8>, n: nat): (blocks: seq<Block>)
    requires |bytes| == Bytes(n)
    ensures |blocks| == n
  {
    seq(n, i requires 0 <= i < n => BytesToWords(bytes[1024 * i..1024 * i + 1024]))
  }

  /** Blocks as bytes. */
  function BytesOf(blocks: seq<Block>): (bytes: seq<u8>)
    ensures |bytes| == Bytes(|blocks|)
  {
    if |blocks| == 0 then [] else BytesOf(blocks[..|blocks| - 1]) + WordsToBytes(blocks[|blocks| - 1])
  }

  lemma {:induction false} BytesOfAt(blocks: seq<Block>, i: nat)
    requires i < |blocks|
    ensures BytesOf(blocks)[1024 * i..1024 * i + 1024] == WordsToBytes(blocks[i])
  {
    hide WordsToBytes;
    var n := |blocks| - 1;
    var before := BytesOf(blocks[..n]);
    if i < n {
      BytesOfAt(blocks[..n], i);
      assert BytesOf(blocks)[1024 * i..1024 * i + 1024] == before[1024 * i..1024 * i + 1024];
    }
  }

  /** Blocks stored as bytes load as the same blocks. */
  lemma BlocksOfBytes(blocks: seq<Block>)
    ensures BlocksOf(BytesOf(blocks), |blocks|) == blocks
  {
    hide WordsToBytes, BytesToWords, BytesOf;
    forall i | 0 <= i < |blocks|
      ensures BlocksOf(BytesOf(blocks), |blocks|)[i] == blocks[i]
    {
      BytesOfAt(blocks, i);
      LoadStore(blocks[i]);
    }
  }

  /** The blocks a borrower sees. */
  ghost function Window(a: Arena): (blocks: seq<Block>)
    reads a, a.mem
    requires Bytes(a.blocks) <= a.mem.Length
    ensures |blocks| == a.blocks
  {
    BlocksOf(a.mem[..Bytes(a.blocks)], a.blocks)
  }

  lemma WindowFits(wipe: bool, a: ArenaState)
    requires Sound(wipe, a)
    ensures Bytes(a.len) <= |a.mem|
  {
  }

  /** `as_mut_slice`, read: the window as it is. */
  method LoadWindow(a: Arena) returns (blocks: array<Block>)
    requires a.Valid()
    ensures fresh(blocks) && Bytes(a.blocks) <= a.mem.Length && blocks[..] == Window(a)
  {
    hide BytesToWords, Sound;
    WindowFits(a.wipe, a.State());
    var view := BlocksOf(a.mem[..Bytes(a.blocks)], a.blocks);
    blocks := new Block[a.blocks](i requires 0 <= i < |view| => view[i]);
  }

  /** `as_mut_slice`, written: the flag is cleared and the window holds these blocks. */
  method StoreWindow(a: Arena, blocks: seq<Block>)
    requires a.Valid() && |blocks| == a.blocks
    modifies a`zeroed, a.mem
    ensures a.Valid() && Borrowed(old(a.State()), a.State())
    ensures Bytes(a.blocks) <= a.mem.Length && Window(a) == blocks
  {
    hide BytesToWords, Sound, BytesOf;
    WindowFits(a.wipe, a.State());
    a.Scribble(0, BytesOf(blocks));
    assert a.mem[..Bytes(a.blocks)] == BytesOf(blocks);
    BlocksOfBytes(blocks);
  }
}

/**
 What the definitions come to, clause by clause and byte by byte: sections 3.2 to 3.4 of RFC 9106, with
 the constants written out.
 */
module Standards {
  import opened Machine
  import opened Params
  import opened Indexing
  import opened Fill
  import opened SliceView
  import opened LittleEndian
  import opened Blake2Stream
  import opened Blake2Long
  import opened Tag

  // ---------------------------------------------------------------------------
  // One block of the fill
  // ---------------------------------------------------------------------------

  /** The offset of the block at a position, and of the one before it, round the lane. */
  function Curr(inst: Instance, pos: Position): int {
    pos.lane * inst.layout.laneLength + pos.slice * inst.layout.segmentLength + pos.index
  }

  function Prev(inst: Instance, pos: Position): int {
    if pos.slice == 0 && pos.index == 0 then Curr(inst, pos) + inst.layout.laneLength - 1 else Curr(inst, pos) - 1
  }

  /** The lane a pseudo-random word picks: its high half, but the own lane before anything else is there. */
  function PickedLane(inst: Instance, pos: Position, rand: u64): u32
    requires inst.lanes > 0
  {
    if pos.pass == 0 && pos.slice == 0 then pos.lane else rand / 0x1_0000_0000 % inst.lanes
  }

  /** The block it picks there, by its low half. */
  function Picked(inst: Instance, pos: Position, rand: u64): int
    requires inst.lanes > 0
  {
    var lane := PickedLane(inst, pos, rand);
    lane * inst.layout.laneLength + IndexAlpha(inst.layout, pos, rand % 0x1_0000_0000, lane == pos.lane)
  }

  lemma OffsetsAre(inst: Instance, pos: Position, rand: u64)
    requires WellFormed(inst) && InRange(inst, pos)
    ensures CurrOffset(inst, pos) == Curr(inst, pos) && PrevOffset(inst, pos) == Prev(inst, pos)
    ensures RefLane(inst, pos, rand) == PickedLane(inst, pos, rand)
    ensures RefOffset(inst, pos, rand) == Picked(inst, pos, rand)
  {
    SliceBaseIsProduct(inst.layout, pos.slice);
    hide IndexAlpha, WellFormed;
    TimesIsProduct(pos.lane, inst.layout.laneLength);
    TimesIsProduct(RefLane(inst, pos, rand), inst.layout.laneLength);
  }

  /** The block a write puts in place of `old_`: over it, or in version 0x13 after the first pass added to it. */
  predicate Replaces(version: Version, pass: u32, fresh_: Block, old_: Block, written: Block) {
    if version == V0x13 && pass >= 1 then
      forall w :: 0 <= w < 128 ==> written[w] == ((fresh_[w] as bv64) ^ (old_[w] as bv64)) as u64
    else written == fresh_
  }

  /**
   Writing a block changes that block alone. It becomes the compression of the block before it, round the
   lane, and of the one that the pseudo-random word picks: over the old block in version 0x10 and in the
   first pass, exclusive-or the old block in version 0x13 after it.
   */
  lemma BlockWritten(inst: Instance, m: seq<Block>, pos: Position)
    requires WellFormed(inst) && InRange(inst, pos) && Sized(inst, m)
    ensures var curr, prev := Curr(inst, pos), Prev(inst, pos);
            var reference := Picked(inst, pos, PseudoRand(inst, m, pos));
            && 0 <= curr < |m| && 0 <= prev < |m| && 0 <= reference < |m|
            && WriteBlock(inst, m, pos) == m[curr := WriteBlock(inst, m, pos)[curr]]
            && Replaces(inst.version, pos.pass, inst.compress(m[prev], m[reference]), m[curr],
                        WriteBlock(inst, m, pos)[curr])
  {
    var rand := PseudoRand(inst, m, pos);
    assert inst.lanes > 0;
    hide IndexAlpha, WellFormed, CurrOffset, PrevOffset, RefOffset, RefLane, PseudoRand, InRange, Curr, Prev, Picked,
         Replaces;
    AccessFacts(inst, pos, rand);
    OffsetsAre(inst, pos, rand);
    BlockReplaced(inst, pos.pass, m[PrevOffset(inst, pos)], m[RefOffset(inst, pos, rand)], m[CurrOffset(inst, pos)]);
  }

  lemma BlockReplaced(inst: Instance, pass: u32, prev: Block, reference: Block, old_: Block)
    ensures Replaces(inst.version, pass, inst.compress(prev, reference), old_,
                     FillBlock(inst, prev, reference, old_, WithXor(inst, pass)))
  {
  }

  /** The seed of an address block: where the fill is, what it runs over, and a counter. */
  predicate IsSeed(inst: Instance, pos: Position, counter: u64, input: Block) {
    && input[0] == pos.pass && input[1] == pos.lane && input[2] == pos.slice
    && input[3] == inst.layout.blocks && input[4] == inst.passes
    && input[5] == (match inst.algorithm case Argon2d => 0 case Argon2i => 1 case Argon2id => 2)
    && input[6] == counter
    && forall w :: 7 <= w < 128 ==> input[w] == 0
  }

  lemma SeedIs(inst: Instance, pos: Position, counter: u64)
    ensures IsSeed(inst, pos, counter, AddressInput(inst, pos, counter))
  {
  }

  lemma AddressWordIs(inst: Instance, m: seq<Block>, pos: Position)
    requires WellFormed(inst) && InRange(inst, pos) && Sized(inst, m)
    requires inst.algorithm == Argon2i || (inst.algorithm == Argon2id && pos.pass == 0 && pos.slice < 2)
    ensures PseudoRand(inst, m, pos) == AddressBlock(inst, pos, pos.index / 128 + 1)[pos.index % 128]
  {
    hide WellFormed, InRange, PrevOffset, AddressBlock;
  }

  lemma FirstWordIs(inst: Instance, m: seq<Block>, pos: Position)
    requires WellFormed(inst) && InRange(inst, pos) && Sized(inst, m)
    requires !(inst.algorithm == Argon2i || (inst.algorithm == Argon2id && pos.pass == 0 && pos.slice < 2))
    ensures PrevOffset(inst, pos) < |m| && PseudoRand(inst, m, pos) == m[PrevOffset(inst, pos)][0]
  {
    hide WellFormed, InRange, PrevOffset, CurrOffset, RefOffset, IndexAlpha, AddressBlock;
    AccessFacts(inst, pos, 0);
  }

  lemma AddressBlockIs(inst: Instance, pos: Position, counter: u64) returns (input: Block, zero: Block)
    ensures IsSeed(inst, pos, counter, input) && forall w :: 0 <= w < 128 ==> zero[w] == 0
    ensures AddressBlock(inst, pos, counter) == inst.compress(zero, inst.compress(zero, input))
  {
    hide IsSeed, AddressInput;
    zero, input := ZERO_BLOCK, AddressInput(inst, pos, counter);
    SeedIs(inst, pos, counter);
  }

  /**
   The pseudo-random word, section 3.4.1: for Argon2i, and for Argon2id in the first half of the first
   pass, a word of an address block, which is its seed compressed twice with zeros, one counter for every
   128 blocks; else the first word of the block before.
   */
  lemma RandomWord(inst: Instance, m: seq<Block>, pos: Position) returns (input: Block, zero: Block)
    requires WellFormed(inst) && InRange(inst, pos) && Sized(inst, m)
    ensures IsSeed(inst, pos, pos.index / 128 + 1, input) && forall w :: 0 <= w < 128 ==> zero[w] == 0
    ensures if inst.algorithm == Argon2i || (inst.algorithm == Argon2id && pos.pass == 0 && pos.slice < 2)
            then PseudoRand(inst, m, pos) == inst.compress(zero, inst.compress(zero, input))[pos.index % 128]
            else PrevOffset(inst, pos) < |m| && PseudoRand(inst, m, pos) == m[PrevOffset(inst, pos)][0]
  {
    hide WellFormed, InRange, PrevOffset, IsSeed, AddressBlock, PseudoRand;
    input, zero := AddressBlockIs(inst, pos, pos.index / 128 + 1);
    if inst.algorithm == Argon2i || (inst.algorithm == Argon2id && pos.pass == 0 && pos.slice < 2) {
      AddressWordIs(inst, m, pos);
    } else {
      FirstWordIs(inst, m, pos);
    }
  }

  /** What a job fills: its own costs, and the largest arena of whole segments within its memory. */
  lemma InstanceIs(j: Job)
    requires Valid(j.costs)
    ensures var inst, p := InstanceOf(j), j.costs;
            && inst.algorithm == j.algorithm && inst.version == j.version && inst.compress == j.compress
            && inst.passes == p.passes && inst.lanes == p.lanes
            && inst.threads == (if p.threads < p.lanes then p.threads else p.lanes)
            && inst.layout.segmentLength == p.memory / (4 * p.lanes)
            && inst.layout.laneLength == 4 * inst.layout.segmentLength
            && inst.layout.blocks == p.lanes * inst.layout.laneLength
  {
    hide MemoryLayout, Valid;
    LayoutIs(j.costs);
  }

  // ---------------------------------------------------------------------------
  // The pre-hash
  // ---------------------------------------------------------------------------

  lemma Le32Value(x: u32)
    ensures LeValue(Le32(x)) == x
  {
    hide LeValue, LeBytes;
    WordBound();
    ValueOfBytes(x, 4);
  }

  /** The six numbers at the front: lanes, tag length, memory, passes, version and type. */
  lemma CostsAreLaidOut(algorithm: Algorithm, version: Version, p: Costs)
    ensures var b := CostBytes(algorithm, version, p);
            && |b| == 24
            && LeValue(b[0..4]) == p.lanes && LeValue(b[4..8]) == p.tagLen && LeValue(b[8..12]) == p.memory
            && LeValue(b[12..16]) == p.passes
            && LeValue(b[16..20]) == (match version case V0x10 => 16 case V0x13 => 19)
            && LeValue(b[20..24]) == (match algorithm case Argon2d => 0 case Argon2i => 1 case Argon2id => 2)
  {
    hide Le32, LeValue;
    Le32Value(p.lanes);
    Le32Value(p.tagLen);
    Le32Value(p.memory);
    Le32Value(p.passes);
    Le32Value(VersionCode(version));
    Le32Value(AlgorithmCode(algorithm));
    var b := CostBytes(algorithm, version, p);
    assert b[0..4] == Le32(p.lanes) && b[4..8] == Le32(p.tagLen) && b[8..12] == Le32(p.memory);
    assert b[12..16] == Le32(p.passes) && b[16..20] == Le32(VersionCode(version));
    assert b[20..24] == Le32(AlgorithmCode(algorithm));
  }

  /** At `at` there is the length of `b`, cut to 32 bits, and then `b`. */
  predicate Has(input: seq<u8>, at: nat, b: seq<u8>) {
    && at + 4 + |b| <= |input|
    && LeValue(input[at..at + 4]) == |b| % 0x1_0000_0000
    && input[at + 4..at + 4 + |b|] == b
  }

  lemma PrefixedHas(before: seq<u8>, b: seq<u8>, after: seq<u8>)
    ensures Has(before + Prefixed(b) + after, |before|, b)
  {
    hide Le32, LeValue;
    Le32Value(|b| % 0x1_0000_0000);
    var input, at := before + Prefixed(b) + after, |before|;
    assert input[at..at + 4] == LengthBytes(|b|);
    assert input[at + 4..at + 4 + |b|] == b;
  }

  /** Section 3.2, step 1: every byte of the input of the pre-hash. */
  lemma PreHashIsLaidOut(algorithm: Algorithm, version: Version, p: Costs,
                         pwd: seq<u8>, salt: seq<u8>, secret: seq<u8>, ad: seq<u8>)
    ensures var input := PreHashInput(algorithm, version, p, pwd, salt, secret, ad);
            && |input| == 40 + |pwd| + |salt| + |secret| + |ad|
            && LeValue(input[0..4]) == p.lanes && LeValue(input[4..8]) == p.tagLen
            && LeValue(input[8..12]) == p.memory && LeValue(input[12..16]) == p.passes
            && LeValue(input[16..20]) == (match version case V0x10 => 16 case V0x13 => 19)
            && LeValue(input[20..24]) == (match algorithm case Argon2d => 0 case Argon2i => 1 case Argon2id => 2)
            && Has(input, 24, pwd)
            && Has(input, 28 + |pwd|, salt)
            && Has(input, 32 + |pwd| + |salt|, secret)
            && Has(input, 36 + |pwd| + |salt| + |secret|, ad)
  {
    hide Has, CostBytes, Prefixed, LeValue;
    var c := CostBytes(algorithm, version, p);
    var w, x, y, z := Prefixed(pwd), Prefixed(salt), Prefixed(secret), Prefixed(ad);
    var input := PreHashInput(algorithm, version, p, pwd, salt, secret, ad);
    CostsAreLaidOut(algorithm, version, p);
    PrefixedLengths(pwd, salt, secret, ad);
    assert input == c + w + x + y + z;
    assert input == c + w + (x + y + z);
    assert input == (c + w) + x + (y + z);
    assert input == (c + w + x) + y + z;
    assert input == (c + w + x + y) + z + [];
    PrefixedHas(c, pwd, x + y + z);
    PrefixedHas(c + w, salt, y + z);
    PrefixedHas(c + w + x, secret, z);
    PrefixedHas(c + w + x + y, ad, []);
    CostsInFront(c, w + x + y + z, input);
  }

  lemma PrefixedLengths(pwd: seq<u8>, salt: seq<u8>, secret: seq<u8>, ad: seq<u8>)
    ensures |Prefixed(pwd)| == 4 + |pwd| && |Prefixed(salt)| == 4 + |salt|
    ensures |Prefixed(secret)| == 4 + |secret| && |Prefixed(ad)| == 4 + |ad|
  {
  }

  lemma CostsInFront(c: seq<u8>, rest: seq<u8>, input: seq<u8>)
    requires |c| == 24 && input == c + rest
    ensures input[0..4] == c[0..4] && input[4..8] == c[4..8] && input[8..12] == c[8..12]
    ensures input[12..16] == c[12..16] && input[16..20] == c[16..20] && input[20..24] == c[20..24]
  {
  }

  // ---------------------------------------------------------------------------
  // First blocks and long hashes
  // ---------------------------------------------------------------------------

  /** Section 3.2, steps 3 and 4: what the first two blocks of a lane are hashed from. */
  lemma FirstBlockIs(h0: seq<u8>, lane: u32, k: u32) returns (seed: seq<u8>)
    requires |h0| == 64
    ensures |seed| == 72 && seed[..64] == h0 && LeValue(seed[64..68]) == k && LeValue(seed[68..72]) == lane
    ensures FirstBlock(h0, lane, k) == LoadBlock(HPrime(1024, seed))
  {
    hide HPrime, LeValue, Le32, LoadBlock;
    Le32Value(k);
    Le32Value(lane);
    seed := h0 + Le32(k) + Le32(lane);
    assert seed[64..68] == Le32(k) && seed[68..72] == Le32(lane);
  }

  lemma LoadBlockAt(b: seq<u8>, w: nat)
    requires |b| == 1024 && w < 128
    ensures LoadBlock(b)[w] == LeWord(b[8 * w..8 * w + 8])
  {
    hide LeWord;
  }

  /**
   Section 3.3 for more than 64 bytes: the first halves of a chain of 64-byte hashes, then one hash of what
   is left, which is more than a half and no more than a whole.
   */
  predicate IsChained(h: seq<u8>, t: nat, seed: seq<u8>, v: seq<seq<u8>>) {
    var r := |v|;
    && r >= 1 && |h| == t && 33 <= t - 32 * r <= 64
    && v[0] == Digest(64, [], seed)
    && (forall i :: 1 <= i < r ==> v[i] == Digest(64, [], v[i - 1]))
    && (forall i :: 0 <= i < r ==> |v[i]| == 64 && h[32 * i..32 * i + 32] == v[i][..32])
    && h[32 * r..] == Digest(t - 32 * r, [], v[r - 1])
  }

  /** Section 3.3: short outputs are one hash of their length and the input, long ones a chain. */
  lemma LongHashIs(t: nat, a: seq<u8>) returns (prefix: seq<u8>, v: seq<seq<u8>>)
    requires 1 <= t <= 0xFFFF_FFFF
    ensures |prefix| == 4 && LeValue(prefix) == t
    ensures t <= 64 ==> HPrime(t, a) == Digest(t, [], prefix + a)
    ensures t > 64 ==> IsChained(HPrime(t, a), t, prefix + a, v)
  {
    hide Digest, Chain, Halves, Le32, LeValue, IsChained;
    prefix := Le32(t);
    Le32Value(t);
    v := [];
    if t > 64 {
      LastPiece(t);
      v := ChainIs(t, prefix + a, HalfCount(t));
    }
  }

  lemma ChainIs(t: nat, seed: seq<u8>, r: nat) returns (v: seq<seq<u8>>)
    requires r >= 1 && 33 <= t - 32 * r <= 64
    ensures IsChained(Halves(seed, r) + Digest(t - 32 * r, [], Chain(seed, r)), t, seed, v)
  {
    hide Digest, Chain, Halves;
    v := seq(r, i requires 0 <= i < r => Chain(seed, i + 1));
    FirstHalf(seed);
    forall i | 1 <= i < r
      ensures v[i] == Digest(64, [], v[i - 1])
    {
      AnotherHalf(seed, i);
    }
    var rest := Digest(t - 32 * r, [], Chain(seed, r));
    forall i | 0 <= i < r
      ensures (Halves(seed, r) + rest)[32 * i..32 * i + 32] == v[i][..32]
    {
      HalfAt(seed, r, i);
      assert (Halves(seed, r) + rest)[32 * i..32 * i + 32] == Halves(seed, r)[32 * i..32 * i + 32];
    }
  }

  lemma {:induction false} HalfAt(seed: seq<u8>, n: nat, i: nat)
    requires i < n
    ensures Halves(seed, n)[32 * i..32 * i + 32] == Chain(seed, i + 1)[..32]
  {
    hide Chain;
    var before := Halves(seed, n - 1);
    if i < n - 1 {
      HalfAt(seed, n - 1, i);
      assert Halves(seed, n)[32 * i..32 * i + 32] == before[32 * i..32 * i + 32];
    }
  }

  // ---------------------------------------------------------------------------
  // The tag
  // ---------------------------------------------------------------------------

  /** One word of the last column, exclusive-or over the lanes. */
  function LastColumn(m: seq<Block>, lanes: nat, n: nat, w: nat): u64
    requires w < 128 && n >= 1 && lanes >= 1 && (lanes - 1) * n + n - 1 < |m|
  {
    LaneBefore(lanes, n, |m|);
    if lanes == 1 then m[n - 1][w]
    else XorWord(LastColumn(m, lanes - 1, n, w), m[(lanes - 1) * n + n - 1][w])
  }

  lemma LaneBefore(lanes: nat, n: nat, size: nat)
    requires lanes >= 1 && n >= 1 && (lanes - 1) * n + n - 1 < size
    ensures 0 <= (lanes - 1) * n + n - 1 && n - 1 < size
    ensures lanes >= 2 ==> (lanes - 2) * n + n - 1 < size
  {
    assert (lanes - 1) * n == (lanes - 2) * n + n;
    MulMono(0, lanes - 1, n);
  }

  /** Section 3.2, step 7: the block that the tag is hashed from. */
  lemma {:induction false} LastBlocksAre(m: seq<Block>, lanes: u32, n: nat, w: nat)
    requires lanes >= 1 && n >= 1 && Times(lanes - 1, n) + n - 1 < |m| && w < 128
    ensures (lanes - 1) * n + n - 1 < |m|
    ensures LastBlocks(m, lanes, n)[w] == LastColumn(m, lanes, n, w)
  {
    hide XorWord;
    TimesIsProduct(lanes - 1, n);
    if lanes > 1 {
      TimesMonoWeak(lanes - 2, lanes - 1, n);
      LastBlocksAre(m, lanes - 1, n, w);
    }
  }

  /** The fill leaves the first two blocks of every lane as they were hashed until the second pass. */
  lemma FirstBlocksStay(inst: Instance, h0: seq<u8>, m: seq<Block>, t: nat, lane: u32, k: u32)
    requires WellFormed(inst) && Sized(inst, m) && t <= 4 && lane < inst.lanes && k < 2
    ensures At(inst, lane, k) < |m|
    ensures SequentialFill(inst, StartArena(inst, h0, m), t)[At(inst, lane, k)] == FirstBlock(h0, lane, k)
  {
    hide FirstBlock, FirstBlocks, SliceFill;
    AtFacts(inst, lane, k);
    var a := At(inst, lane, k);
    if t == 0 {
      LastLaneFits(inst);
      FirstBlocksAt(h0, m, inst.lanes, inst.layout.laneLength, lane, k);
    } else {
      FirstBlocksStay(inst, h0, m, t - 1, lane, k);
      var before := SequentialFill(inst, StartArena(inst, h0, m), t - 1);
      SliceLeaves(inst, before, t - 1, a, k);
    }
  }

  lemma SliceLeaves(inst: Instance, m: seq<Block>, t: nat, a: nat, k: nat)
    requires WellFormed(inst) && Sized(inst, m) && t < 4 && a < |m| && k < 2
    requires ColumnOf(inst.layout.laneLength, a) == k
    ensures SliceFill(inst, m, t, inst.lanes)[a] == m[a]
  {
    hide SegmentFill, SliceFill;
    ViewAtEnd(inst, m, t);
    CoordinatesFacts(inst, a);
    var lane, q := LaneOf(inst.layout.laneLength, a), inst.layout.segmentLength;
    assert View(inst, m, t, FullProgress(inst))[a] == SegmentFill(inst, m, t, lane, q)[a];
    SegmentFrame(inst, m, t, lane, q, a);
  }
}

/**
 * The Vulkan device-memory allocator: choice of a memory type, the
 * buffer-image granularity rules ("Buffer-Image Granularity", Vulkan 1.0
 * specification), a first-fit chunk list per device-memory block with
 * splitting and coalescing, and the per-frame garbage ring that defers frees.
 *
 * The doubly linked chunk list of a block is modelled as a sequence in list
 * order: the `prev` and `next` of a chunk are its neighbours in the sequence.
 */
module AllocatorVK {
  import opened Bits

  const VK_MAX_MEMORY_TYPES: nat := 32

  // VkMemoryPropertyFlagBits
  const DEVICE_LOCAL: bv32 := 1
  const HOST_VISIBLE: bv32 := 2
  const HOST_COHERENT: bv32 := 4
  const HOST_CACHED: bv32 := 8

  datatype MemoryUsage = GPU_ONLY | CPU_ONLY | CPU_TO_GPU | GPU_TO_CPU

  function RequiredFlags(usage: MemoryUsage): bv32
  {
    match usage
    case GPU_ONLY => 0
    case CPU_ONLY => HOST_VISIBLE | HOST_COHERENT
    case CPU_TO_GPU => HOST_VISIBLE
    case GPU_TO_CPU => HOST_VISIBLE
  }

  function PreferredFlags(usage: MemoryUsage): bv32
  {
    match usage
    case GPU_ONLY => DEVICE_LOCAL
    case CPU_ONLY => 0
    case CPU_TO_GPU => DEVICE_LOCAL
    case GPU_TO_CPU => HOST_COHERENT | HOST_CACHED
  }

  /** Bit `i` of a memoryTypeBits mask. */
  predicate TypeBitSet(bits: bv32, i: nat)
    requires i < 32
  {
    (bits >> i) & 1 == 1
  }

  predicate HasFlags(props: bv32, mask: bv32)
  {
    props & mask == mask
  }

  /** Memory type `i` is allowed by `bits` and carries both flag sets. */
  predicate Acceptable(types: seq<bv32>, bits: bv32, req: bv32, pref: bv32, i: nat)
    requires i < |types| <= VK_MAX_MEMORY_TYPES
  {
    TypeBitSet(bits, i) && HasFlags(types[i], req) && HasFlags(types[i], pref)
  }

  /** The least acceptable index at or after `from`, or `|types|` when there is none. */
  function FirstAcceptable(types: seq<bv32>, bits: bv32, req: bv32, pref: bv32, from: nat): (r: nat)
    requires from <= |types| <= VK_MAX_MEMORY_TYPES
    ensures from <= r <= |types|
    ensures r < |types| ==> Acceptable(types, bits, req, pref, r)
    ensures forall j | from <= j < r :: !Acceptable(types, bits, req, pref, j)
    decreases |types| - from
  {
    if from == |types| then |types|
    else if Acceptable(types, bits, req, pref, from) then from
    else FirstAcceptable(types, bits, req, pref, from + 1)
  }

  /** The memory type FindMemoryTypeIndex settles on for `usage`. */
  function MemoryTypeChoice(types: seq<bv32>, bits: bv32, usage: MemoryUsage): (r: nat)
    requires |types| <= VK_MAX_MEMORY_TYPES
    ensures r == UINT32_MAX || (r < |types| && TypeBitSet(bits, r) && HasFlags(types[r], RequiredFlags(usage)))
  {
    var best := FirstAcceptable(types, bits, RequiredFlags(usage), PreferredFlags(usage), 0);
    var fallback := FirstAcceptable(types, bits, RequiredFlags(usage), 0, 0);
    if best < |types| then best else if fallback < |types| then fallback else UINT32_MAX
  }

  /**
   * The order of preference: the lowest allowed index with the required and
   * the preferred flags, else the lowest allowed index with the required
   * flags, else UINT32_MAX.
   */
  lemma MemoryTypeChoicePreference(types: seq<bv32>, bits: bv32, usage: MemoryUsage)
    requires |types| <= VK_MAX_MEMORY_TYPES
    ensures var r := MemoryTypeChoice(types, bits, usage);
            var req, pref := RequiredFlags(usage), PreferredFlags(usage);
            if exists i | 0 <= i < |types| :: Acceptable(types, bits, req, pref, i) then
              r < |types| && Acceptable(types, bits, req, pref, r) &&
              forall j | 0 <= j < r :: !Acceptable(types, bits, req, pref, j)
            else if exists i | 0 <= i < |types| :: Acceptable(types, bits, req, 0, i) then
              r < |types| && Acceptable(types, bits, req, 0, r) &&
              forall j | 0 <= j < r :: !Acceptable(types, bits, req, 0, j)
            else
              r == UINT32_MAX
  {
  }

  /** The two search loops of FindMemoryTypeIndex; `types` holds the property flags of the device's memory types. */
  method FindMemoryTypeIndex(memoryTypeBits: bv32, usage: MemoryUsage, types: seq<bv32>) returns (r: nat)
    requires |types| <= VK_MAX_MEMORY_TYPES
    ensures r == MemoryTypeChoice(types, memoryTypeBits, usage)
  {
    var required := RequiredFlags(usage);
    var preferred := PreferredFlags(usage);
    var i := 0;
    while i < |types|
      invariant i <= |types|
      invariant FirstAcceptable(types, memoryTypeBits, required, preferred, 0)
             == FirstAcceptable(types, memoryTypeBits, required, preferred, i)
    {
      if !TypeBitSet(memoryTypeBits, i) { i := i + 1; continue; }
      var properties := types[i];
      if !HasFlags(properties, required) { i := i + 1; continue; }
      if !HasFlags(properties, preferred) { i := i + 1; continue; }
      return i;
    }
    i := 0;
    while i < |types|
      invariant i <= |types|
      invariant FirstAcceptable(types, memoryTypeBits, required, 0, 0)
             == FirstAcceptable(types, memoryTypeBits, required, 0, i)
    {
      if !TypeBitSet(memoryTypeBits, i) { i := i + 1; continue; }
      var properties := types[i];
      if !HasFlags(properties, required) { i := i + 1; continue; }
      assert HasFlags(properties, 0);
      return i;
    }
    return UINT32_MAX;
  }

  /** The first byte of the page holding byte `x` (`x & ~(page - 1)` for a power-of-two page). */
  function PageStart(x: nat, page: nat): (r: nat)
    requires page > 0
    ensures r % page == 0 && r <= x < r + page
  {
    DivMulBounds(x, page);
    x / page * page
  }

  /** Whether the last byte of range A and the first byte of range B share a page; the end is computed in 64-bit unsigned arithmetic. */
  function IsOnSamePage(aOffset: nat, aSize: nat, bOffset: nat, pageSize: nat): bool
    requires pageSize > 0
  {
    PageStart(U64(aOffset + aSize - 1), pageSize) == PageStart(bOffset, pageSize)
  }

  /** For A lying wholly before B, the two share a page exactly when B's page begins before A ends. */
  lemma IsOnSamePageIffNoBoundary(aOffset: nat, aSize: nat, bOffset: nat, pageSize: nat)
    requires pageSize > 0 && aSize > 0 && aOffset + aSize <= bOffset <= UINT64_MAX
    ensures IsOnSamePage(aOffset, aSize, bOffset, pageSize) <==> PageStart(bOffset, pageSize) < aOffset + aSize
  {
    var e := aOffset + aSize - 1;
    assert U64(e) == e;
    DivMono(e, bOffset, pageSize);
    if bOffset / pageSize * pageSize <= e {
      DivBounds(e, pageSize, bOffset / pageSize);
    }
  }

  // vulkanAllocationType_t, in declaration order
  datatype AllocationType = FREE | BUFFER | IMAGE | IMAGE_LINEAR | IMAGE_OPTIMAL

  function TypeOrder(t: AllocationType): nat
  {
    match t
    case FREE => 0
    case BUFFER => 1
    case IMAGE => 2
    case IMAGE_LINEAR => 3
    case IMAGE_OPTIMAL => 4
  }

  /** The switch of HasGranularityConflict, for `type1` not after `type2`. */
  function OrderedConflict(type1: AllocationType, type2: AllocationType): bool
  {
    match type1
    case FREE => false
    case BUFFER => type2 == IMAGE || type2 == IMAGE_OPTIMAL
    case IMAGE => type2 == IMAGE || type2 == IMAGE_LINEAR || type2 == IMAGE_OPTIMAL
    case IMAGE_LINEAR => type2 == IMAGE_OPTIMAL
    case IMAGE_OPTIMAL => false
  }

  /** Resources with a linear layout: buffers, linear images and images of unknown tiling. */
  predicate MayBeLinear(t: AllocationType)
  {
    t == BUFFER || t == IMAGE || t == IMAGE_LINEAR
  }

  /** Resources with an optimal layout: optimal images and images of unknown tiling. */
  predicate MayBeOptimal(t: AllocationType)
  {
    t == IMAGE || t == IMAGE_OPTIMAL
  }

  /**
   * The two types may not share a granularity page: exactly when one of them
   * may be linear and the other may be optimal.
   */
  function HasGranularityConflict(type1: AllocationType, type2: AllocationType): (r: bool)
    ensures r <==> (MayBeLinear(type1) && MayBeOptimal(type2)) || (MayBeOptimal(type1) && MayBeLinear(type2))
  {
    if TypeOrder(type1) > TypeOrder(type2) then OrderedConflict(type2, type1)
    else OrderedConflict(type1, type2)
  }

  lemma GranularityConflictFacts(t1: AllocationType, t2: AllocationType)
    ensures HasGranularityConflict(t1, t2) == HasGranularityConflict(t2, t1)
    ensures !HasGranularityConflict(FREE, t2)
    ensures HasGranularityConflict(BUFFER, t2) <==> t2 == IMAGE || t2 == IMAGE_OPTIMAL
  {
  }

  /* ------------------------------------------------------------------ */
  /* Blocks                                                               */
  /* ------------------------------------------------------------------ */

  datatype Chunk = Chunk(id: nat, size: nat, offset: nat, kind: AllocationType)

  /** The state of one block: its chunk list in order, m_allocated and m_nextBlockId. */
  datatype BlockState = BlockState(chunks: seq<Chunk>, allocatedSize: nat, nextId: nat)

  /** The state Init leaves a new block in: one FREE chunk over the whole block. */
  function InitialBlock(blockSize: nat): BlockState
  {
    BlockState([Chunk(0, blockSize, 0, FREE)], 0, 1)
  }

  /** Where Allocate would place a request in chunk `i`: aligned, then pushed to a granularity page after a conflicting predecessor. */
  function Placement(cs: seq<Chunk>, i: nat, align: nat, granularity: nat, t: AllocationType): (r: nat)
    requires i < |cs| && align > 0
    ensures cs[i].offset <= r
  {
    var offset := AlignUp(cs[i].offset, align);
    if i > 0 && granularity > 1 && IsOnSamePage(cs[i - 1].offset, cs[i - 1].size, offset, granularity)
       && HasGranularityConflict(cs[i - 1].kind, t)
    then AlignUp(offset, granularity)
    else offset
  }

  /** Chunk `i` is FREE and holds the request together with its padding. */
  predicate Fits(cs: seq<Chunk>, i: nat, size: nat, align: nat, granularity: nat, t: AllocationType)
    requires i < |cs| && align > 0
  {
    cs[i].kind == FREE && size <= cs[i].size &&
    Placement(cs, i, align, granularity, t) - cs[i].offset + size <= cs[i].size
  }

  /** Placing the request at `offset` in chunk `i` would share a page with a conflicting successor. */
  predicate NextConflict(cs: seq<Chunk>, i: nat, size: nat, offset: nat, granularity: nat, t: AllocationType)
    requires i < |cs|
  {
    granularity > 1 && i + 1 < |cs| &&
    IsOnSamePage(offset, size, cs[i + 1].offset, granularity) &&
    HasGranularityConflict(t, cs[i + 1].kind)
  }

  /** Chunk `i` fits, stays below the block size and has no conflicting successor. */
  predicate Usable(cs: seq<Chunk>, i: nat, size: nat, align: nat, granularity: nat, t: AllocationType, allocatedSize: nat, blockSize: nat)
    requires i < |cs| && align > 0
  {
    Fits(cs, i, size, align, granularity, t) &&
    var offset := Placement(cs, i, align, granularity, t);
    offset - cs[i].offset + size + allocatedSize < blockSize &&
    !NextConflict(cs, i, size, offset, granularity, t)
  }

  datatype Search = NoChunk | BlockFull | Chosen(index: nat, offset: nat)

  /**
   * The first-fit loop of idVulkanBlock::Allocate from chunk `i` on. A fitting
   * chunk whose padded size would bring the block to its size ends the search
   * with BlockFull.
   */
  function SearchFrom(cs: seq<Chunk>, i: nat, size: nat, align: nat, granularity: nat, t: AllocationType,
                      allocatedSize: nat, blockSize: nat): (r: Search)
    requires i <= |cs| && align > 0
    ensures r.Chosen? ==> i <= r.index < |cs| && r.offset == Placement(cs, r.index, align, granularity, t) &&
                          Usable(cs, r.index, size, align, granularity, t, allocatedSize, blockSize)
    ensures r.Chosen? ==> forall j | i <= j < r.index :: !Usable(cs, j, size, align, granularity, t, allocatedSize, blockSize)
    ensures r.NoChunk? ==> forall j | i <= j < |cs| :: !Usable(cs, j, size, align, granularity, t, allocatedSize, blockSize)
    decreases |cs| - i
  {
    if i == |cs| then NoChunk
    else if !Fits(cs, i, size, align, granularity, t) then
      SearchFrom(cs, i + 1, size, align, granularity, t, allocatedSize, blockSize)
    else
      var offset := Placement(cs, i, align, granularity, t);
      if offset - cs[i].offset + size + allocatedSize >= blockSize then BlockFull
      else if NextConflict(cs, i, size, offset, granularity, t) then
        SearchFrom(cs, i + 1, size, align, granularity, t, allocatedSize, blockSize)
      else Chosen(i, offset)
  }

  datatype BlockAllocation = Rejected | Placed(state: BlockState, id: nat, offset: nat)

  /**
   * idVulkanBlock::Allocate as written: the chosen chunk takes the request's
   * size but keeps its own offset, a split puts the rest of the chunk after
   * it at `offset + size`, and m_allocated grows by padding plus size.
   */
  function BlockAllocate(st: BlockState, blockSize: nat, size: nat, align: nat, granularity: nat, t: AllocationType): BlockAllocation
    requires align > 0
  {
    if U64(blockSize - st.allocatedSize) < size then Rejected
    else
      match SearchFrom(st.chunks, 0, size, align, granularity, t, st.allocatedSize, blockSize)
      case NoChunk => Rejected
      case BlockFull => Rejected
      case Chosen(i, offset) =>
        Placed(Place(st, i, offset, size, t), st.chunks[i].id, offset)
  }

  /**
   * The chosen chunk `i` takes the request at `offset`: its type and size
   * change but its offset stays; when it was larger than the request, a FREE
   * chunk with a new id follows it at `offset + size` holding the rest minus
   * the padding; m_allocated grows by padding plus size.
   */
  function Place(st: BlockState, i: nat, offset: nat, size: nat, t: AllocationType): BlockState
    requires i < |st.chunks| && st.chunks[i].offset <= offset
    requires offset - st.chunks[i].offset + size <= st.chunks[i].size
  {
    var c := st.chunks[i];
    var alignedSize := offset - c.offset + size;
    var taken := c.(kind := t, size := size);
    if c.size > size then
      BlockState(st.chunks[..i] + [taken, Chunk(st.nextId, c.size - alignedSize, offset + size, FREE)] + st.chunks[i + 1..],
                 st.allocatedSize + alignedSize, st.nextId + 1)
    else
      BlockState(st.chunks[..i] + [taken] + st.chunks[i + 1..], st.allocatedSize + alignedSize, st.nextId)
  }

  /** The index of the first chunk with the given id, or `|cs|`. */
  function FindChunk(cs: seq<Chunk>, id: nat): (r: nat)
    ensures r <= |cs|
    ensures r < |cs| ==> cs[r].id == id
    ensures forall j | 0 <= j < r :: cs[j].id != id
  {
    if |cs| == 0 then 0
    else if cs[0].id == id then 0
    else 1 + FindChunk(cs[1..], id)
  }

  /** Merges chunk `j` with its successor when that one is FREE. */
  function MergeNext(cs: seq<Chunk>, j: nat): seq<Chunk>
    requires j < |cs|
  {
    if j + 1 < |cs| && cs[j + 1].kind == FREE then
      cs[..j] + [cs[j].(size := cs[j].size + cs[j + 1].size)] + cs[j + 2..]
    else cs
  }

  /** Marks chunk `i` FREE and coalesces it with a FREE predecessor, then with a FREE successor. */
  function MergeFree(cs: seq<Chunk>, i: nat): seq<Chunk>
    requires i < |cs|
  {
    if i > 0 && cs[i - 1].kind == FREE then
      MergeNext(cs[..i - 1] + [cs[i - 1].(size := cs[i - 1].size + cs[i].size)] + cs[i + 1..], i - 1)
    else
      MergeNext(cs[..i] + [cs[i].(kind := FREE)] + cs[i + 1..], i)
  }

  /** idVulkanBlock::Free as written: an unknown id changes nothing; m_allocated drops by the allocation's size in 64-bit unsigned arithmetic. */
  function BlockFree(st: BlockState, id: nat, size: nat): BlockState
  {
    var i := FindChunk(st.chunks, id);
    if i == |st.chunks| then st
    else BlockState(MergeFree(st.chunks, i), U64(st.allocatedSize - size), st.nextId)
  }

  /* Sizes and the block invariant */

  function SumSizes(cs: seq<Chunk>): nat
  {
    if |cs| == 0 then 0 else cs[0].size + SumSizes(cs[1..])
  }

  /** Total size of the chunks that are in use. */
  function UsedSizes(cs: seq<Chunk>): nat
  {
    if |cs| == 0 then 0 else (if cs[0].kind == FREE then 0 else cs[0].size) + UsedSizes(cs[1..])
  }

  lemma {:induction false} SizesConcat(a: seq<Chunk>, b: seq<Chunk>)
    ensures SumSizes(a + b) == SumSizes(a) + SumSizes(b)
    ensures UsedSizes(a + b) == UsedSizes(a) + UsedSizes(b)
    decreases |a|
  {
    if |a| == 0 {
      assert a + b == b;
    } else {
      assert (a + b)[1..] == a[1..] + b;
      SizesConcat(a[1..], b);
    }
  }

  /** The chunks lie in increasing order without overlap. */
  predicate Ordered(cs: seq<Chunk>)
  {
    forall k | 0 <= k < |cs| - 1 :: cs[k].offset + cs[k].size <= cs[k + 1].offset
  }

  predicate DistinctIds(cs: seq<Chunk>)
  {
    forall j, k | 0 <= j < k < |cs| :: cs[j].id != cs[k].id
  }

  /** Coalescing leaves no two neighbouring FREE chunks. */
  predicate NoAdjacentFree(cs: seq<Chunk>)
  {
    forall k | 0 <= k < |cs| - 1 :: cs[k].kind == FREE ==> cs[k + 1].kind != FREE
  }

  /**
   * The invariant every block keeps as written. The accounting equation says
   * that m_allocated exceeds the bytes in use by exactly the bytes the chunk
   * list has lost to padding.
   */
  predicate ValidBlock(st: BlockState, blockSize: nat)
  {
    var cs := st.chunks;
    blockSize <= UINT64_MAX && |cs| > 0 && Ordered(cs) &&
    (forall k | 0 <= k < |cs| :: cs[k].offset + cs[k].size <= blockSize) &&
    (forall k | 0 <= k < |cs| :: cs[k].id < st.nextId) &&
    DistinctIds(cs) && NoAdjacentFree(cs) &&
    SumSizes(cs) <= blockSize &&
    SumSizes(cs) + st.allocatedSize == blockSize + UsedSizes(cs)
  }

  /** A tail block after Init: one FREE chunk spanning it. */
  lemma InitialBlockValid(blockSize: nat, id: nat)
    requires blockSize <= UINT64_MAX
    ensures ValidBlock(BlockState([Chunk(id, blockSize, 0, FREE)], 0, id + 1), blockSize)
  {
    assert SumSizes([Chunk(id, blockSize, 0, FREE)]) == blockSize;
    assert UsedSizes([Chunk(id, blockSize, 0, FREE)]) == 0;
  }

  /** The chunk Allocate picks is the first usable one in list order. */
  lemma BlockAllocateIsFirstFit(st: BlockState, blockSize: nat, size: nat, align: nat, granularity: nat, t: AllocationType)
    requires align > 0
    ensures match BlockAllocate(st, blockSize, size, align, granularity, t)
            case Rejected =>
              U64(blockSize - st.allocatedSize) < size ||
              !SearchFrom(st.chunks, 0, size, align, granularity, t, st.allocatedSize, blockSize).Chosen?
            case Placed(st', id, offset) =>
              exists i | 0 <= i < |st.chunks| ::
                st.chunks[i].id == id && Usable(st.chunks, i, size, align, granularity, t, st.allocatedSize, blockSize) &&
                offset == Placement(st.chunks, i, align, granularity, t) &&
                st'.allocatedSize == st.allocatedSize + (offset - st.chunks[i].offset) + size &&
                (forall j | 0 <= j < i :: !Usable(st.chunks, j, size, align, granularity, t, st.allocatedSize, blockSize))
  {
    var r := SearchFrom(st.chunks, 0, size, align, granularity, t, st.allocatedSize, blockSize);
    if U64(blockSize - st.allocatedSize) >= size && r.Chosen? {
      var i := r.index;
      assert st.chunks[i].id == BlockAllocate(st, blockSize, size, align, granularity, t).id;
    }
  }

  /** With Vulkan's power-of-two alignments (one divides the other) the placement honours `align`. */
  lemma PlacementAligned(cs: seq<Chunk>, i: nat, align: nat, granularity: nat, t: AllocationType)
    requires i < |cs| && align > 0
    requires granularity <= 1 || granularity % align == 0 || align % granularity == 0
    ensures Placement(cs, i, align, granularity, t) % align == 0
  {
    var offset := AlignUp(cs[i].offset, align);
    var r := Placement(cs, i, align, granularity, t);
    if r != offset {
      assert r == AlignUp(offset, granularity);
      if granularity % align == 0 {
        MultipleTransitive(r, align, granularity);
      } else {
        MultipleTransitive(offset, granularity, align);
        AlignUpExact(offset, granularity);
      }
    }
  }

  lemma MultipleTransitive(x: nat, a: nat, b: nat)
    requires a > 0 && b > 0 && x % b == 0 && b % a == 0
    ensures x % a == 0
  {
    var q, g := x / b, b / a;
    assert x == q * b;
    assert b == g * a;
    assert x == (q * g) * a;
    MulMod(q * g, a);
  }

  /** Aligning a multiple of `a` leaves it unchanged. */
  lemma AlignUpExact(x: nat, a: nat)
    requires a > 0 && x % a == 0
    ensures AlignUp(x, a) == x
  {
    var r := AlignUp(x, a);
    var q := x / a;
    assert x == q * a;
    DivModUnique(x + a - 1, a, q, a - 1);
  }

  /**
   * Buffer-image granularity: a placement never shares a page with a
   * conflicting in-use neighbour, as the rule of the Vulkan specification
   * asks.
   */
  lemma AllocationRespectsGranularity(st: BlockState, blockSize: nat, size: nat, align: nat, granularity: nat, t: AllocationType, i: nat)
    requires align > 0 && ValidBlock(st, blockSize) && i < |st.chunks|
    requires SearchFrom(st.chunks, 0, size, align, granularity, t, st.allocatedSize, blockSize) == Chosen(i, Placement(st.chunks, i, align, granularity, t))
    requires granularity > 1
    ensures var offset := Placement(st.chunks, i, align, granularity, t);
            (i > 0 && st.chunks[i - 1].size > 0 && HasGranularityConflict(st.chunks[i - 1].kind, t) ==>
               !IsOnSamePage(st.chunks[i - 1].offset, st.chunks[i - 1].size, offset, granularity)) &&
            (i + 1 < |st.chunks| && HasGranularityConflict(t, st.chunks[i + 1].kind) ==>
               !IsOnSamePage(offset, size, st.chunks[i + 1].offset, granularity))
  {
    var cs := st.chunks;
    var offset := Placement(cs, i, align, granularity, t);
    if i > 0 && cs[i - 1].size > 0 && HasGranularityConflict(cs[i - 1].kind, t) {
      var prev := cs[i - 1];
      var first := AlignUp(cs[i].offset, align);
      assert prev.offset + prev.size <= cs[i].offset;
      var e := prev.offset + prev.size - 1;
      if IsOnSamePage(prev.offset, prev.size, first, granularity) {
        assert offset == AlignUp(first, granularity);
        PageOfBoundary(offset, granularity);
        assert U64(e) == e;
        assert PageStart(e, granularity) <= e < offset;
      }
    }
  }

  /** A multiple of the page size starts its own page. */
  lemma PageOfBoundary(x: nat, page: nat)
    requires page > 0 && x % page == 0
    ensures PageStart(x, page) == x
  {
    assert x == x / page * page + x % page;
  }

  /* Invariant preservation */

  /** Two chunks summed, as a step the solver does not take alone. */
  lemma SizesPair(x: Chunk, y: Chunk)
    ensures SumSizes([x, y]) == x.size + y.size
    ensures UsedSizes([x, y]) == UsedSizes([x]) + UsedSizes([y])
  {
    assert [x, y][1..] == [y];
    SizesSingle(y);
  }

  lemma SizesSingle(x: Chunk)
    ensures SumSizes([x]) == x.size
    ensures UsedSizes([x]) == if x.kind == FREE then 0 else x.size
  {
    assert [x][1..] == [];
  }

  lemma UsedAtMostSum(cs: seq<Chunk>)
    ensures UsedSizes(cs) <= SumSizes(cs)
  {
  }

  /** Replacing the window `cs[lo..hi]` by `m` keeps the chunks ordered when `m` fits between the window's neighbours. */
  lemma ReplaceOrdered(cs: seq<Chunk>, lo: nat, hi: nat, m: seq<Chunk>)
    requires lo <= hi <= |cs| && |m| > 0 && Ordered(cs) && Ordered(m)
    requires lo > 0 ==> cs[lo - 1].offset + cs[lo - 1].size <= m[0].offset
    requires hi < |cs| ==> m[|m| - 1].offset + m[|m| - 1].size <= cs[hi].offset
    ensures Ordered(cs[..lo] + m + cs[hi..])
  {
    var ns := cs[..lo] + m + cs[hi..];
    forall k | 0 <= k < |ns| - 1
      ensures ns[k].offset + ns[k].size <= ns[k + 1].offset
    {
      if k < lo - 1 {
        assert ns[k] == cs[k] && ns[k + 1] == cs[k + 1];
      } else if k == lo - 1 {
        assert ns[k] == cs[lo - 1] && ns[k + 1] == m[0];
      } else if k < lo + |m| - 1 {
        assert ns[k] == m[k - lo] && ns[k + 1] == m[k - lo + 1];
      } else if k == lo + |m| - 1 {
        assert ns[k] == m[|m| - 1] && ns[k + 1] == cs[hi];
      } else {
        assert ns[k] == cs[k - lo - |m| + hi] && ns[k + 1] == cs[k + 1 - lo - |m| + hi];
      }
    }
  }

  /** The same for the rule that no two FREE chunks are neighbours. */
  lemma ReplaceNoAdjacentFree(cs: seq<Chunk>, lo: nat, hi: nat, m: seq<Chunk>)
    requires lo <= hi <= |cs| && |m| > 0 && NoAdjacentFree(cs) && NoAdjacentFree(m)
    requires lo > 0 && cs[lo - 1].kind == FREE ==> m[0].kind != FREE
    requires hi < |cs| && m[|m| - 1].kind == FREE ==> cs[hi].kind != FREE
    ensures NoAdjacentFree(cs[..lo] + m + cs[hi..])
  {
    var ns := cs[..lo] + m + cs[hi..];
    forall k | 0 <= k < |ns| - 1 && ns[k].kind == FREE
      ensures ns[k + 1].kind != FREE
    {
      if k < lo - 1 {
        assert ns[k] == cs[k] && ns[k + 1] == cs[k + 1];
      } else if k == lo - 1 {
        assert ns[k] == cs[lo - 1] && ns[k + 1] == m[0];
      } else if k < lo + |m| - 1 {
        assert ns[k] == m[k - lo] && ns[k + 1] == m[k - lo + 1];
      } else if k == lo + |m| - 1 {
        assert ns[k] == m[|m| - 1] && ns[k + 1] == cs[hi];
      } else {
        assert ns[k] == cs[k - lo - |m| + hi] && ns[k + 1] == cs[k + 1 - lo - |m| + hi];
      }
    }
  }

  /** The same for distinct ids, when the new chunks reuse no id from outside the window. */
  lemma ReplaceDistinct(cs: seq<Chunk>, lo: nat, hi: nat, m: seq<Chunk>)
    requires lo <= hi <= |cs| && DistinctIds(cs) && DistinctIds(m)
    requires forall j, k | 0 <= j < |m| && 0 <= k < |cs| && !(lo <= k < hi) :: m[j].id != cs[k].id
    ensures DistinctIds(cs[..lo] + m + cs[hi..])
  {
    var ns := cs[..lo] + m + cs[hi..];
    forall a, b | 0 <= a < b < |ns|
      ensures ns[a].id != ns[b].id
    {
      var ka := if a < lo then a else if a < lo + |m| then -1 else a - lo - |m| + hi;
      var kb := if b < lo then b else if b < lo + |m| then -1 else b - lo - |m| + hi;
      if a < lo { assert ns[a] == cs[ka]; }
      else if a < lo + |m| { assert ns[a] == m[a - lo]; }
      else { assert ns[a] == cs[ka]; }
      if b < lo { assert ns[b] == cs[kb]; }
      else if b < lo + |m| { assert ns[b] == m[b - lo]; }
      else { assert ns[b] == cs[kb]; }
    }
  }

  /** The same for the bounds every chunk keeps: its id below m_nextBlockId and its end inside the block. */
  lemma ReplaceBounded(cs: seq<Chunk>, lo: nat, hi: nat, m: seq<Chunk>, nextId: nat, blockSize: nat)
    requires lo <= hi <= |cs|
    requires forall k | 0 <= k < |cs| :: cs[k].id < nextId && cs[k].offset + cs[k].size <= blockSize
    requires forall k | 0 <= k < |m| :: m[k].id < nextId && m[k].offset + m[k].size <= blockSize
    ensures var ns := cs[..lo] + m + cs[hi..];
            forall k | 0 <= k < |ns| :: ns[k].id < nextId && ns[k].offset + ns[k].size <= blockSize
  {
    var ns := cs[..lo] + m + cs[hi..];
    forall k | 0 <= k < |ns|
      ensures ns[k].id < nextId && ns[k].offset + ns[k].size <= blockSize
    {
      if k < lo { assert ns[k] == cs[k]; }
      else if k < lo + |m| { assert ns[k] == m[k - lo]; }
      else { assert ns[k] == cs[k - lo - |m| + hi]; }
    }
  }

  /** The sizes of a spliced list, from those of its parts. */
  lemma ReplaceSizes(cs: seq<Chunk>, lo: nat, hi: nat, m: seq<Chunk>)
    requires lo <= hi <= |cs|
    ensures SumSizes(cs) == SumSizes(cs[..lo]) + SumSizes(cs[lo..hi]) + SumSizes(cs[hi..])
    ensures UsedSizes(cs) == UsedSizes(cs[..lo]) + UsedSizes(cs[lo..hi]) + UsedSizes(cs[hi..])
    ensures SumSizes(cs[..lo] + m + cs[hi..]) == SumSizes(cs[..lo]) + SumSizes(m) + SumSizes(cs[hi..])
    ensures UsedSizes(cs[..lo] + m + cs[hi..]) == UsedSizes(cs[..lo]) + UsedSizes(m) + UsedSizes(cs[hi..])
  {
    assert cs == cs[..lo] + cs[lo..hi] + cs[hi..];
    SizesConcat(cs[..lo] + cs[lo..hi], cs[hi..]);
    SizesConcat(cs[..lo], cs[lo..hi]);
    SizesConcat(cs[..lo] + m, cs[hi..]);
    SizesConcat(cs[..lo], m);
  }

  /** Allocating an in-use type keeps the block invariant. */
  lemma BlockAllocatePreservesValid(st: BlockState, blockSize: nat, size: nat, align: nat, granularity: nat, t: AllocationType)
    requires align > 0 && ValidBlock(st, blockSize) && t != FREE
    requires BlockAllocate(st, blockSize, size, align, granularity, t).Placed?
    ensures ValidBlock(BlockAllocate(st, blockSize, size, align, granularity, t).state, blockSize)
  {
    var r := SearchFrom(st.chunks, 0, size, align, granularity, t, st.allocatedSize, blockSize);
    PlacePreservesValid(st, blockSize, r.index, r.offset, size, t);
  }

  lemma PlacePreservesValid(st: BlockState, blockSize: nat, i: nat, offset: nat, size: nat, t: AllocationType)
    requires ValidBlock(st, blockSize) && t != FREE && i < |st.chunks|
    requires st.chunks[i].kind == FREE && size <= st.chunks[i].size && st.chunks[i].offset <= offset
    requires offset - st.chunks[i].offset + size <= st.chunks[i].size
    requires st.allocatedSize + offset - st.chunks[i].offset + size < blockSize
    ensures ValidBlock(Place(st, i, offset, size, t), blockSize)
  {
    var c := st.chunks[i];
    var taken := c.(kind := t, size := size);
    if c.size > size {
      var m := [taken, Chunk(st.nextId, c.size - (offset - c.offset + size), offset + size, FREE)];
      assert Place(st, i, offset, size, t).chunks == st.chunks[..i] + m + st.chunks[i + 1..];
      SizesPair(m[0], m[1]);
      SizesSingle(m[1]);
      ReplaceValid(st, blockSize, i, m, offset - c.offset + size, st.nextId + 1);
    } else {
      assert Place(st, i, offset, size, t).chunks == st.chunks[..i] + [taken] + st.chunks[i + 1..];
      SizesSingle(taken);
      ReplaceValid(st, blockSize, i, [taken], offset - c.offset + size, st.nextId);
    }
  }

  /** Replacing FREE chunk `i` by the chunks `m` keeps the invariant under the conditions Place meets. */
  lemma ReplaceValid(st: BlockState, blockSize: nat, i: nat, m: seq<Chunk>, grow: nat, nextId: nat)
    requires ValidBlock(st, blockSize) && i < |st.chunks| && st.chunks[i].kind == FREE
    requires 0 < |m| && Ordered(m) && NoAdjacentFree(m) && DistinctIds(m) && m[0].kind != FREE
    requires m[0].id == st.chunks[i].id && st.nextId <= nextId
    requires forall k | 1 <= k < |m| :: st.nextId <= m[k].id < nextId
    requires st.chunks[i].offset <= m[0].offset
    requires m[|m| - 1].offset + m[|m| - 1].size <= st.chunks[i].offset + st.chunks[i].size
    requires SumSizes(m) + grow == st.chunks[i].size + UsedSizes(m)
    requires SumSizes(m) <= st.chunks[i].size
    requires forall k | 0 <= k < |m| :: m[k].offset + m[k].size <= blockSize
    ensures ValidBlock(BlockState(st.chunks[..i] + m + st.chunks[i + 1..], st.allocatedSize + grow, nextId), blockSize)
  {
    var cs := st.chunks;
    ReplaceFreeSizes(cs, i, m, st.allocatedSize, grow, blockSize);
    ReplaceFreeShape(cs, i, m, st.nextId, nextId, blockSize);
  }

  lemma ReplaceFreeSizes(cs: seq<Chunk>, i: nat, m: seq<Chunk>, allocatedSize: nat, grow: nat, blockSize: nat)
    requires i < |cs| && SumSizes(cs) <= blockSize && SumSizes(cs) + allocatedSize == blockSize + UsedSizes(cs)
    requires cs[i].kind == FREE
    requires SumSizes(m) + grow == cs[i].size + UsedSizes(m) && SumSizes(m) <= cs[i].size
    ensures var ns := cs[..i] + m + cs[i + 1..];
            SumSizes(ns) + allocatedSize + grow == blockSize + UsedSizes(ns) && SumSizes(ns) <= blockSize
  {
    assert cs[i..i + 1] == [cs[i]];
    SizesSingle(cs[i]);
    ReplaceSizes(cs, i, i + 1, m);
  }

  lemma ReplaceFreeShape(cs: seq<Chunk>, i: nat, m: seq<Chunk>, oldNext: nat, nextId: nat, blockSize: nat)
    requires i < |cs| && cs[i].kind == FREE && Ordered(cs) && NoAdjacentFree(cs) && DistinctIds(cs)
    requires forall k | 0 <= k < |cs| :: cs[k].offset + cs[k].size <= blockSize
    requires forall k | 0 <= k < |cs| :: cs[k].id < oldNext
    requires 0 < |m| && Ordered(m) && NoAdjacentFree(m) && DistinctIds(m) && m[0].kind != FREE
    requires m[0].id == cs[i].id && oldNext <= nextId
    requires forall k | 1 <= k < |m| :: oldNext <= m[k].id < nextId
    requires cs[i].offset <= m[0].offset
    requires m[|m| - 1].offset + m[|m| - 1].size <= cs[i].offset + cs[i].size
    requires forall k | 0 <= k < |m| :: m[k].offset + m[k].size <= blockSize
    ensures var ns := cs[..i] + m + cs[i + 1..];
            Ordered(ns) && NoAdjacentFree(ns) && DistinctIds(ns) &&
            (forall k | 0 <= k < |ns| :: ns[k].offset + ns[k].size <= blockSize) &&
            (forall k | 0 <= k < |ns| :: ns[k].id < nextId)
  {
    var ns := cs[..i] + m + cs[i + 1..];
    assert Ordered(ns) by {
      ReplaceOrdered(cs, i, i + 1, m);
    }
    assert NoAdjacentFree(ns) by {
      if i > 0 { assert cs[i].kind == FREE; }
      if i + 1 < |cs| { assert cs[i].kind == FREE; }
      ReplaceNoAdjacentFree(cs, i, i + 1, m);
    }
    assert DistinctIds(ns) by {
      ReplaceDistinct(cs, i, i + 1, m);
    }
    assert forall k | 0 <= k < |ns| :: ns[k].id < nextId && ns[k].offset + ns[k].size <= blockSize by {
      ReplaceBounded(cs, i, i + 1, m, nextId, blockSize);
    }
  }

  /** The chunks from `lo` to `hi` replaced by one FREE chunk with the first one's id and offset and their total size. */
  function Coalesced(cs: seq<Chunk>, lo: nat, hi: nat): seq<Chunk>
    requires lo < hi <= |cs|
  {
    cs[..lo] + [Chunk(cs[lo].id, SumSizes(cs[lo..hi]), cs[lo].offset, FREE)] + cs[hi..]
  }

  /** The first chunk Free coalesces into: the FREE predecessor, or the chunk itself. */
  function MergeLo(cs: seq<Chunk>, i: nat): nat
    requires i < |cs|
  {
    if i > 0 && cs[i - 1].kind == FREE then i - 1 else i
  }

  /** One past the last chunk Free coalesces: past the FREE successor, or past the chunk itself. */
  function MergeHi(cs: seq<Chunk>, i: nat): nat
    requires i < |cs|
  {
    if i + 1 < |cs| && cs[i + 1].kind == FREE then i + 2 else i + 1
  }

  lemma MergeFreeIsCoalesced(cs: seq<Chunk>, i: nat)
    requires i < |cs|
    ensures MergeFree(cs, i) == Coalesced(cs, MergeLo(cs, i), MergeHi(cs, i))
  {
    if i > 0 && cs[i - 1].kind == FREE {
      MergeWithPrevious(cs, i);
    } else {
      MergeWithoutPrevious(cs, i);
    }
  }

  lemma MergeWithPrevious(cs: seq<Chunk>, i: nat)
    requires 0 < i < |cs| && cs[i - 1].kind == FREE
    ensures MergeFree(cs, i) == Coalesced(cs, i - 1, MergeHi(cs, i))
  {
    if i + 1 < |cs| && cs[i + 1].kind == FREE {
      MergeBothNeighbours(cs, i);
    } else {
      MergePreviousOnly(cs, i);
    }
  }

  lemma MergeBothNeighbours(cs: seq<Chunk>, i: nat)
    requires 0 < i && i + 1 < |cs| && cs[i - 1].kind == FREE && cs[i + 1].kind == FREE
    ensures MergeFree(cs, i) == Coalesced(cs, i - 1, i + 2)
  {
    MergeBothShape(cs, i);
    TripleSizes(cs, i);
  }

  lemma MergeBothShape(cs: seq<Chunk>, i: nat)
    requires 0 < i && i + 1 < |cs| && cs[i - 1].kind == FREE && cs[i + 1].kind == FREE
    ensures var p := cs[i - 1];
      MergeFree(cs, i) == cs[..i - 1] + [Chunk(p.id, p.size + cs[i].size + cs[i + 1].size, p.offset, FREE)] + cs[i + 2..]
  {
    var p := cs[i - 1];
    var merged := p.(size := p.size + cs[i].size);
    var cs1 := cs[..i - 1] + [merged] + cs[i + 1..];
    assert MergeFree(cs, i) == MergeNext(cs1, i - 1);
    assert cs1[i - 1] == merged && cs1[i] == cs[i + 1];
    assert cs1[..i - 1] == cs[..i - 1];
    assert cs1[i + 1..] == cs[i + 2..];
  }

  lemma TripleSizes(cs: seq<Chunk>, i: nat)
    requires 0 < i && i + 1 < |cs|
    ensures SumSizes(cs[i - 1..i + 2]) == cs[i - 1].size + cs[i].size + cs[i + 1].size
  {
    assert cs[i - 1..i + 2] == [cs[i - 1]] + [cs[i], cs[i + 1]];
    SizesConcat([cs[i - 1]], [cs[i], cs[i + 1]]);
    SizesSingle(cs[i - 1]);
    SizesPair(cs[i], cs[i + 1]);
  }

  lemma MergePreviousOnly(cs: seq<Chunk>, i: nat)
    requires 0 < i < |cs| && cs[i - 1].kind == FREE && !(i + 1 < |cs| && cs[i + 1].kind == FREE)
    ensures MergeFree(cs, i) == Coalesced(cs, i - 1, i + 1)
  {
    var p := cs[i - 1];
    var merged := p.(size := p.size + cs[i].size);
    var cs1 := cs[..i - 1] + [merged] + cs[i + 1..];
    assert MergeFree(cs, i) == MergeNext(cs1, i - 1) == cs1;
    assert cs[i - 1..i + 1] == [p, cs[i]];
    SizesPair(p, cs[i]);
    assert merged == Chunk(p.id, SumSizes(cs[i - 1..i + 1]), p.offset, FREE);
  }

  lemma MergeWithoutPrevious(cs: seq<Chunk>, i: nat)
    requires i < |cs| && !(i > 0 && cs[i - 1].kind == FREE)
    ensures MergeFree(cs, i) == Coalesced(cs, i, MergeHi(cs, i))
  {
    var cs1 := cs[..i] + [cs[i].(kind := FREE)] + cs[i + 1..];
    assert MergeFree(cs, i) == MergeNext(cs1, i);
    if i + 1 < |cs| && cs[i + 1].kind == FREE {
      assert cs1[i + 1] == cs[i + 1];
      assert cs1[i + 2..] == cs[i + 2..];
      assert cs1[..i] == cs[..i];
      assert cs[i..i + 2] == [cs[i], cs[i + 1]];
      SizesPair(cs[i], cs[i + 1]);
    } else {
      assert cs[i..i + 1] == [cs[i]];
      SizesSingle(cs[i]);
    }
  }

  /** Ordered chunks fit inside the span from the first one's offset to the last one's end. */
  lemma {:induction false} OrderedSpan(cs: seq<Chunk>, lo: nat, hi: nat)
    requires Ordered(cs) && lo < hi <= |cs|
    ensures cs[lo].offset + SumSizes(cs[lo..hi]) <= cs[hi - 1].offset + cs[hi - 1].size
    decreases hi - lo
  {
    if hi - lo == 1 {
      assert cs[lo..hi] == [cs[lo]];
    } else {
      assert cs[lo..hi] == [cs[lo]] + cs[lo + 1..hi];
      SizesConcat([cs[lo]], cs[lo + 1..hi]);
      OrderedSpan(cs, lo + 1, hi);
    }
  }

  /** Coalescing a window whose neighbours are in use keeps the invariant once m_allocated drops by the bytes the window had in use. */
  lemma CoalescePreservesValid(st: BlockState, blockSize: nat, lo: nat, hi: nat, allocatedSize: nat)
    requires ValidBlock(st, blockSize) && lo < hi <= |st.chunks|
    requires lo == 0 || st.chunks[lo - 1].kind != FREE
    requires hi == |st.chunks| || st.chunks[hi].kind != FREE
    requires allocatedSize + UsedSizes(st.chunks[lo..hi]) == st.allocatedSize
    ensures ValidBlock(BlockState(Coalesced(st.chunks, lo, hi), allocatedSize, st.nextId), blockSize)
  {
    var cs := st.chunks;
    var m := [Chunk(cs[lo].id, SumSizes(cs[lo..hi]), cs[lo].offset, FREE)];
    ReplaceSizes(cs, lo, hi, m);
    assert SumSizes(m) == m[0].size;
    assert UsedSizes(m) == 0;
    OrderedSpan(cs, lo, hi);
    assert cs[hi - 1].offset + cs[hi - 1].size <= blockSize;
    ReplaceOrdered(cs, lo, hi, m);
    ReplaceNoAdjacentFree(cs, lo, hi, m);
    ReplaceDistinct(cs, lo, hi, m);
    ReplaceBounded(cs, lo, hi, m, st.nextId, blockSize);
  }

  /** Free of the allocation a chunk holds: the chunk is in use with that size, or the id is unknown. */
  predicate FreeMatches(cs: seq<Chunk>, id: nat, size: nat)
  {
    var i := FindChunk(cs, id);
    i < |cs| ==> cs[i].kind != FREE && cs[i].size == size
  }

  /** Freeing a live allocation keeps the block invariant. */
  lemma BlockFreePreservesValid(st: BlockState, blockSize: nat, id: nat, size: nat)
    requires ValidBlock(st, blockSize) && FreeMatches(st.chunks, id, size)
    ensures ValidBlock(BlockFree(st, id, size), blockSize)
  {
    var i := FindChunk(st.chunks, id);
    if i < |st.chunks| {
      FreeAtPreservesValid(st, blockSize, i, size);
    }
  }

  /** Freeing the in-use chunk i, of the given size, keeps the block invariant. */
  lemma FreeAtPreservesValid(st: BlockState, blockSize: nat, i: nat, size: nat)
    requires ValidBlock(st, blockSize) && i < |st.chunks| && st.chunks[i].kind != FREE && st.chunks[i].size == size
    ensures ValidBlock(BlockState(MergeFree(st.chunks, i), U64(st.allocatedSize - size), st.nextId), blockSize)
  {
    var cs := st.chunks;
    var lo, hi := MergeLo(cs, i), MergeHi(cs, i);
    MergeFreeIsCoalesced(cs, i);
    MergeWindowBorders(cs, i);
    WindowUsed(cs, i);
    SizesSingle(cs[i]);
    FreedWithinAllocated(st, blockSize, lo, hi);
    CoalescePreservesValid(st, blockSize, lo, hi, st.allocatedSize - size);
  }

  /** The window Free coalesces has no FREE chunk on either side. */
  lemma MergeWindowBorders(cs: seq<Chunk>, i: nat)
    requires i < |cs| && NoAdjacentFree(cs)
    ensures var lo, hi := MergeLo(cs, i), MergeHi(cs, i);
      (lo == 0 || cs[lo - 1].kind != FREE) && (hi == |cs| || cs[hi].kind != FREE)
  {
    var lo, hi := MergeLo(cs, i), MergeHi(cs, i);
    if lo < i && lo > 0 { assert cs[lo].kind == FREE; }
    if hi == i + 2 && hi < |cs| { assert cs[hi - 1].kind == FREE; }
  }

  /** The bytes in use in a window are part of m_allocated. */
  lemma FreedWithinAllocated(st: BlockState, blockSize: nat, lo: nat, hi: nat)
    requires ValidBlock(st, blockSize) && lo < hi <= |st.chunks|
    ensures UsedSizes(st.chunks[lo..hi]) <= st.allocatedSize <= UINT64_MAX
  {
    ReplaceSizes(st.chunks, lo, hi, []);
    UsedAtMostSum(st.chunks);
  }

  /** Only the freed chunk itself is in use in the window Free coalesces. */
  lemma WindowUsed(cs: seq<Chunk>, i: nat)
    requires i < |cs|
    ensures UsedSizes(cs[MergeLo(cs, i)..MergeHi(cs, i)]) == UsedSizes([cs[i]])
  {
    var lo, hi := MergeLo(cs, i), MergeHi(cs, i);
    if lo < i && hi == i + 2 {
      assert cs[lo..hi] == [cs[lo]] + [cs[i], cs[i + 1]];
      SizesConcat([cs[lo]], [cs[i], cs[i + 1]]);
      SizesSingle(cs[lo]);
      SizesSingle(cs[i + 1]);
      SizesPair(cs[i], cs[i + 1]);
    } else if lo < i {
      assert cs[lo..hi] == [cs[lo], cs[i]];
      SizesSingle(cs[lo]);
      SizesPair(cs[lo], cs[i]);
    } else if hi == i + 2 {
      assert cs[lo..hi] == [cs[i], cs[i + 1]];
      SizesSingle(cs[i + 1]);
      SizesPair(cs[i], cs[i + 1]);
    } else {
      assert cs[lo..hi] == [cs[i]];
    }
  }

  /** A request that would fill a block exactly is turned down: the bound check uses `>=`. */
  lemma ExactFitRejected(blockSize: nat)
    requires 0 < blockSize <= UINT64_MAX
    ensures BlockAllocate(BlockState([Chunk(0, blockSize, 0, FREE)], 0, 1), blockSize, blockSize, 1, 1, BUFFER) == Rejected
  {
    var cs := [Chunk(0, blockSize, 0, FREE)];
    assert AlignUp(0, 1) == 0;
    assert Placement(cs, 0, 1, 1, BUFFER) == 0;
    assert SearchFrom(cs, 0, blockSize, 1, 1, BUFFER, 0, blockSize) == BlockFull;
  }

  /* The padding leak, as written and corrected */

  /**
   * As written, padding is never given back: a 1024-byte block, a 16-byte
   * request, then a 16-byte request aligned to 64 (48 bytes of padding), then
   * both freed. The block ends with one FREE chunk of 976 bytes and
   * m_allocated at 48, so EmptyGarbage never releases it.
   */
  lemma PaddingLeaksAsWritten()
    ensures var st0 := BlockState([Chunk(0, 1024, 0, FREE)], 0, 1);
            var r1 := BlockAllocate(st0, 1024, 16, 1, 1, BUFFER);
            r1.Placed? && r1.id == 0 &&
            var r2 := BlockAllocate(r1.state, 1024, 16, 64, 1, BUFFER);
            r2.Placed? && r2.id == 1 && r2.offset == 64 &&
            var st3 := BlockFree(BlockFree(r2.state, 1, 16), 0, 16);
            st3.chunks == [Chunk(0, 976, 0, FREE)] && st3.allocatedSize == 48
  {
    PaddingLeakPlacements();
    PaddingLeakFrees();
  }

  /** The two allocations of the padding-leak example. */
  lemma PaddingLeakPlacements()
    ensures BlockAllocate(BlockState([Chunk(0, 1024, 0, FREE)], 0, 1), 1024, 16, 1, 1, BUFFER)
              == Placed(BlockState([Chunk(0, 16, 0, BUFFER), Chunk(1, 1008, 16, FREE)], 16, 2), 0, 0)
    ensures BlockAllocate(BlockState([Chunk(0, 16, 0, BUFFER), Chunk(1, 1008, 16, FREE)], 16, 2), 1024, 16, 64, 1, BUFFER)
              == Placed(BlockState([Chunk(0, 16, 0, BUFFER), Chunk(1, 16, 16, BUFFER), Chunk(2, 944, 80, FREE)], 80, 3), 1, 64)
  {
    var st0 := BlockState([Chunk(0, 1024, 0, FREE)], 0, 1);
    assert AlignUp(0, 1) == 0;
    assert SearchFrom(st0.chunks, 0, 16, 1, 1, BUFFER, 0, 1024) == Chosen(0, 0);
    var st1 := BlockState([Chunk(0, 16, 0, BUFFER), Chunk(1, 1008, 16, FREE)], 16, 2);
    assert AlignUp(16, 64) == 64 by { DivModUnique(16 + 64 - 1, 64, 1, 15); }
    assert Placement(st1.chunks, 1, 64, 1, BUFFER) == 64;
    assert SearchFrom(st1.chunks, 1, 16, 64, 1, BUFFER, 16, 1024) == Chosen(1, 64);
    assert SearchFrom(st1.chunks, 0, 16, 64, 1, BUFFER, 16, 1024) == Chosen(1, 64);
  }

  /** The two frees of the padding-leak example. */
  lemma PaddingLeakFrees()
    ensures BlockFree(BlockFree(BlockState([Chunk(0, 16, 0, BUFFER), Chunk(1, 16, 16, BUFFER), Chunk(2, 944, 80, FREE)], 80, 3), 1, 16), 0, 16)
              == BlockState([Chunk(0, 976, 0, FREE)], 48, 3)
  {
    var st2 := BlockState([Chunk(0, 16, 0, BUFFER), Chunk(1, 16, 16, BUFFER), Chunk(2, 944, 80, FREE)], 80, 3);
    assert FindChunk(st2.chunks, 1) == 1;
    MergeFreeIsCoalesced(st2.chunks, 1);
    assert st2.chunks[1..3] == [Chunk(1, 16, 16, BUFFER), Chunk(2, 944, 80, FREE)];
    SizesPair(Chunk(1, 16, 16, BUFFER), Chunk(2, 944, 80, FREE));
    var st3 := BlockState([Chunk(0, 16, 0, BUFFER), Chunk(1, 960, 16, FREE)], 64, 3);
    assert BlockFree(st2, 1, 16) == st3;
    assert FindChunk(st3.chunks, 0) == 0;
    MergeFreeIsCoalesced(st3.chunks, 0);
    assert st3.chunks[0..2] == st3.chunks;
    SizesPair(st3.chunks[0], st3.chunks[1]);
  }

  /** The chunks tile the block: they start at 0, each one ends where the next begins, and the last ends at the block size. */
  predicate Tiled(cs: seq<Chunk>, blockSize: nat)
  {
    |cs| > 0 && cs[0].offset == 0 &&
    (forall k | 0 <= k < |cs| - 1 :: cs[k].offset + cs[k].size == cs[k + 1].offset) &&
    cs[|cs| - 1].offset + cs[|cs| - 1].size == blockSize
  }

  /** The evidently intended invariant: the list tiles the block and m_allocated is the bytes in use. */
  predicate ValidCorrected(st: BlockState, blockSize: nat)
  {
    ValidBlock(st, blockSize) && Tiled(st.chunks, blockSize) && st.allocatedSize == UsedSizes(st.chunks)
  }

  /** The corrected split: the chosen chunk also covers its padding, and a split happens only when bytes remain after it. */
  function PlaceCorrected(st: BlockState, i: nat, offset: nat, size: nat, t: AllocationType): BlockState
    requires i < |st.chunks| && st.chunks[i].offset <= offset
    requires offset - st.chunks[i].offset + size <= st.chunks[i].size
  {
    var c := st.chunks[i];
    var alignedSize := offset - c.offset + size;
    var taken := c.(kind := t, size := alignedSize);
    if c.size > alignedSize then
      BlockState(st.chunks[..i] + [taken, Chunk(st.nextId, c.size - alignedSize, offset + size, FREE)] + st.chunks[i + 1..],
                 st.allocatedSize + alignedSize, st.nextId + 1)
    else
      BlockState(st.chunks[..i] + [taken] + st.chunks[i + 1..], st.allocatedSize + alignedSize, st.nextId)
  }

  /** Allocate with the corrected split; the search is the one of the source. */
  function BlockAllocateCorrected(st: BlockState, blockSize: nat, size: nat, align: nat, granularity: nat, t: AllocationType): BlockAllocation
    requires align > 0
  {
    if U64(blockSize - st.allocatedSize) < size then Rejected
    else
      match SearchFrom(st.chunks, 0, size, align, granularity, t, st.allocatedSize, blockSize)
      case NoChunk => Rejected
      case BlockFull => Rejected
      case Chosen(i, offset) => Placed(PlaceCorrected(st, i, offset, size, t), st.chunks[i].id, offset)
  }

  /** Free with m_allocated dropping by the size the chunk actually held. */
  function BlockFreeCorrected(st: BlockState, id: nat): BlockState
  {
    var i := FindChunk(st.chunks, id);
    if i == |st.chunks| then st
    else BlockState(MergeFree(st.chunks, i), U64(st.allocatedSize - st.chunks[i].size), st.nextId)
  }

  lemma ReplaceTiled(cs: seq<Chunk>, lo: nat, hi: nat, m: seq<Chunk>, blockSize: nat)
    requires lo < hi <= |cs| && |m| > 0 && Tiled(cs, blockSize)
    requires forall k | 0 <= k < |m| - 1 :: m[k].offset + m[k].size == m[k + 1].offset
    requires m[0].offset == cs[lo].offset
    requires m[|m| - 1].offset + m[|m| - 1].size == cs[hi - 1].offset + cs[hi - 1].size
    ensures Tiled(cs[..lo] + m + cs[hi..], blockSize)
  {
    var ns := cs[..lo] + m + cs[hi..];
    forall k | 0 <= k < |ns| - 1
      ensures ns[k].offset + ns[k].size == ns[k + 1].offset
    {
      if k < lo - 1 {
        assert ns[k] == cs[k] && ns[k + 1] == cs[k + 1];
      } else if k == lo - 1 {
        assert ns[k] == cs[lo - 1] && ns[k + 1] == m[0];
      } else if k < lo + |m| - 1 {
        assert ns[k] == m[k - lo] && ns[k + 1] == m[k - lo + 1];
      } else if k == lo + |m| - 1 {
        assert ns[k] == m[|m| - 1] && ns[k + 1] == cs[hi];
      } else {
        assert ns[k] == cs[k - lo - |m| + hi] && ns[k + 1] == cs[k + 1 - lo - |m| + hi];
      }
    }
    if lo == 0 { assert ns[0] == m[0]; } else { assert ns[0] == cs[0]; }
    if hi == |cs| { assert ns[|ns| - 1] == m[|m| - 1]; } else { assert ns[|ns| - 1] == cs[|cs| - 1]; }
  }

  /** In a tiled list a window spans exactly its total size. */
  lemma {:induction false} TiledSpan(cs: seq<Chunk>, lo: nat, hi: nat, blockSize: nat)
    requires Tiled(cs, blockSize) && lo < hi <= |cs|
    ensures cs[lo].offset + SumSizes(cs[lo..hi]) == cs[hi - 1].offset + cs[hi - 1].size
    decreases hi - lo
  {
    if hi - lo == 1 {
      assert cs[lo..hi] == [cs[lo]];
      SizesSingle(cs[lo]);
    } else {
      assert cs[lo..hi] == [cs[lo]] + cs[lo + 1..hi];
      SizesConcat([cs[lo]], cs[lo + 1..hi]);
      SizesSingle(cs[lo]);
      TiledSpan(cs, lo + 1, hi, blockSize);
    }
  }

  /** The corrected Allocate keeps the chunks tiling the block and m_allocated equal to the bytes in use. */
  lemma CorrectedAllocatePreservesValid(st: BlockState, blockSize: nat, size: nat, align: nat, granularity: nat, t: AllocationType)
    requires align > 0 && ValidCorrected(st, blockSize) && t != FREE
    requires BlockAllocateCorrected(st, blockSize, size, align, granularity, t).Placed?
    ensures ValidCorrected(BlockAllocateCorrected(st, blockSize, size, align, granularity, t).state, blockSize)
  {
    var r := SearchFrom(st.chunks, 0, size, align, granularity, t, st.allocatedSize, blockSize);
    PlaceCorrectedPreservesValid(st, blockSize, r.index, r.offset, size, t);
  }

  /** What the corrected split puts in place of the chosen chunk `c`. */
  function CorrectedPieces(c: Chunk, offset: nat, size: nat, t: AllocationType, nextId: nat): seq<Chunk>
    requires c.offset <= offset
  {
    var alignedSize := offset - c.offset + size;
    if c.size > alignedSize then [c.(kind := t, size := alignedSize), Chunk(nextId, c.size - alignedSize, offset + size, FREE)]
    else [c.(kind := t, size := alignedSize)]
  }

  lemma PlaceCorrectedIsReplace(st: BlockState, i: nat, offset: nat, size: nat, t: AllocationType)
    requires i < |st.chunks| && st.chunks[i].offset <= offset
    requires offset - st.chunks[i].offset + size <= st.chunks[i].size
    ensures var m := CorrectedPieces(st.chunks[i], offset, size, t, st.nextId);
            PlaceCorrected(st, i, offset, size, t) ==
              BlockState(st.chunks[..i] + m + st.chunks[i + 1..], st.allocatedSize + offset - st.chunks[i].offset + size, st.nextId + |m| - 1)
  {
  }

  lemma CorrectedPiecesFacts(c: Chunk, offset: nat, size: nat, t: AllocationType, nextId: nat, blockSize: nat)
    requires c.offset <= offset && offset - c.offset + size <= c.size && t != FREE
    requires c.offset + c.size <= blockSize && c.id < nextId
    ensures var m := CorrectedPieces(c, offset, size, t, nextId);
            0 < |m| && Ordered(m) && NoAdjacentFree(m) && DistinctIds(m) && m[0].kind != FREE &&
            m[0].id == c.id && (forall k | 1 <= k < |m| :: nextId <= m[k].id < nextId + |m| - 1) &&
            c.offset == m[0].offset && m[|m| - 1].offset + m[|m| - 1].size == c.offset + c.size &&
            (forall k | 0 <= k < |m| - 1 :: m[k].offset + m[k].size == m[k + 1].offset) &&
            (forall k | 0 <= k < |m| :: m[k].offset + m[k].size <= blockSize) &&
            SumSizes(m) == c.size && UsedSizes(m) == offset - c.offset + size
  {
    var m := CorrectedPieces(c, offset, size, t, nextId);
    SizesSingle(m[0]);
    if |m| == 2 { SizesPair(m[0], m[1]); }
  }

  lemma PlaceCorrectedPreservesValid(st: BlockState, blockSize: nat, i: nat, offset: nat, size: nat, t: AllocationType)
    requires ValidCorrected(st, blockSize) && t != FREE && i < |st.chunks|
    requires st.chunks[i].kind == FREE && st.chunks[i].offset <= offset
    requires offset - st.chunks[i].offset + size <= st.chunks[i].size
    ensures ValidCorrected(PlaceCorrected(st, i, offset, size, t), blockSize)
  {
    var c := st.chunks[i];
    var alignedSize := offset - c.offset + size;
    var m := CorrectedPieces(c, offset, size, t, st.nextId);
    PlaceCorrectedIsReplace(st, i, offset, size, t);
    CorrectedPiecesFacts(c, offset, size, t, st.nextId, blockSize);
    ReplaceValid(st, blockSize, i, m, alignedSize, st.nextId + |m| - 1);
    ReplaceTiled(st.chunks, i, i + 1, m, blockSize);
    assert UsedSizes(st.chunks[..i] + m + st.chunks[i + 1..]) == UsedSizes(st.chunks) + alignedSize by {
      assert st.chunks[i..i + 1] == [c];
      SizesSingle(c);
      ReplaceSizes(st.chunks, i, i + 1, m);
    }
  }

  /** The corrected Free keeps the same invariant for any live allocation. */
  lemma CorrectedFreePreservesValid(st: BlockState, blockSize: nat, id: nat)
    requires ValidCorrected(st, blockSize)
    requires FindChunk(st.chunks, id) < |st.chunks| ==> st.chunks[FindChunk(st.chunks, id)].kind != FREE
    ensures ValidCorrected(BlockFreeCorrected(st, id), blockSize)
  {
    var i := FindChunk(st.chunks, id);
    if i < |st.chunks| {
      CorrectedFreeAt(st, blockSize, i);
    }
  }

  lemma CorrectedFreeAt(st: BlockState, blockSize: nat, i: nat)
    requires ValidCorrected(st, blockSize) && i < |st.chunks| && st.chunks[i].kind != FREE
    ensures ValidCorrected(BlockState(MergeFree(st.chunks, i), U64(st.allocatedSize - st.chunks[i].size), st.nextId), blockSize)
  {
    FreeAtPreservesValid(st, blockSize, i, st.chunks[i].size);
    CorrectedFreeTiled(st.chunks, i, blockSize);
    CorrectedFreeUsed(st, blockSize, i);
  }

  lemma CorrectedFreeTiled(cs: seq<Chunk>, i: nat, blockSize: nat)
    requires Tiled(cs, blockSize) && i < |cs|
    ensures Tiled(MergeFree(cs, i), blockSize)
  {
    var lo, hi := MergeLo(cs, i), MergeHi(cs, i);
    MergeFreeIsCoalesced(cs, i);
    var m := [Chunk(cs[lo].id, SumSizes(cs[lo..hi]), cs[lo].offset, FREE)];
    TiledSpan(cs, lo, hi, blockSize);
    ReplaceTiled(cs, lo, hi, m, blockSize);
  }

  lemma CorrectedFreeUsed(st: BlockState, blockSize: nat, i: nat)
    requires ValidCorrected(st, blockSize) && i < |st.chunks| && st.chunks[i].kind != FREE
    ensures U64(st.allocatedSize - st.chunks[i].size) == UsedSizes(MergeFree(st.chunks, i))
  {
    var cs := st.chunks;
    var lo, hi := MergeLo(cs, i), MergeHi(cs, i);
    MergeFreeIsCoalesced(cs, i);
    var m := [Chunk(cs[lo].id, SumSizes(cs[lo..hi]), cs[lo].offset, FREE)];
    WindowUsed(cs, i);
    SizesSingle(cs[i]);
    SizesSingle(m[0]);
    ReplaceSizes(cs, lo, hi, m);
    assert UsedSizes(cs) <= UINT64_MAX by { UsedAtMostSum(cs); }
  }

  /** With the correction a block whose chunks are all FREE has m_allocated back at 0. */
  lemma CorrectedEmptyBlockHasNothingAllocated(st: BlockState, blockSize: nat)
    requires ValidCorrected(st, blockSize)
    requires forall k | 0 <= k < |st.chunks| :: st.chunks[k].kind == FREE
    ensures st.allocatedSize == 0
  {
    AllFreeUnused(st.chunks);
  }

  lemma {:induction false} AllFreeUnused(cs: seq<Chunk>)
    requires forall k | 0 <= k < |cs| :: cs[k].kind == FREE
    ensures UsedSizes(cs) == 0
  {
    if |cs| > 0 {
      AllFreeUnused(cs[1..]);
    }
  }

  /* Ids still in use */

  /** The ids of the chunks that hold an allocation. */
  function InUseIds(cs: seq<Chunk>): set<nat>
  {
    if |cs| == 0 then {}
    else (if cs[0].kind != FREE then {cs[0].id} else {}) + InUseIds(cs[1..])
  }

  lemma {:induction false} InUseMember(cs: seq<Chunk>, x: nat)
    ensures x in InUseIds(cs) <==> exists k | 0 <= k < |cs| :: cs[k].kind != FREE && cs[k].id == x
  {
    if |cs| > 0 {
      InUseMember(cs[1..], x);
      if exists k | 0 <= k < |cs| :: cs[k].kind != FREE && cs[k].id == x {
        var k :| 0 <= k < |cs| && cs[k].kind != FREE && cs[k].id == x;
        if k > 0 { assert cs[1..][k - 1] == cs[k]; }
      }
      if exists k | 0 <= k < |cs| - 1 :: cs[1..][k].kind != FREE && cs[1..][k].id == x {
        var k :| 0 <= k < |cs| - 1 && cs[1..][k].kind != FREE && cs[1..][k].id == x;
        assert cs[k + 1] == cs[1..][k];
      }
    }
  }

  lemma {:induction false} InUseConcat(a: seq<Chunk>, b: seq<Chunk>)
    ensures InUseIds(a + b) == InUseIds(a) + InUseIds(b)
  {
    if |a| == 0 {
      assert a + b == b;
    } else {
      assert (a + b)[1..] == a[1..] + b;
      InUseConcat(a[1..], b);
    }
  }

  /** The window Free coalesces holds no allocation besides the freed chunk. */
  lemma WindowInUse(cs: seq<Chunk>, i: nat)
    requires i < |cs|
    ensures InUseIds(cs[MergeLo(cs, i)..MergeHi(cs, i)]) <= InUseIds([cs[i]]) <= {cs[i].id}
  {
    var lo, hi := MergeLo(cs, i), MergeHi(cs, i);
    assert cs[lo..hi] == cs[lo..i] + [cs[i]] + cs[i + 1..hi];
    InUseConcat(cs[lo..i] + [cs[i]], cs[i + 1..hi]);
    InUseConcat(cs[lo..i], [cs[i]]);
    if lo < i {
      assert cs[lo..i] == [cs[lo]];
    }
    if i + 1 < hi {
      assert cs[i + 1..hi] == [cs[i + 1]];
    }
    assert [cs[i]][1..] == [];
  }

  /** With distinct ids, the id of chunk `i` is in use nowhere outside a window around it. */
  lemma OutsideLacksId(cs: seq<Chunk>, i: nat, lo: nat, hi: nat)
    requires DistinctIds(cs) && lo <= i < hi <= |cs|
    ensures cs[i].id !in InUseIds(cs[..lo]) && cs[i].id !in InUseIds(cs[hi..])
  {
    InUseMember(cs[..lo], cs[i].id);
    InUseMember(cs[hi..], cs[i].id);
  }

  /** Coalescing around chunk `i` takes its id out of the ids in use and keeps the ids distinct. */
  lemma CoalescedInUse(cs: seq<Chunk>, i: nat)
    requires DistinctIds(cs) && i < |cs|
    ensures InUseIds(Coalesced(cs, MergeLo(cs, i), MergeHi(cs, i))) == InUseIds(cs) - {cs[i].id}
    ensures DistinctIds(Coalesced(cs, MergeLo(cs, i), MergeHi(cs, i)))
  {
    var lo, hi := MergeLo(cs, i), MergeHi(cs, i);
    var m := [Chunk(cs[lo].id, SumSizes(cs[lo..hi]), cs[lo].offset, FREE)];
    assert Coalesced(cs, lo, hi) == cs[..lo] + m + cs[hi..];
    assert DistinctIds(cs[..lo] + m + cs[hi..]) by {
      ReplaceDistinct(cs, lo, hi, m);
    }
    assert InUseIds(cs[..lo] + m + cs[hi..]) == InUseIds(cs[..lo]) + InUseIds(cs[hi..]) by {
      InUseConcat(cs[..lo] + m, cs[hi..]);
      InUseConcat(cs[..lo], m);
      assert m[1..] == [];
    }
    assert InUseIds(cs) == InUseIds(cs[..lo]) + InUseIds(cs[lo..hi]) + InUseIds(cs[hi..]) by {
      SplitThree(cs, lo, hi);
      InUseConcat(cs[..lo] + cs[lo..hi], cs[hi..]);
      InUseConcat(cs[..lo], cs[lo..hi]);
    }
    assert InUseIds(cs[lo..hi]) <= {cs[i].id} && cs[i].id !in InUseIds(cs[..lo]) && cs[i].id !in InUseIds(cs[hi..]) by {
      WindowInUse(cs, i);
      OutsideLacksId(cs, i, lo, hi);
    }
    DropFromUnion(InUseIds(cs[..lo]), InUseIds(cs[lo..hi]), InUseIds(cs[hi..]), cs[i].id);
  }

  lemma SplitThree(cs: seq<Chunk>, lo: nat, hi: nat)
    requires lo <= hi <= |cs|
    ensures cs == cs[..lo] + cs[lo..hi] + cs[hi..]
  {
    assert cs[..hi] == cs[..lo] + cs[lo..hi];
  }

  lemma DropFromUnion(p: set<nat>, w: set<nat>, q: set<nat>, x: nat)
    requires w <= {x} && x !in p && x !in q
    ensures (p + w + q) - {x} == p + q
  {
  }

  /**
   * Free takes exactly the freed id out of the ids in use, whether or not the
   * id was known, and keeps the ids distinct.
   */
  lemma BlockFreeInUse(st: BlockState, id: nat, size: nat)
    requires DistinctIds(st.chunks)
    ensures InUseIds(BlockFree(st, id, size).chunks) == InUseIds(st.chunks) - {id}
    ensures DistinctIds(BlockFree(st, id, size).chunks)
  {
    var i := FindChunk(st.chunks, id);
    if i == |st.chunks| {
      InUseMember(st.chunks, id);
    } else {
      MergeFreeIsCoalesced(st.chunks, i);
      CoalescedInUse(st.chunks, i);
    }
  }

  /* The block and the allocator as objects */

  /** The loop of Free stops at FindChunk's index. */
  lemma FindChunkIs(cs: seq<Chunk>, id: nat, i: nat)
    requires i <= |cs| && (i < |cs| ==> cs[i].id == id)
    requires forall j | 0 <= j < i :: cs[j].id != id
    ensures FindChunk(cs, id) == i
  {
  }

  /** Marking chunk `i` FREE and folding it into a FREE predecessor is the first half of MergeFree. */
  lemma MarkFreeThenMergePrevious(cs: seq<Chunk>, i: nat)
    requires i < |cs|
    ensures var list := cs[i := cs[i].(kind := FREE)];
            if i > 0 && list[i - 1].kind == FREE then
              MergeFree(cs, i) == MergeNext(list[..i - 1] + [list[i - 1].(size := list[i - 1].size + list[i].size)] + list[i + 1..], i - 1)
            else
              MergeFree(cs, i) == MergeNext(list, i)
  {
    var list := cs[i := cs[i].(kind := FREE)];
    if i > 0 && list[i - 1].kind == FREE {
      MarkedSlices(cs, i);
    } else {
      MarkedSplit(cs, i);
    }
  }

  lemma MarkedSlices(cs: seq<Chunk>, i: nat)
    requires 0 < i < |cs|
    ensures var list := cs[i := cs[i].(kind := FREE)];
      list[..i - 1] == cs[..i - 1] && list[i + 1..] == cs[i + 1..] && list[i - 1] == cs[i - 1]
  {
  }

  lemma MarkedSplit(cs: seq<Chunk>, i: nat)
    requires i < |cs|
    ensures cs[i := cs[i].(kind := FREE)] == cs[..i] + [cs[i].(kind := FREE)] + cs[i + 1..]
  {
  }

  /** vulkanAllocation_t without the device-memory handle and the mapped pointer. */
  /* The layout a block keeps whatever is freed */

  /**
   * The chunk layout of a block: the chunks lie in increasing order
   * without overlap, each inside the block, with distinct ids below
   * m_nextBlockId. Unlike ValidBlock it says nothing of m_allocated, so
   * it survives a Free of any size, and it holds of a new block's empty
   * list.
   */
  predicate Layout(st: BlockState, blockSize: nat)
  {
    Ordered(st.chunks) &&
    (forall k | 0 <= k < |st.chunks| :: st.chunks[k].id < st.nextId && st.chunks[k].offset + st.chunks[k].size <= blockSize) &&
    DistinctIds(st.chunks)
  }

  /** In an ordered list a chunk ends before any later chunk starts. */
  lemma {:induction false} ChunksDisjoint(cs: seq<Chunk>, j: nat, k: nat)
    requires Ordered(cs) && j < k < |cs|
    ensures cs[j].offset + cs[j].size <= cs[k].offset
    decreases k - j
  {
    if k > j + 1 {
      ChunksDisjoint(cs, j, k - 1);
    }
  }

  /**
   * Any two chunks of a block, and so any two live allocations' chunks,
   * occupy disjoint byte ranges inside the block.
   */
  lemma LayoutDisjoint(st: BlockState, blockSize: nat)
    requires Layout(st, blockSize)
    ensures forall j, k | 0 <= j < k < |st.chunks| :: st.chunks[j].offset + st.chunks[j].size <= st.chunks[k].offset
    ensures forall k | 0 <= k < |st.chunks| :: st.chunks[k].offset + st.chunks[k].size <= blockSize
  {
    forall j, k | 0 <= j < k < |st.chunks|
      ensures st.chunks[j].offset + st.chunks[j].size <= st.chunks[k].offset
    {
      ChunksDisjoint(st.chunks, j, k);
    }
  }

  /** The chunk BlockAllocate places into, with the placement it computes. */
  lemma PlacedChunk(st: BlockState, blockSize: nat, size: nat, align: nat, granularity: nat, t: AllocationType)
    returns (i: nat, offset: nat)
    requires align > 0 && BlockAllocate(st, blockSize, size, align, granularity, t).Placed?
    ensures i < |st.chunks| && st.chunks[i].kind == FREE && st.chunks[i].offset <= offset
    ensures offset - st.chunks[i].offset + size <= st.chunks[i].size
    ensures BlockAllocate(st, blockSize, size, align, granularity, t) ==
            Placed(Place(st, i, offset, size, t), st.chunks[i].id, offset)
  {
    var r := SearchFrom(st.chunks, 0, size, align, granularity, t, st.allocatedSize, blockSize);
    i, offset := r.index, r.offset;
  }

  /** The pieces Place puts where chunk `i` was. */
  function PlacedPieces(st: BlockState, i: nat, offset: nat, size: nat, t: AllocationType): seq<Chunk>
    requires i < |st.chunks| && st.chunks[i].offset <= offset
    requires offset - st.chunks[i].offset + size <= st.chunks[i].size
  {
    var c := st.chunks[i];
    if c.size > size then [c.(kind := t, size := size), Chunk(st.nextId, c.size - (offset - c.offset + size), offset + size, FREE)]
    else [c.(kind := t, size := size)]
  }

  /** Allocating keeps the layout, for any allocation type. */
  lemma BlockAllocateKeepsLayout(st: BlockState, blockSize: nat, size: nat, align: nat, granularity: nat, t: AllocationType)
    requires align > 0 && Layout(st, blockSize)
    requires BlockAllocate(st, blockSize, size, align, granularity, t).Placed?
    ensures Layout(BlockAllocate(st, blockSize, size, align, granularity, t).state, blockSize)
  {
    var i, offset := PlacedChunk(st, blockSize, size, align, granularity, t);
    var cs, c := st.chunks, st.chunks[i];
    var m := PlacedPieces(st, i, offset, size, t);
    var next := if c.size > size then st.nextId + 1 else st.nextId;
    assert Place(st, i, offset, size, t) == BlockState(cs[..i] + m + cs[i + 1..], Place(st, i, offset, size, t).allocatedSize, next);
    PlacedPiecesFit(st, blockSize, i, offset, size, t);
    ReplaceOrdered(cs, i, i + 1, m);
    ReplaceDistinct(cs, i, i + 1, m);
    ReplaceBounded(cs, i, i + 1, m, next, blockSize);
  }

  /** The pieces fit where chunk `i` was, as the Replace lemmas need. */
  lemma PlacedPiecesFit(st: BlockState, blockSize: nat, i: nat, offset: nat, size: nat, t: AllocationType)
    requires Layout(st, blockSize) && i < |st.chunks| && st.chunks[i].offset <= offset
    requires offset - st.chunks[i].offset + size <= st.chunks[i].size
    ensures var cs, m := st.chunks, PlacedPieces(st, i, offset, size, t);
            var next := if cs[i].size > size then st.nextId + 1 else st.nextId;
            |m| > 0 && Ordered(m) && DistinctIds(m) &&
            (i > 0 ==> cs[i - 1].offset + cs[i - 1].size <= m[0].offset) &&
            (i + 1 < |cs| ==> m[|m| - 1].offset + m[|m| - 1].size <= cs[i + 1].offset) &&
            (forall j, k | 0 <= j < |m| && 0 <= k < |cs| && !(i <= k < i + 1) :: m[j].id != cs[k].id) &&
            (forall k | 0 <= k < |cs| :: cs[k].id < next && cs[k].offset + cs[k].size <= blockSize) &&
            (forall k | 0 <= k < |m| :: m[k].id < next && m[k].offset + m[k].size <= blockSize)
  {
    var cs, m := st.chunks, PlacedPieces(st, i, offset, size, t);
    forall j, k | 0 <= j < |m| && 0 <= k < |cs| && !(i <= k < i + 1)
      ensures m[j].id != cs[k].id
    {
      if j == 0 {
        assert m[j].id == cs[i].id;
      } else {
        assert m[j].id == st.nextId;
      }
    }
  }

  /**
   * The allocation BlockAllocate hands out, [offset, offset + size), lies
   * inside the block and overlaps no chunk of the new list but the one
   * that records it.
   */
  lemma PlacedAllocationDisjoint(st: BlockState, blockSize: nat, size: nat, align: nat, granularity: nat, t: AllocationType)
    requires align > 0 && Layout(st, blockSize)
    requires BlockAllocate(st, blockSize, size, align, granularity, t).Placed?
    ensures var r := BlockAllocate(st, blockSize, size, align, granularity, t);
            r.offset + size <= blockSize &&
            forall k | 0 <= k < |r.state.chunks| && r.state.chunks[k].id != r.id ::
              r.state.chunks[k].offset + r.state.chunks[k].size <= r.offset || r.offset + size <= r.state.chunks[k].offset
  {
    var i, offset := PlacedChunk(st, blockSize, size, align, granularity, t);
    var cs, c := st.chunks, st.chunks[i];
    var m := PlacedPieces(st, i, offset, size, t);
    var ns := cs[..i] + m + cs[i + 1..];
    assert Place(st, i, offset, size, t).chunks == ns;
    forall k | 0 <= k < |ns| && ns[k].id != c.id
      ensures ns[k].offset + ns[k].size <= offset || offset + size <= ns[k].offset
    {
      if k < i {
        assert ns[k] == cs[k];
        ChunksDisjoint(cs, k, i);
      } else if k < i + |m| {
        assert k == i + 1 && ns[k] == m[1];
      } else {
        assert ns[k] == cs[k - |m| + 1];
        ChunksDisjoint(cs, i, k - |m| + 1);
      }
    }
  }

  /** Freeing keeps the layout, whatever id and size are passed. */
  lemma BlockFreeKeepsLayout(st: BlockState, blockSize: nat, id: nat, size: nat)
    requires Layout(st, blockSize)
    ensures Layout(BlockFree(st, id, size), blockSize)
  {
    var cs := st.chunks;
    var i := FindChunk(cs, id);
    if i < |cs| {
      var lo, hi := MergeLo(cs, i), MergeHi(cs, i);
      MergeFreeIsCoalesced(cs, i);
      var m := [Chunk(cs[lo].id, SumSizes(cs[lo..hi]), cs[lo].offset, FREE)];
      OrderedSpan(cs, lo, hi);
      if hi < |cs| {
        ChunksDisjoint(cs, hi - 1, hi);
      }
      ReplaceOrdered(cs, lo, hi, m);
      ReplaceDistinct(cs, lo, hi, m);
      ReplaceBounded(cs, lo, hi, m, st.nextId, blockSize);
    }
  }

  datatype Allocation = Allocation(block: VulkanBlock?, id: nat, offset: nat, size: nat)

  /** A default-constructed allocation: no block, everything zero. */
  const NoAllocation: Allocation := Allocation(null, 0, 0, 0)

  /** idVulkanBlock: one device-memory block carved into chunks. */
  class VulkanBlock {
    const memoryTypeIndex: nat
    const usage: MemoryUsage
    const blockSize: nat
    var chunks: seq<Chunk>
    var allocatedSize: nat
    var nextBlockId: nat

    function State(): BlockState
      reads this
    {
      BlockState(chunks, allocatedSize, nextBlockId)
    }

    /** The chunk list keeps the block's layout. */
    predicate Valid()
      reads this
    {
      Layout(State(), blockSize)
    }

    constructor (memoryTypeIndex: nat, blockSize: nat, usage: MemoryUsage)
      ensures this.memoryTypeIndex == memoryTypeIndex && this.blockSize == blockSize && this.usage == usage
      ensures State() == BlockState([], 0, 0) && Valid()
    {
      this.memoryTypeIndex := memoryTypeIndex;
      this.blockSize := blockSize;
      this.usage := usage;
      chunks := [];
      allocatedSize := 0;
      nextBlockId := 0;
    }

    /**
     * Fails when the type index is the 64-bit sentinel or the device memory
     * could not be had (`deviceMemoryOk`); otherwise one FREE head chunk
     * covers the whole block.
     */
    method Init(deviceMemoryOk: bool) returns (ok: bool)
      modifies this
      ensures ok <==> memoryTypeIndex != UINT64_MAX && deviceMemoryOk
      ensures ok ==> State() == BlockState([Chunk(old(nextBlockId), blockSize, 0, FREE)], old(allocatedSize), old(nextBlockId) + 1)
      ensures ok ==> Valid()
      ensures !ok ==> State() == old(State())
    {
      if memoryTypeIndex == UINT64_MAX {
        return false;
      }
      if !deviceMemoryOk {
        return false;
      }
      chunks := [Chunk(nextBlockId, blockSize, 0, FREE)];
      nextBlockId := nextBlockId + 1;
      return true;
    }

    /** The first-fit loop over the chunk list, proved to do what BlockAllocate says. */
    method Allocate(size: nat, align: nat, granularity: nat, allocType: AllocationType) returns (ok: bool, allocation: Allocation)
      requires align > 0 && Valid()
      modifies this
      ensures Valid()
      ensures ok ==> allocation.offset + size <= blockSize &&
                     forall k | 0 <= k < |chunks| && chunks[k].id != allocation.id ::
                       chunks[k].offset + chunks[k].size <= allocation.offset || allocation.offset + size <= chunks[k].offset
      ensures var r := BlockAllocate(old(State()), blockSize, size, align, granularity, allocType);
              (ok <==> r.Placed?) &&
              (ok ==> State() == r.state && allocation == Allocation(this, r.id, r.offset, size)) &&
              (!ok ==> State() == old(State()) && allocation == NoAllocation)
      ensures !ok ==> unchanged(this)
    {
      allocation := NoAllocation;
      var st := State();
      if U64(blockSize - allocatedSize) < size {
        assert BlockAllocate(st, blockSize, size, align, granularity, allocType) == Rejected;
        return false, allocation;
      }
      var r := SearchChunks(chunks, size, align, granularity, allocType, allocatedSize, blockSize);
      if !r.Chosen? {
        assert BlockAllocate(st, blockSize, size, align, granularity, allocType) == Rejected;
        return false, allocation;
      }
      var id := chunks[r.index].id;
      var placed := Place(st, r.index, r.offset, size, allocType);
      assert BlockAllocate(st, blockSize, size, align, granularity, allocType) == Placed(placed, id, r.offset);
      BlockAllocateKeepsLayout(st, blockSize, size, align, granularity, allocType);
      PlacedAllocationDisjoint(st, blockSize, size, align, granularity, allocType);
      chunks, allocatedSize, nextBlockId := placed.chunks, placed.allocatedSize, placed.nextId;
      allocation := Allocation(this, id, r.offset, size);
      return true, allocation;
    }

    /** The first-fit loop over the chunk list, proved to search as SearchFrom does. */
    static method SearchChunks(cs: seq<Chunk>, size: nat, align: nat, granularity: nat, allocType: AllocationType,
                               inUse: nat, blockSize: nat) returns (r: Search)
      requires align > 0
      ensures r == SearchFrom(cs, 0, size, align, granularity, allocType, inUse, blockSize)
    {
      var i := 0;
      while i < |cs|
        invariant i <= |cs|
        invariant SearchFrom(cs, 0, size, align, granularity, allocType, inUse, blockSize)
               == SearchFrom(cs, i, size, align, granularity, allocType, inUse, blockSize)
      {
        var current := cs[i];
        if current.kind != FREE || size > current.size {
          i := i + 1;
          continue;
        }
        var offset := AlignUp(current.offset, align);
        if i > 0 && granularity > 1 {
          var previous := cs[i - 1];
          if IsOnSamePage(previous.offset, previous.size, offset, granularity) && HasGranularityConflict(previous.kind, allocType) {
            offset := AlignUp(offset, granularity);
          }
        }
        assert offset == Placement(cs, i, align, granularity, allocType);
        var alignedSize := offset - current.offset + size;
        if alignedSize > current.size {
          i := i + 1;
          continue;
        }
        if alignedSize + inUse >= blockSize {
          return BlockFull;
        }
        if granularity > 1 && i + 1 < |cs| {
          var next := cs[i + 1];
          if IsOnSamePage(offset, size, next.offset, granularity) && HasGranularityConflict(allocType, next.kind) {
            i := i + 1;
            continue;
          }
        }
        return Chosen(i, offset);
      }
      return NoChunk;
    }

    /** The pointer surgery of Free on the chunk list: mark chunk `i` FREE, fold it into a FREE predecessor, then fold a FREE successor in. */
    static method Coalesce(cs: seq<Chunk>, i: nat) returns (list: seq<Chunk>)
      requires i < |cs|
      ensures list == MergeFree(cs, i)
    {
      list := cs[i := cs[i].(kind := FREE)];
      var current := i;
      if current > 0 && list[current - 1].kind == FREE {
        var prev := list[current - 1];
        list := list[..current - 1] + [prev.(size := prev.size + list[current].size)] + list[current + 1..];
        current := current - 1;
      }
      MarkFreeThenMergePrevious(cs, i);
      if current + 1 < |list| && list[current + 1].kind == FREE {
        var next := list[current + 1];
        list := list[..current] + [list[current].(size := list[current].size + next.size)] + list[current + 2..];
      }
    }

    /**
     * Finds the chunk by id (an unknown id only draws a warning), marks it
     * FREE, merges it into a FREE predecessor and then a FREE successor, and
     * takes the allocation's size off m_allocated.
     */
    method Free(allocation: Allocation)
      requires Valid()
      modifies this
      ensures Valid()
      ensures State() == BlockFree(old(State()), allocation.id, allocation.size)
    {
      ghost var st := State();
      var cs := chunks;
      var i := 0;
      while i < |cs| && cs[i].id != allocation.id
        invariant i <= |cs|
        invariant forall j | 0 <= j < i :: cs[j].id != allocation.id
      {
        i := i + 1;
      }
      FindChunkIs(cs, allocation.id, i);
      if i == |cs| {
        return;
      }
      var list := Coalesce(cs, i);
      chunks := list;
      allocatedSize := U64(allocatedSize - allocation.size);
      assert State() == BlockFree(st, allocation.id, allocation.size);
      BlockFreeKeepsLayout(st, blockSize, allocation.id, allocation.size);
    }
  }

  /* The allocator */

  /** No block is listed twice. */
  predicate NoDuplicates(s: seq<VulkanBlock>)
  {
    forall i, j | 0 <= i < j < |s| :: s[i] != s[j]
  }

  /** idList::Remove: drops the first occurrence of `x`, if any. */
  function Remove(s: seq<VulkanBlock>, x: VulkanBlock): (r: seq<VulkanBlock>)
    ensures forall y | y in r :: y in s
    ensures forall y | y in s && y != x :: y in r
    ensures NoDuplicates(s) ==> NoDuplicates(r) && x !in r
  {
    if |s| == 0 then []
    else if s[0] == x then s[1..]
    else
      var rest := Remove(s[1..], x);
      assert NoDuplicates(s) ==> s[0] !in s[1..];
      [s[0]] + rest
  }

  /** A cvar in megabytes times 1024 * 1024 in 32-bit int arithmetic, then widened to the unsigned 64-bit VkDeviceSize. */
  function MegabytesToBytes(mb: int): (r: nat)
    ensures 0 <= mb < 2048 ==> r == mb * 0x10_0000
  {
    U64(Int32(mb * 1024 * 1024))
  }

  /** From 2048 MB on the product leaves the int range and the block size becomes enormous. */
  lemma MegabytesWrapAt2048()
    ensures MegabytesToBytes(2048) == UINT64_MAX + 1 - 0x8000_0000
  {
  }

  datatype AllocateResult = FatalError | Allocated(allocation: Allocation)

  /** The blocks the allocations of a garbage slot point into. */
  ghost function SlotBlocks(slot: seq<Allocation>): set<VulkanBlock?>
  {
    set a | a in slot :: a.block
  }

  /** The ids a garbage slot frees in block `b`. */
  ghost function FreedIds(slot: seq<Allocation>, b: VulkanBlock): set<nat>
  {
    set a | a in slot && a.block == b :: a.id
  }

  lemma FreedIdsStep(slot: seq<Allocation>, i: nat)
    requires i < |slot|
    ensures forall b: VulkanBlock :: FreedIds(slot[..i + 1], b) == FreedIds(slot[..i], b) + (if slot[i].block == b then {slot[i].id} else {})
    ensures SlotBlocks(slot[..i + 1]) == SlotBlocks(slot[..i]) + {slot[i].block}
  {
    assert slot[..i + 1] == slot[..i] + [slot[i]];
  }

  lemma MinusStep(all: set<nat>, freed: set<nat>, x: nat)
    ensures all - freed - {x} == all - (freed + {x})
  {
  }

  /** idVulkanAllocator: per memory type a list of blocks, and NUM_FRAME_DATA garbage lists of deferred frees. */
  class VulkanAllocator {
    var garbageIndex: nat
    var garbage: seq<seq<Allocation>>
    var blocks: seq<seq<VulkanBlock>>
    var deviceLocalMemoryBytes: nat
    var hostVisibleMemoryBytes: nat
    var bufferImageGranularity: nat
    /** The property flags of the device's memory types. */
    const memoryTypes: seq<bv32>

    /**
     * The lists are indexed by memory type and list no block twice; every
     * listed block, and every block a deferred free points into, keeps its
     * layout, and deferred frees point into real blocks of a valid type.
     */
    ghost predicate Valid()
      reads this, AllBlocks()
    {
      |garbage| == NUM_FRAME_DATA && garbageIndex < NUM_FRAME_DATA &&
      |blocks| == VK_MAX_MEMORY_TYPES && |memoryTypes| <= VK_MAX_MEMORY_TYPES &&
      (forall k, b | 0 <= k < |blocks| && b in blocks[k] :: b.memoryTypeIndex == k) &&
      (forall k | 0 <= k < |blocks| :: NoDuplicates(blocks[k])) &&
      (forall k, a | 0 <= k < |garbage| && a in garbage[k] :: a.block != null && a.block.memoryTypeIndex < VK_MAX_MEMORY_TYPES) &&
      (forall b | b in AllBlocks() :: b.Valid())
    }

    /** The listed blocks and those the deferred frees point into. */
    ghost function AllBlocks(): set<VulkanBlock>
      reads this
    {
      Blocks() + GarbageBlocks()
    }

    ghost function Blocks(): set<VulkanBlock>
      reads this
    {
      set k, b | 0 <= k < |blocks| && b in blocks[k] :: b
    }

    /** The blocks the deferred frees point into. */
    ghost function GarbageBlocks(): set<VulkanBlock>
      reads this
    {
      set k, a | 0 <= k < |garbage| && a in garbage[k] && a.block != null :: a.block
    }

    constructor (memoryTypes: seq<bv32>)
      requires |memoryTypes| <= VK_MAX_MEMORY_TYPES
      ensures Valid() && this.memoryTypes == memoryTypes
      ensures garbageIndex == 0 && deviceLocalMemoryBytes == 0 && hostVisibleMemoryBytes == 0 && bufferImageGranularity == 0
      ensures forall k | 0 <= k < |garbage| :: garbage[k] == []
      ensures forall k | 0 <= k < |blocks| :: blocks[k] == []
    {
      this.memoryTypes := memoryTypes;
      garbageIndex := 0;
      garbage := seq(NUM_FRAME_DATA, _ => []);
      blocks := seq(VK_MAX_MEMORY_TYPES, _ => []);
      deviceLocalMemoryBytes := 0;
      hostVisibleMemoryBytes := 0;
      bufferImageGranularity := 0;
    }

    /** Reads the two size cvars (in megabytes) and the device's bufferImageGranularity. */
    method Init(deviceLocalMB: int, hostVisibleMB: int, granularity: nat)
      requires Valid()
      modifies this
      ensures Valid() && garbage == old(garbage) && garbageIndex == old(garbageIndex) && blocks == old(blocks)
      ensures deviceLocalMemoryBytes == MegabytesToBytes(deviceLocalMB)
      ensures hostVisibleMemoryBytes == MegabytesToBytes(hostVisibleMB)
      ensures bufferImageGranularity == granularity
    {
      deviceLocalMemoryBytes := MegabytesToBytes(deviceLocalMB);
      hostVisibleMemoryBytes := MegabytesToBytes(hostVisibleMB);
      bufferImageGranularity := granularity;
    }

    /**
     * Tries the blocks of the chosen memory type in order and else opens a
     * new block (device-local size for GPU_ONLY, host-visible size
     * otherwise). The allocation from a new block is returned even when the
     * block could not place it, as the default allocation with no block.
     */
    method Allocate(size: nat, align: nat, memoryTypeBits: bv32, usage: MemoryUsage, allocType: AllocationType, deviceMemoryOk: bool)
      returns (r: AllocateResult)
      requires Valid() && align > 0
      modifies this, Blocks()
      ensures Valid() && garbage == old(garbage) && garbageIndex == old(garbageIndex)
      ensures var index := MemoryTypeChoice(memoryTypes, memoryTypeBits, usage);
              (index == UINT32_MAX ==> r == FatalError) &&
              (r == FatalError ==> index == UINT32_MAX || !deviceMemoryOk) &&
              (r.Allocated? ==> index < VK_MAX_MEMORY_TYPES) &&
              (r.Allocated? && r.allocation.block != null ==> r.allocation.block in blocks[index] && r.allocation.size == size)
      ensures forall k, b | 0 <= k < |blocks| && b in old(blocks[k]) :: b in blocks[k]
      ensures r.Allocated? && r.allocation.block != null ==>
                var b := r.allocation.block;
                var before := if b in old(Blocks()) then old(b.State()) else InitialBlock(b.blockSize);
                BlockAllocate(before, b.blockSize, size, align, bufferImageGranularity, allocType) == Placed(b.State(), r.allocation.id, r.allocation.offset)
      ensures var index := MemoryTypeChoice(memoryTypes, memoryTypeBits, usage);
              r.Allocated? && index < VK_MAX_MEMORY_TYPES ==>
                var list := old(blocks[index]);
                (forall j, c | 0 <= j < c < |list| && list[c] == r.allocation.block ::
                   !BlockAllocate(old(list[j].State()), list[j].blockSize, size, align, bufferImageGranularity, allocType).Placed?) &&
                (r.allocation.block !in list ==>
                   forall j | 0 <= j < |list| ::
                     !BlockAllocate(old(list[j].State()), list[j].blockSize, size, align, bufferImageGranularity, allocType).Placed?)
      ensures forall b | b in old(Blocks()) && !(r.Allocated? && b == r.allocation.block) :: b.State() == old(b.State())
    {
      var index := FindMemoryTypeIndex(memoryTypeBits, usage, memoryTypes);
      if index == UINT32_MAX {
        return FatalError;
      }
      ghost var list := blocks[index];
      var found, allocation, chosen := AllocateFromList(index, size, align, allocType);
      if found {
        assert forall c | 0 <= c < |list| && list[c] == allocation.block :: c == chosen by {
          assert NoDuplicates(list);
        }
        return Allocated(allocation);
      }
      assert forall j | 0 <= j < |list| ::
        !BlockAllocate(old(list[j].State()), list[j].blockSize, size, align, bufferImageGranularity, allocType).Placed?;
      var blockSize := if usage == GPU_ONLY then deviceLocalMemoryBytes else hostVisibleMemoryBytes;
      var madeBlock;
      madeBlock, allocation := AllocateFromNewBlock(index, blockSize, usage, size, align, allocType, deviceMemoryOk);
      if !madeBlock {
        return FatalError;
      }
      return Allocated(allocation);
    }

    /**
     * Opens a block of `blockSize` bytes for memory type `index`, appends it
     * to that type's list and allocates from it.
     */
    method AllocateFromNewBlock(index: nat, blockSize: nat, usage: MemoryUsage, size: nat, align: nat, allocType: AllocationType,
                                deviceMemoryOk: bool) returns (madeBlock: bool, allocation: Allocation)
      requires Valid() && align > 0 && index < VK_MAX_MEMORY_TYPES
      modifies this
      ensures Valid() && garbage == old(garbage) && garbageIndex == old(garbageIndex)
      ensures madeBlock == deviceMemoryOk
      ensures !madeBlock ==> blocks == old(blocks)
      ensures forall k, b | 0 <= k < |blocks| && b in old(blocks[k]) :: b in blocks[k]
      ensures forall b | b in old(Blocks()) :: b.State() == old(b.State()) && b != allocation.block
      ensures bufferImageGranularity == old(bufferImageGranularity)
      ensures allocation.block != null ==>
                var b := allocation.block;
                madeBlock && fresh(b) && b in blocks[index] && allocation.size == size &&
                BlockAllocate(InitialBlock(b.blockSize), b.blockSize, size, align, bufferImageGranularity, allocType)
                  == Placed(b.State(), allocation.id, allocation.offset)
    {
      allocation := NoAllocation;
      var block := new VulkanBlock(index, blockSize, usage);
      madeBlock := block.Init(deviceMemoryOk);
      if !madeBlock {
        return;
      }
      assert block.State() == InitialBlock(blockSize);
      AppendBlock(block);
      var placed;
      placed, allocation := AllocateIn(block, size, align, allocType);
    }

    /** m_blocks[memoryTypeIndex].Append: a new block joins the list of its memory type. */
    method AppendBlock(block: VulkanBlock)
      requires Valid() && block.Valid() && block.memoryTypeIndex < VK_MAX_MEMORY_TYPES && block !in AllBlocks()
      modifies this
      ensures Valid() && garbage == old(garbage) && garbageIndex == old(garbageIndex)
      ensures blocks == old(blocks)[block.memoryTypeIndex := old(blocks[block.memoryTypeIndex]) + [block]]
      ensures Blocks() == old(Blocks()) + {block}
      ensures bufferImageGranularity == old(bufferImageGranularity)
      ensures deviceLocalMemoryBytes == old(deviceLocalMemoryBytes) && hostVisibleMemoryBytes == old(hostVisibleMemoryBytes)
    {
      var index := block.memoryTypeIndex;
      var list := blocks[index];
      assert forall b | b in list :: b in Blocks();
      blocks := blocks[index := list + [block]];
      assert NoDuplicates(list + [block]) by {
        forall i, j | 0 <= i < j < |list| + 1
          ensures (list + [block])[i] != (list + [block])[j]
        {
          if j == |list| { assert (list + [block])[i] == list[i]; }
        }
      }
      assert Blocks() == old(Blocks()) + {block} by {
        assert block in blocks[index];
        forall b | b in Blocks()
          ensures b in old(Blocks()) || b == block
        {
          var k :| 0 <= k < |blocks| && b in blocks[k];
          assert k != index ==> b in old(blocks[k]);
        }
        forall b | b in old(Blocks())
          ensures b in Blocks()
        {
          var k :| 0 <= k < |blocks| && b in old(blocks[k]);
          if k == index {
            assert b in list + [block];
          } else {
            assert b in blocks[k];
          }
        }
      }
    }

    /** The first part of Allocate: the blocks listed for memory type `index` are tried in order. */
    method AllocateFromList(index: nat, size: nat, align: nat, allocType: AllocationType)
      returns (ok: bool, allocation: Allocation, ghost chosen: nat)
      requires Valid() && align > 0 && index < VK_MAX_MEMORY_TYPES
      modifies Blocks()
      ensures Valid()
      ensures ok ==> chosen < |blocks[index]| && allocation.block == blocks[index][chosen] && allocation.size == size &&
                     var b := allocation.block;
                     b in old(Blocks()) &&
                     BlockAllocate(old(b.State()), b.blockSize, size, align, bufferImageGranularity, allocType) ==
                       Placed(b.State(), allocation.id, allocation.offset)
      ensures !ok ==> chosen == |blocks[index]| && unchanged(Blocks())
      ensures forall j | 0 <= j < chosen <= |blocks[index]| ::
                !BlockAllocate(old(blocks[index][j].State()), blocks[index][j].blockSize, size, align, bufferImageGranularity, allocType).Placed?
      ensures forall b | b in old(Blocks()) && (ok ==> b != allocation.block) :: b.State() == old(b.State())
    {
      var list := blocks[index];
      var i := 0;
      while i < |list|
        invariant i <= |list| && list == blocks[index]
        invariant unchanged(Blocks())
        invariant Valid()
        invariant forall j | 0 <= j < i && list[j].memoryTypeIndex == index ::
                    !BlockAllocate(list[j].State(), list[j].blockSize, size, align, bufferImageGranularity, allocType).Placed?
      {
        var block := list[i];
        if block.memoryTypeIndex != index {
          i := i + 1;
          continue;
        }
        assert block in blocks[index] && block in Blocks();
        ok, allocation := AllocateIn(block, size, align, allocType);
        if ok {
          chosen := i;
          return;
        }
        i := i + 1;
      }
      assert forall j | 0 <= j < |list| :: list[j] in blocks[index];
      return false, NoAllocation, |list|;
    }

    /** A listed block tries to place the allocation; every other block is left as it was. */
    method AllocateIn(block: VulkanBlock, size: nat, align: nat, allocType: AllocationType) returns (ok: bool, allocation: Allocation)
      requires Valid() && align > 0 && block in Blocks()
      modifies block
      ensures Valid()
      ensures var r := BlockAllocate(old(block.State()), block.blockSize, size, align, bufferImageGranularity, allocType);
              (ok <==> r.Placed?) &&
              (ok ==> allocation.block == block && allocation.size == size && r == Placed(block.State(), allocation.id, allocation.offset)) &&
              (!ok ==> allocation == NoAllocation && unchanged(block))
    {
      ok, allocation := block.Allocate(size, align, bufferImageGranularity, allocType);
    }

    /** Defers the free: the allocation joins the garbage list of the current frame. */
    method Free(allocation: Allocation)
      requires Valid()
      requires allocation.block != null && allocation.block.memoryTypeIndex < VK_MAX_MEMORY_TYPES && allocation.block.Valid()
      modifies this
      ensures Valid() && blocks == old(blocks) && garbageIndex == old(garbageIndex)
      ensures garbage == old(garbage)[garbageIndex := old(garbage)[garbageIndex] + [allocation]]
    {
      garbage := garbage[garbageIndex := garbage[garbageIndex] + [allocation]];
    }

    /** The body of EmptyGarbage's loop: free one allocation and drop its block from its list when nothing is left allocated in it. */
    method Release(allocation: Allocation)
      requires Valid() && allocation.block != null
      requires allocation.block.memoryTypeIndex < VK_MAX_MEMORY_TYPES && allocation.block.Valid()
      modifies this, allocation.block
      ensures Valid() && garbage == old(garbage) && garbageIndex == old(garbageIndex)
      ensures allocation.block.Valid()
      ensures InUseIds(allocation.block.chunks) == old(InUseIds(allocation.block.chunks)) - {allocation.id}
      ensures forall k, b | 0 <= k < |blocks| && b in blocks[k] :: b in old(blocks[k])
      ensures forall k, b | 0 <= k < |blocks| && b in old(blocks[k]) && b != allocation.block :: b in blocks[k]
      ensures allocation.block.allocatedSize == 0 ==> allocation.block !in blocks[allocation.block.memoryTypeIndex]
    {
      var block := allocation.block;
      BlockFreeInUse(block.State(), allocation.id, allocation.size);
      block.Free(allocation);
      if block.allocatedSize == 0 {
        blocks := blocks[block.memoryTypeIndex := Remove(blocks[block.memoryTypeIndex], block)];
      }
    }

    /**
     * Moves to the next garbage slot and frees everything in it; a block
     * left with nothing allocated is removed from its list. Then the slot
     * is emptied.
     */
    method EmptyGarbage()
      requires Valid()
      modifies this, SlotBlocks(garbage[(garbageIndex + 1) % NUM_FRAME_DATA])
      ensures Valid()
      ensures garbageIndex == (old(garbageIndex) + 1) % NUM_FRAME_DATA
      ensures garbage == old(garbage)[garbageIndex := []]
      ensures forall b: VulkanBlock | b in SlotBlocks(old(garbage)[garbageIndex]) ::
                b.Valid() && InUseIds(b.chunks) == old(InUseIds(b.chunks)) - FreedIds(old(garbage)[garbageIndex], b)
      ensures forall k, b | 0 <= k < |blocks| && b in blocks[k] :: b in old(blocks[k])
      ensures forall k, b | 0 <= k < |blocks| && b in old(blocks[k]) && b !in SlotBlocks(old(garbage)[garbageIndex]) :: b in blocks[k]
      ensures forall b: VulkanBlock | b in SlotBlocks(old(garbage)[garbageIndex]) && b.allocatedSize == 0 :: b !in blocks[b.memoryTypeIndex]
    {
      garbageIndex := (garbageIndex + 1) % NUM_FRAME_DATA;
      ReleaseAll();
      garbage := garbage[garbageIndex := []];
    }

    /** EmptyGarbage's loop: every allocation of the current garbage slot is released in turn. */
    method ReleaseAll()
      requires Valid()
      modifies this, SlotBlocks(garbage[garbageIndex])
      ensures Valid() && garbage == old(garbage) && garbageIndex == old(garbageIndex)
      ensures forall b: VulkanBlock | b in SlotBlocks(garbage[garbageIndex]) ::
                b.Valid() && InUseIds(b.chunks) == old(InUseIds(b.chunks)) - FreedIds(garbage[garbageIndex], b)
      ensures forall k, b | 0 <= k < |blocks| && b in blocks[k] :: b in old(blocks[k])
      ensures forall k, b | 0 <= k < |blocks| && b in old(blocks[k]) && b !in SlotBlocks(garbage[garbageIndex]) :: b in blocks[k]
      ensures forall b: VulkanBlock | b in SlotBlocks(garbage[garbageIndex]) && b.allocatedSize == 0 :: b !in blocks[b.memoryTypeIndex]
    {
      var slot := garbage[garbageIndex];
      ghost var inUse0 := map b: VulkanBlock | b in SlotBlocks(slot) :: InUseIds(b.chunks);
      ghost var blocks0 := blocks;
      var i := 0;
      while i < |slot|
        invariant garbage == old(garbage) && garbageIndex == old(garbageIndex) && i <= |slot| && slot == garbage[garbageIndex]
        invariant Valid() && blocks0 == old(blocks) && |blocks| == |blocks0|
        invariant forall b: VulkanBlock | b in SlotBlocks(slot) ::
                    b in inUse0 && inUse0[b] == old(InUseIds(b.chunks)) && b.Valid() && InUseIds(b.chunks) == inUse0[b] - FreedIds(slot[..i], b)
        invariant forall k, b | 0 <= k < |blocks| && b in blocks[k] :: b in blocks0[k]
        invariant forall k, b | 0 <= k < |blocks| && b in blocks0[k] && b !in SlotBlocks(slot[..i]) :: b in blocks[k]
        invariant forall b: VulkanBlock | b in SlotBlocks(slot[..i]) && b.allocatedSize == 0 :: b !in blocks[b.memoryTypeIndex]
      {
        ReleaseNext(slot, i, inUse0, blocks0);
        i := i + 1;
      }
      assert slot[..i] == slot;
    }

    /** One turn of ReleaseAll's loop, stated against the id sets and lists the loop started from. */
    method ReleaseNext(slot: seq<Allocation>, i: nat, ghost inUse0: map<VulkanBlock, set<nat>>, ghost blocks0: seq<seq<VulkanBlock>>)
      requires Valid() && slot == garbage[garbageIndex] && i < |slot| && |blocks| == |blocks0|
      requires forall b: VulkanBlock | b in SlotBlocks(slot) ::
                 b in inUse0 && b.Valid() && InUseIds(b.chunks) == inUse0[b] - FreedIds(slot[..i], b)
      requires forall k, b | 0 <= k < |blocks| && b in blocks[k] :: b in blocks0[k]
      requires forall k, b | 0 <= k < |blocks| && b in blocks0[k] && b !in SlotBlocks(slot[..i]) :: b in blocks[k]
      requires forall b: VulkanBlock | b in SlotBlocks(slot[..i]) && b.allocatedSize == 0 :: b !in blocks[b.memoryTypeIndex]
      modifies this, slot[i].block
      ensures Valid() && garbage == old(garbage) && garbageIndex == old(garbageIndex) && |blocks| == |blocks0|
      ensures forall b: VulkanBlock | b in SlotBlocks(slot) ::
                b.Valid() && InUseIds(b.chunks) == inUse0[b] - FreedIds(slot[..i + 1], b)
      ensures forall b: VulkanBlock | b in SlotBlocks(slot) && b != slot[i].block :: unchanged(b)
      ensures forall k, b | 0 <= k < |blocks| && b in blocks[k] :: b in blocks0[k]
      ensures forall k, b | 0 <= k < |blocks| && b in blocks0[k] && b !in SlotBlocks(slot[..i + 1]) :: b in blocks[k]
      ensures forall b: VulkanBlock | b in SlotBlocks(slot[..i + 1]) && b.allocatedSize == 0 :: b !in blocks[b.memoryTypeIndex]
    {
      var allocation := slot[i];
      assert allocation.block in SlotBlocks(slot) && allocation.block in AllBlocks();
      Release(allocation);
      FreedIdsStep(slot, i);
      forall b: VulkanBlock | b in SlotBlocks(slot)
        ensures InUseIds(b.chunks) == inUse0[b] - FreedIds(slot[..i + 1], b)
      {
        if b == allocation.block {
          MinusStep(inUse0[b], FreedIds(slot[..i], b), allocation.id);
        }
      }
    }
  }
}

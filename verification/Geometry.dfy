/**
  Geometry and 64-bit arithmetic: bytesNeeded(), the control block written by create(),
  validate(), freeSlots(), usedSlots() and the index updates, in wrapping unsigned
  arithmetic.  size_t is 64 bits wide.
*/
module Geometry {
  import opened Machine
  import opened Positions

  const MAX: nat := U64 - 1
  const MAGIC: nat := 0x5348_4d53_5053_4331
  const VERSION: nat := 1

  function Add64(x: nat, y: nat): nat { (x + y) % U64 }
  function Sub64(x: nat, y: nat): nat { (x - y) % U64 }
  function Mul64(x: nat, y: nat): nat { (x * y) % U64 }

  // ---------------------------------------------------------------- indices

  function FreeSlots(capacity: nat, w: nat, r: nat): nat {
    Sub64(if r > w then Sub64(r, w) else Sub64(Add64(r, capacity), w), 1)
  }

  function UsedSlots(capacity: nat, w: nat, r: nat): nat {
    if w >= r then Sub64(w, r) else Sub64(Add64(w, capacity), r)
  }

  /** One step on, back to slot 0 from the last slot. */
  function NextIndex(capacity: nat, index: nat): nat {
    var next := Add64(index, 1);
    if next == capacity then 0 else next
  }

  /** `count` steps on, less one lap if that reaches the slot count. */
  function NextBatchIndex(capacity: nat, index: nat, count: nat): nat {
    var next := Add64(index, count);
    if next >= capacity then Sub64(next, capacity) else next
  }

  /** For every slot count and every pair of indices, r + capacity_ wrapping or not. */
  lemma SlotCountsExact(capacity: nat, w: nat, r: nat)
    requires capacity < U64 && w < capacity && r < capacity
    ensures FreeSlots(capacity, w, r) == Free(capacity, w, r)
    ensures UsedSlots(capacity, w, r) == Used(capacity, w, r)
    ensures FreeSlots(capacity, w, r) + UsedSlots(capacity, w, r) == capacity - 1
  {
    if r <= w {
      WrapThenSubtract(r, capacity, w);
    } else {
      WrapThenSubtract(w, capacity, r);
    }
  }

  lemma WrapThenSubtract(x: nat, y: nat, z: nat)
    requires x < U64 && y < U64 && z < U64 && 0 <= x + y - z < U64
    ensures Sub64(Add64(x, y), z) == x + y - z
  {
  }

  /** try_push and pop() advance by one exactly, whatever the slot count. */
  lemma NextIndexExact(capacity: nat, p: nat)
    requires 0 < capacity < U64
    ensures NextIndex(capacity, Slot(p, capacity)) == Slot(p + 1, capacity)
  {
    SlotAdd(p, 1, capacity);
  }

  /**
    A batch advances to the slot of (position + count) exactly when index + count does
    not wrap 64 bits.
  */
  lemma NextBatchIndexExact(capacity: nat, p: nat, count: nat)
    requires 0 < capacity < U64 && count < capacity
    ensures NextBatchIndex(capacity, Slot(p, capacity), count) == Slot(p + count, capacity)
            <==> Slot(p, capacity) + count < U64
  {
    SlotAdd(p, count, capacity);
    var index := Slot(p, capacity);
    if index + count >= U64 {
      assert Add64(index, count) == index + count - U64;
    }
  }

  lemma NextBatchIsWrap(capacity: nat, index: nat, count: nat)
    requires index < capacity <= U64 / 2 && count < capacity
    ensures NextBatchIndex(capacity, index, count) == Wrap(index + count, capacity)
  {
  }

  /** Up to 2^63 slots no batch can wrap. */
  lemma NextBatchIndexSafe(capacity: nat, p: nat, count: nat)
    requires 0 < capacity <= U64 / 2 && count < capacity
    ensures NextBatchIndex(capacity, Slot(p, capacity), count) == Slot(p + count, capacity)
  {
    NextBatchIndexExact(capacity, p, count);
  }

  /** One slot past 2^63 a wrapping batch exists, and it publishes a wrong index. */
  lemma NextBatchIndexWraps()
    ensures var capacity, index, count := U64 / 2 + 1, U64 / 2, U64 / 2;
            index < capacity && count < capacity &&
            NextBatchIndex(capacity, index, count) == 0 && Wrap(index + count, capacity) != 0
  {
  }

  // ---------------------------------------------------------------- layout

  /** sizeof(T), alignof(T) and the cache line the binary was compiled for. */
  datatype Layout = Layout(elemSize: nat, elemAlign: nat, cacheLine: nat)

  /** What the compiler guarantees of a layout; the size of the control block fits its 32-bit field. */
  predicate ValidLayout(l: Layout) {
    1 <= l.elemSize <= MAX && 1 <= l.elemAlign <= l.cacheLine && 64 <= l.cacheLine && BlockSize(l) < U32
  }

  function BlockSize(l: Layout): nat { 4 * l.cacheLine }

  datatype Result<+T> = Ok(value: T) | Throws

  function BytesNeeded(l: Layout, capacity: nat): Result<nat>
    requires ValidLayout(l)
  {
    if capacity == MAX || Add64(capacity, 1) > (MAX - BlockSize(l)) / l.elemSize then Throws
    else Ok(Add64(BlockSize(l), Mul64(Add64(capacity, 1), l.elemSize)))
  }

  /** bytesNeeded throws exactly when the true size does not fit, and is that size otherwise. */
  lemma BytesNeededExact(l: Layout, capacity: nat)
    requires ValidLayout(l) && capacity <= MAX
    ensures BytesNeeded(l, capacity).Throws? <==> BlockSize(l) + (capacity + 1) * l.elemSize > MAX
    ensures BytesNeeded(l, capacity).Ok? ==>
              BytesNeeded(l, capacity).value == BlockSize(l) + (capacity + 1) * l.elemSize
  {
    if capacity < MAX {
      FitsIff(capacity + 1, BlockSize(l), l.elemSize);
    } else {
      MulAtLeast(capacity + 1, l.elemSize);
    }
  }

  /** The division test, and the size once it passes. */
  lemma FitsIff(slots: nat, header: nat, e: nat)
    requires e >= 1 && header <= MAX
    ensures slots > (MAX - header) / e <==> header + slots * e > MAX
    ensures header + slots * e <= MAX ==> Add64(header, Mul64(slots, e)) == header + slots * e
  {
    QuotientBound(slots, MAX - header, e);
    var product := slots * e;
    if header + product <= MAX {
      assert Mul64(slots, e) == product % U64 == product;
    }
  }

  lemma MulAtLeast(x: nat, e: nat)
    requires e >= 1
    ensures x * e >= x
  {
  }

  lemma QuotientBound(x: nat, room: nat, e: nat)
    requires e >= 1
    ensures x > room / e <==> x * e > room
  {
    var q := room / e;
    assert q * e <= room < q * e + e;
    if x > q {
      assert x * e >= (q + 1) * e;
    } else {
      assert x * e <= q * e;
    }
  }

  // ---------------------------------------------------------------- control block

  /** The geometry fields of the control block, as stored. */
  datatype Block = Block(magic: nat, version: nat, cacheLineSize: nat, elemSize: nat, elemAlign: nat,
                         capacity: nat, slotsOffset: nat, totalBytes: nat)

  /** The block create() writes for a requested capacity, if it gets that far. */
  function CreateBlock(l: Layout, requested: nat): Result<Block>
    requires ValidLayout(l)
  {
    var capacity := if requested < 1 then 1 else requested;
    var slots := Add64(capacity, 1);
    match BytesNeeded(l, capacity)
    case Throws => Throws
    case Ok(bytes) => Ok(Filled(l, slots, bytes))
  }

  /** The fields as create() assigns them, the smaller ones cut to 32 bits. */
  function Filled(l: Layout, slots: nat, bytes: nat): Block {
    Block(MAGIC, VERSION, l.cacheLine % U32, l.elemSize % U32, l.elemAlign % U32, slots, BlockSize(l) % U32, bytes)
  }

  function Needed(l: Layout, b: Block): nat {
    Add64(b.slotsOffset, Mul64(b.capacity, l.elemSize))
  }

  /** validate() on a block found in a mapping of `mapped` bytes. */
  predicate Validate(l: Layout, b: Block, mapped: nat) {
    && b.magic == MAGIC
    && b.version == VERSION
    && b.cacheLineSize == l.cacheLine
    && b.elemSize == l.elemSize && b.elemAlign == l.elemAlign
    && Needed(l, b) <= b.totalBytes <= mapped
  }

  /** Every slot lies inside the mapping. */
  ghost predicate SlotsFit(l: Layout, b: Block, mapped: nat) {
    forall i: nat :: i < b.capacity ==> SlotEnd(l, b, i) <= mapped
  }

  function SlotEnd(l: Layout, b: Block, i: nat): nat {
    b.slotsOffset + i * l.elemSize + l.elemSize
  }

  lemma LastSlot(l: Layout, b: Block, i: nat)
    requires i < b.capacity
    ensures SlotEnd(l, b, i) <= SlotEnd(l, b, b.capacity - 1) == b.slotsOffset + b.capacity * l.elemSize
  {
  }

  lemma FilledExactly(l: Layout, capacity: nat, bytes: nat)
    requires ValidLayout(l) && capacity < MAX
    ensures var b := Filled(l, Add64(capacity, 1), bytes);
            b.capacity == capacity + 1 && b.slotsOffset == BlockSize(l) && b.totalBytes == bytes
  {
  }

  /** What create() writes: at least two slots, and a declared size that is the true one. */
  lemma CreatedBlock(l: Layout, requested: nat)
    requires ValidLayout(l) && requested <= MAX && CreateBlock(l, requested).Ok?
    ensures var b := CreateBlock(l, requested).value;
            && b.capacity == (if requested < 1 then 1 else requested) + 1 && b.slotsOffset == BlockSize(l)
            && b.totalBytes == BlockSize(l) + b.capacity * l.elemSize <= MAX
            && Needed(l, b) == b.totalBytes
  {
    var capacity := if requested < 1 then 1 else requested;
    BytesNeededExact(l, capacity);
    FitsIff(capacity + 1, BlockSize(l), l.elemSize);
    FilledExactly(l, capacity, BytesNeeded(l, capacity).value);
  }

  /**
    A block written by create() is accepted by validate() for the same layout exactly
    when the mapping is large enough and sizeof(T) survives the cast to 32 bits.
  */
  lemma CreatedBlockAccepted(l: Layout, requested: nat, mapped: nat)
    requires ValidLayout(l) && requested <= MAX && CreateBlock(l, requested).Ok?
    ensures var b := CreateBlock(l, requested).value;
            Validate(l, b, mapped) <==> l.elemSize < U32 && b.totalBytes <= mapped
  {
    CreatedBlock(l, requested);
  }

  /**
    Whatever two builds meet: a block written for layout w is accepted by an attacher of layout l
    exactly when cache line and alignment agree, the attacher's element size is what 32 bits kept of
    the writer's, and the mapping is large enough.
  */
  lemma CreatedBlockAcceptedIff(l: Layout, w: Layout, requested: nat, mapped: nat)
    requires ValidLayout(l) && ValidLayout(w) && requested <= MAX && CreateBlock(w, requested).Ok?
    ensures var b := CreateBlock(w, requested).value;
            Validate(l, b, mapped) <==>
              && l.cacheLine == w.cacheLine && l.elemAlign == w.elemAlign && l.elemSize == w.elemSize % U32
              && b.totalBytes <= mapped
  {
    var b := CreateBlock(w, requested).value;
    CreatedBlock(w, requested);
    CutFields(w, requested);
    if l.cacheLine == w.cacheLine && l.elemSize == w.elemSize % U32 {
      SmallerNeedsLess(l, b, w.elemSize);
    }
  }

  lemma CutFields(w: Layout, requested: nat)
    requires ValidLayout(w) && CreateBlock(w, requested).Ok?
    ensures var b := CreateBlock(w, requested).value;
            && b.magic == MAGIC && b.version == VERSION && b.cacheLineSize == w.cacheLine
            && b.elemAlign == w.elemAlign && b.elemSize == w.elemSize % U32
  {
  }

  lemma SmallerNeedsLess(l: Layout, b: Block, elemSize: nat)
    requires l.elemSize <= elemSize && b.slotsOffset + b.capacity * elemSize < U64
    ensures Needed(l, b) <= b.slotsOffset + b.capacity * elemSize
  {
    assert b.capacity * l.elemSize <= b.capacity * elemSize;
    NoWrap(l, b);
  }

  /** Builds whose element sizes fit 32 bits understand each other exactly when their layouts are the same. */
  lemma SameLayoutOnly(l: Layout, w: Layout, requested: nat, mapped: nat)
    requires ValidLayout(l) && ValidLayout(w) && w.elemSize < U32 && requested <= MAX && CreateBlock(w, requested).Ok?
    ensures var b := CreateBlock(w, requested).value;
            Validate(l, b, mapped) <==> l == w && b.totalBytes <= mapped
  {
    CreatedBlockAcceptedIff(l, w, requested, mapped);
    CutsNothing(w.elemSize);
    assert l == w <==> l.cacheLine == w.cacheLine && l.elemAlign == w.elemAlign && l.elemSize == w.elemSize;
  }

  lemma CutsNothing(x: nat)
    requires x < U32
    ensures x % U32 == x
  {
  }

  /** A block once accepted is refused with any other magic, version, cache line, element size or alignment. */
  lemma EveryFieldChecked(l: Layout, b: Block, mapped: nat, x: nat)
    requires Validate(l, b, mapped)
    ensures x != b.magic ==> !Validate(l, b.(magic := x), mapped)
    ensures x != b.version ==> !Validate(l, b.(version := x), mapped)
    ensures x != b.cacheLineSize ==> !Validate(l, b.(cacheLineSize := x), mapped)
    ensures x != b.elemSize ==> !Validate(l, b.(elemSize := x), mapped)
    ensures x != b.elemAlign ==> !Validate(l, b.(elemAlign := x), mapped)
    ensures x > mapped ==> !Validate(l, b.(totalBytes := x), mapped)
  {
  }

  // Byte offsets in the control block, one cache line each.
  function WriteIdxAt(l: Layout): nat { l.cacheLine }
  function ReadIdxAt(l: Layout): nat { 2 * l.cacheLine }
  function GuardAt(l: Layout): nat { 3 * l.cacheLine }

  /**
    In a created segment the two indices, of 8 bytes each, are on lines of their own, and the first
    slot comes right behind the guard line: no slot shares a line with either index.
  */
  lemma SlotsBehindGuard(l: Layout, requested: nat, i: nat)
    requires ValidLayout(l) && requested <= MAX && CreateBlock(l, requested).Ok?
    requires i < CreateBlock(l, requested).value.capacity
    ensures WriteIdxAt(l) + 8 <= ReadIdxAt(l) && ReadIdxAt(l) + 8 <= GuardAt(l)
    ensures var b := CreateBlock(l, requested).value;
            && b.slotsOffset == GuardAt(l) + l.cacheLine
            && GuardAt(l) + l.cacheLine <= SlotEnd(l, b, i) - l.elemSize
  {
    CreatedBlock(l, requested);
  }

  /** create() fails exactly when the geometry does not fit size_t. */
  lemma CreateFails(l: Layout, requested: nat)
    requires ValidLayout(l) && requested <= MAX
    ensures CreateBlock(l, requested).Throws? <==>
              BlockSize(l) + ((if requested < 1 then 1 else requested) + 1) * l.elemSize > MAX
  {
    BytesNeededExact(l, if requested < 1 then 1 else requested);
  }

  /**
    Whatever block an attacher finds: once accepted, its slots fit the mapping exactly
    when the size computation did not wrap.
  */
  lemma AcceptedBlockFits(l: Layout, b: Block, mapped: nat)
    requires ValidLayout(l) && Validate(l, b, mapped) && mapped <= MAX && b.slotsOffset < U32
    ensures SlotsFit(l, b, mapped) <==> b.slotsOffset + b.capacity * l.elemSize < U64
  {
    var total := b.slotsOffset + b.capacity * l.elemSize;
    if total < U64 {
      NoWrap(l, b);
      forall i: nat | i < b.capacity ensures SlotEnd(l, b, i) <= mapped {
        LastSlot(l, b, i);
      }
    } else {
      LastSlot(l, b, b.capacity - 1);
      assert SlotEnd(l, b, b.capacity - 1) > mapped;
    }
  }

  lemma NoWrap(l: Layout, b: Block)
    requires b.slotsOffset + b.capacity * l.elemSize < U64
    ensures Needed(l, b) == b.slotsOffset + b.capacity * l.elemSize
  {
  }

  /** Every block create() writes, accepted by an attacher of the same layout, keeps its slots inside. */
  lemma CreatedBlockFits(l: Layout, requested: nat, mapped: nat)
    requires ValidLayout(l) && requested <= MAX && mapped <= MAX && CreateBlock(l, requested).Ok?
    requires Validate(l, CreateBlock(l, requested).value, mapped)
    ensures SlotsFit(l, CreateBlock(l, requested).value, mapped)
  {
    CreatedBlock(l, requested);
    AcceptedBlockFits(l, CreateBlock(l, requested).value, mapped);
  }

  /** A forged block whose size wraps to nothing is accepted although its slots run off the mapping. */
  lemma ForgedBlockAccepted()
    ensures var l := Layout(2, 2, 64);
            var b := Block(MAGIC, VERSION, 64, 2, 2, U64 / 2, 256, 256);
            ValidLayout(l) && Validate(l, b, 4096) && !SlotsFit(l, b, 4096)
  {
    var l := Layout(2, 2, 64);
    var b := Block(MAGIC, VERSION, 64, 2, 2, U64 / 2, 256, 256);
    assert SlotEnd(l, b, 4096) > 4096;
  }

  // ---------------------------------------------------------------- what validate() does not look at

  /**
    On a fresh ring freeSlots() stays below the slot count exactly when there is a slot, and lets
    something in as well exactly when there are two.
  */
  lemma FreshRingNeedsSlots(capacity: nat)
    requires capacity < U64
    ensures FreeSlots(capacity, 0, 0) < capacity <==> capacity >= 1
    ensures 0 < FreeSlots(capacity, 0, 0) < capacity <==> capacity >= 2
  {
    if capacity >= 1 {
      SlotCountsExact(capacity, 0, 0);
    }
  }

  /** A block without slots is accepted, and a batch of any size would be granted. */
  lemma SlotlessBlockAccepted()
    ensures var l := Layout(8, 8, 64);
            var b := Block(MAGIC, VERSION, 64, 8, 8, 0, 256, 256);
            ValidLayout(l) && Validate(l, b, 4096) && FreeSlots(b.capacity, 0, 0) == MAX
  {
  }

  /** No slot overlaps the control block. */
  ghost predicate SlotsClear(l: Layout, b: Block) {
    forall i: nat :: i < b.capacity ==> SlotEnd(l, b, i) - l.elemSize >= BlockSize(l)
  }

  /** Accepted or not, slots and control block are apart exactly when the declared offset is past the block. */
  lemma SlotsClearIff(l: Layout, b: Block)
    ensures SlotsClear(l, b) <==> b.capacity == 0 || b.slotsOffset >= BlockSize(l)
  {
    assert SlotEnd(l, b, 0) - l.elemSize == b.slotsOffset;
  }

  /** A block whose slots start on top of the control block is accepted. */
  lemma OverlappingBlockAccepted()
    ensures var l := Layout(8, 8, 64);
            var b := Block(MAGIC, VERSION, 64, 8, 8, 2, 0, 16);
            ValidLayout(l) && Validate(l, b, 4096) && !SlotsClear(l, b)
  {
    var l := Layout(8, 8, 64);
    var b := Block(MAGIC, VERSION, 64, 8, 8, 2, 0, 16);
    NoWrap(l, b);
    SlotsClearIff(l, b);
  }

  /** An element of 2^32 + 8 bytes is created with its size cut to 8, and then refused by every attacher. */
  lemma HugeElementRefused(mapped: nat)
    ensures var l := Layout(U32 + 8, 8, 64);
            && ValidLayout(l) && CreateBlock(l, 1).Ok? && CreateBlock(l, 1).value.elemSize == 8
            && !Validate(l, CreateBlock(l, 1).value, mapped)
  {
    var l := Layout(U32 + 8, 8, 64);
    CreateFails(l, 1);
    CreatedBlockAccepted(l, 1, mapped);
  }
}

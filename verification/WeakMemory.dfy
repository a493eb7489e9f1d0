/**
  The ring under acquire/release visibility.

  One producer and one consumer, bound; a role may change hands after a clean detach, whose release
  store of the pid slot the successor's compare-and-swap acquires, so that everything the previous
  owner did happens before everything its successor does.  An acquire load of the peer's index may return any
  index stored since the last one seen; a word read may return any write that no later write
  known to the reader supersedes.  Knowledge travels only through release stores and acquire
  loads of the two indices and is kept as vector clocks: each side counts its own events and
  knows a prefix of the other's (happens-before, ISO C++17 sections 4.7.1 [intro.races] and
  32.4 [atomics.order]).  Slots are plain memory, so two conflicting accesses not ordered by
  happens-before would be a data race.
*/
module WeakMemory {
  import opened Positions
  import opened System

  /** A write to one word, stamped with the producer's clock. */
  datatype Write = Write(word: Word, epoch: nat)

  /**
    One word of one slot: all writes so far, oldest first (the first is the initial memory), and the
    last read: the consumer's clock, and one more than the position being read (0: never read).
  */
  datatype Cell = Cell(writes: seq<Write>, readEpoch: nat, readNext: nat) {
    function Initial(): Word { if writes == [] then 0 else writes[0].word }
  }

  /** A release store of an index: the position it stands for and the storing side's clock. */
  datatype Release = Release(position: nat, epoch: nat)

  /**
    One side: its clock, how much of the peer's it knows, which of the peer's index stores it saw
    last, the cached index, and where it is in its current call.
  */
  datatype Side = Side(clock: nat, knows: nat, seen: nat, cache: nat, phase: Phase)

  /** Words are addressed by slot and offset. */
  type Cells = map<(nat, nat), Cell>

  datatype Weak = Weak(cells: Cells, writeIdx: seq<Release>, readIdx: seq<Release>,
                       producer: Side, consumer: Side, published: seq<Item>, delivered: seq<Item>)
  {
    function P(): nat { |published| }
    function C(): nat { |delivered| }
    /** The peer's position as of the index store seen last. */
    function RC(): nat
      requires producer.seen < |readIdx|
    { readIdx[producer.seen].position }
    function WC(): nat
      requires consumer.seen < |writeIdx|
    { writeIdx[consumer.seen].position }
  }

  datatype Move =
    | BeginPush(src: seq<Item>)
    | GrantPush
    | ReloadPush(j: nat)
    | WriteWord(i: nat, k: nat)
    | Publish
    | BeginPop(want: nat, zeroCopy: bool)
    | GrantPop
    | ReloadPop(j: nat)
    | ReadWord(i: nat, k: nat, t: nat)
    | Consume
    | Abandon
    | HandOverProducer(j: nat)
    | HandOverConsumer(j: nat)

  /** A write is visible unless a later one is already known to the reader. */
  predicate Visible(c: Cell, knows: nat, t: nat) {
    t < |c.writes| && forall u :: t < u < |c.writes| ==> c.writes[u].epoch > knows
  }

  predicate InRun(cfg: Config, cells: Cells, ph: Phase, i: nat, k: nat)
    requires ph.Writing? || ph.Reading?
  {
    ph.own < cfg.n && i < ph.count <= cfg.n && (RunSlot(cfg.n, ph.own, ph.count, i), k) in cells
  }

  /** The word at offset k of the i-th item of the run being copied. */
  function Address(cfg: Config, cells: Cells, ph: Phase, i: nat, k: nat): (p: (nat, nat))
    requires (ph.Writing? || ph.Reading?) && InRun(cfg, cells, ph, i, k)
    ensures p in cells
  {
    (RunSlot(cfg.n, ph.own, ph.count, i), k)
  }

  predicate InRange(cfg: Config, own: nat, cache: nat) { own < cfg.n && cache < cfg.n }

  predicate CanWrite(cfg: Config, s: Weak, i: nat, k: nat) {
    var ph := s.producer.phase;
    ph.Writing? && InRun(cfg, s.cells, ph, i, k) && i < |ph.src| && k < |ph.src[i]|
  }

  predicate CanRead(cfg: Config, s: Weak, i: nat, k: nat, t: nat) {
    var ph := s.consumer.phase;
    ph.Reading? && InRun(cfg, s.cells, ph, i, k) &&
    Visible(s.cells[Address(cfg, s.cells, ph, i, k)], s.consumer.knows, t)
  }

  /**
    A successor starts from the snapshot it took before its claim, of whichever index store that
    load returned, however old, as long as it falls in the window (see module Takeover).
  */
  predicate CanMove(cfg: Config, s: Weak, a: Move) {
    var pp, cp := s.producer.phase, s.consumer.phase;
    match a
    case BeginPush(src) => pp.Idle? && src != [] && AreItems(cfg, src) && s.writeIdx != [] && cfg.n > 0
    case GrantPush =>
      pp.PushLoaded? && InRange(cfg, pp.own, s.producer.cache) && Free(cfg.n, pp.own, s.producer.cache) >= |pp.src|
    case ReloadPush(j) =>
      pp.PushLoaded? && InRange(cfg, pp.own, s.producer.cache) && Free(cfg.n, pp.own, s.producer.cache) < |pp.src| &&
      s.producer.seen <= j < |s.readIdx|
    case WriteWord(i, k) => CanWrite(cfg, s, i, k)
    case Publish => pp.Writing? && Words(cfg, pp.count) <= pp.done && pp.count <= |pp.src|
    case BeginPop(want, zeroCopy) =>
      cp.Idle? && want >= 1 && (zeroCopy ==> want == 1) && s.readIdx != [] && cfg.n > 0
    case GrantPop =>
      cp.PopLoaded? && InRange(cfg, cp.own, s.consumer.cache) && Used(cfg.n, s.consumer.cache, cp.own) >= cp.want
    case ReloadPop(j) =>
      cp.PopLoaded? && InRange(cfg, cp.own, s.consumer.cache) && Used(cfg.n, s.consumer.cache, cp.own) < cp.want &&
      s.consumer.seen <= j < |s.writeIdx|
    case ReadWord(i, k, t) => CanRead(cfg, s, i, k, t)
    case Consume => CanTake(cfg, s)
    case Abandon => cp.Reading? && cp.zeroCopy
    case HandOverProducer(j) => pp.Idle? && cfg.n > 0 && j < |s.readIdx| && s.P() < s.readIdx[j].position + cfg.n
    case HandOverConsumer(j) => cp.Idle? && cfg.n > 0 && j < |s.writeIdx| && s.C() <= s.writeIdx[j].position
  }

  function Max(a: nat, b: nat): nat { if a >= b then a else b }

  /** The index a release store put into memory. */
  function Index(cfg: Config, r: Release): nat
    requires cfg.n > 0
  {
    Slot(r.position, cfg.n)
  }

  function Acquire(cfg: Config, side: Side, stores: seq<Release>, j: nat): Side
    requires cfg.n > 0 && j < |stores|
  {
    side.(seen := j, cache := Index(cfg, stores[j]), knows := Max(side.knows, stores[j].epoch))
  }

  function Moved(cfg: Config, s: Weak, a: Move): Weak
    requires CanMove(cfg, s, a)
  {
    var pd, cn := s.producer, s.consumer;
    match a
    case BeginPush(src) =>
      s.(producer := pd.(phase := PushLoaded(src, Index(cfg, s.writeIdx[|s.writeIdx| - 1]))))
    case GrantPush => s.(producer := pd.(phase := Writing(pd.phase.src, pd.phase.own, |pd.phase.src|, {})))
    case ReloadPush(j) => s.(producer := Refreshed(cfg, Acquire(cfg, pd, s.readIdx, j)))
    case WriteWord(i, k) => AfterWrite(cfg, s, i, k)
    case Publish =>
      s.(published := s.published + pd.phase.src[..pd.phase.count],
         writeIdx := s.writeIdx + [Release(s.P() + pd.phase.count, pd.clock)],
         producer := pd.(phase := Idle))
    case BeginPop(want, zeroCopy) =>
      s.(consumer := cn.(phase := PopLoaded(want, Index(cfg, s.readIdx[|s.readIdx| - 1]), zeroCopy)))
    case GrantPop => s.(consumer := cn.(phase := Reading(cn.phase.own, cn.phase.want, cn.phase.zeroCopy, map[])))
    case ReloadPop(j) => s.(consumer := Found(cfg, Acquire(cfg, cn, s.writeIdx, j)))
    case ReadWord(i, k, t) => AfterRead(cfg, s, i, k, t)
    case Consume => AfterTake(cfg, s)
    case Abandon => s.(consumer := cn.(phase := Idle))
    case HandOverProducer(j) => s.(producer := Acquire(cfg, pd, s.readIdx, j))
    case HandOverConsumer(j) => s.(consumer := Acquire(cfg, cn, s.writeIdx, j))
  }

  /** The index store of a pop comes after its copy; a zero-copy pop leaves the reading to its caller. */
  predicate CanTake(cfg: Config, s: Weak) {
    var cp := s.consumer.phase;
    cp.Reading? && if cp.zeroCopy then HasSlot(cfg, s.cells, cp.own) else Words(cfg, cp.count) <= cp.buf.Keys
  }

  function AfterTake(cfg: Config, s: Weak): Weak
    requires CanTake(cfg, s)
  {
    var cn := s.consumer;
    s.(delivered := s.delivered + Taken(cfg, s.cells, cn.phase),
       readIdx := s.readIdx + [Release(s.C() + cn.phase.count, cn.clock)],
       consumer := cn.(phase := Idle))
  }

  /** What the pop hands over. */
  function Taken(cfg: Config, cells: Cells, ph: Phase): seq<Item>
    requires ph.Reading? && if ph.zeroCopy then HasSlot(cfg, cells, ph.own) else Words(cfg, ph.count) <= ph.buf.Keys
  {
    if ph.zeroCopy then [InSlot(cfg, cells, ph.own)] else Assemble(cfg, ph.count, ph.buf)
  }

  predicate HasSlot(cfg: Config, cells: Cells, x: nat) {
    forall k: nat {:trigger HasWord(cells, x, k)} :: k < cfg.width ==> HasWord(cells, x, k)
  }

  predicate HasWord(cells: Cells, x: nat, k: nat) { (x, k) in cells && cells[(x, k)].writes != [] }

  /** What a zero-copy pop leaves to its caller: the words last written to the slot. */
  function InSlot(cfg: Config, cells: Cells, x: nat): Item
    requires HasSlot(cfg, cells, x)
  {
    seq(cfg.width, k requires 0 <= k < cfg.width => assert HasWord(cells, x, k); Last(cells[(x, k)]).word)
  }

  function Refreshed(cfg: Config, pd: Side): Side
    requires pd.phase.PushLoaded? && InRange(cfg, pd.phase.own, pd.cache)
  {
    var free := Free(cfg.n, pd.phase.own, pd.cache);
    if free == 0 then pd.(phase := Idle)
    else pd.(phase := Writing(pd.phase.src, pd.phase.own, Min(|pd.phase.src|, free), {}))
  }

  function Found(cfg: Config, cn: Side): Side
    requires cn.phase.PopLoaded? && InRange(cfg, cn.phase.own, cn.cache)
  {
    var avail := Used(cfg.n, cn.cache, cn.phase.own);
    if avail == 0 then cn.(phase := Idle)
    else cn.(phase := Reading(cn.phase.own, Min(cn.phase.want, avail), cn.phase.zeroCopy, map[]))
  }

  /** One more write of the word at `at`. */
  function PutWrite(cells: Cells, at: (nat, nat), word: Word, epoch: nat): Cells
    requires at in cells
  {
    cells[at := cells[at].(writes := cells[at].writes + [Write(word, epoch)])]
  }

  /** A read of the word at `at`, of position next - 1. */
  function PutRead(cells: Cells, at: (nat, nat), epoch: nat, next: nat): Cells
    requires at in cells
  {
    cells[at := cells[at].(readEpoch := epoch, readNext := next)]
  }

  function AfterWrite(cfg: Config, s: Weak, i: nat, k: nat): Weak
    requires CanWrite(cfg, s, i, k)
  {
    var ph, clock := s.producer.phase, s.producer.clock + 1;
    s.(cells := PutWrite(s.cells, Address(cfg, s.cells, ph, i, k), ph.src[i][k], clock),
       producer := s.producer.(clock := clock, phase := ph.(done := ph.done + {(i, k)})))
  }

  function AfterRead(cfg: Config, s: Weak, i: nat, k: nat, t: nat): Weak
    requires CanRead(cfg, s, i, k, t)
  {
    var ph, clock := s.consumer.phase, s.consumer.clock + 1;
    var at := Address(cfg, s.cells, ph, i, k);
    s.(cells := PutRead(s.cells, at, clock, s.C() + i + 1),
       consumer := s.consumer.(clock := clock, phase := ph.(buf := ph.buf[(i, k) := s.cells[at].writes[t].word])))
  }

  /** A fresh segment with both sides bound; every word holds one initial write known to both. */
  predicate Start(cfg: Config, s: Weak) {
    && s.cells.Keys == Words(cfg, cfg.n) && s.published == [] && s.delivered == []
    && (forall p :: p in s.cells ==> s.cells[p] == Cell([Write(s.cells[p].Initial(), 0)], 0, 0))
    && s.writeIdx == [Release(0, 0)] && s.readIdx == [Release(0, 0)]
    && s.producer == Side(0, 0, 0, 0, Idle) && s.consumer == Side(0, 0, 0, 0, Idle)
  }

  predicate Moves(cfg: Config, s: Weak, acts: seq<Move>)
    decreases |acts|
  {
    acts == [] || (CanMove(cfg, s, acts[0]) && Moves(cfg, Moved(cfg, s, acts[0]), acts[1..]))
  }

  function After(cfg: Config, s: Weak, acts: seq<Move>): Weak
    requires Moves(cfg, s, acts)
    decreases |acts|
  {
    if acts == [] then s else After(cfg, Moved(cfg, s, acts[0]), acts[1..])
  }

  // ---------------------------------------------------------------- data races

  /**
    An access races if it conflicts with one of the other side that does not happen before it: a
    write with the last read of the word, a read with the last write.
  */
  predicate Races(cfg: Config, s: Weak, a: Move)
    requires CanMove(cfg, s, a)
  {
    match a
    case WriteWord(i, k) =>
      s.cells[Address(cfg, s.cells, s.producer.phase, i, k)].readEpoch > s.producer.knows
    case ReadWord(i, k, _) =>
      var c := s.cells[Address(cfg, s.cells, s.consumer.phase, i, k)];
      c.writes != [] && c.writes[|c.writes| - 1].epoch > s.consumer.knows
    case _ => false
  }

  // ---------------------------------------------------------------- invariant

  function Last(c: Cell): Write
    requires c.writes != []
  {
    c.writes[|c.writes| - 1]
  }

  ghost predicate Shape(cfg: Config, cells: Cells) {
    && cfg.Valid() && cells.Keys == Words(cfg, cfg.n)
    && forall p :: p in cells ==> cells[p].writes != []
  }

  lemma HasCell(cfg: Config, cells: Cells, x: nat, k: nat)
    requires Shape(cfg, cells) && x < cfg.n && k < cfg.width
    ensures (x, k) in cells
  {
  }

  /** Index stores: positions only grow, the last one is current. */
  ghost predicate Stores(stores: seq<Release>, position: nat) {
    && stores != [] && stores[|stores| - 1].position == position
    && (forall i :: 0 <= i < |stores| ==> stores[i].position <= position)
    && (forall i, j :: 0 <= i <= j < |stores| ==> stores[i].position <= stores[j].position)
  }

  /** A side's cache and knowledge are at least those of the peer's store it saw last. */
  ghost predicate View(cfg: Config, side: Side, stores: seq<Release>) {
    && cfg.n > 0 && side.seen < |stores|
    && side.cache == Index(cfg, stores[side.seen]) && stores[side.seen].epoch <= side.knows
  }

  /** RC <= C <= WC <= P and P - RC <= capacity, whatever the staleness. */
  ghost predicate Order(cfg: Config, s: Weak)
    requires s.producer.seen < |s.readIdx| && s.consumer.seen < |s.writeIdx|
  {
    && s.RC() <= s.C() <= s.WC() <= s.P() < s.RC() + cfg.n
  }

  /** Word k of position j was last written with `word`. */
  predicate Holds(cfg: Config, cells: Cells, j: nat, k: nat, word: Word)
    requires cfg.n > 0
  {
    var p := (Slot(j, cfg.n), k);
    p in cells && cells[p].writes != [] && Last(cells[p]).word == word
  }

  ghost predicate Unread(cfg: Config, cells: Cells, published: seq<Item>, c: nat) {
    cfg.n > 0 && AreItems(cfg, published) &&
    forall j: nat, k: nat {:trigger Holds(cfg, cells, j, k, published[j][k])} ::
      c <= j < |published| && k < cfg.width ==> Holds(cfg, cells, j, k, published[j][k])
  }

  /** Word k of position j was last written no later than `epoch`. */
  predicate WrittenBy(cfg: Config, cells: Cells, j: nat, k: nat, epoch: nat)
    requires cfg.n > 0
  {
    var p := (Slot(j, cfg.n), k);
    p in cells && cells[p].writes != [] && Last(cells[p]).epoch <= epoch
  }

  /** The words of positions c <= j < store.position were last written before that store. */
  ghost predicate WrittenBefore(cfg: Config, cells: Cells, c: nat, store: Release) {
    cfg.n > 0 &&
    forall j: nat, k: nat {:trigger WrittenBy(cfg, cells, j, k, store.epoch)} ::
      c <= j < store.position && k < cfg.width ==> WrittenBy(cfg, cells, j, k, store.epoch)
  }

  /** If the cell's last read is of a position below store.position, it was made before that store. */
  predicate Passed(cell: Cell, store: Release) {
    cell.readNext <= store.position ==> cell.readEpoch <= store.epoch
  }

  ghost predicate ReadBefore(cells: Cells, store: Release) {
    forall p {:trigger Passed(cells[p], store)} :: p in cells ==> Passed(cells[p], store)
  }

  /** Clocks bound every stamp; the last read was of a published position of this slot. */
  predicate StampOk(cfg: Config, cell: Cell, x: nat, published: nat, written: nat, read: nat) {
    && cfg.n > 0
    && (cell.writes != [] ==> Last(cell).epoch <= written)
    && cell.readEpoch <= read && cell.readNext <= published
    && (cell.readNext > 0 ==> Slot(cell.readNext - 1, cfg.n) == x)
  }

  ghost predicate Stamped(cfg: Config, cells: Cells, published: nat, written: nat, read: nat) {
    forall p {:trigger StampOk(cfg, cells[p], p.0, published, written, read)} :: p in cells ==>
      StampOk(cfg, cells[p], p.0, published, written, read)
  }

  ghost predicate ProducerOk(cfg: Config, p: nat, rc: nat, ph: Phase) {
    && cfg.n > 0
    && (ph.Idle? || ph.PushLoaded? || ph.Writing?)
    && (ph.PushLoaded? ==> ph.own == Slot(p, cfg.n) && ph.src != [] && AreItems(cfg, ph.src))
    && (ph.Writing? ==>
          && ph.own == Slot(p, cfg.n) && AreItems(cfg, ph.src) && 1 <= ph.count <= |ph.src|
          && p + ph.count < rc + cfg.n)
  }

  /** The words copied so far are in place. */
  ghost predicate Copied(cfg: Config, cells: Cells, p: nat, ph: Phase) {
    ph.Writing? ==>
      && cfg.n > 0 && ph.count <= |ph.src| && AreItems(cfg, ph.src)
      && forall d :: d in ph.done ==>
           d.0 < ph.count && d.1 < cfg.width && Holds(cfg, cells, p + d.0, d.1, ph.src[d.0][d.1])
  }

  ghost predicate ConsumerOk(cfg: Config, published: seq<Item>, c: nat, wc: nat, ph: Phase) {
    && cfg.n > 0 && wc <= |published| && AreItems(cfg, published)
    && (ph.Idle? || ph.PopLoaded? || ph.Reading?)
    && (ph.PopLoaded? ==> ph.own == Slot(c, cfg.n) && ph.want >= 1 && (ph.zeroCopy ==> ph.want == 1))
    && (ph.Reading? ==>
          && ph.own == Slot(c, cfg.n) && 1 <= ph.count && (ph.zeroCopy ==> ph.count == 1) && c + ph.count <= wc
          && BufferOk(cfg, published, c, ph.count, ph.buf))
  }

  ghost predicate AllWrittenBefore(cfg: Config, cells: Cells, c: nat, stores: seq<Release>) {
    forall i {:trigger WrittenBefore(cfg, cells, c, stores[i])} :: 0 <= i < |stores| ==>
      WrittenBefore(cfg, cells, c, stores[i])
  }

  ghost predicate AllReadBefore(cells: Cells, stores: seq<Release>) {
    forall i {:trigger ReadBefore(cells, stores[i])} :: 0 <= i < |stores| ==> ReadBefore(cells, stores[i])
  }

  /** Indices, caches and program counters. */
  ghost predicate Control(cfg: Config, s: Weak) {
    && Shape(cfg, s.cells) && s.delivered <= s.published
    && Stores(s.writeIdx, s.P()) && Stores(s.readIdx, s.C())
    && View(cfg, s.producer, s.readIdx) && View(cfg, s.consumer, s.writeIdx) && Order(cfg, s)
    && ProducerOk(cfg, s.P(), s.RC(), s.producer.phase)
    && ConsumerOk(cfg, s.published, s.C(), s.WC(), s.consumer.phase)
  }

  /** Words and their stamps. */
  ghost predicate Memory(cfg: Config, s: Weak) {
    && Unread(cfg, s.cells, s.published, s.C())
    && AllWrittenBefore(cfg, s.cells, s.C(), s.writeIdx) && AllReadBefore(s.cells, s.readIdx)
    && Stamped(cfg, s.cells, s.P(), s.producer.clock, s.consumer.clock)
  }

  ghost predicate WeakInv(cfg: Config, s: Weak) {
    Control(cfg, s) && Memory(cfg, s) && Copied(cfg, s.cells, s.P(), s.producer.phase)
  }

  lemma StartInv(cfg: Config, s: Weak)
    requires cfg.Valid() && Start(cfg, s)
    ensures WeakInv(cfg, s)
  {
  }

  // ---------------------------------------------------------------- the two orderings

  /** The word being read: last written with the item due, by a write the consumer knows. */
  lemma ReadIsOrdered(cfg: Config, s: Weak, i: nat, k: nat)
    requires WeakInv(cfg, s) && s.consumer.phase.Reading? && i < s.consumer.phase.count && k < cfg.width
    ensures InRun(cfg, s.cells, s.consumer.phase, i, k)
    ensures Address(cfg, s.cells, s.consumer.phase, i, k) == (Slot(s.C() + i, cfg.n), k)
    ensures s.C() + i < s.P() && IsItem(cfg, s.published[s.C() + i])
    ensures var c := s.cells[(Slot(s.C() + i, cfg.n), k)];
            Last(c).word == s.published[s.C() + i][k] && Last(c).epoch <= s.consumer.knows
  {
    var j := s.C() + i;
    RunSlotIsSlot(s.C(), s.consumer.phase.count, i, cfg.n);
    HasCell(cfg, s.cells, Slot(j, cfg.n), k);
    assert IsItem(cfg, s.published[j]);
    assert Holds(cfg, s.cells, j, k, s.published[j][k]);
    assert WrittenBefore(cfg, s.cells, s.C(), s.writeIdx[s.consumer.seen]);
    assert WrittenBy(cfg, s.cells, j, k, s.writeIdx[s.consumer.seen].epoch);
  }

  /** The word being written is that of position P + i, which lies within the lap of the unread items. */
  lemma WriteTarget(cfg: Config, s: Weak, i: nat, k: nat)
    requires Control(cfg, s) && s.producer.phase.Writing? && i < s.producer.phase.count && k < cfg.width
    ensures InRun(cfg, s.cells, s.producer.phase, i, k)
    ensures Address(cfg, s.cells, s.producer.phase, i, k) == (Slot(s.P() + i, cfg.n), k)
    ensures s.P() + i < s.RC() + cfg.n
  {
    RunSlotIsSlot(s.P(), s.producer.phase.count, i, cfg.n);
    HasCell(cfg, s.cells, Slot(s.P() + i, cfg.n), k);
  }

  /** Its previous occupant has been read, and by reads the producer knows. */
  lemma WriteIsOrdered(cfg: Config, s: Weak, i: nat, k: nat)
    requires WeakInv(cfg, s) && s.producer.phase.Writing? && i < s.producer.phase.count && k < cfg.width
    ensures (Slot(s.P() + i, cfg.n), k) in s.cells
    ensures s.cells[(Slot(s.P() + i, cfg.n), k)].readEpoch <= s.producer.knows
  {
    var j := s.P() + i;
    WriteTarget(cfg, s, i, k);
    var c := s.cells[(Slot(j, cfg.n), k)];
    assert StampOk(cfg, c, Slot(j, cfg.n), s.P(), s.producer.clock, s.consumer.clock);
    if c.readNext > 0 && j < c.readNext - 1 + cfg.n {
      SlotInjective(c.readNext - 1, j, cfg.n);
    }
    assert ReadBefore(s.cells, s.readIdx[s.producer.seen]);
    assert Passed(c, s.readIdx[s.producer.seen]);
  }

  /** The stored positions are what the wrapped index updates compute from the own index. */
  lemma StoredIndices(cfg: Config, s: Weak)
    requires WeakInv(cfg, s)
    ensures CanMove(cfg, s, Move.Publish) ==>
              Index(cfg, Release(s.P() + s.producer.phase.count, s.producer.clock))
                == Wrap(s.producer.phase.own + s.producer.phase.count, cfg.n)
    ensures CanMove(cfg, s, Move.Consume) ==>
              Index(cfg, Release(s.C() + s.consumer.phase.count, s.consumer.clock))
                == Wrap(s.consumer.phase.own + s.consumer.phase.count, cfg.n)
  {
    if CanMove(cfg, s, Move.Publish) {
      SlotAdd(s.P(), s.producer.phase.count, cfg.n);
    }
    if CanMove(cfg, s, Move.Consume) {
      SlotAdd(s.C(), s.consumer.phase.count, cfg.n);
    }
  }
}

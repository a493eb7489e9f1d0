/** Every move keeps the invariant of module WeakMemory; what follows for every run. */
module WeakSafety {
  import opened Positions
  import opened System
  import opened WeakMemory

  // ---------------------------------------------------------------- loads and decisions

  lemma BeginKeeps(cfg: Config, s: Weak, a: Move)
    requires WeakInv(cfg, s) && (a.BeginPush? || a.BeginPop? || a.Abandon?) && CanMove(cfg, s, a)
    ensures WeakInv(cfg, Moved(cfg, s, a))
  {
  }

  /** freeSlots() on the cache counts from the position last acquired. */
  lemma RoomIsExact(cfg: Config, s: Weak)
    requires WeakInv(cfg, s)
    ensures s.producer.cache < cfg.n
    ensures Free(cfg.n, Slot(s.P(), cfg.n), s.producer.cache) == cfg.n - 1 - (s.P() - s.RC())
  {
    UsedIsDistance(s.RC(), s.P(), cfg.n);
  }

  /** usedSlots() on the cache counts up to the position last acquired. */
  lemma AvailIsExact(cfg: Config, s: Weak)
    requires WeakInv(cfg, s)
    ensures s.consumer.cache < cfg.n
    ensures Used(cfg.n, s.consumer.cache, Slot(s.C(), cfg.n)) == s.WC() - s.C()
  {
    UsedIsDistance(s.C(), s.WC(), cfg.n);
  }

  lemma GrantKeeps(cfg: Config, s: Weak, a: Move)
    requires WeakInv(cfg, s) && (a.GrantPush? || a.GrantPop?) && CanMove(cfg, s, a)
    ensures WeakInv(cfg, Moved(cfg, s, a))
  {
    RoomIsExact(cfg, s);
    AvailIsExact(cfg, s);
  }

  /** An acquire load, however stale, only moves the view forward. */
  lemma ReloadPushKeeps(cfg: Config, s: Weak, a: Move)
    requires WeakInv(cfg, s) && a.ReloadPush? && CanMove(cfg, s, a)
    ensures WeakInv(cfg, Moved(cfg, s, a))
  {
    assert s.readIdx[s.producer.seen].position <= s.readIdx[a.j].position;
    UsedIsDistance(s.readIdx[a.j].position, s.P(), cfg.n);
  }

  lemma ReloadPopKeeps(cfg: Config, s: Weak, a: Move)
    requires WeakInv(cfg, s) && a.ReloadPop? && CanMove(cfg, s, a)
    ensures WeakInv(cfg, Moved(cfg, s, a))
  {
    assert s.writeIdx[s.consumer.seen].position <= s.writeIdx[a.j].position;
    UsedIsDistance(s.C(), s.writeIdx[a.j].position, cfg.n);
  }

  /** A push decides on the cache exactly when the position last acquired leaves room for all of it. */
  lemma {:induction false} PushDecidesExactly(cfg: Config, s: Weak)
    requires WeakInv(cfg, s) && s.producer.phase.PushLoaded?
    ensures CanMove(cfg, s, Move.GrantPush) <==> |s.producer.phase.src| <= cfg.n - 1 - (s.P() - s.RC())
    ensures CanMove(cfg, s, Move.GrantPush) ==>
              Moved(cfg, s, Move.GrantPush).producer.phase.count == |s.producer.phase.src|
    ensures forall j: nat :: CanMove(cfg, s, Move.ReloadPush(j)) <==>
              !CanMove(cfg, s, Move.GrantPush) && s.producer.seen <= j < |s.readIdx|
  {
    RoomIsExact(cfg, s);
  }

  lemma {:induction false} PopDecidesExactly(cfg: Config, s: Weak)
    requires WeakInv(cfg, s) && s.consumer.phase.PopLoaded?
    ensures CanMove(cfg, s, Move.GrantPop) <==> s.consumer.phase.want <= s.WC() - s.C()
    ensures CanMove(cfg, s, Move.GrantPop) ==>
              Moved(cfg, s, Move.GrantPop).consumer.phase.count == s.consumer.phase.want
    ensures forall j: nat :: CanMove(cfg, s, Move.ReloadPop(j)) <==>
              !CanMove(cfg, s, Move.GrantPop) && s.consumer.seen <= j < |s.writeIdx|
  {
    AvailIsExact(cfg, s);
  }

  /**
    After acquiring store j a push gives up exactly when, counted from the position of that store, the
    ring is full, and is otherwise granted all the room there is from it, up to what it wants.
  */
  lemma {:induction false} ReloadedPushExact(cfg: Config, s: Weak, j: nat)
    requires WeakInv(cfg, s) && CanMove(cfg, s, Move.ReloadPush(j))
    ensures var ph, room := Moved(cfg, s, Move.ReloadPush(j)).producer.phase, cfg.n - 1 - (s.P() - s.readIdx[j].position);
            && room >= 0 && (ph.Idle? <==> room == 0)
            && (!ph.Idle? ==> ph.Writing? && ph.count == Min(|s.producer.phase.src|, room))
  {
    assert s.readIdx[s.producer.seen].position <= s.readIdx[j].position;
    UsedIsDistance(s.readIdx[j].position, s.P(), cfg.n);
  }

  /** Likewise a pop: it gives up exactly when store j holds nothing new, and else gets all there is up to store j. */
  lemma {:induction false} ReloadedPopExact(cfg: Config, s: Weak, j: nat)
    requires WeakInv(cfg, s) && CanMove(cfg, s, Move.ReloadPop(j))
    ensures var ph, avail := Moved(cfg, s, Move.ReloadPop(j)).consumer.phase, s.writeIdx[j].position - s.C();
            && avail >= 0 && (ph.Idle? <==> avail == 0)
            && (!ph.Idle? ==> ph.Reading? && ph.count == Min(s.consumer.phase.want, avail))
  {
    assert s.writeIdx[s.consumer.seen].position <= s.writeIdx[j].position;
    UsedIsDistance(s.C(), s.writeIdx[j].position, cfg.n);
  }

  /** A successor inherits what its predecessor knew; its snapshot may be older than the predecessor's cache. */
  lemma HandOverKeeps(cfg: Config, s: Weak, a: Move)
    requires WeakInv(cfg, s) && (a.HandOverProducer? || a.HandOverConsumer?) && CanMove(cfg, s, a)
    ensures WeakInv(cfg, Moved(cfg, s, a))
  {
    if a.HandOverProducer? {
      assert s.readIdx[a.j].position <= s.C();
    } else {
      assert s.writeIdx[a.j].position <= s.P();
    }
  }

  // ---------------------------------------------------------------- copying in

  /** Slot x belongs to none of the positions c <= j < p. */
  ghost predicate Elsewhere(cfg: Config, c: nat, p: nat, x: nat)
    requires cfg.n > 0
  {
    forall j: nat :: c <= j < p ==> Slot(j, cfg.n) != x
  }

  /** No unread item lives where a granted word goes. */
  lemma GrantedIsElsewhere(cfg: Config, c: nat, p: nat, q: nat)
    requires cfg.n > 0 && p <= q < c + cfg.n
    ensures Elsewhere(cfg, c, p, Slot(q, cfg.n))
  {
    forall j: nat | c <= j < p ensures Slot(j, cfg.n) != Slot(q, cfg.n) {
      SlotInjective(j, q, cfg.n);
    }
  }

  lemma PutKeepsUnread(cfg: Config, cells: Cells, at: (nat, nat), cell: Cell, published: seq<Item>, c: nat)
    requires Unread(cfg, cells, published, c) && Elsewhere(cfg, c, |published|, at.0)
    ensures Unread(cfg, cells[at := cell], published, c)
  {
    forall j: nat, k: nat | c <= j < |published| && k < cfg.width
      ensures IsItem(cfg, published[j]) && Holds(cfg, cells[at := cell], j, k, published[j][k])
    {
      assert IsItem(cfg, published[j]);
      assert Holds(cfg, cells, j, k, published[j][k]);
    }
  }

  lemma PutKeepsBefore(cfg: Config, cells: Cells, at: (nat, nat), cell: Cell, c: nat, store: Release)
    requires WrittenBefore(cfg, cells, c, store) && Elsewhere(cfg, c, store.position, at.0)
    ensures WrittenBefore(cfg, cells[at := cell], c, store)
  {
    var cells' := cells[at := cell];
    forall j: nat, k: nat | c <= j < store.position && k < cfg.width
      ensures WrittenBy(cfg, cells', j, k, store.epoch)
    {
      assert WrittenBy(cfg, cells, j, k, store.epoch);
    }
  }

  /** Appending a write stamped with the next clock. */
  lemma PutKeepsStamps(cfg: Config, cells: Cells, at: (nat, nat), word: Word, p: nat, written: nat, read: nat,
                       stores: seq<Release>)
    requires Shape(cfg, cells) && at in cells && Stamped(cfg, cells, p, written, read) && AllReadBefore(cells, stores)
    ensures var cells' := PutWrite(cells, at, word, written + 1);
            Shape(cfg, cells') && Stamped(cfg, cells', p, written + 1, read) && AllReadBefore(cells', stores)
  {
    var cells' := PutWrite(cells, at, word, written + 1);
    assert cells'.Keys == cells.Keys;
    forall q | q in cells' ensures StampOk(cfg, cells'[q], q.0, p, written + 1, read) {
      assert StampOk(cfg, cells[q], q.0, p, written, read);
    }
    SameReads(cells, cells', stores);
  }

  /** Facts about reads do not depend on writes. */
  lemma SameReads(cells: Cells, cells': Cells, stores: seq<Release>)
    requires cells'.Keys == cells.Keys && AllReadBefore(cells, stores)
    requires forall p :: p in cells ==>
               cells'[p].readEpoch == cells[p].readEpoch && cells'[p].readNext == cells[p].readNext
    ensures AllReadBefore(cells', stores)
  {
    forall i | 0 <= i < |stores| ensures ReadBefore(cells', stores[i]) {
      assert ReadBefore(cells, stores[i]);
      forall p | p in cells' ensures Passed(cells'[p], stores[i]) {
        assert Passed(cells[p], stores[i]);
      }
    }
  }

  lemma PutKeepsCopied(cfg: Config, cells: Cells, p: nat, ph: Phase, i: nat, k: nat, epoch: nat)
    requires cfg.n > 0 && ph.Writing? && Copied(cfg, cells, p, ph)
    requires i < ph.count < cfg.n && k < cfg.width && (Slot(p + i, cfg.n), k) in cells && k < |ph.src[i]|
    ensures Copied(cfg, PutWrite(cells, (Slot(p + i, cfg.n), k), ph.src[i][k], epoch), p, ph.(done := ph.done + {(i, k)}))
  {
    var cells' := PutWrite(cells, (Slot(p + i, cfg.n), k), ph.src[i][k], epoch);
    forall d | d in ph.done + {(i, k)}
      ensures d.0 < ph.count && d.1 < cfg.width && Holds(cfg, cells', p + d.0, d.1, ph.src[d.0][d.1])
    {
      if d != (i, k) {
        assert Holds(cfg, cells, p + d.0, d.1, ph.src[d.0][d.1]);
        if d.0 < i { SlotInjective(p + d.0, p + i, cfg.n); }
        if d.0 > i { SlotInjective(p + i, p + d.0, cfg.n); }
      }
    }
  }

  /** What a write does: one more write at the word of position P + i. */
  lemma WriteEffect(cfg: Config, s: Weak, i: nat, k: nat)
    requires Control(cfg, s) && WeakMemory.CanWrite(cfg, s, i, k)
    ensures var at := (Slot(s.P() + i, cfg.n), k);
            var ph, clock := s.producer.phase, s.producer.clock + 1;
            && k < cfg.width && i < ph.count && at in s.cells && s.P() + i < s.C() + cfg.n
            && AfterWrite(cfg, s, i, k) ==
                 s.(cells := PutWrite(s.cells, at, ph.src[i][k], clock),
                    producer := s.producer.(clock := clock, phase := ph.(done := ph.done + {(i, k)})))
  {
    assert IsItem(cfg, s.producer.phase.src[i]);
    WriteTarget(cfg, s, i, k);
  }

  lemma WriteKeepsMemory(cfg: Config, s: Weak, i: nat, k: nat)
    requires WeakInv(cfg, s) && WeakMemory.CanWrite(cfg, s, i, k)
    ensures Memory(cfg, AfterWrite(cfg, s, i, k))
  {
    WriteEffect(cfg, s, i, k);
    var at, cells := (Slot(s.P() + i, cfg.n), k), AfterWrite(cfg, s, i, k).cells;
    GrantedIsElsewhere(cfg, s.C(), s.P(), s.P() + i);
    PutKeepsUnread(cfg, s.cells, at, cells[at], s.published, s.C());
    PutKeepsStamps(cfg, s.cells, at, s.producer.phase.src[i][k],
                   s.P(), s.producer.clock, s.consumer.clock, s.readIdx);
    forall j | 0 <= j < |s.writeIdx| ensures WrittenBefore(cfg, cells, s.C(), s.writeIdx[j]) {
      assert s.writeIdx[j].position <= s.P() && WrittenBefore(cfg, s.cells, s.C(), s.writeIdx[j]);
      PutKeepsBefore(cfg, s.cells, at, cells[at], s.C(), s.writeIdx[j]);
    }
  }

  lemma WriteKeepsControl(cfg: Config, s: Weak, i: nat, k: nat)
    requires Control(cfg, s) && WeakMemory.CanWrite(cfg, s, i, k)
    ensures Control(cfg, AfterWrite(cfg, s, i, k))
  {
  }

  lemma WriteKeepsCopied(cfg: Config, s: Weak, i: nat, k: nat)
    requires Control(cfg, s) && WeakMemory.CanWrite(cfg, s, i, k) && Copied(cfg, s.cells, s.P(), s.producer.phase)
    ensures Copied(cfg, AfterWrite(cfg, s, i, k).cells, s.P(), AfterWrite(cfg, s, i, k).producer.phase)
  {
    WriteEffect(cfg, s, i, k);
    PutKeepsCopied(cfg, s.cells, s.P(), s.producer.phase, i, k, s.producer.clock + 1);
  }

  lemma WriteWordKeeps(cfg: Config, s: Weak, a: Move)
    requires WeakInv(cfg, s) && a.WriteWord? && CanMove(cfg, s, a)
    ensures WeakInv(cfg, Moved(cfg, s, a))
  {
    WriteKeepsControl(cfg, s, a.i, a.k);
    WriteKeepsMemory(cfg, s, a.i, a.k);
    WriteKeepsCopied(cfg, s, a.i, a.k);
  }

  // ---------------------------------------------------------------- publishing

  lemma PublishKeepsUnread(cfg: Config, s: Weak)
    requires WeakInv(cfg, s) && CanMove(cfg, s, Move.Publish)
    ensures Unread(cfg, s.cells, Moved(cfg, s, Move.Publish).published, s.C())
  {
    var published, ph := Moved(cfg, s, Move.Publish).published, s.producer.phase;
    forall j | 0 <= j < |published| ensures IsItem(cfg, published[j]) {
      if j >= s.P() { assert IsItem(cfg, ph.src[j - s.P()]); } else { assert IsItem(cfg, s.published[j]); }
    }
    forall j: nat, k: nat | s.C() <= j < |published| && k < cfg.width
      ensures Holds(cfg, s.cells, j, k, published[j][k])
    {
      assert IsItem(cfg, published[j]);
      if j >= s.P() {
        assert (j - s.P(), k) in Words(cfg, ph.count);
      } else {
        assert Holds(cfg, s.cells, j, k, s.published[j][k]);
      }
    }
  }

  lemma PublishKeepsReader(cfg: Config, s: Weak)
    requires WeakInv(cfg, s) && CanMove(cfg, s, Move.Publish)
    requires AreItems(cfg, Moved(cfg, s, Move.Publish).published)
    ensures ConsumerOk(cfg, Moved(cfg, s, Move.Publish).published, s.C(), s.WC(), s.consumer.phase)
  {
  }

  lemma StampsStayInRange(cfg: Config, cells: Cells, p: nat, p': nat, written: nat, read: nat)
    requires Stamped(cfg, cells, p, written, read) && p <= p'
    ensures Stamped(cfg, cells, p', written, read)
  {
    forall q | q in cells ensures StampOk(cfg, cells[q], q.0, p', written, read) {
      assert StampOk(cfg, cells[q], q.0, p, written, read);
    }
  }

  /** Everything written so far was written before a store made now. */
  lemma NewStore(cfg: Config, s: Weak, store: Release)
    requires WeakInv(cfg, s) && store.epoch == s.producer.clock
    ensures WrittenBefore(cfg, s.cells, s.C(), store)
  {
    forall j: nat, k: nat | s.C() <= j < store.position && k < cfg.width
      ensures WrittenBy(cfg, s.cells, j, k, store.epoch)
    {
      HasCell(cfg, s.cells, Slot(j, cfg.n), k);
      assert StampOk(cfg, s.cells[(Slot(j, cfg.n), k)], Slot(j, cfg.n), s.P(), s.producer.clock, s.consumer.clock);
    }
  }

  lemma PublishKeeps(cfg: Config, s: Weak)
    requires WeakInv(cfg, s) && CanMove(cfg, s, Move.Publish)
    ensures WeakInv(cfg, Moved(cfg, s, Move.Publish))
  {
    var s' := Moved(cfg, s, Move.Publish);
    PublishKeepsUnread(cfg, s);
    PublishKeepsReader(cfg, s);
    StampsStayInRange(cfg, s.cells, s.P(), s'.P(), s.producer.clock, s.consumer.clock);
    forall i | 0 <= i < |s'.writeIdx| ensures WrittenBefore(cfg, s.cells, s.C(), s'.writeIdx[i]) {
      if i < |s.writeIdx| {
        assert WrittenBefore(cfg, s.cells, s.C(), s.writeIdx[i]);
      } else {
        NewStore(cfg, s, s'.writeIdx[i]);
      }
    }
  }

  // ---------------------------------------------------------------- copying out

  /** A read has no choice: the only visible write of the word is the one of the item due. */
  lemma ReadIsForced(cfg: Config, s: Weak, i: nat, k: nat, t: nat)
    requires WeakInv(cfg, s) && WeakMemory.CanRead(cfg, s, i, k, t)
    ensures k < cfg.width && s.C() + i < s.P() && IsItem(cfg, s.published[s.C() + i])
    ensures var c := s.cells[Address(cfg, s.cells, s.consumer.phase, i, k)];
            t == |c.writes| - 1 && c.writes[t].word == s.published[s.C() + i][k]
  {
    ReadIsOrdered(cfg, s, i, k);
  }

  /** Recording a read changes no write. */
  lemma SameWrites(cfg: Config, cells: Cells, cells': Cells, c: nat, stores: seq<Release>)
    requires Shape(cfg, cells) && cells'.Keys == cells.Keys
    requires forall p :: p in cells ==> cells'[p].writes == cells[p].writes
    requires AllWrittenBefore(cfg, cells, c, stores)
    ensures Shape(cfg, cells') && AllWrittenBefore(cfg, cells', c, stores)
    ensures forall j: nat, k: nat, word :: Holds(cfg, cells, j, k, word) ==> Holds(cfg, cells', j, k, word)
  {
    forall i | 0 <= i < |stores| ensures WrittenBefore(cfg, cells', c, stores[i]) {
      assert WrittenBefore(cfg, cells, c, stores[i]);
      forall j: nat, k: nat | c <= j < stores[i].position && k < cfg.width
        ensures WrittenBy(cfg, cells', j, k, stores[i].epoch)
      {
        assert WrittenBy(cfg, cells, j, k, stores[i].epoch);
      }
    }
  }

  lemma SameHolds(cfg: Config, cells: Cells, cells': Cells, published: seq<Item>, c: nat, ph: Phase)
    requires cfg.n > 0
    requires forall j: nat, k: nat, word :: Holds(cfg, cells, j, k, word) ==> Holds(cfg, cells', j, k, word)
    requires Unread(cfg, cells, published, c) && Copied(cfg, cells, |published|, ph)
    ensures Unread(cfg, cells', published, c) && Copied(cfg, cells', |published|, ph)
  {
  }

  /** A read at clock read + 1 of position j, which no index store has passed yet. */
  lemma ReadKeepsStamps(cfg: Config, cells: Cells, j: nat, k: nat, p: nat, written: nat, read: nat, stores: seq<Release>)
    requires cfg.n > 0 && (Slot(j, cfg.n), k) in cells && j < p && Stamped(cfg, cells, p, written, read)
    requires AllReadBefore(cells, stores) && forall i :: 0 <= i < |stores| ==> stores[i].position <= j
    ensures var at := (Slot(j, cfg.n), k);
            var cells' := PutRead(cells, at, read + 1, j + 1);
            Stamped(cfg, cells', p, written, read + 1) && AllReadBefore(cells', stores)
  {
    var at := (Slot(j, cfg.n), k);
    var cells' := PutRead(cells, at, read + 1, j + 1);
    forall q | q in cells' ensures StampOk(cfg, cells'[q], q.0, p, written, read + 1) {
      assert StampOk(cfg, cells[q], q.0, p, written, read);
    }
    forall i | 0 <= i < |stores| ensures ReadBefore(cells', stores[i]) {
      assert ReadBefore(cells, stores[i]);
      forall q | q in cells' ensures Passed(cells'[q], stores[i]) {
        assert Passed(cells[q], stores[i]);
      }
    }
  }

  lemma ReadKeepsBuffer(cfg: Config, published: seq<Item>, c: nat, wc: nat, ph: Phase, i: nat, k: nat)
    requires ConsumerOk(cfg, published, c, wc, ph) && ph.Reading? && i < ph.count && k < cfg.width
    requires |published[c + i]| == cfg.width
    ensures ConsumerOk(cfg, published, c, wc, ph.(buf := ph.buf[(i, k) := published[c + i][k]]))
  {
  }

  /** What a read does: it picks up the due word and stamps the cell. */
  lemma ReadEffect(cfg: Config, s: Weak, i: nat, k: nat, t: nat)
    requires WeakInv(cfg, s) && WeakMemory.CanRead(cfg, s, i, k, t)
    ensures var j, ph, clock := s.C() + i, s.consumer.phase, s.consumer.clock + 1;
            var at := (Slot(j, cfg.n), k);
            && k < cfg.width && i < ph.count && at in s.cells && j < s.P() && |s.published[j]| == cfg.width
            && AfterRead(cfg, s, i, k, t) ==
                 s.(cells := PutRead(s.cells, at, clock, j + 1),
                    consumer := s.consumer.(clock := clock, phase := ph.(buf := ph.buf[(i, k) := s.published[j][k]])))
  {
    ReadIsForced(cfg, s, i, k, t);
    ReadIsOrdered(cfg, s, i, k);
  }

  lemma ReadKeepsControl(cfg: Config, s: Weak, i: nat, k: nat, t: nat)
    requires WeakInv(cfg, s) && WeakMemory.CanRead(cfg, s, i, k, t)
    ensures Control(cfg, AfterRead(cfg, s, i, k, t))
  {
    ReadEffect(cfg, s, i, k, t);
    SameWrites(cfg, s.cells, AfterRead(cfg, s, i, k, t).cells, s.C(), s.writeIdx);
    ReadKeepsBuffer(cfg, s.published, s.C(), s.WC(), s.consumer.phase, i, k);
  }

  lemma ReadKeepsMemory(cfg: Config, s: Weak, i: nat, k: nat, t: nat)
    requires WeakInv(cfg, s) && WeakMemory.CanRead(cfg, s, i, k, t)
    ensures Memory(cfg, AfterRead(cfg, s, i, k, t))
    ensures Copied(cfg, AfterRead(cfg, s, i, k, t).cells, s.P(), s.producer.phase)
  {
    ReadEffect(cfg, s, i, k, t);
    var cells := AfterRead(cfg, s, i, k, t).cells;
    SameWrites(cfg, s.cells, cells, s.C(), s.writeIdx);
    SameHolds(cfg, s.cells, cells, s.published, s.C(), s.producer.phase);
    ReadKeepsStamps(cfg, s.cells, s.C() + i, k, s.P(), s.producer.clock, s.consumer.clock, s.readIdx);
  }

  lemma ReadWordKeeps(cfg: Config, s: Weak, a: Move)
    requires WeakInv(cfg, s) && a.ReadWord? && CanMove(cfg, s, a)
    ensures WeakInv(cfg, Moved(cfg, s, a))
  {
    ReadKeepsControl(cfg, s, a.i, a.k, a.t);
    ReadKeepsMemory(cfg, s, a.i, a.k, a.t);
  }

  // ---------------------------------------------------------------- consuming

  lemma ConsumesDue(cfg: Config, s: Weak)
    requires WeakInv(cfg, s) && CanTake(cfg, s)
    ensures s.C() + s.consumer.phase.count <= s.WC() <= s.P()
    ensures Taken(cfg, s.cells, s.consumer.phase) == s.published[s.C()..s.C() + s.consumer.phase.count]
  {
    var ph := s.consumer.phase;
    if ph.zeroCopy {
      SlotHoldsDue(cfg, s);
    } else {
      AssembleDue(cfg, s.published, s.C(), ph.count, ph.buf);
    }
  }

  /** What front() pointed at is, as a whole, the item due. */
  lemma SlotHoldsDue(cfg: Config, s: Weak)
    requires WeakInv(cfg, s) && s.consumer.phase.Reading? && HasSlot(cfg, s.cells, s.consumer.phase.own)
    ensures s.C() < s.P() && InSlot(cfg, s.cells, s.consumer.phase.own) == s.published[s.C()]
  {
    ReadIsOrdered(cfg, s, 0, 0);
    forall k: nat | k < cfg.width
      ensures InSlot(cfg, s.cells, s.consumer.phase.own)[k] == s.published[s.C()][k]
    {
      ReadIsOrdered(cfg, s, 0, k);
    }
  }

  lemma PrefixGrows<T>(xs: seq<T>, ys: seq<T>, c: nat)
    requires xs <= ys && |xs| <= c <= |ys|
    ensures xs + ys[|xs|..c] == ys[..c]
  {
  }

  lemma ConsumeKeepsUnread(cfg: Config, s: Weak, c: nat)
    requires WeakInv(cfg, s) && s.C() <= c
    ensures Unread(cfg, s.cells, s.published, c) && AllWrittenBefore(cfg, s.cells, c, s.writeIdx)
  {
    forall i | 0 <= i < |s.writeIdx| ensures WrittenBefore(cfg, s.cells, c, s.writeIdx[i]) {
      assert WrittenBefore(cfg, s.cells, s.C(), s.writeIdx[i]);
    }
  }

  /** The new index store comes after every read so far. */
  lemma NewReadStore(cfg: Config, cells: Cells, p: nat, written: nat, read: nat, stores: seq<Release>, position: nat)
    requires Stamped(cfg, cells, p, written, read) && AllReadBefore(cells, stores)
    ensures AllReadBefore(cells, stores + [Release(position, read)])
  {
    var stores' := stores + [Release(position, read)];
    forall i | 0 <= i < |stores'| ensures ReadBefore(cells, stores'[i]) {
      if i < |stores| {
        assert ReadBefore(cells, stores[i]);
      } else {
        forall q | q in cells ensures Passed(cells[q], stores'[i]) {
          assert StampOk(cfg, cells[q], q.0, p, written, read);
        }
      }
    }
  }

  /** The state after the index store of a pop that moves on to position c. */
  function AfterConsume(s: Weak, c: nat): Weak
    requires c <= s.P()
  {
    s.(delivered := s.published[..c], readIdx := s.readIdx + [Release(c, s.consumer.clock)],
       consumer := s.consumer.(phase := Idle))
  }

  lemma ConsumeKeepsControl(cfg: Config, s: Weak, c: nat)
    requires WeakInv(cfg, s) && s.C() <= c <= s.WC()
    ensures Control(cfg, AfterConsume(s, c))
  {
  }

  lemma ConsumeKeepsMemory(cfg: Config, s: Weak, c: nat)
    requires WeakInv(cfg, s) && s.C() <= c <= s.P()
    ensures Memory(cfg, AfterConsume(s, c)) && Copied(cfg, s.cells, s.P(), s.producer.phase)
  {
    ConsumeKeepsUnread(cfg, s, c);
    NewReadStore(cfg, s.cells, s.P(), s.producer.clock, s.consumer.clock, s.readIdx, c);
  }

  lemma AfterConsumeInv(cfg: Config, s: Weak, c: nat, s': Weak)
    requires WeakInv(cfg, s) && s.C() <= c <= s.WC() && s' == AfterConsume(s, c)
    ensures WeakInv(cfg, s')
  {
    ConsumeKeepsControl(cfg, s, c);
    ConsumeKeepsMemory(cfg, s, c);
  }

  lemma ConsumeAdvances(cfg: Config, s: Weak)
    requires WeakInv(cfg, s) && CanTake(cfg, s)
    ensures var c := s.C() + s.consumer.phase.count;
            c <= s.WC() <= s.P() && AfterTake(cfg, s) == AfterConsume(s, c)
  {
    ConsumesDue(cfg, s);
    PrefixGrows(s.delivered, s.published, s.C() + s.consumer.phase.count);
  }

  lemma ConsumeKeeps(cfg: Config, s: Weak)
    requires WeakInv(cfg, s) && CanTake(cfg, s)
    ensures WeakInv(cfg, AfterTake(cfg, s))
  {
    ConsumeAdvances(cfg, s);
    AfterConsumeInv(cfg, s, s.C() + s.consumer.phase.count, AfterTake(cfg, s));
  }

  // ---------------------------------------------------------------- all moves, all runs

  lemma MoveKeepsInv(cfg: Config, s: Weak, a: Move)
    requires WeakInv(cfg, s) && CanMove(cfg, s, a)
    ensures WeakInv(cfg, Moved(cfg, s, a))
  {
    match a
    case BeginPush(_) => BeginKeeps(cfg, s, a);
    case GrantPush => GrantKeeps(cfg, s, a);
    case ReloadPush(_) => ReloadPushKeeps(cfg, s, a);
    case WriteWord(_, _) => WriteWordKeeps(cfg, s, a);
    case Publish => PublishKeeps(cfg, s);
    case BeginPop(_, _) => BeginKeeps(cfg, s, a);
    case GrantPop => GrantKeeps(cfg, s, a);
    case ReloadPop(_) => ReloadPopKeeps(cfg, s, a);
    case ReadWord(_, _, _) => ReadWordKeeps(cfg, s, a);
    case Consume => ConsumeKeeps(cfg, s);
    case Abandon => BeginKeeps(cfg, s, a);
    case HandOverProducer(_) => HandOverKeeps(cfg, s, a);
    case HandOverConsumer(_) => HandOverKeeps(cfg, s, a);
  }

  /** No access of a bound pair ever races. */
  lemma NoRace(cfg: Config, s: Weak, a: Move)
    requires WeakInv(cfg, s) && CanMove(cfg, s, a)
    ensures !Races(cfg, s, a)
  {
    if a.WriteWord? {
      WriteEffect(cfg, s, a.i, a.k);
      WriteTarget(cfg, s, a.i, a.k);
      WriteIsOrdered(cfg, s, a.i, a.k);
    } else if a.ReadWord? {
      ReadIsOrdered(cfg, s, a.i, a.k);
    }
  }

  lemma {:induction false} AfterKeepsInv(cfg: Config, s: Weak, acts: seq<Move>)
    requires WeakInv(cfg, s) && Moves(cfg, s, acts)
    ensures WeakInv(cfg, After(cfg, s, acts))
    decreases |acts|
  {
    if acts != [] {
      MoveKeepsInv(cfg, s, acts[0]);
      AfterKeepsInv(cfg, Moved(cfg, s, acts[0]), acts[1..]);
    }
  }

  /**
    However stale the acquire loads and whatever visible writes the reads pick, in every state of
    every run: what was delivered is a prefix of what was published, at most capacity items wait,
    and no enabled access races.
  */
  lemma WeakFifo(cfg: Config, s: Weak, acts: seq<Move>)
    requires cfg.Valid() && Start(cfg, s) && Moves(cfg, s, acts)
    ensures var s' := After(cfg, s, acts);
            && s'.delivered <= s'.published && s'.P() - s'.C() <= cfg.n - 1
            && forall a: Move :: CanMove(cfg, s', a) ==> !Races(cfg, s', a)
  {
    StartInv(cfg, s);
    AfterKeepsInv(cfg, s, acts);
    var s' := After(cfg, s, acts);
    forall a: Move | CanMove(cfg, s', a) ensures !Races(cfg, s', a) {
      NoRace(cfg, s', a);
    }
  }
}

/**
  The two models of the queue joined: a call of the step machine that nobody interrupts does to
  shared memory and to its handle exactly what the functions of module RingSpec say.
*/
module Sequential {
  import opened Positions
  import opened System
  import opened Invariant
  import opened RingSteps
  import opened Safety
  import RingSpec

  /** Shared memory through a handle. */
  function View(m: Mem, hd: Handle): RingSpec.Ring<Item> {
    RingSpec.Ring(m.slots, m.w, m.r, hd.rc, hd.wc)
  }

  /** Only handle h acts, inside its call; the run ends with the step that returns. */
  predicate Alone(cfg: Config, s: State, h: nat, acts: seq<Action>)
    decreases |acts|
  {
    && acts != [] && ActsFor(acts[0], h) && Enabled(cfg, s, acts[0]) && h in Next(cfg, s, acts[0]).handles
    && if Next(cfg, s, acts[0]).handles[h].phase.Idle? then acts[1..] == []
       else Alone(cfg, Next(cfg, s, acts[0]), h, acts[1..])
  }

  // ---------------------------------------------------------------- push

  /** Slots outside the granted run are untouched. */
  ghost predicate OutsideSame(cfg: Config, slots0: seq<Item>, slots: seq<Item>, w: nat, count: nat) {
    && w < cfg.n && |slots0| == |slots| == cfg.n
    && forall x: nat :: x < cfg.n && Used(cfg.n, x, w) >= count ==> slots[x] == slots0[x]
  }

  /** Where a push that began on ring q with history `published` is. */
  ghost predicate Pushing(cfg: Config, q: RingSpec.Ring<Item>, src: seq<Item>, published: seq<Item>, m: Mem, hd: Handle) {
    && q.InBounds() && q.N() == cfg.n && m.w == q.w && m.r == q.r && hd.wc == q.wc && m.published == published
    && hd.role == Producer && (hd.phase.PushLoaded? || hd.phase.Writing?)
    && (hd.phase.PushLoaded? ==> hd.phase.src == src && hd.phase.own == q.w && View(m, hd) == q)
    && (hd.phase.Writing? ==>
          && hd.phase.src == src && hd.phase.own == q.w
          && (hd.rc, hd.phase.count) == RingSpec.PushGrant(q, |src|)
          && OutsideSame(cfg, q.slots, m.slots, q.w, hd.phase.count))
  }

  /** Every slot is the slot of one position within a lap of the write index. */
  lemma SlotOfRun(cfg: Config, p: nat, x: nat)
    requires cfg.n > 0 && x < cfg.n
    ensures x == Slot(p + Used(cfg.n, x, Slot(p, cfg.n)), cfg.n)
  {
    PositionAbove(p, x, cfg.n, p + Used(cfg.n, x, Slot(p, cfg.n)));
  }

  /** A complete copy is what RingSpec stores. */
  lemma CopiedIsStored(cfg: Config, q: RingSpec.Ring<Item>, m: Mem, hd: Handle)
    requires cfg.Valid() && MemInv(cfg, m) && HandleInv(cfg, m, hd) && hd.phase.Writing? && m.w == q.w
    requires Words(cfg, hd.phase.count) <= hd.phase.done && OutsideSame(cfg, q.slots, m.slots, q.w, hd.phase.count)
    ensures hd.phase.count <= |hd.phase.src|
    ensures m.slots == RingSpec.Store(q.slots, q.w, hd.phase.src, hd.phase.count)
  {
    var stored := RingSpec.Store(q.slots, q.w, hd.phase.src, hd.phase.count);
    forall x: nat | x < cfg.n ensures m.slots[x] == stored[x] {
      var i := Used(cfg.n, x, q.w);
      if i < hd.phase.count {
        SlotOfRun(cfg, m.P(), x);
        CopyComplete(cfg, m, hd, i);
      }
    }
  }

  lemma DecideStep(cfg: Config, s: State, h: nat, q: RingSpec.Ring<Item>, src: seq<Item>, published: seq<Item>, a: Action)
    requires Inv(cfg, s) && h in s.handles && Pushing(cfg, q, src, published, s.mem, s.handles[h])
    requires Enabled(cfg, s, a) && ActsFor(a, h) && (a.GrantPush? || a.ReloadPush?)
    ensures var s' := Next(cfg, s, a);
            && h in s'.handles
            && (s'.handles[h].phase.Idle? ==>
                  (View(s'.mem, s'.handles[h]), 0) == RingSpec.PushN(q, src) && s'.mem.published == published)
            && (!s'.handles[h].phase.Idle? ==> Pushing(cfg, q, src, published, s'.mem, s'.handles[h]))
  {
    assert HandleInv(cfg, s.mem, s.handles[h]);
  }

  lemma WordStep(cfg: Config, s: State, h: nat, q: RingSpec.Ring<Item>, src: seq<Item>, published: seq<Item>, a: Action)
    requires Inv(cfg, s) && h in s.handles && Pushing(cfg, q, src, published, s.mem, s.handles[h])
    requires Enabled(cfg, s, a) && ActsFor(a, h) && a.WriteWord?
    ensures var s' := Next(cfg, s, a);
            h in s'.handles && Pushing(cfg, q, src, published, s'.mem, s'.handles[h])
  {
    assert HandleInv(cfg, s.mem, s.handles[h]);
    WriteTarget(cfg, s.mem, s.handles[h], a.i);
    UsedIsDistance(s.mem.P(), s.mem.P() + a.i, cfg.n);
  }

  lemma StoreStep(cfg: Config, s: State, h: nat, q: RingSpec.Ring<Item>, src: seq<Item>, published: seq<Item>)
    requires Inv(cfg, s) && h in s.handles && Pushing(cfg, q, src, published, s.mem, s.handles[h])
    requires Enabled(cfg, s, Publish(h))
    ensures var s' := Next(cfg, s, Publish(h));
            && h in s'.handles && RingSpec.PushN(q, src).1 <= |src|
            && View(s'.mem, s'.handles[h]) == RingSpec.PushN(q, src).0
            && s'.mem.published == published + src[..RingSpec.PushN(q, src).1]
  {
    assert HandleInv(cfg, s.mem, s.handles[h]);
    CopiedIsStored(cfg, q, s.mem, s.handles[h]);
  }

  lemma {:induction false} PushAlone(cfg: Config, s: State, h: nat, q: RingSpec.Ring<Item>, src: seq<Item>,
                                     published: seq<Item>, acts: seq<Action>)
    requires Inv(cfg, s) && h in s.handles && Pushing(cfg, q, src, published, s.mem, s.handles[h]) && Alone(cfg, s, h, acts)
    ensures Run(cfg, s, acts) && h in Exec(cfg, s, acts).handles
    ensures var s' := Exec(cfg, s, acts);
            && RingSpec.PushN(q, src).1 <= |src| && View(s'.mem, s'.handles[h]) == RingSpec.PushN(q, src).0
            && s'.mem.published == published + src[..RingSpec.PushN(q, src).1]
    decreases |acts|
  {
    var a, s' := acts[0], Next(cfg, s, acts[0]);
    assert PushStep(a);
    PushStepKeepsInv(cfg, s, a);
    if a.Publish? {
      StoreStep(cfg, s, h, q, src, published);
    } else {
      if a.WriteWord? {
        WordStep(cfg, s, h, q, src, published, a);
      } else {
        DecideStep(cfg, s, h, q, src, published, a);
      }
      if !s'.handles[h].phase.Idle? {
        PushAlone(cfg, s', h, q, src, published, acts[1..]);
      }
    }
  }

  /**
    push_n in the machine, uninterrupted, word by word in any order: slots, indices and caches end up
    as PushN says, and exactly the accepted prefix is published.
  */
  lemma UninterruptedPush(cfg: Config, s: State, h: nat, src: seq<Item>, acts: seq<Action>)
    requires Inv(cfg, s) && Enabled(cfg, s, BeginPush(h, src)) && Alone(cfg, Next(cfg, s, BeginPush(h, src)), h, acts)
    ensures Run(cfg, s, [BeginPush(h, src)] + acts) && h in Exec(cfg, s, [BeginPush(h, src)] + acts).handles
    ensures View(s.mem, s.handles[h]).CanPush()
    ensures var s', q := Exec(cfg, s, [BeginPush(h, src)] + acts), View(s.mem, s.handles[h]);
            && RingSpec.PushN(q, src).1 <= |src| && View(s'.mem, s'.handles[h]) == RingSpec.PushN(q, src).0
            && s'.mem.published == s.mem.published + src[..RingSpec.PushN(q, src).1]
  {
    var begin := BeginPush(h, src);
    var s1 := Next(cfg, s, begin);
    assert HandleInv(cfg, s.mem, s.handles[h]);
    FillLevel(cfg, s.mem);
    PushStepKeepsInv(cfg, s, begin);
    PushAlone(cfg, s1, h, View(s.mem, s.handles[h]), src, s.mem.published, acts);
    assert ([begin] + acts)[0] == begin && ([begin] + acts)[1..] == acts;
  }

  // ---------------------------------------------------------------- pop

  /** Where a copying pop that began on ring q is; nothing has changed in memory yet. */
  ghost predicate Popping(q: RingSpec.Ring<Item>, want: nat, m: Mem, hd: Handle) {
    && q.InBounds() && m.slots == q.slots && m.w == q.w && m.r == q.r && hd.rc == q.rc
    && hd.role == Consumer && (hd.phase.PopLoaded? || hd.phase.Reading?)
    && (hd.phase.PopLoaded? ==> hd.phase.want == want && !hd.phase.zeroCopy && hd.phase.own == q.r && hd.wc == q.wc)
    && (hd.phase.Reading? ==>
          !hd.phase.zeroCopy && hd.phase.own == q.r && (hd.wc, hd.phase.count) == RingSpec.PopGrant(q, want))
  }

  /** What RingSpec fetches are the items due. */
  lemma FetchedIsDue(cfg: Config, m: Mem, count: nat)
    requires cfg.Valid() && MemInv(cfg, m) && m.C() + count <= m.P()
    ensures RingSpec.Fetch(m.slots, m.r, count) == m.published[m.C()..m.C() + count]
  {
    forall i: nat | i < count ensures RingSpec.Fetch(m.slots, m.r, count)[i] == m.published[m.C() + i] {
      SlotAdd(m.C(), i, cfg.n);
      assert m.slots[Slot(m.C() + i, cfg.n)] == m.published[m.C() + i];
    }
  }

  lemma LookStep(cfg: Config, s: State, h: nat, q: RingSpec.Ring<Item>, want: nat, a: Action)
    requires Inv(cfg, s) && h in s.handles && Popping(q, want, s.mem, s.handles[h])
    requires Enabled(cfg, s, a) && ActsFor(a, h) && (a.GrantPop? || a.ReloadPop? || a.ReadWord?)
    ensures var s' := Next(cfg, s, a);
            && h in s'.handles && s'.mem == s.mem
            && (s'.handles[h].phase.Idle? ==> (View(s'.mem, s'.handles[h]), []) == RingSpec.PopN(q, want))
            && (!s'.handles[h].phase.Idle? ==> Popping(q, want, s'.mem, s'.handles[h]))
  {
    assert HandleInv(cfg, s.mem, s.handles[h]);
  }

  lemma TakeStep(cfg: Config, s: State, h: nat, q: RingSpec.Ring<Item>, want: nat)
    requires Inv(cfg, s) && h in s.handles && Popping(q, want, s.mem, s.handles[h]) && Enabled(cfg, s, Consume(h))
    ensures var s' := Next(cfg, s, Consume(h));
            && h in s'.handles && View(s'.mem, s'.handles[h]) == RingSpec.PopN(q, want).0
            && s'.mem.delivered == s.mem.delivered + RingSpec.PopN(q, want).1
  {
    var hd := s.handles[h];
    assert HandleInv(cfg, s.mem, hd);
    ConsumesItemsDue(cfg, s.mem, hd);
    FetchedIsDue(cfg, s.mem, hd.phase.count);
  }

  lemma {:induction false} PopAlone(cfg: Config, s: State, h: nat, q: RingSpec.Ring<Item>, want: nat, acts: seq<Action>)
    requires Inv(cfg, s) && h in s.handles && Popping(q, want, s.mem, s.handles[h]) && Alone(cfg, s, h, acts)
    ensures Run(cfg, s, acts) && h in Exec(cfg, s, acts).handles
    ensures var s' := Exec(cfg, s, acts);
            && View(s'.mem, s'.handles[h]) == RingSpec.PopN(q, want).0
            && s'.mem.delivered == s.mem.delivered + RingSpec.PopN(q, want).1
    decreases |acts|
  {
    var a, s' := acts[0], Next(cfg, s, acts[0]);
    assert PopStep(a) && !a.Abandon?;
    PopStepKeepsInv(cfg, s, a);
    if a.Consume? {
      TakeStep(cfg, s, h, q, want);
    } else {
      LookStep(cfg, s, h, q, want, a);
      if !s'.handles[h].phase.Idle? {
        PopAlone(cfg, s', h, q, want, acts[1..]);
      }
    }
  }

  /** pop_n in the machine, uninterrupted: memory and handle end up as PopN says, and its items are delivered. */
  lemma UninterruptedPop(cfg: Config, s: State, h: nat, want: nat, acts: seq<Action>)
    requires Inv(cfg, s) && Enabled(cfg, s, BeginPop(h, want, false))
    requires Alone(cfg, Next(cfg, s, BeginPop(h, want, false)), h, acts)
    ensures Run(cfg, s, [BeginPop(h, want, false)] + acts) && h in Exec(cfg, s, [BeginPop(h, want, false)] + acts).handles
    ensures View(s.mem, s.handles[h]).CanPop()
    ensures var s', q := Exec(cfg, s, [BeginPop(h, want, false)] + acts), View(s.mem, s.handles[h]);
            && View(s'.mem, s'.handles[h]) == RingSpec.PopN(q, want).0
            && s'.mem.delivered == s.mem.delivered + RingSpec.PopN(q, want).1
  {
    var begin := BeginPop(h, want, false);
    var s1 := Next(cfg, s, begin);
    assert HandleInv(cfg, s.mem, s.handles[h]);
    FillLevel(cfg, s.mem);
    PopStepKeepsInv(cfg, s, begin);
    PopAlone(cfg, s1, h, View(s.mem, s.handles[h]), want, acts);
    assert ([begin] + acts)[0] == begin && ([begin] + acts)[1..] == acts;
  }
}

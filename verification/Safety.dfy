/**
  The theorems about every run: the ring is a bounded FIFO, whatever the interleaving,
  crashes and takeovers included.
*/
module Safety {
  import opened Positions
  import opened System
  import opened Invariant
  import opened RingSteps
  import Fifo

  // ---------------------------------------------------------------- refinement

  /** The queue as anyone can read it off shared memory: the slots from readIdx up to writeIdx. */
  function Live(cfg: Config, m: Mem): (items: seq<Item>) {
    if m.w < cfg.n && m.r < cfg.n && |m.slots| == cfg.n then
      seq(Used(cfg.n, m.w, m.r), i requires 0 <= i < Used(cfg.n, m.w, m.r) => m.slots[Wrap(m.r + i, cfg.n)])
    else []
  }

  function Abs(cfg: Config, s: State): Fifo.Fifo<Item> {
    Fifo.Fifo(if cfg.n >= 1 then cfg.n - 1 else 0, Live(cfg, s.mem), s.mem.published, s.mem.delivered)
  }

  /** Where an operation takes effect: its own-index store. */
  function Effect(cfg: Config, s: State, a: Action): Fifo.Event<Item>
    requires Enabled(cfg, s, a)
  {
    if a.Publish? then Fifo.Enqueue(s.handles[a.h].phase.src[..s.handles[a.h].phase.count])
    else if a.Consume? then Fifo.Dequeue(Next(cfg, s, a).mem.delivered[s.mem.C()..])
    else Fifo.Internal
  }

  function Effects(cfg: Config, s: State, acts: seq<Action>): seq<Fifo.Event<Item>>
    requires Run(cfg, s, acts)
    decreases |acts|
  {
    if acts == [] then []
    else [Effect(cfg, s, acts[0])] + Effects(cfg, Next(cfg, s, acts[0]), acts[1..])
  }

  /** What memory holds between the two indices is exactly the published, unconsumed items. */
  lemma LiveIsUnread(cfg: Config, m: Mem)
    requires cfg.Valid() && MemInv(cfg, m)
    ensures Live(cfg, m) == m.published[m.C()..]
  {
    FillLevel(cfg, m);
    var unread := m.published[m.C()..];
    forall i: nat | i < |unread| ensures Live(cfg, m)[i] == unread[i] {
      SlotAdd(m.C(), i, cfg.n);
      assert Live(cfg, m)[i] == m.slots[Wrap(m.r + i, cfg.n)];
      assert m.slots[Slot(m.C() + i, cfg.n)] == m.published[m.C() + i];
    }
  }

  /** Slot contents outside the live range do not show. */
  lemma InternalStep(cfg: Config, s: State, a: Action)
    requires Inv(cfg, s) && Enabled(cfg, s, a) && Careful(cfg, s, a) && !a.Publish? && !a.Consume?
    ensures Abs(cfg, Next(cfg, s, a)) == Abs(cfg, s)
  {
    StepKeepsInv(cfg, s, a);
    LiveIsUnread(cfg, s.mem);
    LiveIsUnread(cfg, Next(cfg, s, a).mem);
  }

  lemma PublishAppends(cfg: Config, m: Mem, hd: Handle)
    requires cfg.Valid() && MemInv(cfg, m) && HandleInv(cfg, m, hd)
    requires hd.phase.Writing? && CanPublish(cfg, hd.phase)
    ensures var m' := PublishMem(cfg, m, hd.phase);
            && Live(cfg, m') == Live(cfg, m) + hd.phase.src[..hd.phase.count]
            && |Live(cfg, m)| + hd.phase.count <= cfg.n - 1
  {
    PublishKeepsMem(cfg, m, hd);
    LiveIsUnread(cfg, m);
    LiveIsUnread(cfg, PublishMem(cfg, m, hd.phase));
  }

  lemma PublishIsEnqueue(cfg: Config, s: State, h: nat)
    requires Inv(cfg, s) && Enabled(cfg, s, Publish(h))
    ensures Fifo.Step(Abs(cfg, s), Effect(cfg, s, Publish(h)), Abs(cfg, Next(cfg, s, Publish(h))))
  {
    assert HandleInv(cfg, s.mem, s.handles[h]);
    PublishAppends(cfg, s.mem, s.handles[h]);
  }

  lemma ConsumeRemoves(cfg: Config, m: Mem, hd: Handle)
    requires cfg.Valid() && MemInv(cfg, m) && HandleInv(cfg, m, hd)
    requires hd.phase.Reading? && CanConsume(cfg, m, hd.phase)
    ensures var m' := ConsumeMem(cfg, m, hd.phase);
            var items := m'.delivered[m.C()..];
            && m'.delivered == m.delivered + items && items <= Live(cfg, m)
            && Live(cfg, m') == Live(cfg, m)[|items|..]
  {
    var m', c := ConsumeMem(cfg, m, hd.phase), m.C() + hd.phase.count;
    ConsumesItemsDue(cfg, m, hd);
    ConsumeKeepsMem(cfg, m, hd);
    LiveIsUnread(cfg, m);
    LiveIsUnread(cfg, m');
    assert m'.delivered[m.C()..] == m.published[m.C()..c];
  }

  lemma ConsumeIsDequeue(cfg: Config, s: State, h: nat)
    requires Inv(cfg, s) && Enabled(cfg, s, Consume(h))
    ensures Fifo.Step(Abs(cfg, s), Effect(cfg, s, Consume(h)), Abs(cfg, Next(cfg, s, Consume(h))))
  {
    assert HandleInv(cfg, s.mem, s.handles[h]);
    ConsumeRemoves(cfg, s.mem, s.handles[h]);
  }

  /** Every step of the machine is one step of the atomic FIFO, or none. */
  lemma StepRefines(cfg: Config, s: State, a: Action)
    requires Inv(cfg, s) && Enabled(cfg, s, a) && Careful(cfg, s, a)
    ensures Fifo.Step(Abs(cfg, s), Effect(cfg, s, a), Abs(cfg, Next(cfg, s, a)))
  {
    if a.Publish? {
      PublishIsEnqueue(cfg, s, a.h);
    } else if a.Consume? {
      ConsumeIsDequeue(cfg, s, a.h);
    } else {
      InternalStep(cfg, s, a);
    }
  }

  /** Every run of the machine is a run of the atomic FIFO of capacity n - 1. */
  lemma {:induction false} RunRefines(cfg: Config, s: State, acts: seq<Action>)
    requires Inv(cfg, s) && CarefulRun(cfg, s, acts)
    ensures Run(cfg, s, acts)
    ensures Fifo.Steps(Abs(cfg, s), Effects(cfg, s, acts), Abs(cfg, Exec(cfg, s, acts)))
    decreases |acts|
  {
    CarefulRunIsRun(cfg, s, acts);
    if acts != [] {
      var s' := Next(cfg, s, acts[0]);
      StepKeepsInv(cfg, s, acts[0]);
      StepRefines(cfg, s, acts[0]);
      RunRefines(cfg, s', acts[1..]);
      var es := Effects(cfg, s, acts);
      assert es[1..] == Effects(cfg, s', acts[1..]);
      assert Fifo.Step(Abs(cfg, s), es[0], Abs(cfg, s'));
    }
  }

  /**
    The delivered sequence is a prefix of the published one in every reachable state of every
    run from a fresh segment: no gap, duplicate, reorder or torn item; at most capacity items
    wait, and they wait whole in the slots from readIdx to writeIdx.
  */
  lemma DeliveredIsPrefix(cfg: Config, s: State, acts: seq<Action>)
    requires cfg.Valid() && Init(cfg, s) && CarefulRun(cfg, s, acts)
    ensures Run(cfg, s, acts)
    ensures var m := Exec(cfg, s, acts).mem;
            m.published == m.delivered + Live(cfg, m) && |Live(cfg, m)| <= cfg.n - 1
  {
    InitInv(cfg, s);
    RunRefines(cfg, s, acts);
    assert Live(cfg, s.mem) == [];
    Fifo.Conservation(Abs(cfg, s), Effects(cfg, s, acts), Abs(cfg, Exec(cfg, s, acts)));
  }

  // ---------------------------------------------------------------- caches

  /** In any careful run a bound handle's cache errs on the safe side: never more room or items than there are. */
  lemma CachesNeverOverpromise(cfg: Config, s: State, acts: seq<Action>, h: nat)
    requires Inv(cfg, s) && CarefulRun(cfg, s, acts)
    ensures Run(cfg, s, acts)
    ensures var s' := Exec(cfg, s, acts);
            h in s'.handles && s'.handles[h].phase.Bound() ==>
              var m, hd := s'.mem, s'.handles[h];
              && hd.rc < cfg.n && hd.wc < cfg.n && m.w < cfg.n && m.r < cfg.n
              && (hd.role == Producer ==> Free(cfg.n, m.w, hd.rc) <= cfg.n - 1 - |Live(cfg, m)|)
              && (hd.role == Consumer ==> Used(cfg.n, hd.wc, m.r) <= |Live(cfg, m)|)
  {
    RunKeepsInv(cfg, s, acts);
    var s' := Exec(cfg, s, acts);
    FillLevel(cfg, s'.mem);
    if h in s'.handles {
      assert HandleInv(cfg, s'.mem, s'.handles[h]);
    }
  }

  /** A push that had to reload gives up exactly when the queue is full at that moment. */
  lemma PushFailsIffFull(cfg: Config, s: State, h: nat)
    requires Inv(cfg, s) && Enabled(cfg, s, ReloadPush(h))
    ensures Next(cfg, s, ReloadPush(h)).handles[h].phase.Idle? <==> |Live(cfg, s.mem)| == cfg.n - 1
    ensures !Next(cfg, s, ReloadPush(h)).handles[h].phase.Idle? ==>
              Next(cfg, s, ReloadPush(h)).handles[h].phase.count
                == Min(|s.handles[h].phase.src|, cfg.n - 1 - |Live(cfg, s.mem)|)
  {
  }

  /** A pop that had to reload gives up exactly when the queue is empty at that moment. */
  lemma PopFailsIffEmpty(cfg: Config, s: State, h: nat)
    requires Inv(cfg, s) && Enabled(cfg, s, ReloadPop(h))
    ensures Next(cfg, s, ReloadPop(h)).handles[h].phase.Idle? <==> Live(cfg, s.mem) == []
    ensures !Next(cfg, s, ReloadPop(h)).handles[h].phase.Idle? ==>
              Next(cfg, s, ReloadPop(h)).handles[h].phase.count
                == Min(s.handles[h].phase.want, |Live(cfg, s.mem)|)
  {
  }

  // ---------------------------------------------------------------- both sides mid-copy

  /**
    While a batch is written and another read, across the wrap or not: every access is in
    bounds, the slots are those of the positions P + i and C + i, and no slot is on both sides.
  */
  lemma CopiesDisjoint(cfg: Config, s: State, hp: nat, hc: nat, i: nat, j: nat)
    requires Inv(cfg, s) && hp in s.handles && hc in s.handles
    requires s.handles[hp].phase.Writing? && s.handles[hc].phase.Reading?
    requires i < s.handles[hp].phase.count && j < s.handles[hc].phase.count
    ensures RunInBounds(cfg, s.handles[hp].phase) && RunInBounds(cfg, s.handles[hc].phase)
    ensures var target := Granted(cfg, s.handles[hp].phase, i);
            var source := Granted(cfg, s.handles[hc].phase, j);
            && target == Slot(s.mem.P() + i, cfg.n) && source == Slot(s.mem.C() + j, cfg.n)
            && target < |s.mem.slots| && source < |s.mem.slots| && target != source
  {
    assert HandleInv(cfg, s.mem, s.handles[hp]) && HandleInv(cfg, s.mem, s.handles[hc]);
    WriteTarget(cfg, s.mem, s.handles[hp], i);
    ReadsItemDue(cfg, s.mem, s.handles[hc], j, 0);
    assert s.mem.C() + j < s.mem.P() + i < s.mem.C() + j + cfg.n;
    SlotInjective(s.mem.C() + j, s.mem.P() + i, cfg.n);
  }

  predicate RunInBounds(cfg: Config, ph: Phase)
    requires ph.Writing? || ph.Reading?
  {
    ph.own < cfg.n && ph.count < cfg.n
  }

  /** The slot of the i-th item of the run an operation is copying. */
  function Granted(cfg: Config, ph: Phase, i: nat): nat
    requires (ph.Writing? || ph.Reading?) && RunInBounds(cfg, ph) && i < ph.count
  {
    RunSlot(cfg.n, ph.own, ph.count, i)
  }

  /** No copy step ever has to wait: each word of a granted run can be written or read at once. */
  lemma CopiesNeverBlocked(cfg: Config, s: State, h: nat, i: nat, k: nat)
    requires Inv(cfg, s) && h in s.handles && k < cfg.width
    ensures s.handles[h].phase.Writing? && i < s.handles[h].phase.count ==> Enabled(cfg, s, WriteWord(h, i, k))
    ensures s.handles[h].phase.Reading? && i < s.handles[h].phase.count ==> Enabled(cfg, s, ReadWord(h, i, k))
  {
  }

  // ---------------------------------------------------------------- size() and empty()

  predicate ActsFor(a: Action, h: nat) {
    !a.Spawn? && !a.Die? && a.h == h
  }

  /** A run in which handle h, bound throughout, takes no step. */
  predicate Quiet(cfg: Config, s: State, acts: seq<Action>, h: nat)
    decreases |acts|
  {
    h in s.handles && s.handles[h].phase.Bound() &&
    (acts == [] ||
     (Enabled(cfg, s, acts[0]) && Careful(cfg, s, acts[0]) && !ActsFor(acts[0], h) &&
      Quiet(cfg, Next(cfg, s, acts[0]), acts[1..], h)))
  }

  /** Only a push stores writeIdx, only a pop stores readIdx. */
  lemma IndexWriters(cfg: Config, s: State, a: Action)
    requires Enabled(cfg, s, a)
    ensures !a.Publish? ==> Next(cfg, s, a).mem.w == s.mem.w && Next(cfg, s, a).mem.published == s.mem.published
    ensures !a.Consume? ==> Next(cfg, s, a).mem.r == s.mem.r && Next(cfg, s, a).mem.delivered == s.mem.delivered
  {
  }

  lemma OthersLeaveHandle(cfg: Config, s: State, a: Action, h: nat)
    requires Enabled(cfg, s, a) && !ActsFor(a, h) && h in s.handles && h in Next(cfg, s, a).handles
    ensures Next(cfg, s, a).handles[h] == s.handles[h]
  {
  }

  lemma OthersLeaveOwnIndex(cfg: Config, s: State, a: Action, h: nat)
    requires Inv(cfg, s) && Enabled(cfg, s, a) && !ActsFor(a, h)
    requires h in s.handles && s.handles[h].phase.Bound()
    ensures s.handles[h].role == Producer ==> !a.Publish?
    ensures s.handles[h].role == Consumer ==> !a.Consume?
  {
  }

  /** While its owner is quiet, an index stands still, whatever everyone else does. */
  lemma {:induction false} OwnIndexStable(cfg: Config, s: State, acts: seq<Action>, h: nat)
    requires Inv(cfg, s) && Quiet(cfg, s, acts, h)
    ensures CarefulRun(cfg, s, acts) && Run(cfg, s, acts) && Inv(cfg, Exec(cfg, s, acts))
    ensures s.handles[h].role == Producer ==>
              Exec(cfg, s, acts).mem.w == s.mem.w && Exec(cfg, s, acts).mem.published == s.mem.published
    ensures s.handles[h].role == Consumer ==>
              Exec(cfg, s, acts).mem.r == s.mem.r && Exec(cfg, s, acts).mem.delivered == s.mem.delivered
    decreases |acts|
  {
    if acts != [] {
      StepKeepsInv(cfg, s, acts[0]);
      OthersLeaveOwnIndex(cfg, s, acts[0], h);
      OthersLeaveHandle(cfg, s, acts[0], h);
      IndexWriters(cfg, s, acts[0]);
      OwnIndexStable(cfg, Next(cfg, s, acts[0]), acts[1..], h);
    }
  }

  /**
    size() loads writeIdx in one state and readIdx in a later one.  For an endpoint the answer is
    the true size at one of the two: for the producer at the second load, for the consumer at the
    first.  The same holds of empty().
  */
  lemma EndpointSizeExact(cfg: Config, s: State, acts: seq<Action>, h: nat)
    requires Inv(cfg, s) && Quiet(cfg, s, acts, h)
    ensures Run(cfg, s, acts)
    ensures var s' := Exec(cfg, s, acts);
            && s.mem.w < cfg.n && s'.mem.r < cfg.n
            && Used(cfg.n, s.mem.w, s'.mem.r) ==
                 |Live(cfg, if s.handles[h].role == Producer then s'.mem else s.mem)|
            && (s.mem.w == s'.mem.r <==>
                 Live(cfg, if s.handles[h].role == Producer then s'.mem else s.mem) == [])
  {
    OwnIndexStable(cfg, s, acts, h);
    FillLevel(cfg, s.mem);
    FillLevel(cfg, Exec(cfg, s, acts).mem);
  }

  /** Nothing published or delivered is ever taken back. */
  lemma {:induction false} HistoriesGrow(cfg: Config, s: State, acts: seq<Action>)
    requires Run(cfg, s, acts)
    ensures s.mem.published <= Exec(cfg, s, acts).mem.published
    ensures s.mem.delivered <= Exec(cfg, s, acts).mem.delivered
    decreases |acts|
  {
    if acts != [] {
      IndexWriters(cfg, s, acts[0]);
      HistoriesGrow(cfg, Next(cfg, s, acts[0]), acts[1..]);
    }
  }

  /** For anyone else size() is still between 0 and capacity(). */
  lemma BystanderSizeInRange(cfg: Config, s: State, acts: seq<Action>)
    requires Inv(cfg, s) && CarefulRun(cfg, s, acts)
    ensures Run(cfg, s, acts)
    ensures s.mem.w < cfg.n && Exec(cfg, s, acts).mem.r < cfg.n
    ensures 0 <= Used(cfg.n, s.mem.w, Exec(cfg, s, acts).mem.r) <= cfg.n - 1
  {
    RunKeepsInv(cfg, s, acts);
  }
}

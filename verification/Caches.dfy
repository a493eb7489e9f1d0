/**
  What the cached indices stand for.  In a run in which no role advances between a claimant's
  snapshot and its claim, a cache is the slot of the very position its index had when it was
  loaded, and that position lies in the lap the cache is used in.
*/
module Caches {
  import opened Positions
  import opened System
  import opened Invariant
  import opened RingSteps
  import opened Safety
  import opened Takeover

  /** The handle has loaded readIdx, or both indices. */
  predicate LoadedRead(hd: Handle) { !hd.phase.Opened? }
  predicate LoadedWrite(hd: Handle) { !hd.phase.Opened? && !hd.phase.HalfSnapped? }

  /** The caches and their positions; in the right lap once bound, and before that until the role moves. */
  ghost predicate PositionsOk(cfg: Config, m: Mem, hd: Handle) {
    && cfg.n > 0
    && (LoadedRead(hd) ==> hd.rcAt <= m.C() && hd.rc == Slot(hd.rcAt, cfg.n))
    && (LoadedWrite(hd) ==> hd.wcAt <= m.P() && hd.wc == Slot(hd.wcAt, cfg.n))
    && (LoadedRead(hd) && hd.role == Producer && (hd.phase.Bound() || hd.mark == m.P()) ==> m.P() < hd.rcAt + cfg.n)
    && (LoadedWrite(hd) && hd.role == Consumer && (hd.phase.Bound() || hd.mark == m.C()) ==> m.C() <= hd.wcAt)
  }

  ghost predicate CachesInv(cfg: Config, s: State) {
    forall h :: h in s.handles ==> PositionsOk(cfg, s.mem, s.handles[h])
  }

  /** A push published from a grant on the cache stays within the lap of the position it was loaded at. */
  lemma PublishKeepsPositions(cfg: Config, s: State, h: nat)
    requires Inv(cfg, s) && CachesInv(cfg, s) && Enabled(cfg, s, Publish(h))
    ensures CachesInv(cfg, Next(cfg, s, Publish(h)))
  {
    var s', hd := Next(cfg, s, Publish(h)), s.handles[h];
    assert HandleInv(cfg, s.mem, hd) && PositionsOk(cfg, s.mem, hd);
    UsedIsDistance(hd.rcAt, s.mem.P(), cfg.n);
    forall g | g in s'.handles ensures PositionsOk(cfg, s'.mem, s'.handles[g]) {
      assert PositionsOk(cfg, s.mem, s.handles[g]);
      if g != h {
        SoleBoundProducer(cfg, s, h, g);
      }
    }
  }

  lemma ConsumeKeepsPositions(cfg: Config, s: State, h: nat)
    requires Inv(cfg, s) && CachesInv(cfg, s) && Enabled(cfg, s, Consume(h))
    ensures CachesInv(cfg, Next(cfg, s, Consume(h)))
  {
    var s', hd := Next(cfg, s, Consume(h)), s.handles[h];
    assert HandleInv(cfg, s.mem, hd) && PositionsOk(cfg, s.mem, hd);
    ConsumerKeepsPositions(cfg, s.mem, hd);
    forall g | g in s'.handles ensures PositionsOk(cfg, s'.mem, s'.handles[g]) {
      if g != h {
        SoleBoundConsumer(cfg, s, h, g);
        BystanderKeepsPositions(cfg, s.mem, s'.mem, s.handles[g]);
      }
    }
  }

  lemma ConsumerKeepsPositions(cfg: Config, m: Mem, hd: Handle)
    requires cfg.Valid() && MemInv(cfg, m) && HandleInv(cfg, m, hd) && PositionsOk(cfg, m, hd)
    requires hd.phase.Reading? && CanConsume(cfg, m, hd.phase)
    ensures var m' := ConsumeMem(cfg, m, hd.phase);
            && m'.published == m.published && |m'.delivered| > |m.delivered|
            && PositionsOk(cfg, m', hd.(phase := Idle))
  {
    UsedIsDistance(m.C(), hd.wcAt, cfg.n);
    ConsumesItemsDue(cfg, m, hd);
  }

  /** A handle that is not a bound consumer, while one advances. */
  lemma BystanderKeepsPositions(cfg: Config, m: Mem, m': Mem, hd: Handle)
    requires cfg.Valid() && MemInv(cfg, m) && HandleInv(cfg, m, hd) && PositionsOk(cfg, m, hd)
    requires m'.published == m.published && |m'.delivered| > |m.delivered|
    requires !(hd.phase.Bound() && hd.role == Consumer)
    ensures PositionsOk(cfg, m', hd)
  {
  }

  /** The acting handle, in bind(). */
  lemma BindKeepsPositions(cfg: Config, s: State, a: Action)
    requires Inv(cfg, s) && CachesInv(cfg, s) && ProcessStep(a) && !a.Spawn? && !a.Die? && Enabled(cfg, s, a) && Unmoved(s, a)
    ensures a.h in Next(cfg, s, a).handles ==> PositionsOk(cfg, s.mem, Next(cfg, s, a).handles[a.h])
  {
    if !a.Open? {
      assert PositionsOk(cfg, s.mem, s.handles[a.h]);
    }
  }

  /** The acting handle, in a push before its index store. */
  lemma PushKeepsPositions(cfg: Config, s: State, a: Action)
    requires Inv(cfg, s) && CachesInv(cfg, s) && PushStep(a) && Enabled(cfg, s, a) && !a.Publish?
    ensures a.h in Next(cfg, s, a).handles ==> PositionsOk(cfg, s.mem, Next(cfg, s, a).handles[a.h])
  {
    assert PositionsOk(cfg, s.mem, s.handles[a.h]) && HandleInv(cfg, s.mem, s.handles[a.h]);
  }

  /** The acting handle, in a pop before its index store. */
  lemma PopKeepsPositions(cfg: Config, s: State, a: Action)
    requires Inv(cfg, s) && CachesInv(cfg, s) && PopStep(a) && Enabled(cfg, s, a) && !a.Consume?
    ensures a.h in Next(cfg, s, a).handles ==> PositionsOk(cfg, s.mem, Next(cfg, s, a).handles[a.h])
  {
    assert PositionsOk(cfg, s.mem, s.handles[a.h]) && HandleInv(cfg, s.mem, s.handles[a.h]);
  }

  lemma ActorKeepsPositions(cfg: Config, s: State, a: Action)
    requires Inv(cfg, s) && CachesInv(cfg, s) && Enabled(cfg, s, a) && Unmoved(s, a)
    requires !a.Publish? && !a.Consume? && !a.Spawn? && !a.Die?
    ensures a.h in Next(cfg, s, a).handles ==> PositionsOk(cfg, s.mem, Next(cfg, s, a).handles[a.h])
  {
    if ProcessStep(a) {
      BindKeepsPositions(cfg, s, a);
    } else if PushStep(a) {
      PushKeepsPositions(cfg, s, a);
    } else {
      PopKeepsPositions(cfg, s, a);
    }
  }

  /** Only the counts matter to a handle. */
  lemma SameCounts(cfg: Config, m: Mem, m': Mem, hd: Handle)
    requires PositionsOk(cfg, m, hd) && m'.published == m.published && m'.delivered == m.delivered
    ensures PositionsOk(cfg, m', hd)
  {
  }

  lemma OtherKeepsPositions(cfg: Config, s: State, a: Action)
    requires Inv(cfg, s) && CachesInv(cfg, s) && Enabled(cfg, s, a) && Unmoved(s, a) && !a.Publish? && !a.Consume?
    ensures CachesInv(cfg, Next(cfg, s, a))
  {
    var s' := Next(cfg, s, a);
    IndexWriters(cfg, s, a);
    forall g | g in s'.handles ensures PositionsOk(cfg, s'.mem, s'.handles[g]) {
      if ActsFor(a, g) {
        ActorKeepsPositions(cfg, s, a);
      } else {
        OthersLeaveHandle(cfg, s, a, g);
      }
      SameCounts(cfg, s.mem, s'.mem, s'.handles[g]);
    }
  }

  lemma {:induction false} UnmovedRunKeepsCaches(cfg: Config, s: State, acts: seq<Action>)
    requires Inv(cfg, s) && CachesInv(cfg, s) && UnmovedRun(cfg, s, acts)
    ensures Run(cfg, s, acts) && Inv(cfg, Exec(cfg, s, acts)) && CachesInv(cfg, Exec(cfg, s, acts))
    decreases |acts|
  {
    if acts != [] {
      UnmovedStepKeepsInv(cfg, s, acts[0]);
      if acts[0].Publish? {
        PublishKeepsPositions(cfg, s, acts[0].h);
      } else if acts[0].Consume? {
        ConsumeKeepsPositions(cfg, s, acts[0].h);
      } else {
        OtherKeepsPositions(cfg, s, acts[0]);
      }
      UnmovedRunKeepsCaches(cfg, Next(cfg, s, acts[0]), acts[1..]);
    }
  }

  /**
    In every state of every such run from a fresh segment, with RC = rcAt and WC = wcAt:
    RC <= C <= P < RC + n for a bound producer, whose cache is the slot of RC and of no other
    position of that lap and whose freeSlots() is exact for RC; C <= WC <= P for a bound consumer,
    likewise.
  */
  lemma CachesStandForPositions(cfg: Config, s: State, acts: seq<Action>, h: nat)
    requires cfg.Valid() && Init(cfg, s) && UnmovedRun(cfg, s, acts)
    ensures Run(cfg, s, acts)
    ensures var s' := Exec(cfg, s, acts);
            h in s'.handles && s'.handles[h].phase.Bound() ==>
              if s'.handles[h].role == Producer then ProducerView(cfg, s'.mem, s'.handles[h])
              else ConsumerView(cfg, s'.mem, s'.handles[h])
  {
    InitInv(cfg, s);
    UnmovedRunKeepsCaches(cfg, s, acts);
    var s' := Exec(cfg, s, acts);
    if h in s'.handles && s'.handles[h].phase.Bound() {
      assert PositionsOk(cfg, s'.mem, s'.handles[h]);
      BoundView(cfg, s'.mem, s'.handles[h]);
    }
  }

  ghost predicate ProducerView(cfg: Config, m: Mem, hd: Handle) {
    && cfg.n > 0 && hd.rcAt <= m.C() <= m.P() < hd.rcAt + cfg.n && hd.rc < cfg.n && m.w < cfg.n
    && Free(cfg.n, m.w, hd.rc) == cfg.n - 1 - (m.P() - hd.rcAt)
    && forall q: nat :: q <= m.P() < q + cfg.n ==> (Slot(q, cfg.n) == hd.rc <==> q == hd.rcAt)
  }

  ghost predicate ConsumerView(cfg: Config, m: Mem, hd: Handle) {
    && cfg.n > 0 && m.C() <= hd.wcAt <= m.P() < m.C() + cfg.n && hd.wc < cfg.n && m.r < cfg.n
    && Used(cfg.n, hd.wc, m.r) == hd.wcAt - m.C()
    && forall q: nat :: m.C() <= q < m.C() + cfg.n ==> (Slot(q, cfg.n) == hd.wc <==> q == hd.wcAt)
  }

  lemma BoundView(cfg: Config, m: Mem, hd: Handle)
    requires cfg.Valid() && MemInv(cfg, m) && PositionsOk(cfg, m, hd) && hd.phase.Bound()
    ensures if hd.role == Producer then ProducerView(cfg, m, hd) else ConsumerView(cfg, m, hd)
  {
    if hd.role == Producer {
      UsedIsDistance(hd.rcAt, m.P(), cfg.n);
      forall q: nat | q <= m.P() < q + cfg.n ensures Slot(q, cfg.n) == hd.rc <==> q == hd.rcAt {
        PositionBelow(m.P(), hd.rc, cfg.n, q);
      }
    } else {
      UsedIsDistance(m.C(), hd.wcAt, cfg.n);
      forall q: nat | m.C() <= q < m.C() + cfg.n ensures Slot(q, cfg.n) == hd.wc <==> q == hd.wcAt {
        PositionAbove(m.C(), hd.wc, cfg.n, q);
      }
    }
  }
}

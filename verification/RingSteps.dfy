/** Every step keeps the ring invariant. */
module RingSteps {
  import opened Positions
  import opened System
  import opened Invariant

  /** Read off shared memory, the fill level is P - C. */
  lemma FillLevel(cfg: Config, m: Mem)
    requires cfg.Valid() && MemInv(cfg, m)
    ensures Used(cfg.n, m.w, m.r) == m.P() - m.C()
  {
    UsedIsDistance(m.C(), m.P(), cfg.n);
  }

  // ---------------------------------------------------------------- steps that change one handle

  lemma RingLocal(cfg: Config, s: State, s': State, h: nat)
    requires RingInv(cfg, s) && s'.mem == s.mem && h in s'.handles
    requires s'.handles == s.handles[h := s'.handles[h]]
    requires HandleInv(cfg, s.mem, s'.handles[h])
    ensures RingInv(cfg, s')
  {
  }

  lemma RingFewer(cfg: Config, s: State, s': State)
    requires RingInv(cfg, s) && s'.mem == s.mem
    requires forall h :: h in s'.handles ==> h in s.handles && s'.handles[h] == s.handles[h]
    ensures RingInv(cfg, s')
  {
  }

  lemma BindStep(cfg: Config, s: State, a: Action)
    requires RingInv(cfg, s) && Enabled(cfg, s, a) && Careful(cfg, s, a)
    requires a.Open? || a.SnapRead? || a.SnapWrite? || a.LoadPid? || a.Test? || a.Cas?
    ensures RingInv(cfg, Next(cfg, s, a))
  {
    var s' := Next(cfg, s, a);
    FillLevel(cfg, s.mem);
    if a.h in s'.handles {
      RingLocal(cfg, s, s', a.h);
    } else {
      RingFewer(cfg, s, s');
    }
  }

  lemma LocalPushStep(cfg: Config, s: State, a: Action)
    requires RingInv(cfg, s) && Enabled(cfg, s, a)
    requires a.BeginPush? || a.GrantPush? || a.ReloadPush?
    ensures RingInv(cfg, Next(cfg, s, a))
  {
    FillLevel(cfg, s.mem);
    assert HandleInv(cfg, s.mem, s.handles[a.h]);
    RingLocal(cfg, s, Next(cfg, s, a), a.h);
  }

  lemma LocalPopStep(cfg: Config, s: State, a: Action)
    requires RingInv(cfg, s) && Enabled(cfg, s, a)
    requires a.BeginPop? || a.GrantPop? || a.ReloadPop? || a.Abandon?
    ensures RingInv(cfg, Next(cfg, s, a))
  {
    FillLevel(cfg, s.mem);
    assert HandleInv(cfg, s.mem, s.handles[a.h]);
    RingLocal(cfg, s, Next(cfg, s, a), a.h);
  }

  /** Whatever a consumer reads, in whatever order, is a word of the item due. */
  lemma ReadsItemDue(cfg: Config, m: Mem, hd: Handle, i: nat, k: nat)
    requires cfg.Valid() && MemInv(cfg, m) && HandleInv(cfg, m, hd) && hd.phase.Reading?
    requires i < hd.phase.count && k < cfg.width
    ensures RunSlot(cfg.n, hd.phase.own, hd.phase.count, i) == Slot(m.C() + i, cfg.n)
    ensures m.C() + i < m.P()
    ensures m.slots[Slot(m.C() + i, cfg.n)][k] == m.published[m.C() + i][k]
  {
    RunSlotIsSlot(m.C(), hd.phase.count, i, cfg.n);
  }

  lemma ReadWordStep(cfg: Config, s: State, a: Action)
    requires RingInv(cfg, s) && a.ReadWord? && Enabled(cfg, s, a)
    ensures RingInv(cfg, Next(cfg, s, a))
  {
    assert HandleInv(cfg, s.mem, s.handles[a.h]);
    ReadsItemDue(cfg, s.mem, s.handles[a.h], a.i, a.k);
    RingLocal(cfg, s, Next(cfg, s, a), a.h);
  }

  // ---------------------------------------------------------------- copying a word in

  /** A granted slot belongs to a position past the published items and within the lap of the unread ones. */
  lemma WriteTarget(cfg: Config, m: Mem, hd: Handle, i: nat)
    requires cfg.Valid() && MemInv(cfg, m) && HandleInv(cfg, m, hd) && hd.phase.Writing?
    requires i < hd.phase.count
    ensures RunSlot(cfg.n, hd.phase.own, hd.phase.count, i) == Slot(m.P() + i, cfg.n)
    ensures m.P() + i < m.C() + cfg.n - 1
  {
    RunSlotIsSlot(m.P(), hd.phase.count, i, cfg.n);
  }

  lemma WriteKeepsMem(cfg: Config, m: Mem, hd: Handle, i: nat, k: nat)
    requires cfg.Valid() && MemInv(cfg, m) && HandleInv(cfg, m, hd) && hd.phase.Writing?
    requires i < hd.phase.count && k < cfg.width && CanWrite(cfg, m, hd.phase, i, k)
    ensures MemInv(cfg, WriteMem(cfg, m, hd.phase, i, k))
  {
    var m' := WriteMem(cfg, m, hd.phase, i, k);
    WriteTarget(cfg, m, hd, i);
    forall j: nat | m.C() <= j < m.P() ensures m'.slots[Slot(j, cfg.n)] == m.published[j] {
      SlotInjective(j, m.P() + i, cfg.n);
    }
  }

  /** One more word is in place, and those already copied stay. */
  lemma WordInPlace(cfg: Config, m: Mem, ph: Phase, i: nat, k: nat, p: (nat, nat))
    requires cfg.n > 0 && |m.slots| == cfg.n && AreItems(cfg, m.slots)
    requires ph.Writing? && AreItems(cfg, ph.src) && ph.count <= |ph.src| && ph.count < cfg.n
    requires i < ph.count && k < cfg.width && CanWrite(cfg, m, ph, i, k)
    requires RunSlot(cfg.n, ph.own, ph.count, i) == Slot(m.P() + i, cfg.n)
    requires p.0 < ph.count && p.1 < cfg.width
    requires p != (i, k) ==> m.slots[Slot(m.P() + p.0, cfg.n)][p.1] == ph.src[p.0][p.1]
    ensures |WriteMem(cfg, m, ph, i, k).slots[Slot(m.P() + p.0, cfg.n)]| == cfg.width
    ensures WriteMem(cfg, m, ph, i, k).slots[Slot(m.P() + p.0, cfg.n)][p.1] == ph.src[p.0][p.1]
  {
    if p.0 < i { SlotInjective(m.P() + p.0, m.P() + i, cfg.n); }
    if p.0 > i { SlotInjective(m.P() + i, m.P() + p.0, cfg.n); }
    assert IsItem(cfg, m.slots[Slot(m.P() + p.0, cfg.n)]);
  }

  lemma WriteKeepsCopied(cfg: Config, m: Mem, m': Mem, hd: Handle, i: nat, k: nat)
    requires cfg.n > 0 && m.w < cfg.n && hd.rc < cfg.n && hd.phase.Writing?
    requires |m.slots| == |m'.slots| == cfg.n && AreItems(cfg, m.slots) && AreItems(cfg, m'.slots)
    requires i < hd.phase.count && k < cfg.width && CanWrite(cfg, m, hd.phase, i, k)
    requires WritingOk(cfg, m, hd) && m' == WriteMem(cfg, m, hd.phase, i, k)
    requires RunSlot(cfg.n, hd.phase.own, hd.phase.count, i) == Slot(m.P() + i, cfg.n)
    ensures WritingOk(cfg, m', hd.(phase := hd.phase.(done := hd.phase.done + {(i, k)})))
  {
    var ph := hd.phase;
    forall p | p in ph.done + {(i, k)}
      ensures p.0 < ph.count && p.1 < cfg.width
      ensures m'.slots[Slot(m.P() + p.0, cfg.n)][p.1] == ph.src[p.0][p.1]
    {
      WordInPlace(cfg, m, ph, i, k, p);
    }
  }

  lemma WriteKeepsWriter(cfg: Config, m: Mem, hd: Handle, i: nat, k: nat)
    requires cfg.Valid() && MemInv(cfg, m) && HandleInv(cfg, m, hd) && hd.phase.Writing?
    requires i < hd.phase.count && k < cfg.width && CanWrite(cfg, m, hd.phase, i, k)
    requires MemInv(cfg, WriteMem(cfg, m, hd.phase, i, k))
    ensures HandleInv(cfg, WriteMem(cfg, m, hd.phase, i, k),
                      hd.(phase := hd.phase.(done := hd.phase.done + {(i, k)})))
  {
    WriteTarget(cfg, m, hd, i);
    WriteKeepsCopied(cfg, m, WriteMem(cfg, m, hd.phase, i, k), hd, i, k);
  }

  /** Handles that are not bound producers do not care about slot contents. */
  lemma WriteKeepsOthers(cfg: Config, m: Mem, m': Mem, hd: Handle)
    requires cfg.Valid() && MemInv(cfg, m) && MemInv(cfg, m') && m' == m.(slots := m'.slots)
    requires HandleInv(cfg, m, hd) && !hd.phase.Writing?
    ensures HandleInv(cfg, m', hd)
  {
  }

  lemma WriteWordStep(cfg: Config, s: State, a: Action)
    requires Inv(cfg, s) && a.WriteWord? && Enabled(cfg, s, a)
    ensures RingInv(cfg, Next(cfg, s, a))
  {
    var s', hd := Next(cfg, s, a), s.handles[a.h];
    assert HandleInv(cfg, s.mem, hd);
    WriteKeepsMem(cfg, s.mem, hd, a.i, a.k);
    WriteKeepsWriter(cfg, s.mem, hd, a.i, a.k);
    forall g | g in s'.handles ensures HandleInv(cfg, s'.mem, s'.handles[g]) {
      if g != a.h {
        SoleBoundProducer(cfg, s, a.h, g);
        WriteKeepsOthers(cfg, s.mem, s'.mem, s.handles[g]);
      }
    }
  }

  lemma SoleBoundProducer(cfg: Config, s: State, h: nat, g: nat)
    requires Inv(cfg, s) && h in s.handles && g in s.handles && h != g
    requires s.handles[h].phase.Writing?
    ensures HandleInv(cfg, s.mem, s.handles[g])
    ensures !(s.handles[g].phase.Bound() && s.handles[g].role == Producer)
  {
  }

  lemma SoleBoundConsumer(cfg: Config, s: State, h: nat, g: nat)
    requires Inv(cfg, s) && h in s.handles && g in s.handles && h != g
    requires s.handles[h].phase.Reading?
    ensures HandleInv(cfg, s.mem, s.handles[g])
    ensures !(s.handles[g].phase.Bound() && s.handles[g].role == Consumer)
  {
  }

  // ---------------------------------------------------------------- publishing

  /** When the copy is complete the granted slots hold the source items. */
  lemma CopyComplete(cfg: Config, m: Mem, hd: Handle, i: nat)
    requires cfg.Valid() && MemInv(cfg, m) && HandleInv(cfg, m, hd) && hd.phase.Writing?
    requires Words(cfg, hd.phase.count) <= hd.phase.done && i < hd.phase.count
    ensures m.slots[Slot(m.P() + i, cfg.n)] == hd.phase.src[i]
  {
    var x, y := m.slots[Slot(m.P() + i, cfg.n)], hd.phase.src[i];
    assert IsItem(cfg, x) && IsItem(cfg, y);
    forall k | 0 <= k < cfg.width ensures x[k] == y[k] {
      assert (i, k) in Words(cfg, hd.phase.count);
    }
  }

  lemma PublishKeepsMem(cfg: Config, m: Mem, hd: Handle)
    requires cfg.Valid() && MemInv(cfg, m) && HandleInv(cfg, m, hd) && hd.phase.Writing?
    requires CanPublish(cfg, hd.phase)
    ensures MemInv(cfg, PublishMem(cfg, m, hd.phase))
  {
    var ph, m' := hd.phase, PublishMem(cfg, m, hd.phase);
    SlotAdd(m.P(), ph.count, cfg.n);
    forall j: nat | m'.C() <= j < m'.P() ensures m'.slots[Slot(j, cfg.n)] == m'.published[j] {
      if j >= m.P() { CopyComplete(cfg, m, hd, j - m.P()); }
    }
  }

  lemma PublishKeepsWriter(cfg: Config, m: Mem, hd: Handle)
    requires cfg.Valid() && MemInv(cfg, m) && HandleInv(cfg, m, hd) && hd.phase.Writing?
    requires CanPublish(cfg, hd.phase) && MemInv(cfg, PublishMem(cfg, m, hd.phase))
    ensures HandleInv(cfg, PublishMem(cfg, m, hd.phase), hd.(phase := Idle))
  {
  }

  lemma PublishKeepsOthers(cfg: Config, m: Mem, m': Mem, hd: Handle)
    requires cfg.Valid() && MemInv(cfg, m) && MemInv(cfg, m') && HandleInv(cfg, m, hd)
    requires m'.slots == m.slots && m'.r == m.r && m'.delivered == m.delivered
    requires m.published < m'.published
    requires !(hd.phase.Bound() && hd.role == Producer)
    ensures HandleInv(cfg, m', hd)
  {
  }

  lemma PublishStep(cfg: Config, s: State, h: nat)
    requires Inv(cfg, s) && Enabled(cfg, s, Publish(h))
    ensures RingInv(cfg, Next(cfg, s, Publish(h)))
  {
    var s', hd := Next(cfg, s, Publish(h)), s.handles[h];
    assert HandleInv(cfg, s.mem, hd);
    PublishKeepsMem(cfg, s.mem, hd);
    PublishKeepsWriter(cfg, s.mem, hd);
    forall g | g in s'.handles ensures HandleInv(cfg, s'.mem, s'.handles[g]) {
      if g != h {
        SoleBoundProducer(cfg, s, h, g);
        PublishKeepsOthers(cfg, s.mem, s'.mem, s.handles[g]);
      }
    }
  }

  // ---------------------------------------------------------------- consuming

  /** What a pop hands over are the next items, whole. */
  lemma ConsumesItemsDue(cfg: Config, m: Mem, hd: Handle)
    requires cfg.Valid() && MemInv(cfg, m) && HandleInv(cfg, m, hd) && hd.phase.Reading?
    requires CanConsume(cfg, m, hd.phase)
    ensures m.C() + hd.phase.count <= m.P()
    ensures ConsumeMem(cfg, m, hd.phase).delivered == m.published[..m.C() + hd.phase.count]
  {
    var ph, c := hd.phase, m.C();
    if ph.zeroCopy {
      assert m.slots[Slot(c, cfg.n)] == m.published[c];
      assert [m.slots[ph.own]] == m.published[c..c + ph.count];
    } else {
      AssembleDue(cfg, m.published, c, ph.count, ph.buf);
    }
    assert m.published[..c] + m.published[c..c + ph.count] == m.published[..c + ph.count];
  }

  lemma ConsumeKeepsMem(cfg: Config, m: Mem, hd: Handle)
    requires cfg.Valid() && MemInv(cfg, m) && HandleInv(cfg, m, hd) && hd.phase.Reading?
    requires CanConsume(cfg, m, hd.phase)
    ensures MemInv(cfg, ConsumeMem(cfg, m, hd.phase))
  {
    ConsumesItemsDue(cfg, m, hd);
    SlotAdd(m.C(), hd.phase.count, cfg.n);
  }

  lemma ConsumeKeepsReader(cfg: Config, m: Mem, hd: Handle)
    requires cfg.Valid() && MemInv(cfg, m) && HandleInv(cfg, m, hd) && hd.phase.Reading?
    requires CanConsume(cfg, m, hd.phase) && MemInv(cfg, ConsumeMem(cfg, m, hd.phase))
    ensures HandleInv(cfg, ConsumeMem(cfg, m, hd.phase), hd.(phase := Idle))
  {
    ConsumesItemsDue(cfg, m, hd);
    UsedAfterConsume(cfg.n, hd.wc, m.r, hd.phase.count);
  }

  lemma ConsumeKeepsOthers(cfg: Config, m: Mem, m': Mem, hd: Handle)
    requires cfg.Valid() && MemInv(cfg, m) && MemInv(cfg, m') && HandleInv(cfg, m, hd)
    requires m'.slots == m.slots && m'.w == m.w && m'.published == m.published
    requires |m.delivered| < |m'.delivered|
    requires !(hd.phase.Bound() && hd.role == Consumer)
    ensures HandleInv(cfg, m', hd)
  {
  }

  lemma ConsumeStep(cfg: Config, s: State, h: nat)
    requires Inv(cfg, s) && Enabled(cfg, s, Consume(h))
    ensures RingInv(cfg, Next(cfg, s, Consume(h)))
  {
    var s', hd := Next(cfg, s, Consume(h)), s.handles[h];
    assert HandleInv(cfg, s.mem, hd);
    ConsumeKeepsMem(cfg, s.mem, hd);
    ConsumesItemsDue(cfg, s.mem, hd);
    ConsumeKeepsReader(cfg, s.mem, hd);
    forall g | g in s'.handles ensures HandleInv(cfg, s'.mem, s'.handles[g]) {
      if g != h {
        SoleBoundConsumer(cfg, s, h, g);
        ConsumeKeepsOthers(cfg, s.mem, s'.mem, s.handles[g]);
      }
    }
  }

  // ---------------------------------------------------------------- all steps, all runs

  lemma ProcessStepKeepsInv(cfg: Config, s: State, a: Action)
    requires Inv(cfg, s) && ProcessStep(a) && Enabled(cfg, s, a) && Careful(cfg, s, a)
    ensures Inv(cfg, Next(cfg, s, a))
  {
    ProcessStepKeepsClaim(cfg, s, a);
    if a.Spawn? || a.Die? || a.Detach? {
      RingFewer(cfg, s, Next(cfg, s, a));
    } else {
      BindStep(cfg, s, a);
    }
  }

  lemma PushStepKeepsInv(cfg: Config, s: State, a: Action)
    requires Inv(cfg, s) && PushStep(a) && Enabled(cfg, s, a)
    ensures Inv(cfg, Next(cfg, s, a))
  {
    PushStepKeepsClaim(cfg, s, a);
    if a.WriteWord? {
      WriteWordStep(cfg, s, a);
    } else if a.Publish? {
      PublishStep(cfg, s, a.h);
    } else {
      LocalPushStep(cfg, s, a);
    }
  }

  lemma PopStepKeepsInv(cfg: Config, s: State, a: Action)
    requires Inv(cfg, s) && PopStep(a) && Enabled(cfg, s, a)
    ensures Inv(cfg, Next(cfg, s, a))
  {
    PopStepKeepsClaim(cfg, s, a);
    if a.ReadWord? {
      ReadWordStep(cfg, s, a);
    } else if a.Consume? {
      ConsumeStep(cfg, s, a.h);
    } else {
      LocalPopStep(cfg, s, a);
    }
  }

  /** Every step of every process keeps the invariant, given one handle per role and claims in their window. */
  lemma StepKeepsInv(cfg: Config, s: State, a: Action)
    requires Inv(cfg, s) && Enabled(cfg, s, a) && Careful(cfg, s, a)
    ensures Inv(cfg, Next(cfg, s, a))
  {
    if PushStep(a) {
      PushStepKeepsInv(cfg, s, a);
    } else if PopStep(a) {
      PopStepKeepsInv(cfg, s, a);
    } else {
      ProcessStepKeepsInv(cfg, s, a);
    }
  }

  lemma InitInv(cfg: Config, s: State)
    requires cfg.Valid() && Init(cfg, s)
    ensures Inv(cfg, s)
  {
  }

  /** The invariant holds in every state every careful run reaches. */
  lemma {:induction false} RunKeepsInv(cfg: Config, s: State, acts: seq<Action>)
    requires Inv(cfg, s) && CarefulRun(cfg, s, acts)
    ensures Run(cfg, s, acts) && Inv(cfg, Exec(cfg, s, acts))
    decreases |acts|
  {
    CarefulRunIsRun(cfg, s, acts);
    if acts != [] {
      StepKeepsInv(cfg, s, acts[0]);
      RunKeepsInv(cfg, Next(cfg, s, acts[0]), acts[1..]);
    }
  }
}

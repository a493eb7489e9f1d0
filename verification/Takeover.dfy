/**
  Taking over a role.  bind() snapshots the peer's index before it wins the pid slot; if a
  previous owner of the role moves its own index in between, the snapshot can be a lap off.
  This module says exactly when a claim is safe.
*/
module Takeover {
  import opened Positions
  import opened System
  import opened Invariant
  import opened RingSteps
  import opened Safety

  /** What no run may break, in terms of items only. */
  ghost predicate Sound(cfg: Config, s: State) {
    && |s.mem.slots| == cfg.n && cfg.n > 0
    && s.mem.delivered <= s.mem.published && s.mem.P() - s.mem.C() <= cfg.n - 1
    && Intact(cfg, s.mem)
    && forall h :: h in s.handles && s.handles[h].phase.Reading? ==> ReadsPublished(cfg, s.mem, s.handles[h].phase)
  }

  /** Every word a reader has picked up is a word of a published item. */
  ghost predicate ReadsPublished(cfg: Config, m: Mem, ph: Phase)
    requires ph.Reading?
  {
    forall p :: p in ph.buf ==>
      m.C() + p.0 < m.P() && p.1 < |m.published[m.C() + p.0]| && ph.buf[p] == m.published[m.C() + p.0][p.1]
  }

  /** Sound now and after every careful continuation. */
  ghost predicate SafeFrom(cfg: Config, s: State) {
    forall acts: seq<Action> :: CarefulRun(cfg, s, acts) && Run(cfg, s, acts) ==> Sound(cfg, Exec(cfg, s, acts))
  }

  lemma InvIsSound(cfg: Config, s: State)
    requires Inv(cfg, s)
    ensures Sound(cfg, s)
  {
  }

  lemma InvIsSafe(cfg: Config, s: State)
    requires Inv(cfg, s)
    ensures SafeFrom(cfg, s)
  {
    forall acts: seq<Action> | CarefulRun(cfg, s, acts) && Run(cfg, s, acts)
      ensures Sound(cfg, Exec(cfg, s, acts))
    {
      RunKeepsInv(cfg, s, acts);
      InvIsSound(cfg, Exec(cfg, s, acts));
    }
  }

  // ---------------------------------------------------------------- the usual case

  /** How far a role has advanced. */
  function Own(m: Mem, role: Role): nat {
    if role == Producer then m.P() else m.C()
  }

  /** If the role stood still between snapshot and claim, the claim is in its window. */
  lemma UnmovedClaimInWindow(cfg: Config, s: State, a: Action)
    requires Inv(cfg, s) && Enabled(cfg, s, a) && Wins(s, a)
    requires s.handles[a.h].mark == Own(s.mem, s.handles[a.h].role)
    ensures Window(cfg, s.mem, s.handles[a.h])
  {
    assert HandleInv(cfg, s.mem, s.handles[a.h]);
    FillLevel(cfg, s.mem);
  }

  /** A run in which no role advances between a claimant's snapshot and its winning claim. */
  predicate UnmovedRun(cfg: Config, s: State, acts: seq<Action>)
    decreases |acts|
  {
    acts == [] ||
    (Enabled(cfg, s, acts[0]) && Unmoved(s, acts[0]) && UnmovedRun(cfg, Next(cfg, s, acts[0]), acts[1..]))
  }

  predicate Unmoved(s: State, a: Action) {
    && (a.Open? ==> SoleHandle(s, a.p, a.role))
    && (Wins(s, a) ==> s.handles[a.h].mark == Own(s.mem, s.handles[a.h].role))
  }

  lemma UnmovedStepKeepsInv(cfg: Config, s: State, a: Action)
    requires Inv(cfg, s) && Enabled(cfg, s, a) && Unmoved(s, a)
    ensures Careful(cfg, s, a) && Inv(cfg, Next(cfg, s, a))
  {
    if Wins(s, a) {
      UnmovedClaimInWindow(cfg, s, a);
    }
    StepKeepsInv(cfg, s, a);
  }

  /**
    Such runs are careful, so crashes and takeovers at any step leave the queue a FIFO: what was
    delivered and what waits in the slots are together exactly what was published.
  */
  lemma {:induction false} UnmovedRunIsCareful(cfg: Config, s: State, acts: seq<Action>)
    requires Inv(cfg, s) && UnmovedRun(cfg, s, acts)
    ensures CarefulRun(cfg, s, acts) && Run(cfg, s, acts) && Inv(cfg, Exec(cfg, s, acts))
    ensures var m := Exec(cfg, s, acts).mem; m.published == m.delivered + Live(cfg, m)
    decreases |acts|
  {
    if acts == [] {
      LiveIsUnread(cfg, s.mem);
    } else {
      UnmovedStepKeepsInv(cfg, s, acts[0]);
      UnmovedRunIsCareful(cfg, Next(cfg, s, acts[0]), acts[1..]);
    }
  }

  // ---------------------------------------------------------------- out of the window

  /** Enough of the shape of memory to keep copying. */
  ghost predicate CanCopy(cfg: Config, s: State, h: nat) {
    && h in s.handles && s.handles[h].phase.Writing?
    && |s.mem.slots| == cfg.n && AreItems(cfg, s.mem.slots)
    && var ph := s.handles[h].phase;
       AreItems(cfg, ph.src) && ph.own < cfg.n && ph.count < cfg.n && ph.count <= |ph.src|
  }

  /** A copy in progress can always be completed. */
  lemma {:induction false} FinishCopy(cfg: Config, s: State, h: nat) returns (acts: seq<Action>)
    requires CanCopy(cfg, s, h)
    ensures CarefulRun(cfg, s, acts) && Run(cfg, s, acts)
    ensures var s' := Exec(cfg, s, acts);
            && CanCopy(cfg, s', h) && s'.mem == s.mem.(slots := s'.mem.slots)
            && s'.handles[h].phase == s.handles[h].phase.(done := s'.handles[h].phase.done)
            && Words(cfg, s.handles[h].phase.count) <= s'.handles[h].phase.done
    ensures forall a :: a in acts ==> a.WriteWord? && a.h == h
    decreases Words(cfg, s.handles[h].phase.count) - s.handles[h].phase.done
  {
    var missing := Words(cfg, s.handles[h].phase.count) - s.handles[h].phase.done;
    if missing == {} {
      acts := [];
      forall p | p in Words(cfg, s.handles[h].phase.count) ensures p in s.handles[h].phase.done {
        assert p !in missing;
      }
    } else {
      var p :| p in missing;
      var a := WriteWord(h, p.0, p.1);
      WriteOne(cfg, s, h, p.0, p.1);
      var rest := FinishCopy(cfg, Next(cfg, s, a), h);
      acts := [a] + rest;
      assert acts[0] == a && acts[1..] == rest;
    }
  }

  lemma WriteOne(cfg: Config, s: State, h: nat, i: nat, k: nat)
    requires CanCopy(cfg, s, h) && i < s.handles[h].phase.count && k < cfg.width
    ensures Enabled(cfg, s, WriteWord(h, i, k)) && Careful(cfg, s, WriteWord(h, i, k))
    ensures var s' := Next(cfg, s, WriteWord(h, i, k));
            && CanCopy(cfg, s', h) && s'.mem == s.mem.(slots := s'.mem.slots)
            && s'.handles[h].phase == s.handles[h].phase.(done := s.handles[h].phase.done + {(i, k)})
  {
  }

  /** Any batch of well-formed items. */
  function Zeros(cfg: Config, count: nat): (src: seq<Item>)
    ensures |src| == count && AreItems(cfg, src)
  {
    seq(count, _ => seq(cfg.width, _ => 0))
  }

  /** A producer whose cache promises more room than there is can fill the ring past its capacity. */
  lemma OverpromisedRoom(cfg: Config, s: State, h: nat) returns (acts: seq<Action>)
    requires cfg.Valid() && MemInv(cfg, s.mem) && h in s.handles
    requires s.handles[h].phase.Idle? && s.handles[h].role == Producer && s.handles[h].rc < cfg.n
    requires Used(cfg.n, s.mem.w, s.handles[h].rc) < s.mem.P() - s.mem.C()
    ensures CarefulRun(cfg, s, acts) && Run(cfg, s, acts) && !Sound(cfg, Exec(cfg, s, acts))
  {
    var room := Free(cfg.n, s.mem.w, s.handles[h].rc);
    var begin, grant := BeginPush(h, Zeros(cfg, room)), GrantPush(h);
    var s1 := Next(cfg, s, begin);
    var s2 := Next(cfg, s1, grant);
    var copy := FinishCopy(cfg, s2, h);
    var s3 := Exec(cfg, s2, copy);
    PublishTooMuch(cfg, s3, h);
    RunAppend(cfg, s2, copy, [Publish(h)]);
    acts := [begin, grant] + (copy + [Publish(h)]);
    TwoStepsThen(cfg, s, begin, grant, copy + [Publish(h)]);
  }

  lemma PublishTooMuch(cfg: Config, s: State, h: nat)
    requires CanCopy(cfg, s, h) && Words(cfg, s.handles[h].phase.count) <= s.handles[h].phase.done
    requires s.mem.P() + s.handles[h].phase.count - s.mem.C() > cfg.n - 1
    ensures CarefulRun(cfg, s, [Publish(h)]) && Run(cfg, s, [Publish(h)])
    ensures !Sound(cfg, Exec(cfg, s, [Publish(h)]))
  {
  }

  lemma TwoStepsThen(cfg: Config, s: State, a: Action, b: Action, rest: seq<Action>)
    requires Enabled(cfg, s, a) && Careful(cfg, s, a)
    requires Enabled(cfg, Next(cfg, s, a), b) && Careful(cfg, Next(cfg, s, a), b)
    requires CarefulRun(cfg, Next(cfg, Next(cfg, s, a), b), rest)
    requires Run(cfg, Next(cfg, Next(cfg, s, a), b), rest)
    ensures CarefulRun(cfg, s, [a, b] + rest) && Run(cfg, s, [a, b] + rest)
    ensures Exec(cfg, s, [a, b] + rest) == Exec(cfg, Next(cfg, Next(cfg, s, a), b), rest)
  {
  }

  /** Runs compose. */
  lemma {:induction false} RunAppend(cfg: Config, s: State, xs: seq<Action>, ys: seq<Action>)
    requires Run(cfg, s, xs) && Run(cfg, Exec(cfg, s, xs), ys)
    ensures Run(cfg, s, xs + ys) && Exec(cfg, s, xs + ys) == Exec(cfg, Exec(cfg, s, xs), ys)
    ensures CarefulRun(cfg, s, xs) && CarefulRun(cfg, Exec(cfg, s, xs), ys) ==> CarefulRun(cfg, s, xs + ys)
    decreases |xs|
  {
    if xs == [] {
      assert xs + ys == ys;
    } else {
      assert (xs + ys)[1..] == xs[1..] + ys;
      RunAppend(cfg, Next(cfg, s, xs[0]), xs[1..], ys);
    }
  }

  /** A consumer whose cache promises more items than there are reads a slot nothing was published in. */
  lemma OverpromisedItems(cfg: Config, s: State, h: nat) returns (acts: seq<Action>)
    requires cfg.Valid() && MemInv(cfg, s.mem) && h in s.handles
    requires s.handles[h].phase.Idle? && s.handles[h].role == Consumer && s.handles[h].wc < cfg.n
    requires Used(cfg.n, s.handles[h].wc, s.mem.r) > s.mem.P() - s.mem.C()
    ensures CarefulRun(cfg, s, acts) && Run(cfg, s, acts) && !Sound(cfg, Exec(cfg, s, acts))
  {
    var avail, past := Used(cfg.n, s.handles[h].wc, s.mem.r), s.mem.P() - s.mem.C();
    var begin, grant, read := BeginPop(h, avail, false), GrantPop(h), ReadWord(h, past, 0);
    if avail == 1 { assert past == 0; }
    var s1 := Next(cfg, s, begin);
    var s2 := Next(cfg, s1, grant);
    assert IsItem(cfg, s2.mem.slots[RunSlot(cfg.n, s.mem.r, avail, past)]);
    var s3 := Next(cfg, s2, read);
    assert (past, 0) in s3.handles[h].phase.buf && !ReadsPublished(cfg, s3.mem, s3.handles[h].phase);
    acts := [begin, grant] + [read];
    assert [read][1..] == [];
    TwoStepsThen(cfg, s, begin, grant, [read]);
  }

  // ---------------------------------------------------------------- the exact condition

  /**
    Winning a role is safe for ever after exactly when, at that moment, the snapshot falls in
    the window: usedSlots(writeIdx, cached readIdx) >= usedSlots(writeIdx, readIdx) for a
    producer, usedSlots(cached writeIdx, readIdx) <= usedSlots(writeIdx, readIdx) for a consumer.
  */
  lemma TakeoverSafeIffInWindow(cfg: Config, s: State, h: nat)
    requires Inv(cfg, s) && Enabled(cfg, s, Cas(h, false)) && Wins(s, Cas(h, false))
    ensures SafeFrom(cfg, Next(cfg, s, Cas(h, false))) <==> Window(cfg, s.mem, s.handles[h])
  {
    var a := Cas(h, false);
    var s' := Next(cfg, s, a);
    assert HandleInv(cfg, s.mem, s.handles[h]);
    FillLevel(cfg, s.mem);
    if Window(cfg, s.mem, s.handles[h]) {
      StepKeepsInv(cfg, s, a);
      InvIsSafe(cfg, s');
    } else if s.handles[h].role == Producer {
      var acts := OverpromisedRoom(cfg, s', h);
      assert CarefulRun(cfg, s', acts) && Run(cfg, s', acts) && !Sound(cfg, Exec(cfg, s', acts));
    } else {
      var acts := OverpromisedItems(cfg, s', h);
      assert CarefulRun(cfg, s', acts) && Run(cfg, s', acts) && !Sound(cfg, Exec(cfg, s', acts));
    }
  }
}

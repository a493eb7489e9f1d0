/** Runs that show why the provisos of the safety theorems are needed. */
module Scenarios {
  import opened Positions
  import opened System
  import opened Invariant
  import opened RingSteps
  import opened Safety
  import opened Takeover

  // ---------------------------------------------------------------- building blocks

  /** A careful run from s to s'. */
  ghost predicate Reaches(cfg: Config, s: State, acts: seq<Action>, s': State) {
    CarefulRun(cfg, s, acts) && Run(cfg, s, acts) && Exec(cfg, s, acts) == s'
  }

  lemma Then(cfg: Config, s: State, xs: seq<Action>, mid: State, ys: seq<Action>, s': State)
    requires Reaches(cfg, s, xs, mid) && Reaches(cfg, mid, ys, s')
    ensures Reaches(cfg, s, xs + ys, s')
  {
    RunAppend(cfg, s, xs, ys);
  }

  lemma One(cfg: Config, s: State, a: Action)
    requires Enabled(cfg, s, a) && Careful(cfg, s, a)
    ensures Reaches(cfg, s, [a], Next(cfg, s, a))
  {
  }

  lemma Three(cfg: Config, s: State, a: Action, b: Action, c: Action)
    requires Enabled(cfg, s, a) && Careful(cfg, s, a)
    requires Enabled(cfg, Next(cfg, s, a), b) && Careful(cfg, Next(cfg, s, a), b)
    requires Enabled(cfg, Next(cfg, Next(cfg, s, a), b), c) && Careful(cfg, Next(cfg, Next(cfg, s, a), b), c)
    ensures Reaches(cfg, s, [a, b, c], Next(cfg, Next(cfg, Next(cfg, s, a), b), c))
  {
    One(cfg, Next(cfg, Next(cfg, s, a), b), c);
    TwoStepsThen(cfg, s, a, b, [c]);
    assert [a, b, c] == [a, b] + [c];
  }

  /** A handle that has just taken both snapshots. */
  function Snapshot(m: Mem, p: int, role: Role, phase: Phase): Handle {
    Handle(p, role, m.r, m.w, m.C(), m.P(), Own(m, role), phase)
  }

  /** bind() up to its snapshots. */
  lemma SnapshotRun(cfg: Config, s: State, h: nat, p: int, role: Role)
    requires p in s.alive && h !in s.handles && SoleHandle(s, p, role)
    ensures Reaches(cfg, s, [Open(h, p, role), SnapRead(h), SnapWrite(h)],
                    s.Set(h, Snapshot(s.mem, p, role, Snapped)))
  {
    var s1 := Next(cfg, s, Open(h, p, role));
    var s2 := Next(cfg, s1, SnapRead(h));
    var s3 := Next(cfg, s2, SnapWrite(h));
    assert s1.handles[h] == Handle(p, role, 0, 0, 0, 0, 0, Opened);
    assert s2.handles[h].phase == HalfSnapped;
    assert s3.handles == s.Set(h, Snapshot(s.mem, p, role, Snapped)).handles;
    Three(cfg, s, Open(h, p, role), SnapRead(h), SnapWrite(h));
  }

  /** The claim loop on a slot no live process holds, up to the winning compare-and-swap. */
  lemma ApproachRun(cfg: Config, s: State, h: nat)
    requires h in s.handles && s.handles[h].phase.Snapped? && s.handles[h].pid in s.alive && s.handles[h].pid > 0
    requires s.PidSlot(s.handles[h].role) !in s.alive
    ensures Reaches(cfg, s, [LoadPid(h)] + [Test(h)],
                    s.Set(h, s.handles[h].(phase := Claiming(s.PidSlot(s.handles[h].role)))))
  {
    var s1 := Next(cfg, s, LoadPid(h));
    One(cfg, s, LoadPid(h));
    One(cfg, s1, Test(h));
    assert Next(cfg, s1, Test(h)).handles
        == s.handles[h := s.handles[h].(phase := Claiming(s.PidSlot(s.handles[h].role)))];
    Then(cfg, s, [LoadPid(h)], s1, [Test(h)], Next(cfg, s1, Test(h)));
  }

  /** A whole bind() on a slot that is untouched, given up or left by a dead process. */
  lemma BindRun(cfg: Config, s: State, h: nat, p: int, role: Role) returns (acts: seq<Action>)
    requires Inv(cfg, s) && p in s.alive && h !in s.handles && SoleHandle(s, p, role) && s.PidSlot(role) !in s.alive
    ensures forall a :: a in acts ==> ActsFor(a, h)
    ensures Reaches(cfg, s, acts,
                    s.SetPid(role, p).Set(h, Snapshot(s.mem, p, role, Idle)))
  {
    var hd := Snapshot(s.mem, p, role, Snapped);
    var snapped := s.Set(h, hd);
    var claiming := snapped.Set(h, hd.(phase := Claiming(s.PidSlot(role))));
    SnapshotRun(cfg, s, h, p, role);
    ApproachRun(cfg, snapped, h);
    One(cfg, claiming, Cas(h, false));
    Then(cfg, snapped, [LoadPid(h)] + [Test(h)], claiming, [Cas(h, false)], Next(cfg, claiming, Cas(h, false)));
    var xs, ys := [Open(h, p, role), SnapRead(h), SnapWrite(h)], ([LoadPid(h)] + [Test(h)]) + [Cas(h, false)];
    Then(cfg, s, xs, snapped, ys, Next(cfg, claiming, Cas(h, false)));
    acts := xs + ys;
    assert Next(cfg, claiming, Cas(h, false)).handles == s.handles[h := hd.(phase := Idle)];
  }

  predicate Goes(cfg: Config, s: State, a: Action, s': State) {
    Enabled(cfg, s, a) && Careful(cfg, s, a) && Next(cfg, s, a) == s'
  }

  lemma Four(cfg: Config, s: State, a: Action, s1: State, b: Action, s2: State,
             c: Action, s3: State, d: Action, s4: State)
    requires Goes(cfg, s, a, s1) && Goes(cfg, s1, b, s2) && Goes(cfg, s2, c, s3) && Goes(cfg, s3, d, s4)
    ensures Reaches(cfg, s, [a, b, c] + [d], s4)
  {
    Three(cfg, s, a, b, c);
    One(cfg, s3, d);
    Then(cfg, s, [a, b, c], s3, [d], s4);
  }

  /** One single-word item pushed with room in the cache. */
  lemma PushRun(cfg: Config, s: State, h: nat, x: Item)
    requires cfg.Valid() && cfg.width == 1 && IsItem(cfg, x) && MemInv(cfg, s.mem)
    requires h in s.handles && s.handles[h].phase.Idle? && s.handles[h].role == Producer
    requires s.handles[h].rc < cfg.n && Free(cfg.n, s.mem.w, s.handles[h].rc) >= 1
    ensures Reaches(cfg, s, [BeginPush(h, [x]), GrantPush(h), WriteWord(h, 0, 0)] + [Publish(h)],
                    s.(mem := s.mem.(slots := s.mem.slots[s.mem.w := x], w := Wrap(s.mem.w + 1, cfg.n),
                                     published := s.mem.published + [x])))
  {
    var hd, own := s.handles[h], s.mem.w;
    var s1 := s.Set(h, hd.(phase := PushLoaded([x], own)));
    var s2 := s1.Set(h, hd.(phase := Writing([x], own, 1, {})));
    var s3 := s2.(mem := s.mem.(slots := s.mem.slots[own := x])).Set(h, hd.(phase := Writing([x], own, 1, {(0, 0)})));
    var s4 := s3.(mem := s3.mem.(w := Wrap(own + 1, cfg.n), published := s.mem.published + [x]))
                .Set(h, hd.(phase := Idle));
    WriteOnlyWord(cfg, s2, h, x);
    assert Goes(cfg, s3, Publish(h), s4) by {
      assert Words(cfg, 1) <= {(0, 0)};
      assert [x][..1] == [x];
    }
    assert s4.handles == s.handles;
    Four(cfg, s, BeginPush(h, [x]), s1, GrantPush(h), s2, WriteWord(h, 0, 0), s3, Publish(h), s4);
  }

  lemma WriteOnlyWord(cfg: Config, s: State, h: nat, x: Item)
    requires cfg.Valid() && cfg.width == 1 && IsItem(cfg, x) && MemInv(cfg, s.mem) && h in s.handles
    requires s.handles[h].phase == Writing([x], s.mem.w, 1, {})
    ensures Goes(cfg, s, WriteWord(h, 0, 0),
                 s.(mem := s.mem.(slots := s.mem.slots[s.mem.w := x]))
                  .Set(h, s.handles[h].(phase := Writing([x], s.mem.w, 1, {(0, 0)}))))
  {
    assert IsItem(cfg, s.mem.slots[s.mem.w]);
    assert s.mem.slots[s.mem.w][0 := x[0]] == x;
    assert {} + {(0, 0)} == {(0, 0)};
  }

  /** One single-word item popped by a handle that must reload first. */
  lemma PopRun(cfg: Config, s: State, h: nat)
    requires cfg.Valid() && cfg.width == 1 && MemInv(cfg, s.mem) && s.mem.C() < s.mem.P()
    requires h in s.handles && s.handles[h].phase.Idle? && s.handles[h].role == Consumer
    requires s.handles[h].wc == s.mem.r
    ensures Reaches(cfg, s, [BeginPop(h, 1, false), ReloadPop(h), ReadWord(h, 0, 0)] + [Consume(h)],
                    s.(mem := s.mem.(r := Wrap(s.mem.r + 1, cfg.n),
                                     delivered := s.mem.delivered + [s.mem.slots[s.mem.r]]))
                     .Set(h, s.handles[h].(wc := s.mem.w, wcAt := s.mem.P())))
  {
    var hd, own, x := s.handles[h].(wc := s.mem.w, wcAt := s.mem.P()), s.mem.r, s.mem.slots[s.mem.r];
    var s1 := s.Set(h, s.handles[h].(phase := PopLoaded(1, own, false)));
    var s2 := s1.Set(h, hd.(phase := Reading(own, 1, false, map[])));
    ReloadFinds(cfg, s1, h);
    var s3 := s2.Set(h, hd.(phase := Reading(own, 1, false, map[(0, 0) := x[0]])));
    ReadOnlyWord(cfg, s2, h);
    var s4 := s3.(mem := s.mem.(r := Wrap(own + 1, cfg.n), delivered := s.mem.delivered + [x]))
                .Set(h, hd.(phase := Idle));
    ConsumeOnlyItem(cfg, s3, h);
    assert s4.handles == s.handles[h := hd];
    Four(cfg, s, BeginPop(h, 1, false), s1, ReloadPop(h), s2, ReadWord(h, 0, 0), s3, Consume(h), s4);
  }

  lemma ReloadFinds(cfg: Config, s: State, h: nat)
    requires cfg.Valid() && MemInv(cfg, s.mem) && s.mem.C() < s.mem.P() && h in s.handles
    requires s.handles[h].phase == PopLoaded(1, s.mem.r, false) && s.handles[h].wc == s.mem.r
    ensures Goes(cfg, s, ReloadPop(h),
                 s.Set(h, s.handles[h].(wc := s.mem.w, wcAt := s.mem.P(), phase := Reading(s.mem.r, 1, false, map[]))))
  {
    FillLevel(cfg, s.mem);
  }

  lemma ReadOnlyWord(cfg: Config, s: State, h: nat)
    requires cfg.Valid() && cfg.width == 1 && MemInv(cfg, s.mem) && h in s.handles
    requires s.handles[h].phase == Reading(s.mem.r, 1, false, map[])
    ensures |s.mem.slots[s.mem.r]| == 1
    ensures Goes(cfg, s, ReadWord(h, 0, 0),
                 s.Set(h, s.handles[h].(phase := Reading(s.mem.r, 1, false, map[(0, 0) := s.mem.slots[s.mem.r][0]]))))
  {
  }

  lemma ConsumeOnlyItem(cfg: Config, s: State, h: nat)
    requires cfg.Valid() && cfg.width == 1 && MemInv(cfg, s.mem) && h in s.handles && |s.mem.slots[s.mem.r]| == 1
    requires s.handles[h].phase == Reading(s.mem.r, 1, false, map[(0, 0) := s.mem.slots[s.mem.r][0]])
    ensures Goes(cfg, s, Consume(h),
                 s.(mem := s.mem.(r := Wrap(s.mem.r + 1, cfg.n),
                                  delivered := s.mem.delivered + [s.mem.slots[s.mem.r]]))
                  .Set(h, s.handles[h].(phase := Idle)))
  {
    HandOver(cfg, s.mem.slots[s.mem.r]);
  }

  lemma HandOver(cfg: Config, x: Item)
    requires cfg.width == 1 && IsItem(cfg, x)
    ensures Words(cfg, 1) <= map[(0, 0) := x[0]].Keys
    ensures Assemble(cfg, 1, map[(0, 0) := x[0]]) == [x]
  {
    assert Assemble(cfg, 1, map[(0, 0) := x[0]])[0] == x;
  }

  lemma ReachesKeepsInv(cfg: Config, s: State, acts: seq<Action>, s': State)
    requires Inv(cfg, s) && Reaches(cfg, s, acts, s')
    ensures Inv(cfg, s')
  {
    RunKeepsInv(cfg, s, acts);
  }

  // ---------------------------------------------------------------- the window is needed

  /** Processes 1, 2 and 3 come up; 1 binds as producer, 2 as consumer. */
  lemma PairRun(cfg: Config, s: State) returns (acts: seq<Action>, s': State)
    requires cfg.Valid() && Init(cfg, s)
    ensures Reaches(cfg, s, acts, s') && Inv(cfg, s')
    ensures s' == s.(alive := {1, 2, 3}, producerPid := 1, consumerPid := 2,
                     handles := map[1 := Handle(1, Producer, 0, 0, 0, 0, 0, Idle), 2 := Handle(2, Consumer, 0, 0, 0, 0, 0, Idle)])
  {
    InitInv(cfg, s);
    var s1 := s.(alive := {1, 2, 3});
    assert s.alive + {1} + {2} + {3} == {1, 2, 3};
    Three(cfg, s, Spawn(1), Spawn(2), Spawn(3));
    ReachesKeepsInv(cfg, s, [Spawn(1), Spawn(2), Spawn(3)], s1);
    var xs := BindRun(cfg, s1, 1, 1, Producer);
    var s2 := s1.SetPid(Producer, 1).Set(1, Handle(1, Producer, 0, 0, 0, 0, 0, Idle));
    ReachesKeepsInv(cfg, s1, xs, s2);
    var ys := BindRun(cfg, s2, 2, 2, Consumer);
    s' := s2.SetPid(Consumer, 2).Set(2, Handle(2, Consumer, 0, 0, 0, 0, 0, Idle));
    ReachesKeepsInv(cfg, s2, ys, s');
    Then(cfg, s1, xs, s2, ys, s');
    Then(cfg, s, [Spawn(1), Spawn(2), Spawn(3)], s1, xs + ys, s');
    acts := [Spawn(1), Spawn(2), Spawn(3)] + (xs + ys);
  }

  /**
    Process 3 snapshots writeIdx for the consumer role while process 2 still holds it; 1 pushes
    an item, 2 pops it and detaches; 3 goes on to the claim.  Its snapshot now lies behind readIdx.
  */
  lemma LateClaimRun(cfg: Config, s: State) returns (acts: seq<Action>, s': State)
    requires cfg.Valid() && cfg.width == 1 && Init(cfg, s)
    ensures Reaches(cfg, s, acts, s') && Inv(cfg, s')
    ensures 3 in s'.handles && s'.handles[3] == Handle(3, Consumer, 0, 0, 0, 0, 0, Claiming(-1)) && s'.consumerPid == -1
    ensures s'.mem.r == 1 && s'.mem.w == 1 && s'.mem.P() == 1 && s'.mem.C() == 1
  {
    var xs, s3 := PairRun(cfg, s);
    var snap := [Open(3, 3, Consumer), SnapRead(3), SnapWrite(3)];
    var s4 := s3.Set(3, Handle(3, Consumer, 0, 0, 0, 0, 0, Snapped));
    SnapshotRun(cfg, s3, 3, 3, Consumer);
    ReachesKeepsInv(cfg, s3, snap, s4);
    PushRun(cfg, s4, 1, [0]);
    var push := [BeginPush(1, [[0]]), GrantPush(1), WriteWord(1, 0, 0)] + [Publish(1)];
    var s5 := s4.(mem := s4.mem.(slots := s4.mem.slots[0 := [0]], w := 1, published := [[0]]));
    assert [] + [[0]] == [[0]];
    ReachesKeepsInv(cfg, s4, push, s5);
    var ys, s6 := PopAndLeave(cfg, s5);
    ReachesKeepsInv(cfg, s5, ys, s6);
    Then(cfg, s4, push, s5, ys, s6);
    Then(cfg, s3, snap, s4, push + ys, s6);
    Then(cfg, s, xs, s3, snap + (push + ys), s6);
    ApproachRun(cfg, s6, 3);
    s' := s6.Set(3, s6.handles[3].(phase := Claiming(-1)));
    acts := (xs + (snap + (push + ys))) + ([LoadPid(3)] + [Test(3)]);
    Then(cfg, s, xs + (snap + (push + ys)), s6, [LoadPid(3)] + [Test(3)], s');
    ReachesKeepsInv(cfg, s, acts, s');
  }

  lemma PopAndLeave(cfg: Config, s: State) returns (acts: seq<Action>, s': State)
    requires cfg.Valid() && cfg.width == 1 && Inv(cfg, s)
    requires 2 in s.handles && s.handles[2] == Handle(2, Consumer, 0, 0, 0, 0, 0, Idle) && s.consumerPid == 2
    requires s.mem.r == 0 && s.mem.w == 1 && s.mem.P() == 1 && s.mem.C() == 0
    ensures Reaches(cfg, s, acts, s')
    ensures s'.mem.r == 1 && s'.mem.w == 1 && s'.mem.P() == 1 && s'.mem.C() == 1
    ensures s'.consumerPid == -1 && forall h :: h in s.handles && h != 2 ==> h in s'.handles && s'.handles[h] == s.handles[h]
  {
    PopRun(cfg, s, 2);
    var pop := [BeginPop(2, 1, false), ReloadPop(2), ReadWord(2, 0, 0)] + [Consume(2)];
    var s1 := s.(mem := s.mem.(r := Wrap(s.mem.r + 1, cfg.n), delivered := s.mem.delivered + [s.mem.slots[s.mem.r]]))
               .Set(2, s.handles[2].(wc := s.mem.w, wcAt := s.mem.P()));
    One(cfg, s1, Detach(2));
    s' := Next(cfg, s1, Detach(2));
    Then(cfg, s, pop, s1, [Detach(2)], s');
    acts := pop + [Detach(2)];
  }

  /**
    For every slot count the window matters: from a fresh segment a careful run leads to a claim
    that the code lets win although its snapshot is stale, and what follows is not safe.
  */
  lemma StaleTakeoverReachable(cfg: Config, s: State) returns (acts: seq<Action>)
    requires cfg.Valid() && cfg.width == 1 && Init(cfg, s)
    ensures CarefulRun(cfg, s, acts) && Run(cfg, s, acts)
    ensures var s' := Exec(cfg, s, acts);
            && Enabled(cfg, s', Cas(3, false)) && Wins(s', Cas(3, false))
            && !Window(cfg, s'.mem, s'.handles[3])
            && !SafeFrom(cfg, Next(cfg, s', Cas(3, false)))
  {
    var xs, s' := LateClaimRun(cfg, s);
    acts := xs;
    assert Wins(s', Cas(3, false));
    TakeoverSafeIffInWindow(cfg, s', 3);
  }

  // ---------------------------------------------------------------- size() seen from outside

  /**
    A caller that is neither endpoint and loads writeIdx before, readIdx after one item went
    through an empty queue computes a full one.
  */
  lemma BystanderMisled(cfg: Config, s: State) returns (acts: seq<Action>, before: State, between: seq<Action>)
    requires cfg.Valid() && cfg.width == 1 && Init(cfg, s)
    ensures Reaches(cfg, s, acts, before) && CarefulRun(cfg, before, between) && Run(cfg, before, between)
    ensures before.mem.P() == before.mem.C()
    ensures var after := Exec(cfg, before, between);
            && after.mem.P() == after.mem.C() && before.mem.w < cfg.n && after.mem.r < cfg.n
            && Used(cfg.n, before.mem.w, after.mem.r) == cfg.n - 1
  {
    acts, before := PairRun(cfg, s);
    PushRun(cfg, before, 1, [0]);
    var push := [BeginPush(1, [[0]]), GrantPush(1), WriteWord(1, 0, 0)] + [Publish(1)];
    var s5 := before.(mem := before.mem.(slots := before.mem.slots[0 := [0]], w := 1, published := [[0]]));
    assert [] + [[0]] == [[0]];
    ReachesKeepsInv(cfg, before, push, s5);
    var ys, s6 := PopAndLeave(cfg, s5);
    Then(cfg, before, push, s5, ys, s6);
    between := push + ys;
  }
}

/**
  What every step of the machine keeps: who owns a role, and what the ring in shared
  memory holds.
*/
module Invariant {
  import opened Positions
  import opened System

  // ---------------------------------------------------------------- roles

  /** What a handle knows about the pid slot of its role. */
  ghost predicate HandleClaim(s: State, hd: Handle) {
    && hd.pid in s.alive
    && (hd.phase.Bound() <==> s.PidSlot(hd.role) == hd.pid)
    && (hd.phase.Testing? ==> hd.phase.expected != hd.pid && Known(s, hd.phase.expected))
    && (hd.phase.Claiming? ==> hd.phase.expected <= 0 || hd.phase.expected in s.dead)
  }

  predicate Known(s: State, pid: int) { pid <= 0 || pid in s.alive || pid in s.dead }

  /** A live pid in the slot has a bound handle behind it. */
  ghost predicate Backed(s: State, role: Role) {
    s.PidSlot(role) in s.alive ==>
      exists h :: h in s.handles && s.handles[h].role == role && s.handles[h].phase.Bound()
  }

  ghost predicate OneHandleEach(s: State) {
    forall h1, h2 :: h1 in s.handles && h2 in s.handles && h1 != h2 ==>
      s.handles[h1].pid != s.handles[h2].pid || s.handles[h1].role != s.handles[h2].role
  }

  ghost predicate ClaimInv(s: State) {
    && s.alive !! s.dead
    && (forall p :: p in s.alive ==> p > 0)
    && Known(s, s.producerPid) && Known(s, s.consumerPid)
    && Backed(s, Producer) && Backed(s, Consumer)
    && OneHandleEach(s)
    && forall h :: h in s.handles ==> HandleClaim(s, s.handles[h])
  }

  // ---------------------------------------------------------------- ring

  /** The ring holds exactly the published and not yet consumed items, whole, in order. */
  ghost predicate MemInv(cfg: Config, m: Mem) {
    && m.C() <= m.P() < m.C() + cfg.n
    && m.w == Slot(m.P(), cfg.n) && m.r == Slot(m.C(), cfg.n)
    && |m.slots| == cfg.n && AreItems(cfg, m.slots) && AreItems(cfg, m.published)
    && m.delivered == m.published[..m.C()]
    && Intact(cfg, m)
  }

  /** No unread item is torn, overwritten or misplaced. */
  ghost predicate Intact(cfg: Config, m: Mem)
    requires cfg.n > 0 && |m.slots| == cfg.n
  {
    forall j: nat :: m.C() <= j < m.P() ==> m.slots[Slot(j, cfg.n)] == m.published[j]
  }

  /** A snapshot is only as good as its mark. */
  ghost predicate SnapshotOk(cfg: Config, m: Mem, hd: Handle)
    requires m.w < cfg.n && m.r < cfg.n && hd.rc < cfg.n && hd.wc < cfg.n
  {
    && (hd.role == Producer && !hd.phase.Opened? ==>
          hd.mark <= m.P() && (hd.mark == m.P() ==> Used(cfg.n, m.w, hd.rc) >= m.P() - m.C()))
    && (hd.role == Consumer && !hd.phase.Opened? && !hd.phase.HalfSnapped? ==>
          hd.mark <= m.C() && (hd.mark == m.C() ==> Used(cfg.n, hd.wc, m.r) <= m.P() - m.C()))
  }

  /** A bound handle's cache never promises room or items that are not there. */
  ghost predicate CacheOk(cfg: Config, m: Mem, hd: Handle)
    requires m.w < cfg.n && m.r < cfg.n && hd.rc < cfg.n && hd.wc < cfg.n
  {
    && (hd.role == Producer ==> Used(cfg.n, m.w, hd.rc) >= m.P() - m.C())
    && (hd.role == Consumer ==> Used(cfg.n, hd.wc, m.r) <= m.P() - m.C())
  }

  ghost predicate WritingOk(cfg: Config, m: Mem, hd: Handle)
    requires m.w < cfg.n && hd.rc < cfg.n && hd.phase.Writing?
    requires |m.slots| == cfg.n && AreItems(cfg, m.slots)
  {
    var ph := hd.phase;
    && hd.role == Producer && ph.own == m.w && AreItems(cfg, ph.src)
    && 1 <= ph.count <= |ph.src| && ph.count <= Free(cfg.n, m.w, hd.rc)
    && forall p :: p in ph.done ==>
         p.0 < ph.count && p.1 < cfg.width && m.slots[Slot(m.P() + p.0, cfg.n)][p.1] == ph.src[p.0][p.1]
  }

  ghost predicate ReadingOk(cfg: Config, m: Mem, hd: Handle)
    requires m.r < cfg.n && hd.wc < cfg.n && hd.phase.Reading?
    requires AreItems(cfg, m.published) && Used(cfg.n, hd.wc, m.r) <= m.P() - m.C()
  {
    var ph := hd.phase;
    && hd.role == Consumer && ph.own == m.r
    && 1 <= ph.count <= Used(cfg.n, hd.wc, m.r) && (ph.zeroCopy ==> ph.count == 1)
    && BufferOk(cfg, m.published, m.C(), ph.count, ph.buf)
  }

  ghost predicate HandleInv(cfg: Config, m: Mem, hd: Handle)
    requires MemInv(cfg, m) && cfg.Valid()
  {
    && hd.rc < cfg.n && hd.wc < cfg.n
    && (!hd.phase.Bound() ==> SnapshotOk(cfg, m, hd))
    && (hd.phase.Bound() ==> CacheOk(cfg, m, hd))
    && (hd.phase.PushLoaded? ==>
          hd.role == Producer && hd.phase.own == m.w && hd.phase.src != [] && AreItems(cfg, hd.phase.src))
    && (hd.phase.Writing? ==> WritingOk(cfg, m, hd))
    && (hd.phase.PopLoaded? ==>
          hd.role == Consumer && hd.phase.own == m.r && hd.phase.want >= 1 &&
          (hd.phase.zeroCopy ==> hd.phase.want == 1))
    && (hd.phase.Reading? ==> hd.role == Consumer && ReadingOk(cfg, m, hd))
  }

  ghost predicate RingInv(cfg: Config, s: State) {
    && cfg.Valid()
    && MemInv(cfg, s.mem)
    && forall h :: h in s.handles ==> HandleInv(cfg, s.mem, s.handles[h])
  }

  ghost predicate Inv(cfg: Config, s: State) { ClaimInv(s) && RingInv(cfg, s) }

  // ---------------------------------------------------------------- roles are exclusive

  /** At most one bound handle per role; it is alive and the slot holds its pid. */
  lemma RoleExclusive(s: State, h1: nat, h2: nat)
    requires ClaimInv(s)
    requires h1 in s.handles && h2 in s.handles && s.handles[h1].role == s.handles[h2].role
    requires s.handles[h1].phase.Bound() && s.handles[h2].phase.Bound()
    ensures h1 == h2
    ensures s.PidSlot(s.handles[h1].role) == s.handles[h1].pid && s.handles[h1].pid in s.alive
  {
  }

  /** Changing one handle without touching pids, as far as its claim is concerned. */
  lemma ClaimLocal(s: State, s': State, h: nat)
    requires ClaimInv(s) && h in s.handles
    requires s'.producerPid == s.producerPid && s'.consumerPid == s.consumerPid
    requires s'.alive == s.alive && s'.dead == s.dead
    requires h in s'.handles && s'.handles == s.handles[h := s'.handles[h]]
    requires s'.handles[h].pid == s.handles[h].pid && s'.handles[h].role == s.handles[h].role
    requires s'.handles[h].phase.Bound() == s.handles[h].phase.Bound()
    requires HandleClaim(s', s'.handles[h])
    ensures ClaimInv(s')
  {
    BackedLocal(s, s', h, Producer);
    BackedLocal(s, s', h, Consumer);
    forall g | g in s'.handles ensures HandleClaim(s', s'.handles[g]) {
      if g != h { assert HandleClaim(s, s.handles[g]); }
    }
  }

  lemma BackedLocal(s: State, s': State, h: nat, role: Role)
    requires Backed(s, role) && h in s.handles && h in s'.handles
    requires s'.PidSlot(role) == s.PidSlot(role) && s'.alive == s.alive
    requires s'.handles == s.handles[h := s'.handles[h]]
    requires s'.handles[h].role == s.handles[h].role
    requires s'.handles[h].phase.Bound() == s.handles[h].phase.Bound()
    ensures Backed(s', role)
  {
    if s.PidSlot(role) in s.alive {
      var g :| g in s.handles && s.handles[g].role == role && s.handles[g].phase.Bound();
      assert g in s'.handles && s'.handles[g].role == role && s'.handles[g].phase.Bound();
    }
  }

  lemma SpawnKeepsClaim(cfg: Config, s: State, p: int)
    requires ClaimInv(s) && Enabled(cfg, s, Spawn(p))
    ensures ClaimInv(Next(cfg, s, Spawn(p)))
  {
  }

  lemma DieKeepsClaim(cfg: Config, s: State, p: int)
    requires ClaimInv(s) && Enabled(cfg, s, Die(p))
    ensures ClaimInv(Next(cfg, s, Die(p)))
  {
    var s' := Next(cfg, s, Die(p));
    forall h | h in s'.handles ensures HandleClaim(s', s'.handles[h]) {
      assert HandleClaim(s, s.handles[h]);
    }
    DieKeepsBacked(s, s', p, Producer);
    DieKeepsBacked(s, s', p, Consumer);
  }

  lemma DieKeepsBacked(s: State, s': State, p: int, role: Role)
    requires ClaimInv(s) && s'.PidSlot(role) == s.PidSlot(role) && s'.alive == s.alive - {p}
    requires s'.handles == map h | h in s.handles && s.handles[h].pid != p :: s.handles[h]
    ensures Backed(s', role)
  {
    if s'.PidSlot(role) in s'.alive {
      assert Backed(s, role);
      var g :| g in s.handles && s.handles[g].role == role && s.handles[g].phase.Bound();
      assert HandleClaim(s, s.handles[g]);
      assert g in s'.handles && s'.handles[g] == s.handles[g];
    }
  }

  lemma OpenKeepsClaim(cfg: Config, s: State, a: Action)
    requires ClaimInv(s) && a.Open? && Enabled(cfg, s, a) && SoleHandle(s, a.p, a.role)
    ensures ClaimInv(Next(cfg, s, a))
  {
    var s' := Next(cfg, s, a);
    forall h | h in s'.handles ensures HandleClaim(s', s'.handles[h]) {
      if h != a.h { assert HandleClaim(s, s.handles[h]); }
    }
    forall role ensures Backed(s', role) {
      assert Backed(s, role);
      if s.PidSlot(role) in s.alive {
        var g :| g in s.handles && s.handles[g].role == role && s.handles[g].phase.Bound();
        assert g in s'.handles && s'.handles[g] == s.handles[g];
      }
    }
  }

  lemma TestKeepsClaim(cfg: Config, s: State, h: nat)
    requires ClaimInv(s) && Enabled(cfg, s, Test(h))
    ensures ClaimInv(Next(cfg, s, Test(h)))
    ensures !Wins(s, Test(h))
  {
    var s' := Next(cfg, s, Test(h));
    var hd := s.handles[h];
    assert HandleClaim(s, hd);
    if hd.phase.expected > 0 && hd.phase.expected in s.alive {
      DropUnbound(s, h);
    } else {
      ClaimLocal(s, s', h);
    }
  }

  lemma DropUnbound(s: State, h: nat)
    requires ClaimInv(s) && h in s.handles && !s.handles[h].phase.Bound()
    ensures ClaimInv(s.Drop(h))
  {
    var s' := s.Drop(h);
    forall g | g in s'.handles ensures HandleClaim(s', s'.handles[g]) {
      assert HandleClaim(s, s.handles[g]);
    }
    forall role ensures Backed(s', role) {
      assert Backed(s, role);
      if s.PidSlot(role) in s.alive {
        var g :| g in s.handles && s.handles[g].role == role && s.handles[g].phase.Bound();
        assert g in s'.handles && s'.handles[g] == s.handles[g];
      }
    }
  }

  lemma CasKeepsClaim(cfg: Config, s: State, h: nat, spurious: bool)
    requires ClaimInv(s) && Enabled(cfg, s, Cas(h, spurious))
    ensures ClaimInv(Next(cfg, s, Cas(h, spurious)))
  {
    var s' := Next(cfg, s, Cas(h, spurious));
    var hd := s.handles[h];
    assert HandleClaim(s, hd);
    if Wins(s, Cas(h, spurious)) {
      forall g | g in s'.handles ensures HandleClaim(s', s'.handles[g]) {
        if g != h { assert HandleClaim(s, s.handles[g]); }
      }
      forall role ensures Backed(s', role) {
        if role == hd.role {
          assert h in s'.handles && s'.handles[h].role == role && s'.handles[h].phase.Bound();
        } else {
          assert Backed(s, role);
          if s.PidSlot(role) in s.alive {
            var g :| g in s.handles && s.handles[g].role == role && s.handles[g].phase.Bound();
            assert g in s'.handles && s'.handles[g] == s.handles[g];
          }
        }
      }
    } else {
      ClaimLocal(s, s', h);
    }
  }

  lemma DetachKeepsClaim(cfg: Config, s: State, h: nat)
    requires ClaimInv(s) && Enabled(cfg, s, Detach(h))
    ensures ClaimInv(Next(cfg, s, Detach(h)))
  {
    var s' := Next(cfg, s, Detach(h));
    var hd := s.handles[h];
    assert HandleClaim(s, hd);
    forall g | g in s'.handles ensures HandleClaim(s', s'.handles[g]) {
      assert HandleClaim(s, s.handles[g]);
    }
    forall role ensures Backed(s', role) {
      assert Backed(s, role);
      if role != hd.role && s.PidSlot(role) in s.alive {
        var g :| g in s.handles && s.handles[g].role == role && s.handles[g].phase.Bound();
        assert g in s'.handles && s'.handles[g] == s.handles[g];
      }
    }
  }

  lemma ProcessStepKeepsClaim(cfg: Config, s: State, a: Action)
    requires ClaimInv(s) && ProcessStep(a) && Enabled(cfg, s, a) && (a.Open? ==> SoleHandle(s, a.p, a.role))
    ensures ClaimInv(Next(cfg, s, a))
  {
    if a.Spawn? {
      SpawnKeepsClaim(cfg, s, a.p);
    } else if a.Die? {
      DieKeepsClaim(cfg, s, a.p);
    } else if a.Open? {
      OpenKeepsClaim(cfg, s, a);
    } else if a.Test? {
      TestKeepsClaim(cfg, s, a.h);
    } else if a.Cas? {
      CasKeepsClaim(cfg, s, a.h, a.spurious);
    } else if a.Detach? {
      DetachKeepsClaim(cfg, s, a.h);
    } else {
      assert HandleClaim(s, s.handles[a.h]);
      ClaimLocal(s, Next(cfg, s, a), a.h);
    }
  }

  lemma PushStepKeepsClaim(cfg: Config, s: State, a: Action)
    requires ClaimInv(s) && PushStep(a) && Enabled(cfg, s, a)
    ensures ClaimInv(Next(cfg, s, a))
  {
    assert HandleClaim(s, s.handles[a.h]);
    ClaimLocal(s, Next(cfg, s, a), a.h);
  }

  lemma PopStepKeepsClaim(cfg: Config, s: State, a: Action)
    requires ClaimInv(s) && PopStep(a) && Enabled(cfg, s, a)
    ensures ClaimInv(Next(cfg, s, a))
  {
    assert HandleClaim(s, s.handles[a.h]);
    ClaimLocal(s, Next(cfg, s, a), a.h);
  }
}

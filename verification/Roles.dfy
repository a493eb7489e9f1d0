/**
  The role-claim protocol on its own: any number of processes race, die, detach and come back,
  whatever the ring and the index caches are doing.
*/
module Roles {
  import opened System
  import opened Invariant

  /** A run whose only proviso is one handle per role and process. */
  predicate SoleRun(cfg: Config, s: State, acts: seq<Action>)
    decreases |acts|
  {
    acts == [] ||
    (Enabled(cfg, s, acts[0]) && (acts[0].Open? ==> SoleHandle(s, acts[0].p, acts[0].role)) &&
     SoleRun(cfg, Next(cfg, s, acts[0]), acts[1..]))
  }

  lemma {:induction false} SoleRunKeepsClaim(cfg: Config, s: State, acts: seq<Action>)
    requires ClaimInv(s) && SoleRun(cfg, s, acts)
    ensures Run(cfg, s, acts) && ClaimInv(Exec(cfg, s, acts))
    decreases |acts|
  {
    if acts != [] {
      var a := acts[0];
      if PushStep(a) {
        PushStepKeepsClaim(cfg, s, a);
      } else if PopStep(a) {
        PopStepKeepsClaim(cfg, s, a);
      } else {
        ProcessStepKeepsClaim(cfg, s, a);
      }
      SoleRunKeepsClaim(cfg, Next(cfg, s, a), acts[1..]);
    }
  }

  /** Who holds a role: the bound handle, whose live pid is in the slot. */
  ghost predicate Holds(s: State, h: nat, role: Role) {
    h in s.handles && s.handles[h].role == role && s.handles[h].phase.Bound()
  }

  /**
    In every state of every run at most one handle holds a role.  A pid slot contains a live
    pid exactly when some handle holds the role, and then it is that handle's pid.
  */
  lemma RolesExclusive(cfg: Config, s: State, acts: seq<Action>, role: Role)
    requires Init(cfg, s) && SoleRun(cfg, s, acts)
    ensures Run(cfg, s, acts)
    ensures var s' := Exec(cfg, s, acts);
            && AtMostOneHolder(s', role)
            && (s'.PidSlot(role) in s'.alive <==> exists h :: Holds(s', h, role))
            && (forall h :: Holds(s', h, role) ==> s'.PidSlot(role) == s'.handles[h].pid)
  {
    assert ClaimInv(s);
    SoleRunKeepsClaim(cfg, s, acts);
    ClaimIsExclusive(cfg, s, acts, role);
    var s' := Exec(cfg, s, acts);
    if s'.PidSlot(role) in s'.alive {
      assert Backed(s', role);
      var h :| h in s'.handles && s'.handles[h].role == role && s'.handles[h].phase.Bound();
      assert Holds(s', h, role);
    }
    forall h | Holds(s', h, role) ensures s'.PidSlot(role) == s'.handles[h].pid && s'.handles[h].pid in s'.alive {
      assert HandleClaim(s', s'.handles[h]);
    }
  }

  /** detach() gives up the caller's own role; every other claim stands. */
  lemma DetachKeepsOthers(cfg: Config, s: State, h: nat, g: nat, role: Role)
    requires ClaimInv(s) && Enabled(cfg, s, Detach(h)) && g != h && Holds(s, g, role)
    ensures var s' := Next(cfg, s, Detach(h));
            && Holds(s', g, role) && s'.PidSlot(role) == s.PidSlot(role) == s.handles[g].pid
            && s'.PidSlot(s.handles[h].role) == -1
  {
  }

  /** Of two claimants that judged the same slot value claimable, a win of one turns the other away. */
  lemma LoserSeesWinner(cfg: Config, s: State, h: nat, g: nat)
    requires ClaimInv(s) && h != g && Enabled(cfg, s, Cas(h, false)) && Enabled(cfg, s, Cas(g, false))
    requires s.handles[h].role == s.handles[g].role && Wins(s, Cas(h, false))
    ensures var s1 := Next(cfg, s, Cas(h, false));
            && !Wins(s1, Cas(g, false)) && Enabled(cfg, s1, Cas(g, false))
            && var s2 := Next(cfg, s1, Cas(g, false));
               && Enabled(cfg, s2, Test(g)) && g !in Next(cfg, s2, Test(g)).handles
               && Next(cfg, s2, Test(g)).PidSlot(s.handles[h].role) == s.handles[h].pid
  {
  }

  // ---------------------------------------------------------------- one handle per role and process

  ghost predicate AtMostOneHolder(s: State, role: Role) {
    forall g, h :: Holds(s, g, role) && Holds(s, h, role) ==> g == h
  }

  /** No such run from s ever has two holders. */
  ghost predicate StaysExclusive(cfg: Config, s: State, role: Role) {
    forall acts: seq<Action> :: SoleRun(cfg, s, acts) && Run(cfg, s, acts) ==> AtMostOneHolder(Exec(cfg, s, acts), role)
  }

  /** A run that keeps to the proviso, and where it leads. */
  ghost predicate Leads(cfg: Config, s: State, acts: seq<Action>, s': State) {
    SoleRun(cfg, s, acts) && Run(cfg, s, acts) && Exec(cfg, s, acts) == s'
  }

  lemma {:induction false} LeadsOn(cfg: Config, s: State, xs: seq<Action>, mid: State, ys: seq<Action>, s': State)
    requires Leads(cfg, s, xs, mid) && Leads(cfg, mid, ys, s')
    ensures Leads(cfg, s, xs + ys, s')
    decreases |xs|
  {
    if xs == [] {
      assert xs + ys == ys;
    } else {
      assert (xs + ys)[1..] == xs[1..] + ys;
      LeadsOn(cfg, Next(cfg, s, xs[0]), xs[1..], mid, ys, s');
    }
  }

  lemma LeadsOne(cfg: Config, s: State, a: Action)
    requires Enabled(cfg, s, a) && !a.Open?
    ensures Leads(cfg, s, [a], Next(cfg, s, a))
  {
    assert [a][1..] == [];
  }

  /** What the claim loop would turn a handle away for. */
  predicate Turned(s: State, hd: Handle, expected: int) {
    expected != hd.pid && expected > 0 && expected in s.alive
  }

  /** Steps left until an unhindered claimant is in. */
  function Distance(s: State, hd: Handle): nat {
    match hd.phase
    case Opened => 5
    case HalfSnapped => 4
    case Snapped => 3
    case Testing(e) => if e == s.PidSlot(hd.role) then 2 else 4
    case Claiming(e) => if e == s.PidSlot(hd.role) then 1 else 3
    case _ => 0
  }

  /** Its next step. */
  function Onward(hd: Handle, g: nat): Action
    requires !hd.phase.Bound()
  {
    match hd.phase
    case Opened => SnapRead(g)
    case HalfSnapped => SnapWrite(g)
    case Snapped => LoadPid(g)
    case Testing(_) => Test(g)
    case Claiming(_) => Cas(g, false)
  }

  lemma OneOnward(cfg: Config, s: State, g: nat)
    requires g in s.handles && !s.handles[g].phase.Bound() && !Turned(s, s.handles[g], s.PidSlot(s.handles[g].role))
    requires s.handles[g].phase.Testing? ==> !Turned(s, s.handles[g], s.handles[g].phase.expected)
    ensures var a, hd := Onward(s.handles[g], g), s.handles[g];
            && Enabled(cfg, s, a)
            && var s' := Next(cfg, s, a);
               && g in s'.handles && s'.handles == s.handles[g := s'.handles[g]] && s'.alive == s.alive
               && s'.handles[g].pid == hd.pid && s'.handles[g].role == hd.role
               && (s'.PidSlot(hd.role) == s.PidSlot(hd.role) || s'.PidSlot(hd.role) == hd.pid)
               && (s'.handles[g].phase.Bound() || Distance(s', s'.handles[g]) < Distance(s, hd))
               && (s'.handles[g].phase.Testing? ==> s'.handles[g].phase.expected == s'.PidSlot(hd.role))
               && (s'.handles[g].phase.Bound() ==> s'.PidSlot(hd.role) == hd.pid || hd.phase.Testing?)
  {
  }

  /** Nobody live in the way, a claimant left to itself gets in. */
  lemma {:induction false} Enters(cfg: Config, s: State, g: nat) returns (acts: seq<Action>, s': State)
    requires g in s.handles && !s.handles[g].phase.Bound() && !Turned(s, s.handles[g], s.PidSlot(s.handles[g].role))
    requires s.handles[g].phase.Testing? ==> !Turned(s, s.handles[g], s.handles[g].phase.expected)
    ensures Leads(cfg, s, acts, s') && Holds(s', g, s.handles[g].role)
    ensures s'.handles == s.handles[g := s'.handles[g]] && s'.alive == s.alive
    ensures s'.PidSlot(s.handles[g].role) == s.PidSlot(s.handles[g].role) || s'.PidSlot(s.handles[g].role) == s.handles[g].pid
    decreases Distance(s, s.handles[g])
  {
    var a := Onward(s.handles[g], g);
    OneOnward(cfg, s, g);
    LeadsOne(cfg, s, a);
    s' := Next(cfg, s, a);
    acts := [a];
    if !s'.handles[g].phase.Bound() {
      var s1 := s';
      var rest, end := Enters(cfg, s1, g);
      LeadsOn(cfg, s, [a], s1, rest, end);
      acts, s' := [a] + rest, end;
    }
  }

  /** Process q out of the way of p's handles. */
  lemma Cleared(cfg: Config, s: State, q: int, p: int) returns (acts: seq<Action>, s': State)
    requires q != p
    ensures Leads(cfg, s, acts, s') && s'.alive == s.alive - {q}
    ensures s'.producerPid == s.producerPid && s'.consumerPid == s.consumerPid
    ensures forall g :: g in s.handles && s.handles[g].pid == p ==> g in s'.handles && s'.handles[g] == s.handles[g]
  {
    if q in s.alive {
      LeadsOne(cfg, s, Die(q));
      acts, s' := [Die(q)], Next(cfg, s, Die(q));
    } else {
      acts, s' := [], s;
    }
  }

  /** With two handles of one process and role, both can get in: first the new one, then the other. */
  lemma BothGetIn(cfg: Config, s: State, h: nat, g: nat) returns (acts: seq<Action>, s': State)
    requires h in s.handles && g in s.handles && h != g && s.handles[h].phase.Opened?
    requires s.handles[h].pid == s.handles[g].pid && s.handles[h].role == s.handles[g].role
    ensures Leads(cfg, s, acts, s') && Holds(s', h, s.handles[h].role) && Holds(s', g, s.handles[h].role)
  {
    var p, role, slot := s.handles[h].pid, s.handles[h].role, s.PidSlot(s.handles[h].role);
    var ph := s.handles[g].phase;
    var xs, s1 := Cleared(cfg, s, if slot == p then p + 1 else slot, p);
    var ys, s2 := Cleared(cfg, s1, if ph.Testing? && ph.expected != p then ph.expected else p + 1, p);
    var zs, s3 := Enters(cfg, s2, h);
    LeadsOn(cfg, s, xs, s1, ys, s2);
    LeadsOn(cfg, s, xs + ys, s2, zs, s3);
    if ph.Bound() {
      acts, s' := (xs + ys) + zs, s3;
    } else {
      var us, s4 := Enters(cfg, s3, g);
      LeadsOn(cfg, s, (xs + ys) + zs, s3, us, s4);
      acts, s' := ((xs + ys) + zs) + us, s4;
    }
  }

  /**
    Opening a handle leaves its role exclusive for ever after if and only if the process has no
    other handle of that role: bind() lets a process pass that finds its own pid.
  */
  lemma ExclusiveIffSoleHandle(cfg: Config, s: State, h: nat, p: int, role: Role)
    requires ClaimInv(s) && Enabled(cfg, s, Open(h, p, role))
    ensures StaysExclusive(cfg, Next(cfg, s, Open(h, p, role)), role) <==> SoleHandle(s, p, role)
  {
    var s1 := Next(cfg, s, Open(h, p, role));
    if SoleHandle(s, p, role) {
      OpenKeepsClaim(cfg, s, Open(h, p, role));
      forall acts: seq<Action> | SoleRun(cfg, s1, acts) && Run(cfg, s1, acts)
        ensures AtMostOneHolder(Exec(cfg, s1, acts), role)
      {
        ClaimIsExclusive(cfg, s1, acts, role);
      }
    } else {
      var g :| g in s.handles && s.handles[g].pid == p && s.handles[g].role == role;
      var acts, s' := BothGetIn(cfg, s1, h, g);
      assert Holds(s', h, role) && Holds(s', g, role) && !AtMostOneHolder(s', role);
      assert SoleRun(cfg, s1, acts) && Run(cfg, s1, acts);
    }
  }

  lemma ClaimIsExclusive(cfg: Config, s: State, acts: seq<Action>, role: Role)
    requires ClaimInv(s) && SoleRun(cfg, s, acts)
    ensures Run(cfg, s, acts) && AtMostOneHolder(Exec(cfg, s, acts), role)
  {
    SoleRunKeepsClaim(cfg, s, acts);
    var s' := Exec(cfg, s, acts);
    forall g, h | Holds(s', g, role) && Holds(s', h, role) ensures g == h {
      RoleExclusive(s', g, h);
    }
  }
}

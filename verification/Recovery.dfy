/**
  Coming back from a crash.  A process may die in the middle of anything; another one takes its
  role over and the queue goes on with the item that was due.
*/
module Recovery {
  import opened Positions
  import opened System
  import opened Invariant
  import opened RingSteps
  import opened Safety
  import opened Takeover
  import opened Scenarios

  /** Of a dead process nothing is left but its pid in the slot. */
  lemma DeadRoleIsClaimable(cfg: Config, s: State, p: int, q: int, h: nat, role: Role) returns (acts: seq<Action>, s': State)
    requires Inv(cfg, s) && p in s.alive && s.PidSlot(role) == p
    requires q in s.alive && q != p && h !in s.handles && SoleHandle(s, q, role)
    ensures Reaches(cfg, s, acts, s') && Inv(cfg, s') && s'.mem == s.mem
    ensures h in s'.handles && s'.handles[h] == Snapshot(s.mem, q, role, Idle) && s'.PidSlot(role) == q
    ensures forall g :: g in s'.handles ==> s'.handles[g].pid != p
  {
    var dead := Next(cfg, s, Die(p));
    One(cfg, s, Die(p));
    ReachesKeepsInv(cfg, s, [Die(p)], dead);
    var xs := BindRun(cfg, dead, h, q, role);
    s' := dead.SetPid(role, q).Set(h, Snapshot(s.mem, q, role, Idle));
    Then(cfg, s, [Die(p)], dead, xs, s');
    acts := [Die(p)] + xs;
    ReachesKeepsInv(cfg, s, acts, s');
  }

  // ---------------------------------------------------------------- a call run to its end

  /** Enough to keep reading. */
  ghost predicate CanCopyOut(cfg: Config, s: State, h: nat) {
    && h in s.handles && s.handles[h].phase.Reading?
    && |s.mem.slots| == cfg.n && AreItems(cfg, s.mem.slots)
    && s.handles[h].phase.own < cfg.n && s.handles[h].phase.count < cfg.n
  }

  /** A read in progress can always be completed. */
  lemma {:induction false} FinishRead(cfg: Config, s: State, h: nat) returns (acts: seq<Action>, s': State)
    requires CanCopyOut(cfg, s, h)
    ensures Reaches(cfg, s, acts, s') && CanCopyOut(cfg, s', h) && s'.mem == s.mem
    ensures s'.handles[h] == s.handles[h].(phase := s.handles[h].phase.(buf := s'.handles[h].phase.buf))
    ensures Words(cfg, s.handles[h].phase.count) <= s'.handles[h].phase.buf.Keys
    decreases Words(cfg, s.handles[h].phase.count) - s.handles[h].phase.buf.Keys
  {
    var missing := Words(cfg, s.handles[h].phase.count) - s.handles[h].phase.buf.Keys;
    if missing == {} {
      acts, s' := [], s;
      forall d | d in Words(cfg, s.handles[h].phase.count) ensures d in s.handles[h].phase.buf.Keys {
        assert d !in missing;
      }
    } else {
      var d :| d in missing;
      var a := ReadWord(h, d.0, d.1);
      ReadOne(cfg, s, h, d);
      One(cfg, s, a);
      var rest, end := FinishRead(cfg, Next(cfg, s, a), h);
      Then(cfg, s, [a], Next(cfg, s, a), rest, end);
      acts, s' := [a] + rest, end;
    }
  }

  lemma ReadOne(cfg: Config, s: State, h: nat, d: (nat, nat))
    requires CanCopyOut(cfg, s, h) && d in Words(cfg, s.handles[h].phase.count)
    ensures Enabled(cfg, s, ReadWord(h, d.0, d.1))
    ensures var s' := Next(cfg, s, ReadWord(h, d.0, d.1));
            && CanCopyOut(cfg, s', h) && s'.mem == s.mem
            && s'.handles[h] == s.handles[h].(phase := s.handles[h].phase.(buf := s'.handles[h].phase.buf))
            && s'.handles[h].phase.buf.Keys == s.handles[h].phase.buf.Keys + {d}
  {
    var ph := s.handles[h].phase;
    assert IsItem(cfg, s.mem.slots[RunSlot(cfg.n, ph.own, ph.count, d.0)]);
  }

  /** The decision of a pop of one from a queue that is not empty: granted, on the cache or after a reload. */
  lemma PopGranted(cfg: Config, s: State, h: nat) returns (acts: seq<Action>, s': State)
    requires Inv(cfg, s) && h in s.handles && s.handles[h].phase.Idle? && s.handles[h].role == Consumer
    requires s.mem.C() < s.mem.P()
    ensures Reaches(cfg, s, acts, s') && s'.mem == s.mem && h in s'.handles
    ensures s'.handles[h].phase == Reading(s.mem.r, 1, false, map[])
  {
    var begin := BeginPop(h, 1, false);
    var s1 := Next(cfg, s, begin);
    FillLevel(cfg, s.mem);
    assert HandleInv(cfg, s.mem, s.handles[h]);
    var decide := if Avail(cfg, s1.handles[h]) >= 1 then GrantPop(h) else ReloadPop(h);
    s' := Next(cfg, s1, decide);
    One(cfg, s, begin);
    One(cfg, s1, decide);
    Then(cfg, s, [begin], s1, [decide], s');
    acts := [begin] + [decide];
  }

  /** Left to itself, an idle consumer takes the item due, whatever its cache says. */
  lemma NextPop(cfg: Config, s: State, h: nat) returns (acts: seq<Action>, s': State)
    requires Inv(cfg, s) && h in s.handles && s.handles[h].phase.Idle? && s.handles[h].role == Consumer
    requires s.mem.C() < s.mem.P()
    ensures Reaches(cfg, s, acts, s') && Inv(cfg, s')
    ensures s'.mem.delivered == s.mem.delivered + [s.mem.published[s.mem.C()]] && s'.mem.published == s.mem.published
  {
    var xs, s1 := PopGranted(cfg, s, h);
    ReachesKeepsInv(cfg, s, xs, s1);
    assert HandleInv(cfg, s1.mem, s1.handles[h]);
    var ys, s2 := FinishRead(cfg, s1, h);
    ReachesKeepsInv(cfg, s1, ys, s2);
    s' := HandsOver(cfg, s2, h);
    Then(cfg, s1, ys, s2, [Consume(h)], s');
    Then(cfg, s, xs, s1, ys + [Consume(h)], s');
    acts := xs + (ys + [Consume(h)]);
    ReachesKeepsInv(cfg, s, acts, s');
  }

  lemma HandsOver(cfg: Config, s: State, h: nat) returns (s': State)
    requires Inv(cfg, s) && h in s.handles && s.handles[h].phase.Reading? && s.handles[h].phase.count == 1
    requires Words(cfg, 1) <= s.handles[h].phase.buf.Keys
    ensures s.mem.C() < s.mem.P() && Reaches(cfg, s, [Consume(h)], s')
    ensures s'.mem.delivered == s.mem.delivered + [s.mem.published[s.mem.C()]] && s'.mem.published == s.mem.published
  {
    assert HandleInv(cfg, s.mem, s.handles[h]);
    One(cfg, s, Consume(h));
    ConsumesItemsDue(cfg, s.mem, s.handles[h]);
    s' := Next(cfg, s, Consume(h));
  }

  lemma PushGranted(cfg: Config, s: State, h: nat, x: Item) returns (acts: seq<Action>, s': State)
    requires Inv(cfg, s) && h in s.handles && s.handles[h].phase.Idle? && s.handles[h].role == Producer
    requires s.mem.P() - s.mem.C() < cfg.n - 1 && IsItem(cfg, x)
    ensures Reaches(cfg, s, acts, s') && s'.mem == s.mem && h in s'.handles
    ensures s'.handles[h].phase == Writing([x], s.mem.w, 1, {})
    ensures forall a :: a in acts ==> PushStep(a)
  {
    var begin := BeginPush(h, [x]);
    var s1 := Next(cfg, s, begin);
    FillLevel(cfg, s.mem);
    assert HandleInv(cfg, s.mem, s.handles[h]);
    var decide := if System.Room(cfg, s1.handles[h]) >= 1 then GrantPush(h) else ReloadPush(h);
    s' := Next(cfg, s1, decide);
    One(cfg, s, begin);
    One(cfg, s1, decide);
    Then(cfg, s, [begin], s1, [decide], s');
    acts := [begin] + [decide];
  }

  /** Left to itself, an idle producer appends its item, over whatever a dead one left in the slot. */
  lemma NextPush(cfg: Config, s: State, h: nat, x: Item) returns (acts: seq<Action>, s': State)
    requires Inv(cfg, s) && h in s.handles && s.handles[h].phase.Idle? && s.handles[h].role == Producer
    requires s.mem.P() - s.mem.C() < cfg.n - 1 && IsItem(cfg, x)
    ensures Reaches(cfg, s, acts, s') && Inv(cfg, s')
    ensures s'.mem.published == s.mem.published + [x] && s'.mem.delivered == s.mem.delivered
    ensures forall a :: a in acts ==> PushStep(a)
  {
    var xs, s1 := PushGranted(cfg, s, h, x);
    ReachesKeepsInv(cfg, s, xs, s1);
    var ys;
    ys, s' := FinishPush(cfg, s1, h);
    Then(cfg, s, xs, s1, ys, s');
    acts := xs + ys;
    assert [x][..1] == [x];
  }

  /** A push that has been granted its slots can always be completed. */
  lemma FinishPush(cfg: Config, s: State, h: nat) returns (acts: seq<Action>, s': State)
    requires Inv(cfg, s) && h in s.handles && s.handles[h].phase.Writing?
    ensures s.handles[h].phase.count <= |s.handles[h].phase.src|
    ensures Reaches(cfg, s, acts, s') && Inv(cfg, s') && s'.mem.delivered == s.mem.delivered
    ensures s'.mem.published == s.mem.published + s.handles[h].phase.src[..s.handles[h].phase.count]
    ensures s.handles[h].phase.count >= 1 && forall a :: a in acts ==> PushStep(a)
  {
    assert HandleInv(cfg, s.mem, s.handles[h]);
    var xs := FinishCopy(cfg, s, h);
    var s1 := Exec(cfg, s, xs);
    s' := Next(cfg, s1, Publish(h));
    One(cfg, s1, Publish(h));
    Then(cfg, s, xs, s1, [Publish(h)], s');
    acts := xs + [Publish(h)];
    ReachesKeepsInv(cfg, s, acts, s');
  }

  lemma LiveAppends(cfg: Config, m: Mem, m': Mem, x: Item)
    requires cfg.Valid() && MemInv(cfg, m) && MemInv(cfg, m')
    requires m'.published == m.published + [x] && m'.delivered == m.delivered
    ensures Live(cfg, m') == Live(cfg, m) + [x]
  {
    LiveIsUnread(cfg, m);
    LiveIsUnread(cfg, m');
  }

  // ---------------------------------------------------------------- theorems

  /**
    Whatever the consumer was doing when it died, any other live process can take its role: the
    queue is as it was, and the first item it then takes is the oldest one not yet delivered.
  */
  lemma ConsumerRecovers(cfg: Config, s: State, p: int, q: int, h: nat)
    returns (acts: seq<Action>, bound: State, more: seq<Action>, s': State)
    requires Inv(cfg, s) && p in s.alive && s.consumerPid == p
    requires q in s.alive && q != p && h !in s.handles && SoleHandle(s, q, Consumer)
    ensures Reaches(cfg, s, acts, bound) && Live(cfg, bound.mem) == Live(cfg, s.mem) == s.mem.published[s.mem.C()..]
    ensures bound.mem.published == s.mem.published && bound.mem.delivered == s.mem.delivered && bound.consumerPid == q
    ensures forall g :: g in bound.handles ==> bound.handles[g].pid != p
    ensures Reaches(cfg, bound, more, s')
    ensures Live(cfg, s.mem) != [] ==> s'.mem.delivered == s.mem.delivered + [s.mem.published[s.mem.C()]]
  {
    acts, bound := DeadRoleIsClaimable(cfg, s, p, q, h, Consumer);
    LiveIsUnread(cfg, s.mem);
    more, s' := [], bound;
    if s.mem.C() < s.mem.P() {
      more, s' := NextPop(cfg, bound, h);
    }
  }

  /**
    Whatever the producer was doing when it died, any other live process can take its role: nothing
    of an unfinished batch is published, nobody is left to publish it, and the next push appends its
    item behind what was published before.
  */
  lemma ProducerRecovers(cfg: Config, s: State, p: int, q: int, h: nat, x: Item)
    returns (acts: seq<Action>, bound: State, more: seq<Action>, s': State)
    requires Inv(cfg, s) && p in s.alive && s.producerPid == p && IsItem(cfg, x)
    requires q in s.alive && q != p && h !in s.handles && SoleHandle(s, q, Producer)
    ensures Reaches(cfg, s, acts, bound) && Live(cfg, bound.mem) == Live(cfg, s.mem) == s.mem.published[s.mem.C()..]
    ensures bound.mem.published == s.mem.published && bound.mem.delivered == s.mem.delivered && bound.producerPid == q
    ensures forall g :: g in bound.handles ==> bound.handles[g].pid != p
    ensures Reaches(cfg, bound, more, s')
    ensures |Live(cfg, s.mem)| < cfg.n - 1 ==>
              s'.mem.published == s.mem.published + [x] && Live(cfg, s'.mem) == Live(cfg, s.mem) + [x]
  {
    acts, bound := DeadRoleIsClaimable(cfg, s, p, q, h, Producer);
    LiveIsUnread(cfg, s.mem);
    more, s' := [], bound;
    if s.mem.P() - s.mem.C() < cfg.n - 1 {
      more, s' := NextPush(cfg, bound, h, x);
      LiveAppends(cfg, s.mem, s'.mem, x);
    }
  }
}

/**
  peerAlive(), the answers of push() and pop(out) that rest on it, and the spin loops around them.
  Module Calls puts whole calls into the step machine.
*/
module Blocking {
  import opened Machine
  import opened Positions
  import opened System
  import opened Invariant
  import opened RingSteps
  import opened Safety
  import opened Takeover
  import opened Scenarios
  import opened Recovery

  // ---------------------------------------------------------------- a role without a live owner

  /** processAlive(): only a running process counts. */
  predicate ProcessAlive(s: State, pid: int) { pid > 0 && pid in s.alive }

  /** The role has a live owner, or never had one: 0 means not attached yet. */
  predicate PeerAlive(s: State, peer: Role) {
    s.PidSlot(peer) == 0 || ProcessAlive(s, s.PidSlot(peer))
  }

  /** Nobody alive owns the role. */
  predicate Vacant(s: State, role: Role) { s.PidSlot(role) !in s.alive }

  predicate Claims(s: State, a: Action, role: Role) { Wins(s, a) && s.handles[a.h].role == role }

  /** A run without a winning claim on a role. */
  predicate NoClaim(cfg: Config, s: State, acts: seq<Action>, role: Role)
    decreases |acts|
  {
    acts == [] ||
    (Enabled(cfg, s, acts[0]) && Careful(cfg, s, acts[0]) && !Claims(s, acts[0], role) &&
     NoClaim(cfg, Next(cfg, s, acts[0]), acts[1..], role))
  }

  /** Only a winning claim and a detach store a pid slot. */
  lemma PidWriters(cfg: Config, s: State, a: Action, role: Role)
    requires Enabled(cfg, s, a) && !Claims(s, a, role)
    ensures Next(cfg, s, a).PidSlot(role) == s.PidSlot(role) ||
            (a.Detach? && s.handles[a.h].role == role && s.PidSlot(role) == s.handles[a.h].pid
             && Next(cfg, s, a).PidSlot(role) == -1)
  {
  }

  lemma GoneStep(cfg: Config, s: State, a: Action, role: Role)
    requires Inv(cfg, s) && Vacant(s, role) && Enabled(cfg, s, a) && !Claims(s, a, role)
    ensures Vacant(Next(cfg, s, a), role) && (!PeerAlive(s, role) ==> !PeerAlive(Next(cfg, s, a), role))
    ensures Own(Next(cfg, s, a).mem, role) == Own(s.mem, role)
  {
    if !a.Spawn? && !a.Die? && !a.Open? {
      assert HandleClaim(s, s.handles[a.h]) && HandleInv(cfg, s.mem, s.handles[a.h]);
    }
    assert Known(s, s.PidSlot(role));
    PidWriters(cfg, s, a, role);
    IndexWriters(cfg, s, a);
  }

  /**
    A role whose owner died or detached, or that never had one, stays without one until a claim on
    it wins, and its index stands still: a gone producer publishes nothing more, a gone consumer
    consumes nothing.
  */
  lemma {:induction false} GoneStaysGone(cfg: Config, s: State, acts: seq<Action>, role: Role)
    requires Inv(cfg, s) && Vacant(s, role) && NoClaim(cfg, s, acts, role)
    ensures CarefulRun(cfg, s, acts) && Run(cfg, s, acts) && Inv(cfg, Exec(cfg, s, acts))
    ensures Vacant(Exec(cfg, s, acts), role) && (!PeerAlive(s, role) ==> !PeerAlive(Exec(cfg, s, acts), role))
    ensures role == Producer ==> Exec(cfg, s, acts).mem.published == s.mem.published
    ensures role == Consumer ==> Exec(cfg, s, acts).mem.delivered == s.mem.delivered
    decreases |acts|
  {
    if acts != [] {
      var s' := Next(cfg, s, acts[0]);
      StepKeepsInv(cfg, s, acts[0]);
      GoneStep(cfg, s, acts[0], role);
      HistoryStep(cfg, s, acts[0]);
      GoneStaysGone(cfg, s', acts[1..], role);
    }
  }

  lemma HistoryStep(cfg: Config, s: State, a: Action)
    requires Enabled(cfg, s, a)
    ensures s.mem.published <= Next(cfg, s, a).mem.published && s.mem.delivered <= Next(cfg, s, a).mem.delivered
  {
    IndexWriters(cfg, s, a);
  }

  /** Without a claim a pid slot can only be given up. */
  lemma {:induction false} SlotWithoutClaim(cfg: Config, s: State, acts: seq<Action>, role: Role)
    requires NoClaim(cfg, s, acts, role)
    ensures Run(cfg, s, acts)
    ensures Exec(cfg, s, acts).PidSlot(role) == s.PidSlot(role) || Exec(cfg, s, acts).PidSlot(role) == -1
    decreases |acts|
  {
    if acts != [] {
      PidWriters(cfg, s, acts[0], role);
      SlotWithoutClaim(cfg, Next(cfg, s, acts[0]), acts[1..], role);
    }
  }

  /** A role nobody has claimed yet reads 0 until a claim on it wins. */
  lemma {:induction false} ZeroWithoutClaim(cfg: Config, s: State, acts: seq<Action>, role: Role)
    requires Inv(cfg, s) && s.PidSlot(role) == 0 && NoClaim(cfg, s, acts, role)
    ensures Run(cfg, s, acts) && Inv(cfg, Exec(cfg, s, acts)) && Exec(cfg, s, acts).PidSlot(role) == 0
    decreases |acts|
  {
    if acts != [] {
      StepKeepsInv(cfg, s, acts[0]);
      PidWriters(cfg, s, acts[0], role);
      if acts[0].Detach? {
        assert HandleClaim(s, s.handles[acts[0].h]);
      }
      ZeroWithoutClaim(cfg, Next(cfg, s, acts[0]), acts[1..], role);
    }
  }

  // ---------------------------------------------------------------- peerAlive(), in two steps

  /** peerAlive() answers false: a pid loaded in one state, the process not there in a later one. */
  predicate SeenGone(loaded: State, killed: State, peer: Role) {
    loaded.PidSlot(peer) != 0 && !ProcessAlive(killed, loaded.PidSlot(peer))
  }

  /** If no claim on the role won in between, the role has no live owner when the answer is given. */
  lemma SeenGoneIsGone(cfg: Config, s: State, acts: seq<Action>, peer: Role)
    requires NoClaim(cfg, s, acts, peer) && Run(cfg, s, acts) && SeenGone(s, Exec(cfg, s, acts), peer)
    ensures !PeerAlive(Exec(cfg, s, acts), peer)
  {
    SlotWithoutClaim(cfg, s, acts, peer);
  }

  /** The dead stay dead. */
  lemma {:induction false} DeadStayDead(cfg: Config, s: State, acts: seq<Action>)
    requires Run(cfg, s, acts)
    ensures s.dead <= Exec(cfg, s, acts).dead
    decreases |acts|
  {
    if acts != [] { DeadStayDead(cfg, Next(cfg, s, acts[0]), acts[1..]); }
  }

  /** Conversely a role without a live owner when its pid is loaded is reported gone, whenever kill() comes. */
  lemma GoneIsSeen(cfg: Config, s: State, acts: seq<Action>, peer: Role)
    requires Inv(cfg, s) && CarefulRun(cfg, s, acts) && Run(cfg, s, acts) && !PeerAlive(s, peer)
    ensures SeenGone(s, Exec(cfg, s, acts), peer)
  {
    RunKeepsInv(cfg, s, acts);
    DeadStayDead(cfg, s, acts);
    assert Known(s, s.PidSlot(peer));
  }

  // ---------------------------------------------------------------- what false means

  /** A run that handle h, bound throughout, sits out. */
  ghost predicate Waits(cfg: Config, s: State, acts: seq<Action>, h: nat, s': State) {
    Quiet(cfg, s, acts, h) && Reaches(cfg, s, acts, s')
  }

  lemma WaitingKeeps(cfg: Config, s: State, acts: seq<Action>, h: nat, s': State)
    requires Inv(cfg, s) && Waits(cfg, s, acts, h, s')
    ensures Inv(cfg, s') && h in s'.handles && s'.handles[h] == s.handles[h]
    ensures s.handles[h].role == Producer ==> s'.mem.w == s.mem.w && s'.mem.published == s.mem.published
    ensures s.handles[h].role == Consumer ==> s'.mem.r == s.mem.r && s'.mem.delivered == s.mem.delivered
  {
    OwnIndexStable(cfg, s, acts, h);
    QuietKeepsHandle(cfg, s, acts, h);
  }

  lemma {:induction false} QuietKeepsHandle(cfg: Config, s: State, acts: seq<Action>, h: nat)
    requires Inv(cfg, s) && Quiet(cfg, s, acts, h) && Run(cfg, s, acts)
    ensures h in Exec(cfg, s, acts).handles && Exec(cfg, s, acts).handles[h] == s.handles[h]
    decreases |acts|
  {
    if acts != [] {
      StepKeepsInv(cfg, s, acts[0]);
      OthersLeaveHandle(cfg, s, acts[0], h);
      QuietKeepsHandle(cfg, Next(cfg, s, acts[0]), acts[1..], h);
    }
  }

  /** empty() true for the consumer: at its load of writeIdx everything published had been delivered. */
  lemma DrainedAtLoad(cfg: Config, wrote: State, toRead: seq<Action>, read: State, h: nat)
    requires Inv(cfg, wrote) && Waits(cfg, wrote, toRead, h, read) && wrote.handles[h].role == Consumer
    requires wrote.mem.w == read.mem.r
    ensures wrote.mem.delivered == wrote.mem.published
  {
    EndpointSizeExact(cfg, wrote, toRead, h);
    LiveIsUnread(cfg, wrote.mem);
  }

  /**
    pop(out) returns false after, in this order: the pid load, kill() finding nobody, the load of
    writeIdx, and the load of an equal readIdx.  At the load of writeIdx everything ever published
    had been delivered, whoever came and went.  It stays so for as long as no claim on the producer
    role wins after the pid load; `later` is any continuation from the load of writeIdx.
  */
  lemma FalsePopMeansDrained(cfg: Config, loaded: State, toKill: seq<Action>, killed: State,
                             toWrite: seq<Action>, wrote: State, toRead: seq<Action>, read: State,
                             h: nat, later: seq<Action>)
    requires Inv(cfg, loaded) && Waits(cfg, loaded, toKill, h, killed) && loaded.handles[h].role == Consumer
    requires Waits(cfg, killed, toWrite, h, wrote) && Waits(cfg, wrote, toRead, h, read)
    requires SeenGone(loaded, killed, Producer) && wrote.mem.w == read.mem.r
    ensures wrote.mem.delivered == wrote.mem.published
    ensures NoClaim(cfg, loaded, toKill, Producer) && NoClaim(cfg, killed, toWrite, Producer) &&
            NoClaim(cfg, wrote, later, Producer) ==>
              && Run(cfg, wrote, later) && killed.mem.published == wrote.mem.published
              && Exec(cfg, wrote, later).mem.published == wrote.mem.published
              && Live(cfg, Exec(cfg, wrote, later).mem) == []
  {
    WaitingKeeps(cfg, loaded, toKill, h, killed);
    WaitingKeeps(cfg, killed, toWrite, h, wrote);
    DrainedAtLoad(cfg, wrote, toRead, read, h);
    if NoClaim(cfg, loaded, toKill, Producer) && NoClaim(cfg, killed, toWrite, Producer) &&
       NoClaim(cfg, wrote, later, Producer) {
      SeenGoneIsGone(cfg, loaded, toKill, Producer);
      GoneStaysGone(cfg, killed, toWrite, Producer);
      EmptyStaysEmpty(cfg, wrote, later);
    }
  }

  /** A failed try_pop with the producer gone: empty() answers true whenever the consumer asks. */
  lemma FailedPopStaysEmpty(cfg: Config, s: State, h: nat, between: seq<Action>)
    requires Inv(cfg, s) && Enabled(cfg, s, ReloadPop(h)) && !PeerAlive(s, Producer)
    requires Next(cfg, s, ReloadPop(h)).handles[h].phase.Idle?
    requires NoClaim(cfg, Next(cfg, s, ReloadPop(h)), between, Producer)
    ensures var s1 := Next(cfg, s, ReloadPop(h));
            Run(cfg, s1, between) && Exec(cfg, s1, between).mem.w == Exec(cfg, s1, between).mem.r
  {
    var s1 := Next(cfg, s, ReloadPop(h));
    PopFailsIffEmpty(cfg, s, h);
    StepKeepsInv(cfg, s, ReloadPop(h));
    LiveIsUnread(cfg, s1.mem);
    EmptyStaysEmpty(cfg, s1, between);
  }

  lemma EmptyStaysEmpty(cfg: Config, s: State, acts: seq<Action>)
    requires Inv(cfg, s) && s.mem.C() == s.mem.P() && !PeerAlive(s, Producer) && NoClaim(cfg, s, acts, Producer)
    ensures Run(cfg, s, acts) && Exec(cfg, s, acts).mem.w == Exec(cfg, s, acts).mem.r
    ensures Exec(cfg, s, acts).mem.published == s.mem.published && Live(cfg, Exec(cfg, s, acts).mem) == []
  {
    GoneStaysGone(cfg, s, acts, Producer);
    HistoriesGrow(cfg, s, acts);
    FillLevel(cfg, Exec(cfg, s, acts).mem);
    LiveIsUnread(cfg, Exec(cfg, s, acts).mem);
  }

  // ---------------------------------------------------------------- when false is final

  /** Nothing more is published unless a claim on the producer role wins. */
  ghost predicate Final(cfg: Config, s: State) {
    forall later: seq<Action> :: NoClaim(cfg, s, later, Producer) && Run(cfg, s, later) ==>
      Exec(cfg, s, later).mem.published == s.mem.published
  }

  /** A bound producer, wherever it is in its call, can publish into an empty ring. */
  lemma CanStillPublish(cfg: Config, s: State, h: nat) returns (acts: seq<Action>, s': State)
    requires Inv(cfg, s) && s.mem.C() == s.mem.P()
    requires h in s.handles && s.handles[h].role == Producer && s.handles[h].phase.Bound()
    ensures Reaches(cfg, s, acts, s') && s.mem.published < s'.mem.published
    ensures forall a :: a in acts ==> PushStep(a)
  {
    assert HandleInv(cfg, s.mem, s.handles[h]);
    if s.handles[h].phase.Idle? {
      acts, s' := NextPush(cfg, s, h, Zeros(cfg, 1)[0]);
    } else if s.handles[h].phase.Writing? {
      acts, s' := FinishPush(cfg, s, h);
    } else {
      var decide, s1 := Decides(cfg, s, h);
      var rest;
      rest, s' := FinishPush(cfg, s1, h);
      Then(cfg, s, [decide], s1, rest, s');
      acts := [decide] + rest;
    }
  }

  lemma Decides(cfg: Config, s: State, h: nat) returns (a: Action, s': State)
    requires Inv(cfg, s) && s.mem.C() == s.mem.P() && h in s.handles && s.handles[h].phase.PushLoaded?
    ensures Reaches(cfg, s, [a], s') && PushStep(a) && Inv(cfg, s') && s'.mem == s.mem
    ensures h in s'.handles && s'.handles[h].phase.Writing?
  {
    assert HandleInv(cfg, s.mem, s.handles[h]);
    FillLevel(cfg, s.mem);
    a := if System.Room(cfg, s.handles[h]) >= |s.handles[h].phase.src| then GrantPush(h) else ReloadPush(h);
    One(cfg, s, a);
    s' := Next(cfg, s, a);
    ReachesKeepsInv(cfg, s, [a], s');
  }

  /** On an empty queue that is so if and only if nobody alive owns the producer role. */
  lemma FinalIffVacant(cfg: Config, s: State)
    requires Inv(cfg, s) && s.mem.C() == s.mem.P()
    ensures Final(cfg, s) <==> Vacant(s, Producer)
  {
    if Vacant(s, Producer) {
      forall later: seq<Action> | NoClaim(cfg, s, later, Producer) && Run(cfg, s, later)
        ensures Exec(cfg, s, later).mem.published == s.mem.published
      {
        GoneStaysGone(cfg, s, later, Producer);
      }
    } else {
      assert Backed(s, Producer);
      var h :| h in s.handles && s.handles[h].role == Producer && s.handles[h].phase.Bound();
      var later, s' := CanStillPublish(cfg, s, h);
      NoClaimIfNotWinning(cfg, s, later, Producer);
    }
  }

  /** A pid slot once claimed never reads 0 again. */
  lemma {:induction false} NeverUnclaimed(cfg: Config, s: State, acts: seq<Action>, role: Role)
    requires Inv(cfg, s) && CarefulRun(cfg, s, acts) && Run(cfg, s, acts) && s.PidSlot(role) != 0
    ensures Exec(cfg, s, acts).PidSlot(role) != 0
    decreases |acts|
  {
    if acts != [] {
      StepKeepsInv(cfg, s, acts[0]);
      StillClaimed(cfg, s, acts[0], role);
      NeverUnclaimed(cfg, Next(cfg, s, acts[0]), acts[1..], role);
    }
  }

  lemma StillClaimed(cfg: Config, s: State, a: Action, role: Role)
    requires Inv(cfg, s) && Enabled(cfg, s, a) && s.PidSlot(role) != 0
    ensures Next(cfg, s, a).PidSlot(role) != 0
  {
    if Claims(s, a, role) {
      assert HandleClaim(s, s.handles[a.h]);
    } else {
      PidWriters(cfg, s, a, role);
    }
  }

  /**
    A false pop(out) is final if and only if, at its load of writeIdx, peerAlive() would say so: a
    caller who wants to know reloads the pid slot.
  */
  lemma FalsePopFinalIff(cfg: Config, loaded: State, toKill: seq<Action>, killed: State,
                         toWrite: seq<Action>, wrote: State, toRead: seq<Action>, read: State, h: nat)
    requires Inv(cfg, loaded) && Waits(cfg, loaded, toKill, h, killed) && loaded.handles[h].role == Consumer
    requires Waits(cfg, killed, toWrite, h, wrote) && Waits(cfg, wrote, toRead, h, read)
    requires SeenGone(loaded, killed, Producer) && wrote.mem.w == read.mem.r
    ensures Final(cfg, wrote) <==> !PeerAlive(wrote, Producer)
  {
    WaitingKeeps(cfg, loaded, toKill, h, killed);
    WaitingKeeps(cfg, killed, toWrite, h, wrote);
    DrainedAtLoad(cfg, wrote, toRead, read, h);
    NeverUnclaimed(cfg, loaded, toKill, Producer);
    NeverUnclaimed(cfg, killed, toWrite, Producer);
    FinalIffVacant(cfg, wrote);
  }

  // ---------------------------------------------------------------- runs that show what is needed

  /**
    The promise has to start at the pid load.  The consumer loads pid 1; 1 detaches, 3 binds as
    producer, 1 dies; kill() finds nobody, and the queue is empty.  All the same 3 can publish, with
    no further claim.
  */
  lemma ReplacedInBetween(cfg: Config, s: State)
    returns (acts: seq<Action>, loaded: State, toKill: seq<Action>, killed: State, later: seq<Action>, s': State)
    requires cfg.Valid() && cfg.width == 1 && Init(cfg, s)
    ensures Reaches(cfg, s, acts, loaded) && Waits(cfg, loaded, toKill, 2, killed) && loaded.handles[2].role == Consumer
    ensures SeenGone(loaded, killed, Producer) && killed.mem.w == killed.mem.r && PeerAlive(killed, Producer)
    ensures NoClaim(cfg, killed, later, Producer) && Reaches(cfg, killed, later, s')
    ensures s'.mem.delivered < s'.mem.published
  {
    acts, loaded := PairRun(cfg, s);
    toKill, killed := Replaced(cfg, loaded);
    ReachesKeepsInv(cfg, loaded, toKill, killed);
    PushRun(cfg, killed, 3, [0]);
    later := [BeginPush(3, [[0]]), GrantPush(3), WriteWord(3, 0, 0)] + [Publish(3)];
    s' := Exec(cfg, killed, later);
    NoClaimIfNotWinning(cfg, killed, later, Producer);
  }

  lemma Replaced(cfg: Config, s: State) returns (acts: seq<Action>, s': State)
    requires Inv(cfg, s) && s.alive == {1, 2, 3} && s.producerPid == 1 && s.mem.P() == s.mem.C()
    requires s.handles.Keys == {1, 2} && s.handles[1].pid == 1 && s.handles[1].role == Producer && s.handles[1].phase.Idle?
    requires s.handles[2].pid == 2 && s.handles[2].role == Consumer && s.handles[2].phase.Bound()
    ensures Waits(cfg, s, acts, 2, s') && s'.mem == s.mem && s'.alive == {2, 3} && s'.producerPid == 3
    ensures 3 in s'.handles && s'.handles[3] == Snapshot(s.mem, 3, Producer, Idle)
  {
    var s1 := Next(cfg, s, Detach(1));
    One(cfg, s, Detach(1));
    ReachesKeepsInv(cfg, s, [Detach(1)], s1);
    var xs := BindRun(cfg, s1, 3, 3, Producer);
    var s2 := s1.SetPid(Producer, 3).Set(3, Snapshot(s.mem, 3, Producer, Idle));
    One(cfg, s2, Die(1));
    s' := Next(cfg, s2, Die(1));
    Then(cfg, s1, xs, s2, [Die(1)], s');
    Then(cfg, s, [Detach(1)], s1, xs + [Die(1)], s');
    acts := [Detach(1)] + (xs + [Die(1)]);
    assert forall a :: a in acts ==> a == Detach(1) || a in xs || a == Die(1);
    QuietIfNotActing(cfg, s, acts, 2);
  }

  lemma {:induction false} NoClaimIfNotWinning(cfg: Config, s: State, acts: seq<Action>, role: Role)
    requires CarefulRun(cfg, s, acts) && forall a :: a in acts ==> !a.Test? && !a.Cas?
    ensures NoClaim(cfg, s, acts, role)
    decreases |acts|
  {
    if acts != [] {
      assert acts[0] in acts;
      NoClaimIfNotWinning(cfg, Next(cfg, s, acts[0]), acts[1..], role);
    }
  }

  /** Emptiness tested before liveness would not do: the queue is empty, then an item arrives and its producer dies. */
  lemma ReversedTestsLoseItem(cfg: Config, s: State) returns (acts: seq<Action>, before: State, between: seq<Action>)
    requires cfg.Valid() && cfg.width == 1 && Init(cfg, s)
    ensures Reaches(cfg, s, acts, before) && 2 in before.handles && before.handles[2].role == Consumer
    ensures Quiet(cfg, before, between, 2) && Run(cfg, before, between)
    ensures before.mem.w == before.mem.r
    ensures var after := Exec(cfg, before, between);
            !PeerAlive(after, Producer) && after.mem.delivered < after.mem.published
  {
    acts, before := PairRun(cfg, s);
    between := PushThenDie(cfg, before);
    QuietIfNotActing(cfg, before, between, 2);
  }

  lemma PushThenDie(cfg: Config, s: State) returns (acts: seq<Action>)
    requires cfg.Valid() && cfg.width == 1 && Inv(cfg, s) && s.mem.P() == s.mem.C()
    requires 1 in s.handles && s.handles[1] == Handle(1, Producer, s.mem.w, s.mem.w, 0, 0, 0, Idle) && s.producerPid == 1
    ensures CarefulRun(cfg, s, acts) && Run(cfg, s, acts)
    ensures forall a :: a in acts ==> !ActsFor(a, 2) && a != Die(2)
    ensures var s' := Exec(cfg, s, acts);
            !PeerAlive(s', Producer) && s'.mem.delivered < s'.mem.published
  {
    var push := [BeginPush(1, [[0]]), GrantPush(1), WriteWord(1, 0, 0)] + [Publish(1)];
    PushRun(cfg, s, 1, [0]);
    var s1 := Exec(cfg, s, push);
    assert HandleClaim(s, s.handles[1]);
    One(cfg, s1, Die(1));
    Then(cfg, s, push, s1, [Die(1)], Next(cfg, s1, Die(1)));
    acts := push + [Die(1)];
  }

  lemma {:induction false} QuietIfNotActing(cfg: Config, s: State, acts: seq<Action>, h: nat)
    requires CarefulRun(cfg, s, acts) && Run(cfg, s, acts)
    requires h in s.handles && s.handles[h].phase.Bound()
    requires forall a :: a in acts ==> !ActsFor(a, h) && a != Die(s.handles[h].pid)
    ensures Quiet(cfg, s, acts, h)
    decreases |acts|
  {
    if acts != [] {
      var s' := Next(cfg, s, acts[0]);
      assert acts[0] in acts;
      assert h in s'.handles && s'.handles[h] == s.handles[h];
      QuietIfNotActing(cfg, s', acts[1..], h);
    }
  }

  // ---------------------------------------------------------------- the spin loops

  /** The loop's counter at attempt i, counting from 0: reset, and counted on, after every liveness test. */
  function SpinsAt(peerCheckSpins: nat, i: nat): nat {
    if i == 0 then 0
    else if SpinsAt(peerCheckSpins, i - 1) >= peerCheckSpins then 1
    else SpinsAt(peerCheckSpins, i - 1) + 1
  }

  /** Whether a failed attempt i is followed by a liveness test. */
  predicate Checks(peerCheckSpins: nat, i: nat) { SpinsAt(peerCheckSpins, i) >= peerCheckSpins }

  /** The counter in closed form. */
  lemma {:induction false} SpinsInClosedForm(peerCheckSpins: nat, i: nat)
    requires i >= 1
    ensures SpinsAt(peerCheckSpins, i) == if peerCheckSpins == 0 then 1 else (i - 1) % peerCheckSpins + 1
    decreases i
  {
    if i >= 2 {
      SpinsInClosedForm(peerCheckSpins, i - 1);
      if peerCheckSpins > 0 {
        RemainderSuccessor(i - 2, peerCheckSpins);
      }
    } else if peerCheckSpins > 0 {
      assert 0 % peerCheckSpins == 0;
    }
  }

  /** A failed attempt is followed by a test exactly at the positive multiples of peerCheckSpins, or always for 0. */
  lemma {:induction false} ChecksIff(peerCheckSpins: nat, i: nat)
    ensures Checks(peerCheckSpins, i) <==> peerCheckSpins == 0 || (i > 0 && i % peerCheckSpins == 0)
  {
    if i > 0 {
      SpinsInClosedForm(peerCheckSpins, i);
      if peerCheckSpins > 0 {
        RemainderSuccessor(i - 1, peerCheckSpins);
      }
    }
  }

  /** Failed attempts until the next test. */
  function UntilCheck(peerCheckSpins: nat, i: nat): nat {
    if Checks(peerCheckSpins, i) then 0 else peerCheckSpins - SpinsAt(peerCheckSpins, i)
  }

  /** What attempt i comes to. */
  datatype Answer = Done | GaveUp | Again

  function AnswerTo(success: bool, checked: bool, gone: bool): Answer {
    if success then Done else if checked && gone then GaveUp else Again
  }

  function PushAnswer(peerCheckSpins: nat, tryPush: nat -> bool, peerAlive: nat -> bool, i: nat): Answer {
    AnswerTo(tryPush(i), Checks(peerCheckSpins, i), !peerAlive(i))
  }

  function PopAnswer(peerCheckSpins: nat, tryPop: nat -> bool, peerAlive: nat -> bool, empty: nat -> bool, i: nat): Answer {
    AnswerTo(tryPop(i), Checks(peerCheckSpins, i), !peerAlive(i) && empty(i))
  }

  /**
    push(v, peerCheckSpins), with what attempt i and the test after it would see.  The call ends at
    the first attempt that does not come to Again; `stop` is some such attempt.
  */
  method BlockingPush(peerCheckSpins: nat, tryPush: nat -> bool, peerAlive: nat -> bool, ghost stop: nat)
    returns (ok: bool, attempts: nat)
    requires peerCheckSpins < U32 && PushAnswer(peerCheckSpins, tryPush, peerAlive, stop) != Again
    ensures attempts >= 1
    ensures PushAnswer(peerCheckSpins, tryPush, peerAlive, attempts - 1) == if ok then Done else GaveUp
    ensures forall i: nat :: i < attempts - 1 ==> PushAnswer(peerCheckSpins, tryPush, peerAlive, i) == Again
  {
    var spins: nat := 0;
    attempts := 0;
    while true
      invariant spins == SpinsAt(peerCheckSpins, attempts) && attempts <= stop
      invariant forall i: nat :: i < attempts ==> PushAnswer(peerCheckSpins, tryPush, peerAlive, i) == Again
      decreases stop - attempts
    {
      if tryPush(attempts) {
        return true, attempts + 1;
      }
      if spins >= peerCheckSpins {
        if !peerAlive(attempts) {
          return false, attempts + 1;
        }
        spins := 0;
      }
      attempts := attempts + 1;
      spins := (spins + 1) % U32;
    }
  }

  /** pop(out, peerCheckSpins), with empty(i) the answer of empty() in the test after attempt i. */
  method BlockingPop(peerCheckSpins: nat, tryPop: nat -> bool, peerAlive: nat -> bool, empty: nat -> bool,
                     ghost stop: nat)
    returns (ok: bool, attempts: nat)
    requires peerCheckSpins < U32 && PopAnswer(peerCheckSpins, tryPop, peerAlive, empty, stop) != Again
    ensures attempts >= 1
    ensures PopAnswer(peerCheckSpins, tryPop, peerAlive, empty, attempts - 1) == if ok then Done else GaveUp
    ensures forall i: nat :: i < attempts - 1 ==> PopAnswer(peerCheckSpins, tryPop, peerAlive, empty, i) == Again
  {
    var spins: nat := 0;
    attempts := 0;
    while true
      invariant spins == SpinsAt(peerCheckSpins, attempts) && attempts <= stop
      invariant forall i: nat :: i < attempts ==> PopAnswer(peerCheckSpins, tryPop, peerAlive, empty, i) == Again
      decreases stop - attempts
    {
      if tryPop(attempts) {
        return true, attempts + 1;
      }
      if spins >= peerCheckSpins {
        if !peerAlive(attempts) && empty(attempts) {
          return false, attempts + 1;
        }
        spins := 0;
      }
      attempts := attempts + 1;
      spins := (spins + 1) % U32;
    }
  }
}

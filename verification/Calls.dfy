/**
  Blocking calls inside the step machine.  A call of push(v) or pop(out) is cut into rounds: an
  attempt of the calling handle, the steps of everyone else mixed in, then the loads of the liveness
  test in the order the code makes them, others again acting in between.
*/
module Calls {
  import opened Machine
  import opened System
  import opened Invariant
  import opened RingSteps
  import opened Safety
  import opened Takeover
  import opened Scenarios
  import opened Blocking

  datatype Call = Push(h: nat, v: Item, peerCheckSpins: nat) | Pop(h: nat, peerCheckSpins: nat) {
    function Begin(): Action { if Push? then BeginPush(h, [v]) else BeginPop(h, 1, false) }
    function Mine(): Role { if Push? then Producer else Consumer }
    function Peer(): Role { if Push? then Consumer else Producer }
  }

  // ---------------------------------------------------------------- one attempt

  /** The caller is inside try_push or try_pop; the run ends with the step that returns from it. */
  predicate Trying(cfg: Config, s: State, h: nat, acts: seq<Action>)
    decreases |acts|
  {
    && acts != [] && Enabled(cfg, s, acts[0]) && Careful(cfg, s, acts[0]) && h in Next(cfg, s, acts[0]).handles
    && if ActsFor(acts[0], h) && Next(cfg, s, acts[0]).handles[h].phase.Idle? then acts[1..] == []
       else Trying(cfg, Next(cfg, s, acts[0]), h, acts[1..])
  }

  /** A whole attempt, others acting before and during it. */
  predicate Attempt(cfg: Config, s: State, call: Call, acts: seq<Action>)
    decreases |acts|
  {
    && call.h in s.handles && s.handles[call.h].phase.Idle? && s.handles[call.h].role == call.Mine()
    && acts != [] && Enabled(cfg, s, acts[0]) && Careful(cfg, s, acts[0])
    && if ActsFor(acts[0], call.h) then acts[0] == call.Begin() && Trying(cfg, Next(cfg, s, acts[0]), call.h, acts[1..])
       else Attempt(cfg, Next(cfg, s, acts[0]), call, acts[1..])
  }

  /** It returned true: its last step is the index store. */
  predicate Succeeds(acts: seq<Action>) {
    acts != [] && (acts[|acts| - 1].Publish? || acts[|acts| - 1].Consume?)
  }

  /** Where the caller is inside its attempt. */
  predicate Inside(call: Call, ph: Phase) {
    if call.Push? then (ph.PushLoaded? && ph.src == [call.v]) || (ph.Writing? && ph.src == [call.v])
    else (ph.PopLoaded? && ph.want == 1 && !ph.zeroCopy) || (ph.Reading? && ph.count == 1 && !ph.zeroCopy)
  }

  /** What an attempt that took memory from m to m' came to. */
  ghost predicate Came(cfg: Config, call: Call, m: Mem, m': Mem, success: bool) {
    if call.Push? then
      && m'.published == m.published + (if success then [call.v] else [])
      && (!success ==> m'.P() - m'.C() == cfg.n - 1)
    else
      && m.C() <= m'.P() && (success ==> m.C() < m'.P())
      && m'.delivered == m.delivered + (if success then [m'.published[m.C()]] else [])
      && (!success ==> m'.C() == m'.P())
  }

  /** A step of the caller inside its push. */
  lemma PushMoves(cfg: Config, s: State, call: Call, a: Action)
    requires Inv(cfg, s) && Enabled(cfg, s, a) && call.Push? && ActsFor(a, call.h)
    requires call.h in s.handles && s.handles[call.h].role == Producer && Inside(call, s.handles[call.h].phase)
    ensures var s' := Next(cfg, s, a);
            && call.h in s'.handles && s'.handles[call.h].role == Producer
            && if s'.handles[call.h].phase.Idle? then Came(cfg, call, s.mem, s'.mem, a.Publish?) && !a.Consume?
               else Inside(call, s'.handles[call.h].phase) && s'.mem.published == s.mem.published
  {
    assert HandleInv(cfg, s.mem, s.handles[call.h]);
    FillLevel(cfg, s.mem);
    IndexWriters(cfg, s, a);
    assert [call.v][..1] == [call.v];
  }

  /** A step of the caller inside its pop. */
  lemma PopMoves(cfg: Config, s: State, call: Call, a: Action)
    requires Inv(cfg, s) && Enabled(cfg, s, a) && call.Pop? && ActsFor(a, call.h)
    requires call.h in s.handles && s.handles[call.h].role == Consumer && Inside(call, s.handles[call.h].phase)
    ensures var s' := Next(cfg, s, a);
            && call.h in s'.handles && s'.handles[call.h].role == Consumer
            && if s'.handles[call.h].phase.Idle? then Came(cfg, call, s.mem, s'.mem, a.Consume?) && !a.Publish?
               else Inside(call, s'.handles[call.h].phase) && s'.mem.delivered == s.mem.delivered
  {
    if a.Consume? {
      PopTakes(cfg, s, call);
    } else {
      assert HandleInv(cfg, s.mem, s.handles[call.h]);
      FillLevel(cfg, s.mem);
      IndexWriters(cfg, s, a);
    }
  }

  lemma PopTakes(cfg: Config, s: State, call: Call)
    requires Inv(cfg, s) && Enabled(cfg, s, Consume(call.h)) && call.Pop? && Inside(call, s.handles[call.h].phase)
    ensures Came(cfg, call, s.mem, Next(cfg, s, Consume(call.h)).mem, true)
  {
    assert HandleInv(cfg, s.mem, s.handles[call.h]);
    ConsumesItemsDue(cfg, s.mem, s.handles[call.h]);
  }

  /** Everyone else leaves the caller and its side of the queue alone. */
  lemma OthersMove(cfg: Config, s: State, call: Call, a: Action)
    requires Inv(cfg, s) && Enabled(cfg, s, a) && !ActsFor(a, call.h)
    requires call.h in s.handles && s.handles[call.h].phase.Bound() && s.handles[call.h].role == call.Mine()
    requires call.h in Next(cfg, s, a).handles
    ensures Next(cfg, s, a).handles[call.h] == s.handles[call.h]
    ensures call.Push? ==> Next(cfg, s, a).mem.published == s.mem.published
    ensures call.Pop? ==> Next(cfg, s, a).mem.delivered == s.mem.delivered
  {
    OthersLeaveHandle(cfg, s, a, call.h);
    OthersLeaveOwnIndex(cfg, s, a, call.h);
    IndexWriters(cfg, s, a);
  }

  ghost predicate Returned(s: State, call: Call) {
    call.h in s.handles && s.handles[call.h].phase.Idle? && s.handles[call.h].role == call.Mine()
  }

  /** One step, of the caller or of anyone else, while the caller is inside its attempt. */
  lemma {:induction false} MovesOn(cfg: Config, s: State, call: Call, a: Action)
    requires Inv(cfg, s) && Enabled(cfg, s, a) && call.h in Next(cfg, s, a).handles
    requires call.h in s.handles && s.handles[call.h].role == call.Mine() && Inside(call, s.handles[call.h].phase)
    ensures var s' := Next(cfg, s, a);
            && s'.handles[call.h].role == call.Mine()
            && if ActsFor(a, call.h) && s'.handles[call.h].phase.Idle?
               then Came(cfg, call, s.mem, s'.mem, a.Publish? || a.Consume?)
               else Inside(call, s'.handles[call.h].phase) && SameSide(call, s.mem, s'.mem)
  {
    if !ActsFor(a, call.h) {
      OthersMove(cfg, s, call, a);
    } else if call.Push? {
      PushMoves(cfg, s, call, a);
    } else {
      PopMoves(cfg, s, call, a);
    }
  }

  /** Nothing has changed on the caller's side. */
  predicate SameSide(call: Call, m: Mem, m': Mem) {
    if call.Push? then m'.published == m.published else m'.delivered == m.delivered
  }

  lemma {:induction false} TryingComesTo(cfg: Config, s: State, call: Call, acts: seq<Action>)
    requires Inv(cfg, s) && Trying(cfg, s, call.h, acts)
    requires call.h in s.handles && s.handles[call.h].role == call.Mine() && Inside(call, s.handles[call.h].phase)
    ensures CarefulRun(cfg, s, acts) && Run(cfg, s, acts) && Inv(cfg, Exec(cfg, s, acts))
    ensures Returned(Exec(cfg, s, acts), call) && Came(cfg, call, s.mem, Exec(cfg, s, acts).mem, Succeeds(acts))
    decreases |acts|
  {
    var a, s' := acts[0], Next(cfg, s, acts[0]);
    StepKeepsInv(cfg, s, a);
    MovesOn(cfg, s, call, a);
    if !(ActsFor(a, call.h) && s'.handles[call.h].phase.Idle?) {
      TryingComesTo(cfg, s', call, acts[1..]);
      assert acts[|acts| - 1] == acts[1..][|acts[1..]| - 1];
    }
  }

  /**
    An attempt that returns true appended exactly v, or took exactly the item due; one that returns
    false changed nothing on its side, and the queue is full, or empty, as it returns.
  */
  lemma {:induction false} AttemptComesTo(cfg: Config, s: State, call: Call, acts: seq<Action>)
    requires Inv(cfg, s) && Attempt(cfg, s, call, acts)
    ensures CarefulRun(cfg, s, acts) && Run(cfg, s, acts) && Inv(cfg, Exec(cfg, s, acts))
    ensures Returned(Exec(cfg, s, acts), call) && Came(cfg, call, s.mem, Exec(cfg, s, acts).mem, Succeeds(acts))
    decreases |acts|
  {
    var a, s' := acts[0], Next(cfg, s, acts[0]);
    StepKeepsInv(cfg, s, a);
    if ActsFor(a, call.h) {
      IndexWriters(cfg, s, a);
      TryingComesTo(cfg, s', call, acts[1..]);
    } else {
      assert call.h in s'.handles;
      OthersMove(cfg, s, call, a);
      AttemptComesTo(cfg, s', call, acts[1..]);
    }
    assert acts[|acts| - 1] == acts[1..][|acts[1..]| - 1];
  }

  // ---------------------------------------------------------------- one round

  /**
    The attempt and the state it returned in, then the waits up to the pid load, kill(), and for pop
    the loads of writeIdx and readIdx.  Where the code skips a load, others still act.
  */
  datatype Round = Round(attempt: seq<Action>, tried: State, toLoad: seq<Action>, loaded: State,
                         toKill: seq<Action>, killed: State, toWrite: seq<Action>, wrote: State,
                         toRead: seq<Action>, end: State)

  ghost predicate IsRound(cfg: Config, call: Call, s: State, r: Round) {
    && Attempt(cfg, s, call, r.attempt) && Reaches(cfg, s, r.attempt, r.tried)
    && Waits(cfg, r.tried, r.toLoad, call.h, r.loaded) && Waits(cfg, r.loaded, r.toKill, call.h, r.killed)
    && Waits(cfg, r.killed, r.toWrite, call.h, r.wrote) && Waits(cfg, r.wrote, r.toRead, call.h, r.end)
  }

  /** The liveness test of the round, if it is made, would end the call. */
  predicate SeesEnd(call: Call, r: Round) {
    SeenGone(r.loaded, r.killed, call.Peer()) && (call.Pop? ==> r.wrote.mem.w == r.end.mem.r)
  }

  /** Where round j starts. */
  function Start(s: State, rounds: seq<Round>, j: nat): State
    requires j <= |rounds|
  {
    if j == 0 then s else rounds[j - 1].end
  }

  ghost predicate RoundAt(cfg: Config, call: Call, s: State, rounds: seq<Round>, j: nat)
    requires j < |rounds|
  {
    IsRound(cfg, call, Start(s, rounds, j), rounds[j])
  }

  /** What round j comes to. */
  function AnswerAt(call: Call, rounds: seq<Round>, j: nat): Answer
    requires j < |rounds|
  {
    AnswerTo(Succeeds(rounds[j].attempt), Checks(call.peerCheckSpins, j), SeesEnd(call, rounds[j]))
  }

  /** The rounds of a call from s, finished or not: only the last may have come to anything but Again. */
  ghost predicate IsCall(cfg: Config, call: Call, s: State, rounds: seq<Round>) {
    && (forall j: nat {:trigger RoundAt(cfg, call, s, rounds, j)} :: j < |rounds| ==> RoundAt(cfg, call, s, rounds, j))
    && (forall j: nat :: j < |rounds| - 1 ==> AnswerAt(call, rounds, j) == Again)
  }

  /**
    What a round comes to, in the terms of the code: done if the attempt stored its index; given up
    if it did not, the attempt's number is one after which the peer is tested, a pid other than 0 was
    loaded and no such process runs, and for a pop the loaded indices are equal.
  */
  lemma {:induction false} AnswerMeans(call: Call, rounds: seq<Round>, j: nat)
    requires j < |rounds|
    ensures AnswerAt(call, rounds, j) == Done <==> Succeeds(rounds[j].attempt)
    ensures var r := rounds[j];
            var pid := r.loaded.PidSlot(call.Peer());
            AnswerAt(call, rounds, j) == GaveUp <==>
              && !Succeeds(r.attempt)
              && (call.peerCheckSpins == 0 || (j > 0 && j % call.peerCheckSpins == 0))
              && pid != 0 && !(pid > 0 && pid in r.killed.alive)
              && (call.Pop? ==> r.wrote.mem.w == r.end.mem.r)
  {
    ChecksIff(call.peerCheckSpins, j);
  }

  lemma RoundComesTo(cfg: Config, call: Call, s: State, r: Round)
    requires Inv(cfg, s) && IsRound(cfg, call, s, r)
    ensures Inv(cfg, r.tried) && Inv(cfg, r.loaded) && Inv(cfg, r.killed) && Inv(cfg, r.wrote) && Inv(cfg, r.end)
    ensures Came(cfg, call, s.mem, r.tried.mem, Succeeds(r.attempt)) && Returned(r.end, call) && Returned(r.loaded, call)
    ensures call.Push? ==> r.end.mem.published == r.tried.mem.published
    ensures call.Pop? ==> r.end.mem.delivered == r.wrote.mem.delivered == r.tried.mem.delivered
    ensures call.Pop? ==> r.end.mem.r == r.wrote.mem.r
  {
    AttemptComesTo(cfg, s, call, r.attempt);
    WaitingKeeps(cfg, r.tried, r.toLoad, call.h, r.loaded);
    WaitingKeeps(cfg, r.loaded, r.toKill, call.h, r.killed);
    WaitingKeeps(cfg, r.killed, r.toWrite, call.h, r.wrote);
    WaitingKeeps(cfg, r.wrote, r.toRead, call.h, r.end);
  }

  // ---------------------------------------------------------------- what a call does

  /** Rounds that came to Again changed nothing on the caller's side. */
  lemma {:induction false} StartOfRound(cfg: Config, call: Call, s: State, rounds: seq<Round>, j: nat)
    requires Inv(cfg, s) && IsCall(cfg, call, s, rounds) && j < |rounds|
    ensures Inv(cfg, Start(s, rounds, j))
    ensures call.Push? ==> Start(s, rounds, j).mem.published == s.mem.published
    ensures call.Pop? ==> Start(s, rounds, j).mem.delivered == s.mem.delivered
    decreases j
  {
    if j > 0 {
      assert AnswerAt(call, rounds, j - 1) == Again;
      StartOfRound(cfg, call, s, rounds, j - 1);
      assert RoundAt(cfg, call, s, rounds, j - 1);
      FailedRound(cfg, call, Start(s, rounds, j - 1), rounds[j - 1]);
    }
  }

  lemma FailedRound(cfg: Config, call: Call, s: State, r: Round)
    requires Inv(cfg, s) && IsRound(cfg, call, s, r) && !Succeeds(r.attempt)
    ensures Inv(cfg, r.end)
    ensures call.Push? ==> r.end.mem.published == s.mem.published
    ensures call.Pop? ==> r.end.mem.delivered == s.mem.delivered
  {
    RoundComesTo(cfg, call, s, r);
  }

  /** What a round does for the call. */
  ghost predicate Yields(call: Call, s: State, r: Round, answer: Answer) {
    if call.Push? then
      r.end.mem.published == s.mem.published + (if answer == Done then [call.v] else [])
    else
      && (answer == Done ==>
            s.mem.C() < r.end.mem.P() &&
            r.end.mem.delivered == s.mem.delivered + [r.end.mem.published[s.mem.C()]])
      && (answer != Done ==> r.end.mem.delivered == s.mem.delivered)
      && (answer == GaveUp ==> r.wrote.mem.delivered == r.wrote.mem.published)
  }

  lemma PushRound(cfg: Config, call: Call, s: State, rounds: seq<Round>, j: nat)
    requires Inv(cfg, s) && j < |rounds| && IsRound(cfg, call, s, rounds[j]) && call.Push?
    ensures Yields(call, s, rounds[j], AnswerAt(call, rounds, j))
  {
    RoundComesTo(cfg, call, s, rounds[j]);
  }

  lemma PopRound(cfg: Config, call: Call, s: State, rounds: seq<Round>, j: nat)
    requires Inv(cfg, s) && j < |rounds| && IsRound(cfg, call, s, rounds[j]) && call.Pop?
    ensures Yields(call, s, rounds[j], AnswerAt(call, rounds, j))
  {
    RoundComesTo(cfg, call, s, rounds[j]);
    PublishedSince(cfg, rounds[j], call.h);
    FillLevel(cfg, rounds[j].wrote.mem);
  }

  lemma PublishedSince(cfg: Config, r: Round, h: nat)
    requires Waits(cfg, r.tried, r.toLoad, h, r.loaded) && Waits(cfg, r.loaded, r.toKill, h, r.killed)
    requires Waits(cfg, r.killed, r.toWrite, h, r.wrote) && Waits(cfg, r.wrote, r.toRead, h, r.end)
    ensures r.tried.mem.published <= r.end.mem.published
  {
    HistoriesGrow(cfg, r.tried, r.toLoad);
    HistoriesGrow(cfg, r.loaded, r.toKill);
    HistoriesGrow(cfg, r.killed, r.toWrite);
    HistoriesGrow(cfg, r.wrote, r.toRead);
  }

  /**
    A push that returns true published exactly v; one that returns false, or still runs, published
    nothing.  A pop that returns true delivered exactly the item that was due when it was called;
    one that returns false delivered nothing, and when it loaded writeIdx everything ever published
    had been delivered.
  */
  lemma CallComesTo(cfg: Config, call: Call, s: State, rounds: seq<Round>)
    requires Inv(cfg, s) && IsCall(cfg, call, s, rounds) && rounds != []
    ensures Yields(call, s, rounds[|rounds| - 1], AnswerAt(call, rounds, |rounds| - 1))
  {
    var j := |rounds| - 1;
    StartOfRound(cfg, call, s, rounds, j);
    assert RoundAt(cfg, call, s, rounds, j);
    if call.Push? {
      PushRound(cfg, call, Start(s, rounds, j), rounds, j);
    } else {
      PopRound(cfg, call, Start(s, rounds, j), rounds, j);
    }
  }

  lemma CallKeepsInv(cfg: Config, call: Call, s: State, rounds: seq<Round>)
    requires Inv(cfg, s) && IsCall(cfg, call, s, rounds) && rounds != []
    ensures Inv(cfg, rounds[|rounds| - 1].end)
  {
    var j := |rounds| - 1;
    StartOfRound(cfg, call, s, rounds, j);
    assert RoundAt(cfg, call, s, rounds, j);
    RoundComesTo(cfg, call, Start(s, rounds, j), rounds[j]);
  }

  /**
    A false pop of the machine is final, nothing more being published without a new claim, if and
    only if at its load of writeIdx the producer role has no live owner; and that is so if no claim
    on the role won since the pid load.
  */
  lemma FalsePopIsFinal(cfg: Config, call: Call, s: State, rounds: seq<Round>)
    requires Inv(cfg, s) && IsCall(cfg, call, s, rounds) && rounds != [] && call.Pop?
    requires AnswerAt(call, rounds, |rounds| - 1) == GaveUp
    ensures var r := rounds[|rounds| - 1];
            && (Final(cfg, r.wrote) <==> !PeerAlive(r.wrote, Producer))
            && (NoClaim(cfg, r.loaded, r.toKill, Producer) && NoClaim(cfg, r.killed, r.toWrite, Producer) ==>
                  !PeerAlive(r.wrote, Producer))
  {
    var j := |rounds| - 1;
    StartOfRound(cfg, call, s, rounds, j);
    assert RoundAt(cfg, call, s, rounds, j);
    FinalRound(cfg, call, Start(s, rounds, j), rounds[j]);
  }

  lemma FinalRound(cfg: Config, call: Call, s: State, r: Round)
    requires Inv(cfg, s) && call.Pop? && IsRound(cfg, call, s, r) && SeesEnd(call, r)
    ensures Final(cfg, r.wrote) <==> !PeerAlive(r.wrote, Producer)
    ensures NoClaim(cfg, r.loaded, r.toKill, Producer) && NoClaim(cfg, r.killed, r.toWrite, Producer) ==>
              !PeerAlive(r.wrote, Producer)
  {
    RoundComesTo(cfg, call, s, r);
    FalsePopFinalIff(cfg, r.loaded, r.toKill, r.killed, r.toWrite, r.wrote, r.toRead, r.end, call.h);
    if NoClaim(cfg, r.loaded, r.toKill, Producer) && NoClaim(cfg, r.killed, r.toWrite, Producer) {
      SeenGoneIsGone(cfg, r.loaded, r.toKill, Producer);
      GoneStaysGone(cfg, r.killed, r.toWrite, Producer);
    }
  }

  // ---------------------------------------------------------------- when a call ends

  /** No claim on the peer's role from the end of the attempt to the end of the round. */
  ghost predicate UnclaimedAfter(cfg: Config, call: Call, r: Round) {
    && NoClaim(cfg, r.tried, r.toLoad, call.Peer()) && NoClaim(cfg, r.loaded, r.toKill, call.Peer())
    && NoClaim(cfg, r.killed, r.toWrite, call.Peer()) && NoClaim(cfg, r.wrote, r.toRead, call.Peer())
  }

  /** No claim on the peer's role in the whole of round j. */
  ghost predicate UnclaimedAt(cfg: Config, call: Call, s: State, rounds: seq<Round>, j: nat)
    requires j < |rounds|
  {
    NoClaim(cfg, Start(s, rounds, j), rounds[j].attempt, call.Peer()) && UnclaimedAfter(cfg, call, rounds[j])
  }

  /** No claim on the peer's role from the end of attempt k on. */
  ghost predicate UnclaimedFrom(cfg: Config, call: Call, s: State, rounds: seq<Round>, k: nat)
    requires k < |rounds|
  {
    && UnclaimedAfter(cfg, call, rounds[k])
    && forall j: nat {:trigger UnclaimedAt(cfg, call, s, rounds, j)} :: k < j < |rounds| ==> UnclaimedAt(cfg, call, s, rounds, j)
  }

  /** The peer gone as the attempt returns: if the test is made it ends the call, and the peer stays gone. */
  lemma GoneEndsRound(cfg: Config, call: Call, s: State, r: Round)
    requires Inv(cfg, s) && IsRound(cfg, call, s, r) && UnclaimedAfter(cfg, call, r)
    requires !PeerAlive(r.tried, call.Peer())
    ensures !PeerAlive(r.end, call.Peer()) && (!Succeeds(r.attempt) ==> SeesEnd(call, r))
  {
    RoundComesTo(cfg, call, s, r);
    GoneStaysGone(cfg, r.tried, r.toLoad, call.Peer());
    GoneStaysGone(cfg, r.loaded, r.toKill, call.Peer());
    GoneStaysGone(cfg, r.killed, r.toWrite, call.Peer());
    GoneStaysGone(cfg, r.wrote, r.toRead, call.Peer());
    GoneIsSeen(cfg, r.loaded, r.toKill, call.Peer());
    if call.Pop? && !Succeeds(r.attempt) {
      FillLevel(cfg, r.wrote.mem);
    }
  }

  lemma GoneAtEnd(cfg: Config, call: Call, s: State, rounds: seq<Round>, j: nat)
    requires Inv(cfg, s) && IsCall(cfg, call, s, rounds) && j < |rounds|
    requires !PeerAlive(rounds[j].tried, call.Peer()) && UnclaimedAfter(cfg, call, rounds[j])
    ensures !PeerAlive(rounds[j].end, call.Peer())
    ensures Checks(call.peerCheckSpins, j) ==> AnswerAt(call, rounds, j) != Again
  {
    StartOfRound(cfg, call, s, rounds, j);
    assert RoundAt(cfg, call, s, rounds, j);
    GoneEndsRound(cfg, call, Start(s, rounds, j), rounds[j]);
  }

  /** The peer stays gone into the next attempt. */
  lemma GoneIntoRound(cfg: Config, call: Call, s: State, rounds: seq<Round>, j: nat)
    requires Inv(cfg, s) && IsCall(cfg, call, s, rounds) && j < |rounds|
    requires !PeerAlive(Start(s, rounds, j), call.Peer()) && UnclaimedAt(cfg, call, s, rounds, j)
    ensures !PeerAlive(rounds[j].tried, call.Peer()) && UnclaimedAfter(cfg, call, rounds[j])
  {
    StartOfRound(cfg, call, s, rounds, j);
    assert RoundAt(cfg, call, s, rounds, j);
    GoneStaysGone(cfg, Start(s, rounds, j), rounds[j].attempt, call.Peer());
  }

  lemma {:induction false} GoneSince(cfg: Config, call: Call, s: State, rounds: seq<Round>, k: nat, j: nat)
    requires Inv(cfg, s) && IsCall(cfg, call, s, rounds) && k <= j < |rounds|
    requires !PeerAlive(rounds[k].tried, call.Peer()) && UnclaimedFrom(cfg, call, s, rounds, k)
    ensures !PeerAlive(rounds[j].tried, call.Peer()) && UnclaimedAfter(cfg, call, rounds[j])
    decreases j
  {
    if j > k {
      GoneSince(cfg, call, s, rounds, k, j - 1);
      GoneAtEnd(cfg, call, s, rounds, j - 1);
      assert UnclaimedAt(cfg, call, s, rounds, j);
      GoneIntoRound(cfg, call, s, rounds, j);
    }
  }

  /** A test is never more than peerCheckSpins failed attempts away. */
  lemma {:induction false} CheckComes(peerCheckSpins: nat, i: nat)
    ensures UntilCheck(peerCheckSpins, i) <= peerCheckSpins
    ensures Checks(peerCheckSpins, i + UntilCheck(peerCheckSpins, i))
    decreases UntilCheck(peerCheckSpins, i)
  {
    if !Checks(peerCheckSpins, i) {
      CheckComes(peerCheckSpins, i + 1);
    }
  }

  /**
    Once the peer is dead or detached and not replaced, a blocking call makes at most peerCheckSpins
    further attempts, whatever peerCheckSpins is: if the peer is gone as attempt k of the call
    returns, counting from 0, the call has no more than k + peerCheckSpins + 1 attempts.
  */
  lemma CallEnds(cfg: Config, call: Call, s: State, rounds: seq<Round>, k: nat)
    requires Inv(cfg, s) && IsCall(cfg, call, s, rounds) && k < |rounds|
    requires !PeerAlive(rounds[k].tried, call.Peer()) && UnclaimedFrom(cfg, call, s, rounds, k)
    ensures |rounds| <= k + call.peerCheckSpins + 1
  {
    var j := k + UntilCheck(call.peerCheckSpins, k);
    CheckComes(call.peerCheckSpins, k);
    if j < |rounds| {
      GoneSince(cfg, call, s, rounds, k, j);
      GoneAtEnd(cfg, call, s, rounds, j);
    }
  }

  // ---------------------------------------------------------------- a peer that never came

  lemma {:induction false} ZeroAtStart(cfg: Config, call: Call, s: State, rounds: seq<Round>, j: nat)
    requires Inv(cfg, s) && s.PidSlot(call.Peer()) == 0 && IsCall(cfg, call, s, rounds) && j < |rounds|
    requires forall i: nat {:trigger UnclaimedAt(cfg, call, s, rounds, i)} :: i < j ==> UnclaimedAt(cfg, call, s, rounds, i)
    ensures Inv(cfg, Start(s, rounds, j)) && Start(s, rounds, j).PidSlot(call.Peer()) == 0
    decreases j
  {
    if j > 0 {
      ZeroAtStart(cfg, call, s, rounds, j - 1);
      assert RoundAt(cfg, call, s, rounds, j - 1) && UnclaimedAt(cfg, call, s, rounds, j - 1);
      ZeroThroughRound(cfg, call, Start(s, rounds, j - 1), rounds[j - 1]);
    }
  }

  lemma {:induction false} ZeroThroughRound(cfg: Config, call: Call, s: State, r: Round)
    requires Inv(cfg, s) && s.PidSlot(call.Peer()) == 0 && IsRound(cfg, call, s, r)
    requires NoClaim(cfg, s, r.attempt, call.Peer()) && UnclaimedAfter(cfg, call, r)
    ensures Inv(cfg, r.end) && r.end.PidSlot(call.Peer()) == 0
  {
    ZeroWithoutClaim(cfg, s, r.attempt, call.Peer());
    ZeroWithoutClaim(cfg, r.tried, r.toLoad, call.Peer());
    ZeroWithoutClaim(cfg, r.loaded, r.toKill, call.Peer());
    ZeroWithoutClaim(cfg, r.killed, r.toWrite, call.Peer());
    ZeroWithoutClaim(cfg, r.wrote, r.toRead, call.Peer());
  }

  lemma {:induction false} ZeroAtLoad(cfg: Config, call: Call, s: State, r: Round)
    requires Inv(cfg, s) && s.PidSlot(call.Peer()) == 0 && IsRound(cfg, call, s, r)
    requires NoClaim(cfg, s, r.attempt, call.Peer()) && NoClaim(cfg, r.tried, r.toLoad, call.Peer())
    ensures r.loaded.PidSlot(call.Peer()) == 0
  {
    ZeroWithoutClaim(cfg, s, r.attempt, call.Peer());
    ZeroWithoutClaim(cfg, r.tried, r.toLoad, call.Peer());
  }

  /**
    Waiting for a peer that has not attached yet never gives up: from a fresh segment, a round of a
    push or pop comes to GaveUp only if a claim on the peer's role has won before its pid load.
  */
  lemma {:induction false} GaveUpAfterClaim(cfg: Config, init: State, acts: seq<Action>, call: Call, s: State,
                                            rounds: seq<Round>, j: nat)
    requires cfg.Valid() && Init(cfg, init) && Reaches(cfg, init, acts, s) && NoClaim(cfg, init, acts, call.Peer())
    requires IsCall(cfg, call, s, rounds) && j < |rounds|
    requires forall i: nat {:trigger UnclaimedAt(cfg, call, s, rounds, i)} :: i < j ==> UnclaimedAt(cfg, call, s, rounds, i)
    requires NoClaim(cfg, Start(s, rounds, j), rounds[j].attempt, call.Peer())
    requires NoClaim(cfg, rounds[j].tried, rounds[j].toLoad, call.Peer())
    ensures AnswerAt(call, rounds, j) != GaveUp
  {
    InitInv(cfg, init);
    ZeroWithoutClaim(cfg, init, acts, call.Peer());
    ZeroAtStart(cfg, call, s, rounds, j);
    assert RoundAt(cfg, call, s, rounds, j);
    ZeroAtLoad(cfg, call, Start(s, rounds, j), rounds[j]);
  }

  // ---------------------------------------------------------------- the rounds are the loop's

  /** The loop of push(), fed with what the rounds of a finished call saw, makes these rounds and no more. */
  method ReplayPush(ghost cfg: Config, call: Call, ghost s: State, rounds: seq<Round>) returns (ok: bool, attempts: nat)
    requires call.Push? && call.peerCheckSpins < U32 && IsCall(cfg, call, s, rounds) && rounds != []
    requires AnswerAt(call, rounds, |rounds| - 1) != Again
    ensures attempts == |rounds| && AnswerAt(call, rounds, |rounds| - 1) == if ok then Done else GaveUp
  {
    var tryPush := (i: nat) => i < |rounds| && Succeeds(rounds[i].attempt);
    var peerAlive := (i: nat) => i < |rounds| && !SeenGone(rounds[i].loaded, rounds[i].killed, call.Peer());
    assert forall i: nat :: i < |rounds| ==>
      PushAnswer(call.peerCheckSpins, tryPush, peerAlive, i) == AnswerAt(call, rounds, i);
    ok, attempts := BlockingPush(call.peerCheckSpins, tryPush, peerAlive, |rounds| - 1);
  }

  /** Likewise for pop(out). */
  method ReplayPop(ghost cfg: Config, call: Call, ghost s: State, rounds: seq<Round>) returns (ok: bool, attempts: nat)
    requires call.Pop? && call.peerCheckSpins < U32 && IsCall(cfg, call, s, rounds) && rounds != []
    requires AnswerAt(call, rounds, |rounds| - 1) != Again
    ensures attempts == |rounds| && AnswerAt(call, rounds, |rounds| - 1) == if ok then Done else GaveUp
  {
    var tryPop := (i: nat) => i < |rounds| && Succeeds(rounds[i].attempt);
    var peerAlive := (i: nat) => i < |rounds| && !SeenGone(rounds[i].loaded, rounds[i].killed, call.Peer());
    var empty := (i: nat) => i < |rounds| && rounds[i].wrote.mem.w == rounds[i].end.mem.r;
    assert forall i: nat :: i < |rounds| ==>
      PopAnswer(call.peerCheckSpins, tryPop, peerAlive, empty, i) == AnswerAt(call, rounds, i);
    ok, attempts := BlockingPop(call.peerCheckSpins, tryPop, peerAlive, empty, |rounds| - 1);
  }
}

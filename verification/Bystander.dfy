/**
  size() called by a process that is neither endpoint: both indices may move between its two loads.
*/
module Bystander {
  import opened Positions
  import opened System
  import opened Invariant
  import opened RingSteps
  import opened Safety
  import opened Takeover
  import opened Scenarios

  /** What size() computes from writeIdx as of m0 and readIdx as of m1. */
  function Answer(cfg: Config, m0: Mem, m1: Mem): nat
    requires m0.w < cfg.n && m1.r < cfg.n
  {
    Used(cfg.n, m0.w, m1.r)
  }

  /** The distance of the loaded positions, modulo the slot count. */
  lemma AnswerIsRemainder(cfg: Config, m0: Mem, m1: Mem)
    requires cfg.Valid() && MemInv(cfg, m0) && MemInv(cfg, m1)
    ensures Answer(cfg, m0, m1) == (m0.P() - m1.C()) % cfg.n
    ensures m1.C() <= m0.P() < m1.C() + cfg.n ==> Answer(cfg, m0, m1) == m0.P() - m1.C()
    ensures 0 < m1.C() - m0.P() < cfg.n ==> Answer(cfg, m0, m1) == cfg.n - (m1.C() - m0.P())
  {
    UsedIsRemainder(m0.P(), m1.C(), cfg.n);
    if m1.C() <= m0.P() < m1.C() + cfg.n {
      UsedIsDistance(m1.C(), m0.P(), cfg.n);
    } else if 0 < m1.C() - m0.P() < cfg.n {
      UsedIsDistance(m0.P(), m1.C(), cfg.n);
    }
  }

  /**
    writeIdx is loaded in s, readIdx in s'; t is any instant in between.  The answer is the size at t
    if and only if what was published since the first load and what is consumed before the second
    add up to whole laps.  As long as the consumer has not passed the loaded writeIdx, that means
    nothing at all was, and otherwise the answer is less than the size.
  */
  lemma SizeAtInstant(cfg: Config, s: State, xs: seq<Action>, t: State, ys: seq<Action>, s': State)
    requires Inv(cfg, s) && Reaches(cfg, s, xs, t) && Reaches(cfg, t, ys, s')
    ensures s.mem.w < cfg.n && s'.mem.r < cfg.n
    ensures TellsSizeAt(cfg, s.mem, t.mem, s'.mem)
  {
    ReachesKeepsInv(cfg, s, xs, t);
    ReachesKeepsInv(cfg, t, ys, s');
    HistoriesGrow(cfg, s, xs);
    HistoriesGrow(cfg, t, ys);
    InstantOfCall(cfg, s.mem, t.mem, s'.mem);
  }

  /** What was published since the first load and what is consumed before the second are whole laps. */
  predicate WholeLaps(cfg: Config, m0: Mem, t: Mem, m1: Mem) {
    cfg.n > 0 && ((t.P() - m0.P()) + (m1.C() - t.C())) % cfg.n == 0
  }

  ghost predicate TellsSizeAt(cfg: Config, m0: Mem, t: Mem, m1: Mem)
    requires m0.w < cfg.n && m1.r < cfg.n
  {
    var answer := Answer(cfg, m0, m1);
    && (answer == |Live(cfg, t)| <==> WholeLaps(cfg, m0, t, m1))
    && (m1.C() <= m0.P() ==>
          && answer == m0.P() - m1.C() <= |Live(cfg, t)|
          && (answer == |Live(cfg, t)| <==> t.P() == m0.P() && t.C() == m1.C()))
  }

  lemma InstantOfCall(cfg: Config, m0: Mem, t: Mem, m1: Mem)
    requires cfg.Valid() && MemInv(cfg, m0) && MemInv(cfg, t) && MemInv(cfg, m1)
    requires m0.P() <= t.P() <= m1.P() && m0.C() <= t.C() <= m1.C()
    ensures TellsSizeAt(cfg, m0, t, m1)
  {
    var answer, size, laps := Answer(cfg, m0, m1), t.P() - t.C(), m0.P() - m1.C();
    FillLevel(cfg, t);
    AnswerIsRemainder(cfg, m0, m1);
    SameRemainder(size, laps, cfg.n);
    assert (t.P() - m0.P()) + (m1.C() - t.C()) == size - laps;
  }

  // ---------------------------------------------------------------- over a whole call

  /** The state of a run after its first k steps. */
  function At(cfg: Config, s: State, acts: seq<Action>, k: nat): State
    requires Run(cfg, s, acts) && k <= |acts|
    decreases k
  {
    if k == 0 then s else At(cfg, Next(cfg, s, acts[0]), acts[1..], k - 1)
  }

  lemma {:induction false} SplitAt(cfg: Config, s: State, acts: seq<Action>, s': State, k: nat)
    requires Reaches(cfg, s, acts, s') && k <= |acts|
    ensures Reaches(cfg, s, acts[..k], At(cfg, s, acts, k)) && Reaches(cfg, At(cfg, s, acts, k), acts[k..], s')
    decreases k
  {
    if k == 0 {
      assert acts[..0] == [] && acts[0..] == acts;
    } else {
      SplitAt(cfg, Next(cfg, s, acts[0]), acts[1..], s', k - 1);
      assert acts[..k][0] == acts[0] && acts[..k][1..] == acts[1..][..k - 1] && acts[1..][k - 1..] == acts[k..];
    }
  }

  /** The answer is the true size at some instant of the call. */
  ghost predicate TrueAtSomeInstant(cfg: Config, s: State, acts: seq<Action>, answer: nat)
    requires Run(cfg, s, acts)
  {
    exists k: nat :: k <= |acts| && |Live(cfg, At(cfg, s, acts, k).mem)| == answer
  }

  /** All that is consumed during the call is consumed before anything is published in it. */
  ghost predicate ConsumedFirst(cfg: Config, s: State, acts: seq<Action>)
    requires Run(cfg, s, acts)
  {
    exists k: nat :: k <= |acts| && At(cfg, s, acts, k).mem.P() == s.mem.P()
                     && At(cfg, s, acts, k).mem.C() == Exec(cfg, s, acts).mem.C()
  }

  /** At some instant of the call, pushes before and pops after are whole laps. */
  ghost predicate WholeLapsAtSomeInstant(cfg: Config, s: State, acts: seq<Action>)
    requires Run(cfg, s, acts)
  {
    exists k: nat :: k <= |acts| && WholeLaps(cfg, s.mem, At(cfg, s, acts, k).mem, Exec(cfg, s, acts).mem)
  }

  /**
    size() is the size at an instant of the call if and only if pushes before and pops after some
    instant are whole laps; while the consumer does not pass the loaded writeIdx, if and only if the
    call's pops all come before its pushes.
  */
  lemma SizeTrueIff(cfg: Config, s: State, acts: seq<Action>)
    requires Inv(cfg, s) && CarefulRun(cfg, s, acts) && Run(cfg, s, acts)
    ensures s.mem.w < cfg.n && Exec(cfg, s, acts).mem.r < cfg.n
    ensures var told := TrueAtSomeInstant(cfg, s, acts, Answer(cfg, s.mem, Exec(cfg, s, acts).mem));
            && (told <==> WholeLapsAtSomeInstant(cfg, s, acts))
            && (Exec(cfg, s, acts).mem.C() <= s.mem.P() ==> (told <==> ConsumedFirst(cfg, s, acts)))
  {
    var s' := Exec(cfg, s, acts);
    RunKeepsInv(cfg, s, acts);
    forall k: nat | k <= |acts| ensures TellsSizeAt(cfg, s.mem, At(cfg, s, acts, k).mem, s'.mem) {
      SplitAt(cfg, s, acts, s', k);
      SizeAtInstant(cfg, s, acts[..k], At(cfg, s, acts, k), acts[k..], s');
    }
  }

  // ---------------------------------------------------------------- a run in which it is never true

  /**
    With one item waiting at the load of writeIdx, one more pushed and one popped before the load of
    readIdx, the queue is never empty and size() says that it is.
  */
  lemma NeverTheSize(cfg: Config, s: State) returns (acts: seq<Action>, before: State, between: seq<Action>, after: State)
    requires cfg.Valid() && cfg.n >= 3 && cfg.width == 1 && Init(cfg, s)
    ensures Reaches(cfg, s, acts, before) && Reaches(cfg, before, between, after) && after.mem.C() <= before.mem.P()
    ensures before.mem.w < cfg.n && after.mem.r < cfg.n && Answer(cfg, before.mem, after.mem) == 0
    ensures !TrueAtSomeInstant(cfg, before, between, 0)
  {
    acts, before := OneWaiting(cfg, s);
    var mid;
    between, mid, after := PushThenPop(cfg, before);
    ReachesKeepsInv(cfg, before, between, after);
    AnswerIsRemainder(cfg, before.mem, after.mem);
    StaysNonEmpty(cfg, before, between, after, mid);
  }

  lemma OneWaiting(cfg: Config, s: State) returns (acts: seq<Action>, s': State)
    requires cfg.Valid() && cfg.width == 1 && Init(cfg, s)
    ensures Reaches(cfg, s, acts, s') && Inv(cfg, s') && s'.mem.P() == 1 && s'.mem.C() == 0
    ensures 1 in s'.handles && s'.handles[1] == Handle(1, Producer, 0, 0, 0, 0, 0, Idle)
    ensures 2 in s'.handles && s'.handles[2] == Handle(2, Consumer, 0, 0, 0, 0, 0, Idle)
  {
    var xs, s1 := PairRun(cfg, s);
    var push := [BeginPush(1, [[0]]), GrantPush(1), WriteWord(1, 0, 0)] + [Publish(1)];
    PushRun(cfg, s1, 1, [0]);
    s' := Exec(cfg, s1, push);
    ReachesKeepsInv(cfg, s1, push, s');
    Then(cfg, s, xs, s1, push, s');
    acts := xs + push;
  }

  lemma PushThenPop(cfg: Config, s: State) returns (acts: seq<Action>, mid: State, s': State)
    requires cfg.Valid() && cfg.n >= 3 && cfg.width == 1 && Inv(cfg, s) && s.mem.P() == 1 && s.mem.C() == 0
    requires 1 in s.handles && s.handles[1] == Handle(1, Producer, 0, 0, 0, 0, 0, Idle)
    requires 2 in s.handles && s.handles[2] == Handle(2, Consumer, 0, 0, 0, 0, 0, Idle)
    ensures Reaches(cfg, s, acts, s') && |acts| == 8 && s'.mem.P() == 2 && s'.mem.C() == 1
    ensures mid == At(cfg, s, acts, 4) && mid.mem.P() == 2 && mid.mem.C() == 0
  {
    var push := [BeginPush(1, [[0]]), GrantPush(1), WriteWord(1, 0, 0)] + [Publish(1)];
    PushRun(cfg, s, 1, [0]);
    var s1 := Exec(cfg, s, push);
    ReachesKeepsInv(cfg, s, push, s1);
    var pop := [BeginPop(2, 1, false), ReloadPop(2), ReadWord(2, 0, 0)] + [Consume(2)];
    PopRun(cfg, s1, 2);
    s' := Exec(cfg, s1, pop);
    Then(cfg, s, push, s1, pop, s');
    acts := push + pop;
    SplitAt(cfg, s, acts, s', 4);
    assert acts[..4] == push;
    mid := s1;
  }

  lemma StaysNonEmpty(cfg: Config, s: State, acts: seq<Action>, s': State, mid: State)
    requires Inv(cfg, s) && Reaches(cfg, s, acts, s') && |acts| == 8 && mid == At(cfg, s, acts, 4)
    requires s.mem.P() == 1 && mid.mem.P() == 2 && mid.mem.C() == 0 && s'.mem.C() == 1
    ensures !TrueAtSomeInstant(cfg, s, acts, 0)
  {
    forall k: nat | k <= |acts| ensures |Live(cfg, At(cfg, s, acts, k).mem)| != 0 {
      NonEmptyAt(cfg, s, acts, s', mid, k);
    }
  }

  lemma NonEmptyAt(cfg: Config, s: State, acts: seq<Action>, s': State, mid: State, k: nat)
    requires Inv(cfg, s) && Reaches(cfg, s, acts, s') && |acts| == 8 && mid == At(cfg, s, acts, 4) && k <= 8
    requires s.mem.P() == 1 && mid.mem.P() == 2 && mid.mem.C() == 0 && s'.mem.C() == 1
    ensures |Live(cfg, At(cfg, s, acts, k).mem)| != 0
  {
    var t := At(cfg, s, acts, k);
    SplitAt(cfg, s, acts, s', k);
    ReachesKeepsInv(cfg, s, acts[..k], t);
    HistoriesGrow(cfg, s, acts[..k]);
    HistoriesGrow(cfg, t, acts[k..]);
    AtGrows(cfg, s, acts, s', if k <= 4 then k else 4, if k <= 4 then 4 else k);
    FillLevel(cfg, t.mem);
  }

  lemma AtGrows(cfg: Config, s: State, acts: seq<Action>, s': State, j: nat, k: nat)
    requires Reaches(cfg, s, acts, s') && j <= k <= |acts|
    ensures At(cfg, s, acts, j).mem.P() <= At(cfg, s, acts, k).mem.P()
    ensures At(cfg, s, acts, j).mem.C() <= At(cfg, s, acts, k).mem.C()
    decreases k
  {
    if j == 0 {
      SplitAt(cfg, s, acts, s', k);
      HistoriesGrow(cfg, s, acts[..k]);
    } else {
      AtGrows(cfg, Next(cfg, s, acts[0]), acts[1..], s', j - 1, k - 1);
    }
  }
}

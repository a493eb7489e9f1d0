/**
  The shared-memory queue as a step machine.  Any number of processes open handles on one
  segment; the steps of their bind(), push and pop operations, detach() and crashes
  interleave freely.  A step is at most one access to shared memory: one index load, one
  word copied, one index store, one compare-and-swap.

  Loads and stores are interleaved as they are issued; module WeakMemory treats
  acquire/release visibility.
*/
module System {
  import opened Positions

  /** An item is copied word by word, in any order; what a word holds does not matter here. */
  type Word = nat
  type Item = seq<Word>

  datatype Role = Producer | Consumer

  /** Slot count (capacity plus the slack slot) and words per item. */
  datatype Config = Config(n: nat, width: nat) {
    predicate Valid() { n >= 2 && width >= 1 }
  }

  /** Where a handle is in its current call. */
  datatype Phase =
      // bind(): before the snapshots, after the first, after both
    | Opened
    | HalfSnapped
    | Snapped
      // the claim loop: holding a pid loaded from the slot; judged claimable
    | Testing(expected: int)
    | Claiming(expected: int)
      // bound, between operations
    | Idle
      // push: own index loaded; copying into granted slots
    | PushLoaded(src: seq<Item>, own: nat)
    | Writing(src: seq<Item>, own: nat, count: nat, done: set<(nat, nat)>)
      // pop: own index loaded; reading granted slots (zeroCopy: front() ... pop())
    | PopLoaded(want: nat, own: nat, zeroCopy: bool)
    | Reading(own: nat, count: nat, zeroCopy: bool, buf: map<(nat, nat), Word>)
  {
    predicate Bound() {
      Idle? || PushLoaded? || Writing? || PopLoaded? || Reading?
    }
  }

  /**
    rc and wc are the index caches.  The rest are history variables no step reads: rcAt and wcAt
    are the positions those indices stood for when they were loaded, `mark` is how far the
    handle's own role had advanced when bind() took the snapshot that role relies on.
  */
  datatype Handle = Handle(pid: int, role: Role, rc: nat, wc: nat, rcAt: nat, wcAt: nat, mark: nat, phase: Phase)

  /** The ring in shared memory, with the histories of all published and all consumed items. */
  datatype Mem = Mem(slots: seq<Item>, w: nat, r: nat, published: seq<Item>, delivered: seq<Item>) {
    function P(): nat { |published| }
    function C(): nat { |delivered| }
  }

  /** Pids are never reused: a dead pid stays in `dead`. */
  datatype State = State(mem: Mem, producerPid: int, consumerPid: int,
                         alive: set<int>, dead: set<int>, handles: map<nat, Handle>)
  {
    function PidSlot(role: Role): int {
      if role == Producer then producerPid else consumerPid
    }
    function SetPid(role: Role, pid: int): State {
      if role == Producer then this.(producerPid := pid) else this.(consumerPid := pid)
    }
    function Set(h: nat, hd: Handle): State { this.(handles := handles[h := hd]) }
    function Drop(h: nat): State { this.(handles := handles - {h}) }
  }

  datatype Action =
    | Spawn(p: int)
    | Die(p: int)
    | Open(h: nat, p: int, role: Role)
    | SnapRead(h: nat)
    | SnapWrite(h: nat)
    | LoadPid(h: nat)
    | Test(h: nat)
    | Cas(h: nat, spurious: bool)
    | Detach(h: nat)
    | BeginPush(h: nat, src: seq<Item>)
    | GrantPush(h: nat)
    | ReloadPush(h: nat)
    | WriteWord(h: nat, i: nat, k: nat)
    | Publish(h: nat)
    | BeginPop(h: nat, want: nat, zeroCopy: bool)
    | GrantPop(h: nat)
    | ReloadPop(h: nat)
    | ReadWord(h: nat, i: nat, k: nat)
    | Consume(h: nat)
    | Abandon(h: nat)

  /** The steps of a push operation. */
  predicate PushStep(a: Action) {
    a.BeginPush? || a.GrantPush? || a.ReloadPush? || a.WriteWord? || a.Publish?
  }

  /** The steps of a pop operation. */
  predicate PopStep(a: Action) {
    a.BeginPop? || a.GrantPop? || a.ReloadPop? || a.ReadWord? || a.Consume? || a.Abandon?
  }

  /** The steps of processes, bind() and detach(). */
  predicate ProcessStep(a: Action) { !PushStep(a) && !PopStep(a) }

  predicate IsItem(cfg: Config, x: Item) { |x| == cfg.width }

  predicate AreItems(cfg: Config, xs: seq<Item>) {
    forall i :: 0 <= i < |xs| ==> IsItem(cfg, xs[i])
  }

  /** Every word of a run of `count` items. */
  function Words(cfg: Config, count: nat): set<(nat, nat)> {
    set i: nat, k: nat | i < count && k < cfg.width :: (i, k)
  }

  /** The items in a buffer that holds all its words. */
  function Assemble(cfg: Config, count: nat, buf: map<(nat, nat), Word>): (items: seq<Item>)
    requires Words(cfg, count) <= buf.Keys
    ensures |items| == count
  {
    seq(count, i requires 0 <= i < count =>
      seq(cfg.width, k requires 0 <= k < cfg.width =>
        assert (i, k) in Words(cfg, count); buf[(i, k)]))
  }

  /** Every word read so far is a word of the item due: the run starts at position c. */
  ghost predicate BufferOk(cfg: Config, published: seq<Item>, c: nat, count: nat, buf: map<(nat, nat), Word>) {
    && AreItems(cfg, published) && c + count <= |published|
    && forall d :: d in buf ==> d.0 < count && d.1 < cfg.width && buf[d] == published[c + d.0][d.1]
  }

  /** A complete buffer is the run of items itself. */
  lemma AssembleDue(cfg: Config, published: seq<Item>, c: nat, count: nat, buf: map<(nat, nat), Word>)
    requires BufferOk(cfg, published, c, count, buf) && Words(cfg, count) <= buf.Keys
    ensures Assemble(cfg, count, buf) == published[c..c + count]
  {
    var items := Assemble(cfg, count, buf);
    forall i: nat | i < count ensures items[i] == published[c + i] {
      assert IsItem(cfg, published[c + i]);
      forall k: nat | k < cfg.width ensures items[i][k] == published[c + i][k] {
        assert (i, k) in Words(cfg, count);
      }
    }
  }

  function Min(a: nat, b: nat): nat { if a <= b then a else b }

  // ---------------------------------------------------------------- enabledness

  predicate Enabled(cfg: Config, s: State, a: Action) {
    match a
    case Spawn(p) => p > 0 && p !in s.alive && p !in s.dead
    case Die(p) => p in s.alive
    case Open(h, p, role) => p in s.alive && h !in s.handles
    case SnapRead(h) => h in s.handles && s.handles[h].phase.Opened?
    case SnapWrite(h) => h in s.handles && s.handles[h].phase.HalfSnapped?
    case LoadPid(h) => h in s.handles && s.handles[h].phase.Snapped?
    case Test(h) => h in s.handles && s.handles[h].phase.Testing?
    case Cas(h, _) => h in s.handles && s.handles[h].phase.Claiming?
    case Detach(h) => h in s.handles && s.handles[h].phase.Idle?
    case BeginPush(h, src) =>
      h in s.handles && s.handles[h].phase.Idle? && s.handles[h].role == Producer &&
      src != [] && AreItems(cfg, src)
    case GrantPush(h) =>
      h in s.handles && s.handles[h].phase.PushLoaded? && Room(cfg, s.handles[h]) >= |s.handles[h].phase.src|
    case ReloadPush(h) =>
      h in s.handles && s.handles[h].phase.PushLoaded? && Room(cfg, s.handles[h]) < |s.handles[h].phase.src|
    case WriteWord(h, i, k) =>
      h in s.handles && s.handles[h].phase.Writing? && CanWrite(cfg, s.mem, s.handles[h].phase, i, k)
    case Publish(h) =>
      h in s.handles && s.handles[h].phase.Writing? && CanPublish(cfg, s.handles[h].phase)
    case BeginPop(h, want, zeroCopy) =>
      h in s.handles && s.handles[h].phase.Idle? && s.handles[h].role == Consumer &&
      want >= 1 && (zeroCopy ==> want == 1)
    case GrantPop(h) =>
      h in s.handles && s.handles[h].phase.PopLoaded? && Avail(cfg, s.handles[h]) >= s.handles[h].phase.want
    case ReloadPop(h) =>
      h in s.handles && s.handles[h].phase.PopLoaded? && Avail(cfg, s.handles[h]) < s.handles[h].phase.want
    case ReadWord(h, i, k) =>
      h in s.handles && s.handles[h].phase.Reading? && CanRead(cfg, s.mem, s.handles[h].phase, i, k)
    case Consume(h) =>
      h in s.handles && s.handles[h].phase.Reading? && CanConsume(cfg, s.mem, s.handles[h].phase)
    case Abandon(h) =>
      h in s.handles && s.handles[h].phase.Reading? && s.handles[h].phase.zeroCopy
  }

  /** freeSlots() on the cache; total so that Enabled is defined in every state. */
  function Room(cfg: Config, hd: Handle): nat
    requires hd.phase.PushLoaded?
  {
    if hd.phase.own < cfg.n && hd.rc < cfg.n then Free(cfg.n, hd.phase.own, hd.rc) else 0
  }

  /** usedSlots() on the cache. */
  function Avail(cfg: Config, hd: Handle): nat
    requires hd.phase.PopLoaded?
  {
    if hd.phase.own < cfg.n && hd.wc < cfg.n then Used(cfg.n, hd.wc, hd.phase.own) else 0
  }

  predicate CanWrite(cfg: Config, m: Mem, ph: Phase, i: nat, k: nat)
    requires ph.Writing?
  {
    && i < ph.count <= cfg.n && ph.own < cfg.n && k < cfg.width
    && i < |ph.src| && k < |ph.src[i]|
    && RunSlot(cfg.n, ph.own, ph.count, i) < |m.slots|
    && k < |m.slots[RunSlot(cfg.n, ph.own, ph.count, i)]|
  }

  predicate CanRead(cfg: Config, m: Mem, ph: Phase, i: nat, k: nat)
    requires ph.Reading?
  {
    && i < ph.count <= cfg.n && ph.own < cfg.n && k < cfg.width
    && RunSlot(cfg.n, ph.own, ph.count, i) < |m.slots|
    && k < |m.slots[RunSlot(cfg.n, ph.own, ph.count, i)]|
  }

  /** The index store comes after the whole copy. */
  predicate CanPublish(cfg: Config, ph: Phase)
    requires ph.Writing?
  {
    Words(cfg, ph.count) <= ph.done && ph.own + ph.count < 2 * cfg.n && ph.count <= |ph.src|
  }

  predicate CanConsume(cfg: Config, m: Mem, ph: Phase)
    requires ph.Reading?
  {
    && ph.own + ph.count < 2 * cfg.n && ph.own < |m.slots|
    && (!ph.zeroCopy ==> Words(cfg, ph.count) <= ph.buf.Keys)
  }

  // ---------------------------------------------------------------- steps

  function Next(cfg: Config, s: State, a: Action): State
    requires Enabled(cfg, s, a)
  {
    match a
    case Spawn(p) => s.(alive := s.alive + {p})
    case Die(p) =>
      s.(alive := s.alive - {p}, dead := s.dead + {p},
         handles := map h | h in s.handles && s.handles[h].pid != p :: s.handles[h])
    case Open(h, p, role) => s.Set(h, Handle(p, role, 0, 0, 0, 0, 0, Opened))
    case SnapRead(h) => s.Set(h, AfterSnapRead(s.mem, s.handles[h]))
    case SnapWrite(h) => s.Set(h, AfterSnapWrite(s.mem, s.handles[h]))
    case LoadPid(h) => s.Set(h, s.handles[h].(phase := Testing(s.PidSlot(s.handles[h].role))))
    case Test(h) => AfterTest(s, h)
    case Cas(h, spurious) => AfterCas(s, h, spurious)
    case Detach(h) => AfterDetach(s, h)
    case BeginPush(h, src) => s.Set(h, s.handles[h].(phase := PushLoaded(src, s.mem.w)))
    case GrantPush(h) =>
      var hd := s.handles[h];
      s.Set(h, hd.(phase := Writing(hd.phase.src, hd.phase.own, |hd.phase.src|, {})))
    case ReloadPush(h) => s.Set(h, AfterReloadPush(cfg, s.mem, s.handles[h]))
    case WriteWord(h, i, k) =>
      var hd := s.handles[h];
      s.(mem := WriteMem(cfg, s.mem, hd.phase, i, k))
       .Set(h, hd.(phase := hd.phase.(done := hd.phase.done + {(i, k)})))
    case Publish(h) =>
      s.(mem := PublishMem(cfg, s.mem, s.handles[h].phase)).Set(h, s.handles[h].(phase := Idle))
    case BeginPop(h, want, zeroCopy) =>
      s.Set(h, s.handles[h].(phase := PopLoaded(want, s.mem.r, zeroCopy)))
    case GrantPop(h) =>
      var hd := s.handles[h];
      s.Set(h, hd.(phase := Reading(hd.phase.own, hd.phase.want, hd.phase.zeroCopy, map[])))
    case ReloadPop(h) => s.Set(h, AfterReloadPop(cfg, s.mem, s.handles[h]))
    case ReadWord(h, i, k) =>
      var hd := s.handles[h];
      var word := s.mem.slots[RunSlot(cfg.n, hd.phase.own, hd.phase.count, i)][k];
      s.Set(h, hd.(phase := hd.phase.(buf := hd.phase.buf[(i, k) := word])))
    case Consume(h) =>
      s.(mem := ConsumeMem(cfg, s.mem, s.handles[h].phase)).Set(h, s.handles[h].(phase := Idle))
    case Abandon(h) => s.Set(h, s.handles[h].(phase := Idle))
  }

  function AfterSnapRead(m: Mem, hd: Handle): Handle {
    hd.(rc := m.r, rcAt := m.C(), mark := if hd.role == Producer then m.P() else hd.mark, phase := HalfSnapped)
  }

  function AfterSnapWrite(m: Mem, hd: Handle): Handle {
    hd.(wc := m.w, wcAt := m.P(), mark := if hd.role == Consumer then m.C() else hd.mark, phase := Snapped)
  }

  /** One turn of the claim loop up to the compare-and-swap; a live holder makes bind() throw. */
  function AfterTest(s: State, h: nat): State
    requires h in s.handles && s.handles[h].phase.Testing?
  {
    var hd := s.handles[h];
    var expected := hd.phase.expected;
    if expected == hd.pid then s.Set(h, hd.(phase := Idle))
    else if expected > 0 && expected in s.alive then s.Drop(h)
    else s.Set(h, hd.(phase := Claiming(expected)))
  }

  /** compare_exchange_weak: it may fail for no reason, and then reloads the slot. */
  function AfterCas(s: State, h: nat, spurious: bool): State
    requires h in s.handles && s.handles[h].phase.Claiming?
  {
    var hd := s.handles[h];
    if s.PidSlot(hd.role) == hd.phase.expected && !spurious
    then s.SetPid(hd.role, hd.pid).Set(h, hd.(phase := Idle))
    else s.Set(h, hd.(phase := Testing(s.PidSlot(hd.role))))
  }

  function AfterDetach(s: State, h: nat): State
    requires h in s.handles
  {
    var hd := s.handles[h];
    (if s.PidSlot(hd.role) == hd.pid then s.SetPid(hd.role, -1) else s).Drop(h)
  }

  function AfterReloadPush(cfg: Config, m: Mem, hd: Handle): Handle
    requires hd.phase.PushLoaded?
  {
    var hd' := hd.(rc := m.r, rcAt := m.C());
    var room := Room(cfg, hd');
    if room == 0 then hd'.(phase := Idle)
    else hd'.(phase := Writing(hd.phase.src, hd.phase.own, Min(|hd.phase.src|, room), {}))
  }

  function AfterReloadPop(cfg: Config, m: Mem, hd: Handle): Handle
    requires hd.phase.PopLoaded?
  {
    var hd' := hd.(wc := m.w, wcAt := m.P());
    var avail := Avail(cfg, hd');
    if avail == 0 then hd'.(phase := Idle)
    else hd'.(phase := Reading(hd.phase.own, Min(hd.phase.want, avail), hd.phase.zeroCopy, map[]))
  }

  function WriteMem(cfg: Config, m: Mem, ph: Phase, i: nat, k: nat): Mem
    requires ph.Writing? && CanWrite(cfg, m, ph, i, k)
  {
    var at := RunSlot(cfg.n, ph.own, ph.count, i);
    m.(slots := m.slots[at := m.slots[at][k := ph.src[i][k]]])
  }

  function PublishMem(cfg: Config, m: Mem, ph: Phase): Mem
    requires ph.Writing? && CanPublish(cfg, ph)
  {
    m.(w := Wrap(ph.own + ph.count, cfg.n), published := m.published + ph.src[..ph.count])
  }

  /** A copying pop hands over what it copied; a zero-copy pop, what its slot holds at that moment. */
  function ConsumeMem(cfg: Config, m: Mem, ph: Phase): Mem
    requires ph.Reading? && CanConsume(cfg, m, ph)
  {
    m.(r := Wrap(ph.own + ph.count, cfg.n),
       delivered := m.delivered + if ph.zeroCopy then [m.slots[ph.own]] else Assemble(cfg, ph.count, ph.buf))
  }

  // ---------------------------------------------------------------- runs

  /** The segment as create() leaves it, slots holding anything. */
  predicate Init(cfg: Config, s: State) {
    && s.mem.w == 0 && s.mem.r == 0 && s.mem.published == [] && s.mem.delivered == []
    && |s.mem.slots| == cfg.n && AreItems(cfg, s.mem.slots)
    && s.producerPid == 0 && s.consumerPid == 0
    && s.alive == {} && s.dead == {} && s.handles == map[]
  }

  /** The step that makes a handle bound. */
  predicate Wins(s: State, a: Action) {
    match a
    case Test(h) => h in s.handles && s.handles[h].phase.Testing? && s.handles[h].phase.expected == s.handles[h].pid
    case Cas(h, spurious) =>
      h in s.handles && s.handles[h].phase.Claiming? && !spurious &&
      s.PidSlot(s.handles[h].role) == s.handles[h].phase.expected
    case _ => false
  }

  /**
    The window a winning claim must fall in: measured from the handle's own index, its
    snapshot of the peer's index still errs on the safe side.
  */
  predicate Window(cfg: Config, m: Mem, hd: Handle) {
    && m.w < cfg.n && m.r < cfg.n && hd.rc < cfg.n && hd.wc < cfg.n
    && (hd.role == Producer ==> Used(cfg.n, m.w, hd.rc) >= Used(cfg.n, m.w, m.r))
    && (hd.role == Consumer ==> Used(cfg.n, hd.wc, m.r) <= Used(cfg.n, m.w, m.r))
  }

  predicate SoleHandle(s: State, p: int, role: Role) {
    forall h :: h in s.handles ==> !(s.handles[h].pid == p && s.handles[h].role == role)
  }

  /** At most one handle per role and process, and every claim inside its window. */
  predicate Careful(cfg: Config, s: State, a: Action) {
    && (a.Open? ==> SoleHandle(s, a.p, a.role))
    && (Wins(s, a) ==> Window(cfg, s.mem, s.handles[a.h]))
  }

  /** A finite run from s. */
  predicate Run(cfg: Config, s: State, acts: seq<Action>)
    decreases |acts|
  {
    acts == [] || (Enabled(cfg, s, acts[0]) && Run(cfg, Next(cfg, s, acts[0]), acts[1..]))
  }

  predicate CarefulRun(cfg: Config, s: State, acts: seq<Action>)
    decreases |acts|
  {
    acts == [] ||
    (Enabled(cfg, s, acts[0]) && Careful(cfg, s, acts[0]) && CarefulRun(cfg, Next(cfg, s, acts[0]), acts[1..]))
  }

  function Exec(cfg: Config, s: State, acts: seq<Action>): State
    requires Run(cfg, s, acts)
    decreases |acts|
  {
    if acts == [] then s else Exec(cfg, Next(cfg, s, acts[0]), acts[1..])
  }

  lemma {:induction false} CarefulRunIsRun(cfg: Config, s: State, acts: seq<Action>)
    requires CarefulRun(cfg, s, acts)
    ensures Run(cfg, s, acts)
    decreases |acts|
  {
    if acts != [] { CarefulRunIsRun(cfg, Next(cfg, s, acts[0]), acts[1..]); }
  }
}

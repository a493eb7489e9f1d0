/**
  Bringing up a segment: create() fills in the control block one plain store at a time, binds its
  role and only then stores `ready`; any number of attachers poll `ready` with acquire loads.

  The creator is the only one to write these fields, so visibility is a matter of how much of its
  store sequence a reader has to see: a plain or acquire load may return what the field held after
  any prefix of the stores that is not older than the reader's view, and reading ready == 1 raises
  the view to that store.
*/
module Bringup {
  import opened Machine
  import opened Geometry
  import opened System

  datatype Field = Magic | Version | CacheLineSize | ElemSize | ElemAlign | Capacity | SlotsOffset | TotalBytes | Ready

  /** The order in which create() fills them in. */
  const FIELDS: seq<Field> :=
    [Magic, Version, CacheLineSize, ElemSize, ElemAlign, Capacity, SlotsOffset, TotalBytes, Ready]

  const READY: nat := 17 // stores before the one of `ready`
  const END: nat := 18

  datatype Store = Store(field: Field, value: nat)

  function Final(b: Block, f: Field): nat {
    match f
    case Magic => b.magic
    case Version => b.version
    case CacheLineSize => b.cacheLineSize
    case ElemSize => b.elemSize
    case ElemAlign => b.elemAlign
    case Capacity => b.capacity
    case SlotsOffset => b.slotsOffset
    case TotalBytes => b.totalBytes
    case Ready => 1
  }

  /** memset, then the fields, then `ready`. */
  function Stores(b: Block): (ws: seq<Store>)
    ensures |ws| == END
  {
    seq(9, i requires 0 <= i < 9 => Store(FIELDS[i], 0)) +
    seq(9, i requires 0 <= i < 9 => Store(FIELDS[i], Final(b, FIELDS[i])))
  }

  /** What a field holds after the first j stores; a fresh segment is zero. */
  function ValueAt(ws: seq<Store>, f: Field, j: nat): nat
    requires j <= |ws|
  {
    if j == 0 then 0
    else if ws[j - 1].field == f then ws[j - 1].value
    else ValueAt(ws, f, j - 1)
  }

  // ---------------------------------------------------------------- the machine

  /** The claim loop of bind(): see System for its steps. */
  datatype Claim = Unclaimed | Tests(expected: int) | Claims(expected: int) | Won | Refused

  function Tested(c: Claim, pid: int, alive: set<int>): Claim
    requires c.Tests?
  {
    if c.expected == pid then Won
    else if c.expected > 0 && c.expected in alive then Refused
    else Claims(c.expected)
  }

  datatype Attacher = Attacher(pid: int, role: Role, view: nat, ready: bool,
                               got: map<Field, nat>, accepted: bool, claim: Claim)

  /** The block being written, and by whom. */
  datatype Creation = Creation(block: Block, pid: int, role: Role)

  datatype Boot = Boot(pc: nat, creator: Claim, producerPid: int, consumerPid: int,
                       alive: set<int>, attachers: map<nat, Attacher>)
  {
    function PidSlot(role: Role): int { if role == Producer then producerPid else consumerPid }
    function SetPid(role: Role, pid: int): Boot {
      if role == Producer then this.(producerPid := pid) else this.(consumerPid := pid)
    }
    function Set(h: nat, at: Attacher): Boot { this.(attachers := attachers[h := at]) }
    function Drop(h: nat): Boot { this.(attachers := attachers - {h}) }
  }

  datatype Event =
    | StoreNext
    | CreatorLoad
    | CreatorTest
    | CreatorCas(spurious: bool)
    | Arrive(h: nat, pid: int, role: Role)
    | LoadReady(h: nat, j: nat)
    | ReadField(h: nat, f: Field, j: nat)
    | Check(h: nat, layout: Layout, mapped: nat)
    | Load(h: nat)
    | TestSlot(h: nat)
    | CasSlot(h: nat, spurious: bool)
    | Leave(h: nat)
    | Exit(pid: int)

  predicate CreatorStep(e: Event) { e.StoreNext? || e.CreatorLoad? || e.CreatorTest? || e.CreatorCas? }

  predicate Can(c: Creation, s: Boot, e: Event) {
    match e
    case StoreNext => c.pid in s.alive && (s.pc < READY || (s.pc == READY && s.creator.Won?))
    case CreatorLoad => c.pid in s.alive && s.pc == READY && s.creator.Unclaimed?
    case CreatorTest => c.pid in s.alive && s.creator.Tests?
    case CreatorCas(_) => c.pid in s.alive && s.creator.Claims?
    case Arrive(h, pid, _) => h !in s.attachers && pid in s.alive
    case LoadReady(h, j) =>
      h in s.attachers && !s.attachers[h].ready && s.attachers[h].view <= j <= s.pc <= END
    case ReadField(h, f, j) =>
      h in s.attachers && s.attachers[h].ready && s.attachers[h].view <= j <= s.pc <= END
    case Check(h, _, _) =>
      h in s.attachers && s.attachers[h].ready && forall f: Field :: f != Ready ==> f in s.attachers[h].got
    case Load(h) => h in s.attachers && s.attachers[h].accepted && s.attachers[h].claim.Unclaimed?
    case TestSlot(h) => h in s.attachers && s.attachers[h].claim.Tests?
    case CasSlot(h, _) => h in s.attachers && s.attachers[h].claim.Claims?
    case Leave(h) => h in s.attachers
    case Exit(pid) => pid in s.alive
  }

  /** The block an attacher has put together. */
  function Seen(got: map<Field, nat>): Block
    requires forall f: Field :: f != Ready ==> f in got
  {
    Block(got[Magic], got[Version], got[CacheLineSize], got[ElemSize], got[ElemAlign],
          got[Capacity], got[SlotsOffset], got[TotalBytes])
  }

  function After(c: Creation, s: Boot, e: Event): Boot
    requires Can(c, s, e)
  {
    match e
    case StoreNext => s.(pc := s.pc + 1)
    case CreatorLoad => s.(creator := Tests(s.PidSlot(c.role)))
    case CreatorTest => s.(creator := Tested(s.creator, c.pid, s.alive))
    case CreatorCas(spurious) =>
      if s.PidSlot(c.role) == s.creator.expected && !spurious then s.SetPid(c.role, c.pid).(creator := Won)
      else s.(creator := Tests(s.PidSlot(c.role)))
    case Arrive(h, pid, role) => s.Set(h, Attacher(pid, role, 0, false, map[], false, Unclaimed))
    case LoadReady(h, j) =>
      if ValueAt(Stores(c.block), Ready, j) == 1 then s.Set(h, s.attachers[h].(ready := true, view := j)) else s
    case ReadField(h, f, j) =>
      s.Set(h, s.attachers[h].(got := s.attachers[h].got[f := ValueAt(Stores(c.block), f, j)]))
    case Check(h, layout, mapped) =>
      if Validate(layout, Seen(s.attachers[h].got), mapped) then s.Set(h, s.attachers[h].(accepted := true))
      else s.Drop(h)
    case Load(h) => s.Set(h, s.attachers[h].(claim := Tests(s.PidSlot(s.attachers[h].role))))
    case TestSlot(h) =>
      s.Set(h, s.attachers[h].(claim := Tested(s.attachers[h].claim, s.attachers[h].pid, s.alive)))
    case CasSlot(h, spurious) => AfterCasSlot(s, h, spurious)
    case Leave(h) =>
      var at := s.attachers[h];
      (if at.claim.Won? && s.PidSlot(at.role) == at.pid then s.SetPid(at.role, -1) else s).Drop(h)
    case Exit(pid) =>
      s.(alive := s.alive - {pid},
         attachers := map h | h in s.attachers && s.attachers[h].pid != pid :: s.attachers[h])
  }

  function AfterCasSlot(s: Boot, h: nat, spurious: bool): Boot
    requires h in s.attachers && s.attachers[h].claim.Claims?
  {
    var at := s.attachers[h];
    if s.PidSlot(at.role) == at.claim.expected && !spurious
    then s.SetPid(at.role, at.pid).Set(h, at.(claim := Won))
    else s.Set(h, at.(claim := Tests(s.PidSlot(at.role))))
  }

  /** A freshly created object, mapped and about to be filled in. */
  predicate Fresh(c: Creation, s: Boot) {
    && s.pc == 0 && s.creator == Unclaimed && s.producerPid == 0 && s.consumerPid == 0
    && s.attachers == map[] && c.pid > 0 && forall p :: p in s.alive ==> p > 0
  }

  predicate Happens(c: Creation, s: Boot, es: seq<Event>)
    decreases |es|
  {
    es == [] || (Can(c, s, es[0]) && Happens(c, After(c, s, es[0]), es[1..]))
  }

  function Outcome(c: Creation, s: Boot, es: seq<Event>): Boot
    requires Happens(c, s, es)
    decreases |es|
  {
    if es == [] then s else Outcome(c, After(c, s, es[0]), es[1..])
  }

  // ---------------------------------------------------------------- what a load can return

  /** The last store to a field decides. */
  lemma {:induction false} LastStore(ws: seq<Store>, f: Field, k: nat, j: nat)
    requires k < j <= |ws| && ws[k].field == f
    requires forall i :: k < i < j ==> ws[i].field != f
    ensures ValueAt(ws, f, j) == ws[k].value
    decreases j
  {
    if j > k + 1 {
      assert ws[j - 1].field != f;
      LastStore(ws, f, k, j - 1);
    }
  }

  function Index(f: Field): (i: nat)
    ensures i < 9 && FIELDS[i] == f && forall k :: 0 <= k < 9 && FIELDS[k] == f ==> k == i
  {
    match f
    case Magic => 0
    case Version => 1
    case CacheLineSize => 2
    case ElemSize => 3
    case ElemAlign => 4
    case Capacity => 5
    case SlotsOffset => 6
    case TotalBytes => 7
    case Ready => 8
  }

  /** `ready` reads 1 only from the very last store. */
  lemma {:induction false} ReadyComesLast(b: Block, j: nat)
    requires j <= END
    ensures ValueAt(Stores(b), Ready, j) == 1 <==> j == END
  {
    var ws := Stores(b);
    assert Index(Ready) == 8;
    if j == END {
      LastStore(ws, Ready, 17, j);
    } else if j > 8 {
      LastStore(ws, Ready, 8, j);
    } else {
      NoStore(ws, Ready, j);
    }
  }

  lemma {:induction false} NoStore(ws: seq<Store>, f: Field, j: nat)
    requires j <= |ws| && forall i :: 0 <= i < j ==> ws[i].field != f
    ensures ValueAt(ws, f, j) == 0
    decreases j
  {
    if j > 0 {
      assert ws[j - 1].field != f;
      NoStore(ws, f, j - 1);
    }
  }

  /** After the last store every field has its final value. */
  lemma AllStored(b: Block, f: Field)
    ensures ValueAt(Stores(b), f, END) == Final(b, f)
  {
    var ws := Stores(b);
    var k := 9 + Index(f);
    assert ws[k] == Store(f, Final(b, f));
    forall i | k < i < END ensures ws[i].field != f {
      assert ws[i].field == FIELDS[i - 9];
    }
    LastStore(ws, f, k, END);
  }

  // ---------------------------------------------------------------- invariant

  ghost predicate AttacherOk(c: Creation, s: Boot, at: Attacher) {
    && (at.ready ==> s.pc == END && at.view == END)
    && (forall f :: f in at.got ==> at.ready && at.got[f] == Final(c.block, f))
    && (at.accepted ==> at.ready) && (!at.claim.Unclaimed? ==> at.accepted)
  }

  /** Until the creator holds its role both pid slots are untouched and nobody is past the ready test. */
  ghost predicate CreatorOk(c: Creation, s: Boot) {
    && s.pc <= END && c.pid > 0
    && (s.pc < READY ==> s.creator == Unclaimed) && (s.pc == END ==> s.creator == Won)
    && (s.creator == Won || s.creator == Unclaimed || s.creator == Tests(0) || s.creator == Claims(0))
    && (s.creator != Won ==> s.producerPid == 0 && s.consumerPid == 0)
    && (s.pc < END && s.creator == Won ==> s.PidSlot(c.role) == c.pid)
  }

  ghost predicate BootInv(c: Creation, s: Boot) {
    CreatorOk(c, s) && forall h :: h in s.attachers ==> AttacherOk(c, s, s.attachers[h])
  }

  lemma CreatorKeeps(c: Creation, s: Boot, e: Event)
    requires BootInv(c, s) && Can(c, s, e) && CreatorStep(e)
    ensures BootInv(c, After(c, s, e))
  {
  }

  lemma LoadKeeps(c: Creation, s: Boot, e: Event)
    requires BootInv(c, s) && Can(c, s, e) && (e.LoadReady? || e.ReadField?)
    ensures BootInv(c, After(c, s, e))
  {
    var s' := After(c, s, e);
    assert AttacherOk(c, s, s.attachers[e.h]);
    if e.LoadReady? {
      ReadyComesLast(c.block, e.j);
    } else {
      AllStored(c.block, e.f);
    }
    forall h | h in s'.attachers ensures AttacherOk(c, s', s'.attachers[h]) {
      assert AttacherOk(c, s, s.attachers[h]);
    }
  }

  lemma AttacherKeeps(c: Creation, s: Boot, e: Event)
    requires BootInv(c, s) && Can(c, s, e) && !CreatorStep(e) && !e.LoadReady? && !e.ReadField?
    ensures BootInv(c, After(c, s, e))
  {
  }

  lemma {:induction false} BootKeeps(c: Creation, s: Boot, es: seq<Event>)
    requires BootInv(c, s) && Happens(c, s, es)
    ensures BootInv(c, Outcome(c, s, es))
    decreases |es|
  {
    if es != [] {
      if CreatorStep(es[0]) {
        CreatorKeeps(c, s, es[0]);
      } else if es[0].LoadReady? || es[0].ReadField? {
        LoadKeeps(c, s, es[0]);
      } else {
        AttacherKeeps(c, s, es[0]);
      }
      BootKeeps(c, After(c, s, es[0]), es[1..]);
    }
  }

  // ---------------------------------------------------------------- theorems

  /**
    Whatever stores an attacher's loads happened to see, past the ready test it puts together the
    complete block create() wrote.  Of the creator's own layout, with a mapping of at least the
    declared size and an element size below 2^32, it is accepted.
  */
  lemma AttacherSeesCreatedBlock(c: Creation, s: Boot, es: seq<Event>, h: nat, l: Layout, requested: nat, mapped: nat)
    requires ValidLayout(l) && requested <= MAX && CreateBlock(l, requested) == Ok(c.block)
    requires Fresh(c, s) && Happens(c, s, es) && Can(c, Outcome(c, s, es), Check(h, l, mapped))
    ensures var s' := Outcome(c, s, es);
            && Seen(s'.attachers[h].got) == c.block
            && (h in After(c, s', Check(h, l, mapped)).attachers <==>
                  l.elemSize < U32 && c.block.totalBytes <= mapped)
  {
    BootKeeps(c, s, es);
    var s' := Outcome(c, s, es);
    assert AttacherOk(c, s', s'.attachers[h]);
    CreatedBlockAccepted(l, requested, mapped);
  }

  /** An attacher holds a role, or is even past the ready test, only after the creator got its own. */
  lemma CreatorBindsFirst(c: Creation, s: Boot, es: seq<Event>, h: nat)
    requires Fresh(c, s) && Happens(c, s, es) && h in Outcome(c, s, es).attachers
    requires Outcome(c, s, es).attachers[h].ready || Outcome(c, s, es).attachers[h].claim.Won?
    ensures Outcome(c, s, es).creator.Won? && Outcome(c, s, es).pc == END
  {
    BootKeeps(c, s, es);
    assert AttacherOk(c, Outcome(c, s, es), Outcome(c, s, es).attachers[h]);
  }

  /**
    The creator is never refused: while it lives and has not bound, its next step is always
    possible, and only a spurious failure keeps its compare-and-swap from winning.
  */
  lemma CreatorNeverRefused(c: Creation, s: Boot, es: seq<Event>)
    requires Fresh(c, s) && Happens(c, s, es) && c.pid in Outcome(c, s, es).alive
    ensures var s' := Outcome(c, s, es);
            && !s'.creator.Refused?
            && (s'.pc < END ==> Can(c, s', StoreNext) || Can(c, s', CreatorLoad) || Can(c, s', CreatorTest)
                                || Can(c, s', CreatorCas(false)))
            && (Can(c, s', CreatorTest) ==> After(c, s', CreatorTest).creator == Claims(0))
            && (Can(c, s', CreatorCas(false)) ==> After(c, s', CreatorCas(false)).creator == Won)
  {
    BootKeeps(c, s, es);
  }

  // ---------------------------------------------------------------- the creator keeps its role

  /** No second handle of the creator's role in the creator's own process (see module Roles). */
  predicate NoTwin(c: Creation, es: seq<Event>) {
    forall i :: 0 <= i < |es| ==> !TwinArrives(c, es[i])
  }

  predicate TwinArrives(c: Creation, e: Event) { e.Arrive? && e.pid == c.pid && e.role == c.role }

  /** An attacher for the creator's role is another process, and all it ever sees in the slot is the creator's pid. */
  ghost predicate RivalOk(c: Creation, at: Attacher) {
    at.role == c.role ==>
      at.pid != c.pid && (at.claim == Unclaimed || at.claim == Tests(c.pid) || at.claim == Refused)
  }

  ghost predicate HeldByCreator(c: Creation, s: Boot) {
    && (s.creator == Won ==> s.PidSlot(c.role) == c.pid)
    && forall h :: h in s.attachers ==> RivalOk(c, s.attachers[h])
  }

  lemma {:induction false} CreatorHolds(c: Creation, s: Boot, e: Event)
    requires BootInv(c, s) && HeldByCreator(c, s) && c.pid in s.alive && Can(c, s, e)
    requires !TwinArrives(c, e) && e != Exit(c.pid)
    ensures HeldByCreator(c, After(c, s, e))
  {
    var s' := After(c, s, e);
    if e.CasSlot? || e.Leave? || e.TestSlot? || e.Load? {
      assert AttacherOk(c, s, s.attachers[e.h]) && RivalOk(c, s.attachers[e.h]);
    }
    forall h | h in s'.attachers ensures RivalOk(c, s'.attachers[h]) {
      assert h in s.attachers ==> RivalOk(c, s.attachers[h]);
    }
  }

  lemma {:induction false} CreatorHoldsOn(c: Creation, s: Boot, es: seq<Event>)
    requires BootInv(c, s) && HeldByCreator(c, s) && Happens(c, s, es) && NoTwin(c, es)
    requires c.pid in Outcome(c, s, es).alive
    ensures HeldByCreator(c, Outcome(c, s, es))
    decreases |es|
  {
    if es != [] {
      var s' := After(c, s, es[0]);
      AliveBefore(c, s', es[1..]);
      assert !TwinArrives(c, es[0]);
      CreatorHolds(c, s, es[0]);
      BootKeeps(c, s, [es[0]]);
      assert [es[0]][1..] == [] && Outcome(c, s, [es[0]]) == s';
      forall i | 0 <= i < |es[1..]| ensures !TwinArrives(c, es[1..][i]) {
        assert !TwinArrives(c, es[i + 1]);
      }
      CreatorHoldsOn(c, s', es[1..]);
    }
  }

  /** Whoever is alive at the end was alive before. */
  lemma {:induction false} AliveBefore(c: Creation, s: Boot, es: seq<Event>)
    requires Happens(c, s, es)
    ensures Outcome(c, s, es).alive <= s.alive
    decreases |es|
  {
    if es != [] { AliveBefore(c, After(c, s, es[0]), es[1..]); }
  }

  /**
    While the creator lives no attacher ever takes its role: its pid stays in the slot, and a rival
    that loads the slot is refused.
  */
  lemma {:induction false} CreatorKeepsRole(c: Creation, s: Boot, es: seq<Event>, h: nat)
    requires Fresh(c, s) && Happens(c, s, es) && NoTwin(c, es) && c.pid in Outcome(c, s, es).alive
    requires h in Outcome(c, s, es).attachers && Outcome(c, s, es).attachers[h].role == c.role
    ensures var s' := Outcome(c, s, es);
            && !s'.attachers[h].claim.Won?
            && (s'.creator == Won ==> s'.PidSlot(c.role) == c.pid)
            && (Can(c, s', Load(h)) ==>
                  var s1 := After(c, s', Load(h));
                  Can(c, s1, TestSlot(h)) && After(c, s1, TestSlot(h)).attachers[h].claim.Refused?)
  {
    BootKeeps(c, s, es);
    CreatorHoldsOn(c, s, es);
    var s' := Outcome(c, s, es);
    assert AttacherOk(c, s', s'.attachers[h]) && RivalOk(c, s'.attachers[h]);
  }
}

/**
  Who owns what: any number of processes create, attach, fail to attach, move, self-move, detach
  and destroy queue handles, in any order.
*/
module Ownership {
  import S = System
  import opened Segments

  datatype State = State(k: Kernel, hands: map<nat, Hand>)

  datatype Action =
    | Make(h: nat, pid: int)
    | Create(h: nat, name: string, size: nat)
    | FailedCreate(name: string)
    | Open(h: nat, name: string, size: nat)
    | Bind(h: nat, role: S.Role)
    | MoveConstruct(h: nat, o: nat)
    | MoveAssign(h: nat, o: nat)
    | Detach(h: nat)
    | Destroy(h: nat)
    | Remove(name: string)
    | OtherClaims(obj: nat, role: S.Role, pid: int)

  /**
    Create and Open are the segment assignments inside create(), on its new handle, and attach(),
    whose handle may hold a mapping from an earlier try; a failed attach is an Open, perhaps
    repeated, followed by Destroy.
  */
  predicate Can(s: State, a: Action) {
    match a
    case Make(h, _) => h !in s.hands
    case Create(h, name, size) => h in s.hands && s.hands[h] == NoHand(s.hands[h].pid) && name != "" && size > 0
    case FailedCreate(name) => true
    case Open(h, name, size) => h in s.hands && !s.hands[h].bound && name in s.k.names && size > 0
    case Bind(h, _) => h in s.hands && s.hands[h].ctrl != 0 && !s.hands[h].bound
    case MoveConstruct(h, o) => h !in s.hands && o in s.hands
    case MoveAssign(h, o) => h in s.hands && o in s.hands && s.hands[h].pid == s.hands[o].pid
    case Detach(h) => h in s.hands
    case Destroy(h) => h in s.hands
    case Remove(_) => true
    case OtherClaims(_, _, _) => true
  }

  /** mmap of an object at a new address. */
  function Map(k: Kernel, obj: nat): Kernel {
    k.(maps := k.maps[k.nextAddr := obj], nextAddr := k.nextAddr + 1)
  }

  /** seg_ = std::move(fresh), then ctrl_ = seg_.data(). */
  function Adopt(s: State, k: Kernel, h: nat, seg: Seg): State
    requires h in s.hands
  {
    State(AfterReset(k, s.hands[h].seg), s.hands[h := s.hands[h].(seg := seg, ctrl := seg.addr)])
  }

  /** The kernel once the new object exists under its name. */
  function NewObject(k: Kernel, name: string): Kernel {
    k.(names := k.names[name := k.nextObject], nextObject := k.nextObject + 1)
  }

  function After(s: State, a: Action): State
    requires Can(s, a)
  {
    match a
    case Make(h, pid) => s.(hands := s.hands[h := NoHand(pid)])
    case Create(h, name, size) =>
      Adopt(s, Map(NewObject(Unlink(s.k, name), name), s.k.nextObject), h, Seg(s.k.nextAddr, size, true, name))
    case FailedCreate(name) => s.(k := Unlink(s.k, name))
    case Open(h, name, size) => Adopt(s, Map(s.k, s.k.names[name]), h, Seg(s.k.nextAddr, size, false, name))
    case Bind(h, role) => AfterBind(s, h, role)
    case MoveConstruct(h, o) => s.(hands := s.hands[h := s.hands[o]][o := NoHand(s.hands[o].pid)])
    case MoveAssign(h, o) =>
      if h == o then s
      else State(AfterDetach(s.k, s.hands[h]), s.hands[h := s.hands[o]][o := Detached(s.hands[h])])
    case Detach(h) => State(AfterDetach(s.k, s.hands[h]), s.hands[h := Detached(s.hands[h])])
    case Destroy(h) => State(AfterDetach(s.k, s.hands[h]), s.hands - {h})
    case Remove(name) => s.(k := Unlink(s.k, name))
    case OtherClaims(obj, role, pid) => s.(k := s.k.(pids := s.k.pids[(obj, role) := pid]))
  }

  /** A bind() that wins; who may win is the matter of module System. */
  function AfterBind(s: State, h: nat, role: S.Role): State
    requires h in s.hands
  {
    var hd := s.hands[h];
    var k := if hd.ctrl in s.k.maps then s.k.(pids := s.k.pids[(s.k.maps[hd.ctrl], role) := hd.pid])
             else s.k.(faults := s.k.faults + 1);
    State(k, s.hands[h := hd.(role := role, bound := true, slots := hd.ctrl)])
  }

  predicate Start(s: State) {
    && s.hands == map[] && s.k.maps == map[] && s.k.unmapped == [] && s.k.faults == 0 && s.k.nextAddr == 1
    && forall n :: n in s.k.names ==> s.k.names[n] < s.k.nextObject
  }

  predicate Happens(s: State, acts: seq<Action>)
    decreases |acts|
  {
    acts == [] || (Can(s, acts[0]) && Happens(After(s, acts[0]), acts[1..]))
  }

  function Outcome(s: State, acts: seq<Action>): State
    requires Happens(s, acts)
    decreases |acts|
  {
    if acts == [] then s else Outcome(After(s, acts[0]), acts[1..])
  }

  // ---------------------------------------------------------------- invariant

  /** A handle is either empty or holds a live mapping, and its pointers agree. */
  predicate HandOk(k: Kernel, hd: Hand) {
    && hd.ctrl == hd.seg.addr && (hd.seg.addr == 0 ==> hd.seg == NO_SEG && !hd.bound)
    && (hd.seg.addr != 0 ==> hd.seg.addr in k.maps)
  }

  /** Every address ever handed out is mapped, or was unmapped once. */
  ghost predicate Accounted(k: Kernel) {
    && k.faults == 0 && k.nextAddr >= 1
    && (forall a :: a in k.maps ==> 1 <= a < k.nextAddr)
    && (forall a: nat :: 1 <= a < k.nextAddr ==> Count(k, a) == 1)
    && (forall i :: 0 <= i < |k.unmapped| ==> 1 <= k.unmapped[i] < k.nextAddr)
  }

  /** How often an address is mapped now or was unmapped before. */
  function Count(k: Kernel, a: nat): nat {
    (if a in k.maps then 1 else 0) + multiset(k.unmapped)[a]
  }

  ghost predicate Unshared(s: State) {
    forall g, h :: g in s.hands && h in s.hands && g != h && s.hands[g].seg.addr != 0 ==>
      s.hands[g].seg.addr != s.hands[h].seg.addr
  }

  predicate Holds(s: State, h: nat, a: nat) { h in s.hands && s.hands[h].seg.addr == a }

  ghost predicate Held(s: State, a: nat) { exists h :: Holds(s, h, a) }

  ghost predicate OwnInv(s: State) {
    && Accounted(s.k) && Unshared(s)
    && (forall h :: h in s.hands ==> HandOk(s.k, s.hands[h]))
    && forall a :: a in s.k.maps ==> Held(s, a)
  }

  // ---------------------------------------------------------------- steps

  /** Giving up a handle unmaps its own mapping and touches no other. */
  lemma DetachEffect(k: Kernel, hd: Hand)
    requires HandOk(k, hd) && 0 !in k.maps
    ensures var k' := AfterDetach(k, hd);
            && k'.faults == k.faults && k'.nextAddr == k.nextAddr && k'.nextObject == k.nextObject
            && k'.maps == k.maps - {hd.seg.addr}
            && k'.unmapped == k.unmapped + (if hd.seg.addr != 0 then [hd.seg.addr] else [])
    ensures var k' := AfterReset(k, hd.seg);
            && k'.faults == k.faults && k'.nextAddr == k.nextAddr && k'.nextObject == k.nextObject
            && k'.maps == k.maps - {hd.seg.addr}
            && k'.unmapped == k.unmapped + (if hd.seg.addr != 0 then [hd.seg.addr] else [])
  {
  }

  lemma UnmapAccounted(k: Kernel, k': Kernel, addr: nat)
    requires Accounted(k) && addr in k.maps && k'.nextAddr == k.nextAddr && k'.faults == k.faults
    requires k'.maps == k.maps - {addr} && k'.unmapped == k.unmapped + [addr]
    ensures Accounted(k')
  {
    forall a: nat | 1 <= a < k.nextAddr ensures Count(k', a) == 1 {
      assert Count(k, a) == 1;
      assert multiset(k'.unmapped) == multiset(k.unmapped) + multiset{addr};
    }
  }

  lemma MapAccounted(k: Kernel, obj: nat)
    requires Accounted(k)
    ensures Accounted(Map(k, obj))
  {
    var k' := Map(k, obj);
    forall a: nat | 1 <= a < k'.nextAddr ensures Count(k', a) == 1 {
      if a < k.nextAddr {
        assert Count(k, a) == 1;
      } else {
        assert a !in k.unmapped;
      }
    }
  }

  /** Dropping what handle h holds, the rest rearranged or not. */
  lemma DropKeeps(s: State, h: nat, k': Kernel, hands': map<nat, Hand>)
    requires OwnInv(s) && h in s.hands
    requires k' == AfterDetach(s.k, s.hands[h])
    requires hands' == s.hands[h := Detached(s.hands[h])]
    ensures OwnInv(State(k', hands'))
  {
    var s' := State(k', hands');
    var addr := s.hands[h].seg.addr;
    DetachEffect(s.k, s.hands[h]);
    if addr != 0 {
      UnmapAccounted(s.k, k', addr);
    } else {
      SameAccounted(s.k, k');
    }
    forall a | a in k'.maps ensures Held(s', a) {
      assert Held(s, a);
      var g :| Holds(s, g, a);
      assert Holds(s', g, a);
    }
  }

  lemma SameAccounted(k: Kernel, k': Kernel)
    requires Accounted(k) && k'.maps == k.maps && k'.unmapped == k.unmapped
    requires k'.nextAddr == k.nextAddr && k'.faults == k.faults
    ensures Accounted(k')
  {
    forall a: nat | 1 <= a < k.nextAddr ensures Count(k', a) == 1 {
      assert Count(k, a) == 1;
    }
  }

  /** Renaming, swapping or dropping empty handles changes nothing that matters. */
  lemma RearrangeKeeps(s: State, s': State)
    requires OwnInv(s) && s'.k == s.k
    requires forall h :: h in s'.hands ==> HandOk(s.k, s'.hands[h])
    requires Unshared(s')
    requires forall h :: h in s.hands && s.hands[h].seg.addr != 0 ==> Held(s', s.hands[h].seg.addr)
    ensures OwnInv(s')
  {
  }

  lemma MoveKeeps(s: State, h: nat, o: nat, empty: Hand)
    requires OwnInv(s) && o in s.hands && h != o && HandOk(s.k, empty) && empty.seg == NO_SEG
    requires h in s.hands ==> s.hands[h].seg == NO_SEG
    ensures OwnInv(State(s.k, s.hands[h := s.hands[o]][o := empty]))
  {
    var s' := State(s.k, s.hands[h := s.hands[o]][o := empty]);
    forall g | g in s.hands && s.hands[g].seg.addr != 0 ensures Held(s', s.hands[g].seg.addr) {
      var g' := if g == o then h else g;
      assert Holds(s', g', s.hands[g].seg.addr);
    }
    RearrangeKeeps(s, s');
  }

  lemma AdoptAccounted(k: Kernel, hd: Hand, obj: nat)
    requires Accounted(k) && HandOk(k, hd)
    ensures var k' := AfterReset(Map(k, obj), hd.seg);
            Accounted(k') && k'.maps == k.maps[k.nextAddr := obj] - {hd.seg.addr}
  {
    var k1 := Map(k, obj);
    MapAccounted(k, obj);
    DetachEffect(k1, hd);
    if hd.seg.addr != 0 {
      UnmapAccounted(k1, AfterReset(k1, hd.seg), hd.seg.addr);
    } else {
      SameAccounted(k1, AfterReset(k1, hd.seg));
    }
  }

  /** A segment adopted by an unbound handle replaces, and unmaps, the one it had. */
  lemma AdoptKeeps(s: State, h: nat, k: Kernel, obj: nat, seg: Seg)
    requires OwnInv(s) && h in s.hands && !s.hands[h].bound && seg.addr == s.k.nextAddr
    requires k.maps == s.k.maps && k.unmapped == s.k.unmapped && k.nextAddr == s.k.nextAddr && k.faults == s.k.faults
    ensures OwnInv(Adopt(s, Map(k, obj), h, seg))
  {
    var s' := Adopt(s, Map(k, obj), h, seg);
    SameAccounted(s.k, k);
    assert HandOk(k, s.hands[h]);
    AdoptAccounted(k, s.hands[h], obj);
    forall a | a in s'.k.maps ensures Held(s', a) {
      if a == seg.addr {
        assert Holds(s', h, a);
      } else {
        assert Held(s, a);
        var g :| Holds(s, g, a);
        assert Holds(s', g, a);
      }
    }
    forall g | g in s'.hands ensures HandOk(s'.k, s'.hands[g]) {
      if g != h { assert HandOk(s.k, s.hands[g]); }
    }
  }

  lemma StepKeeps(s: State, a: Action)
    requires OwnInv(s) && Can(s, a)
    ensures OwnInv(After(s, a))
  {
    match a
    case Make(h, pid) => MakeKeeps(s, h, pid);
    case Create(h, name, size) =>
      AdoptKeeps(s, h, NewObject(Unlink(s.k, name), name), s.k.nextObject, Seg(s.k.nextAddr, size, true, name));
    case FailedCreate(name) => KernelOnly(s, After(s, a).k);
    case Open(h, name, size) => AdoptKeeps(s, h, s.k, s.k.names[name], Seg(s.k.nextAddr, size, false, name));
    case Bind(h, role) => BindKeeps(s, h, role);
    case MoveConstruct(h, o) => MoveKeeps(s, h, o, NoHand(s.hands[o].pid));
    case MoveAssign(h, o) =>
      if h != o {
        var s1 := State(AfterDetach(s.k, s.hands[h]), s.hands[h := Detached(s.hands[h])]);
        DropKeeps(s, h, s1.k, s1.hands);
        MoveKeeps(s1, h, o, Detached(s.hands[h]));
        assert After(s, a).hands == s1.hands[h := s1.hands[o]][o := Detached(s.hands[h])];
      }
    case Detach(h) => DropKeeps(s, h, After(s, a).k, After(s, a).hands);
    case Destroy(h) => DestroyKeeps(s, h);
    case Remove(name) => KernelOnly(s, After(s, a).k);
    case OtherClaims(_, _, _) => KernelOnly(s, After(s, a).k);
  }

  lemma MakeKeeps(s: State, h: nat, pid: int)
    requires OwnInv(s) && h !in s.hands
    ensures OwnInv(After(s, Make(h, pid)))
  {
    var s' := After(s, Make(h, pid));
    forall g | g in s.hands && s.hands[g].seg.addr != 0 ensures Held(s', s.hands[g].seg.addr) {
      assert Holds(s', g, s.hands[g].seg.addr);
    }
    RearrangeKeeps(s, s');
  }

  lemma KernelOnly(s: State, k: Kernel)
    requires OwnInv(s) && k.maps == s.k.maps && k.unmapped == s.k.unmapped
    requires k.nextAddr == s.k.nextAddr && k.faults == s.k.faults
    ensures OwnInv(State(k, s.hands))
  {
    SameAccounted(s.k, k);
    forall a | a in k.maps ensures Held(State(k, s.hands), a) {
      assert Held(s, a);
      var h :| Holds(s, h, a);
      assert Holds(State(k, s.hands), h, a);
    }
  }

  lemma BindKeeps(s: State, h: nat, role: S.Role)
    requires OwnInv(s) && Can(s, Bind(h, role))
    ensures OwnInv(After(s, Bind(h, role)))
  {
    var s' := After(s, Bind(h, role));
    assert HandOk(s.k, s.hands[h]);
    KernelOnly(s, s'.k);
    var s1 := State(s'.k, s.hands);
    forall g | g in s.hands && s.hands[g].seg.addr != 0 ensures Held(s', s.hands[g].seg.addr) {
      assert Holds(s', g, s.hands[g].seg.addr);
    }
    RearrangeKeeps(s1, s');
  }

  lemma DestroyKeeps(s: State, h: nat)
    requires OwnInv(s) && h in s.hands
    ensures OwnInv(After(s, Destroy(h)))
  {
    var s1 := After(s, Detach(h));
    var s' := After(s, Destroy(h));
    DropKeeps(s, h, s1.k, s1.hands);
    assert s'.hands == s1.hands - {h};
    forall g | g in s1.hands && s1.hands[g].seg.addr != 0 ensures Held(s', s1.hands[g].seg.addr) {
      assert Holds(s', g, s1.hands[g].seg.addr);
    }
    RearrangeKeeps(s1, s');
  }

  lemma {:induction false} RunKeeps(s: State, acts: seq<Action>)
    requires OwnInv(s) && Happens(s, acts)
    ensures OwnInv(Outcome(s, acts))
    decreases |acts|
  {
    if acts != [] {
      StepKeeps(s, acts[0]);
      RunKeeps(After(s, acts[0]), acts[1..]);
    }
  }

  // ---------------------------------------------------------------- theorems

  /**
    In every state of every run: no access or munmap ever hit an address that was not mapped, no
    address was unmapped twice, every live mapping is held by exactly one handle.
  */
  lemma MappingsHeldOnce(s: State, acts: seq<Action>, a: nat)
    requires Start(s) && Happens(s, acts)
    ensures var s' := Outcome(s, acts);
            && s'.k.faults == 0 && multiset(s'.k.unmapped)[a] <= 1
            && (a in s'.k.maps <==> a != 0 && Held(s', a))
            && (a != 0 ==> forall g, h :: Holds(s', g, a) && Holds(s', h, a) ==> g == h)
  {
    assert OwnInv(s);
    RunKeeps(s, acts);
    var s' := Outcome(s, acts);
    if 1 <= a < s'.k.nextAddr {
      assert Count(s'.k, a) == 1;
    } else if a in s'.k.unmapped {
      assert false;
    }
  }

  /** When every handle is gone, every mapping ever made was unmapped exactly once. */
  lemma NothingLeaks(s: State, acts: seq<Action>, a: nat)
    requires Start(s) && Happens(s, acts) && Outcome(s, acts).hands == map[]
    ensures var k := Outcome(s, acts).k;
            k.maps == map[] && (1 <= a < k.nextAddr ==> multiset(k.unmapped)[a] == 1)
  {
    assert OwnInv(s);
    RunKeeps(s, acts);
    var s' := Outcome(s, acts);
    forall b: nat ensures b !in s'.k.maps {
      assert !Held(s', b);
    }
    if 1 <= a < s'.k.nextAddr {
      assert Count(s'.k, a) == 1;
    }
  }

  /** The steps that end what a handle holds; the handle is a.h. */
  predicate GivesUp(a: Action) { a.Detach? || a.Destroy? || (a.MoveAssign? && a.h != a.o) }

  predicate StillClaims(k: Kernel, hd: Hand) {
    hd.bound && hd.ctrl in k.maps && (k.maps[hd.ctrl], hd.role) in k.pids && k.pids[(k.maps[hd.ctrl], hd.role)] == hd.pid
  }

  lemma DetachClearsOwn(k: Kernel, hd: Hand)
    requires HandOk(k, hd)
    ensures AfterDetach(k, hd).pids ==
              if StillClaims(k, hd) then k.pids[(k.maps[hd.ctrl], hd.role) := -1] else k.pids
  {
  }

  /**
    Apart from bind(), a pid slot changes when and only when a bound handle whose pid is still there
    is given up, and then it is that slot.  Unbound and moved-from handles touch none.
  */
  lemma PidSlotsTouched(s: State, a: Action)
    requires OwnInv(s) && Can(s, a) && !a.OtherClaims? && !a.Bind?
    ensures After(s, a).k.pids ==
              if GivesUp(a) && StillClaims(s.k, s.hands[a.h])
              then s.k.pids[(s.k.maps[s.hands[a.h].ctrl], s.hands[a.h].role) := -1]
              else s.k.pids
  {
    if GivesUp(a) {
      assert HandOk(s.k, s.hands[a.h]);
      DetachClearsOwn(s.k, s.hands[a.h]);
    } else {
      KeepsPids(s, a);
    }
  }

  lemma KeepsPids(s: State, a: Action)
    requires Can(s, a) && !a.OtherClaims? && !a.Bind? && !GivesUp(a)
    ensures After(s, a).k.pids == s.k.pids
  {
  }

  /**
    Why the moves swap: a member-wise copy would leave two handles on one mapping, and the second
    to go would both write a pid slot and unmap through an address that is gone.
  */
  lemma MemberwiseMoveFaults(s: State, o: nat, copy: nat)
    requires OwnInv(s) && o in s.hands && s.hands[o].bound && copy !in s.hands
    ensures var s1 := State(s.k, s.hands[copy := s.hands[o]]);
            var s2 := After(s1, Destroy(o));
            After(s2, Destroy(copy)).k.faults == 2
  {
  }

  /** Binding and giving up again marks the handle's own pid slot and leaves every other as it was. */
  lemma BindThenDetach(s: State, h: nat, role: S.Role)
    requires OwnInv(s) && Can(s, Bind(h, role))
    ensures s.hands[h].ctrl in s.k.maps && Can(After(s, Bind(h, role)), Detach(h))
    ensures After(After(s, Bind(h, role)), Detach(h)).k.pids == s.k.pids[(s.k.maps[s.hands[h].ctrl], role) := -1]
  {
    assert HandOk(s.k, s.hands[h]);
    BindKeeps(s, h, role);
    var s1 := After(s, Bind(h, role));
    assert HandOk(s1.k, s1.hands[h]);
    DetachClearsOwn(s1.k, s1.hands[h]);
  }

  // ---------------------------------------------------------------- owners are creators

  /** What a step creates: an object, under a name. */
  function Creates(s: State, a: Action): set<(nat, string)> {
    if a.Create? then {(s.k.nextObject, a.name)} else {}
  }

  /** Everything a run creates. */
  function Creations(s: State, acts: seq<Action>): set<(nat, string)>
    requires Happens(s, acts)
    decreases |acts|
  {
    if acts == [] then {} else Creates(s, acts[0]) + Creations(After(s, acts[0]), acts[1..])
  }

  /** An owning segment maps an object that was created under its name. */
  ghost predicate OwnerMade(k: Kernel, seg: Seg, made: set<(nat, string)>) {
    seg.owner ==> seg.addr in k.maps && (k.maps[seg.addr], seg.name) in made
  }

  /** Two owners never map the same object. */
  ghost predicate OwnersApart(s: State) {
    forall g, h :: g in s.hands && h in s.hands && g != h && s.hands[g].seg.owner && s.hands[h].seg.owner ==>
      s.hands[g].seg.addr in s.k.maps && s.hands[h].seg.addr in s.k.maps &&
      s.k.maps[s.hands[g].seg.addr] != s.k.maps[s.hands[h].seg.addr]
  }

  ghost predicate OwnersInv(s: State, made: set<(nat, string)>) {
    && (forall e :: e in made ==> e.0 < s.k.nextObject)
    && (forall h :: h in s.hands ==> OwnerMade(s.k, s.hands[h].seg, made))
    && OwnersApart(s)
  }

  /** Handle g after a step has the segment handle f had before it, still mapped to the same object. */
  predicate Inherits(s: State, s': State, f: nat, g: nat) {
    && f in s.hands && g in s'.hands && s.hands[f].seg == s'.hands[g].seg
    && var addr := s.hands[f].seg.addr;
       addr in s.k.maps ==> addr in s'.k.maps && s'.k.maps[addr] == s.k.maps[addr]
  }

  lemma OwnersInherited(s: State, s': State, made: set<(nat, string)>)
    requires OwnInv(s') && OwnersInv(s, made) && s'.k.nextObject >= s.k.nextObject
    requires forall g :: g in s'.hands && s'.hands[g].seg.owner ==> exists f :: Inherits(s, s', f, g)
    ensures OwnersInv(s', made)
  {
    forall g | g in s'.hands ensures OwnerMade(s'.k, s'.hands[g].seg, made) {
      if s'.hands[g].seg.owner {
        var f :| Inherits(s, s', f, g);
        assert OwnerMade(s.k, s.hands[f].seg, made);
      }
    }
    forall g, h | g in s'.hands && h in s'.hands && g != h && s'.hands[g].seg.owner && s'.hands[h].seg.owner
      ensures s'.hands[g].seg.addr in s'.k.maps && s'.hands[h].seg.addr in s'.k.maps
      ensures s'.k.maps[s'.hands[g].seg.addr] != s'.k.maps[s'.hands[h].seg.addr]
    {
      assert HandOk(s'.k, s'.hands[g]) && HandOk(s'.k, s'.hands[h]);
      var e :| Inherits(s, s', e, g);
      var f :| Inherits(s, s', f, h);
      assert OwnerMade(s.k, s.hands[e].seg, made) && OwnerMade(s.k, s.hands[f].seg, made);
    }
  }

  lemma CreateKeepsOwners(s: State, a: Action, made: set<(nat, string)>)
    requires OwnInv(s) && OwnersInv(s, made) && a.Create? && Can(s, a) && OwnInv(After(s, a))
    ensures OwnersInv(After(s, a), made + Creates(s, a))
  {
    var s' := After(s, a);
    assert s'.k.maps == s.k.maps[s.k.nextAddr := s.k.nextObject];
    forall g | g in s'.hands ensures OwnerMade(s'.k, s'.hands[g].seg, made + Creates(s, a)) {
      if g != a.h {
        assert OwnerMade(s.k, s.hands[g].seg, made) && HandOk(s.k, s.hands[g]);
      }
    }
    forall g, h | g in s'.hands && h in s'.hands && g != h && s'.hands[g].seg.owner && s'.hands[h].seg.owner
      ensures s'.hands[g].seg.addr in s'.k.maps && s'.hands[h].seg.addr in s'.k.maps
      ensures s'.k.maps[s'.hands[g].seg.addr] != s'.k.maps[s'.hands[h].seg.addr]
    {
      if g != a.h { assert OwnerMade(s.k, s.hands[g].seg, made) && HandOk(s.k, s.hands[g]); }
      if h != a.h { assert OwnerMade(s.k, s.hands[h].seg, made) && HandOk(s.k, s.hands[h]); }
    }
  }

  /** Where the segment of handle g comes from. */
  function Source(a: Action, g: nat): nat {
    if (a.MoveConstruct? || a.MoveAssign?) && g == a.h then a.o else g
  }

  lemma OpenInherits(s: State, a: Action, g: nat)
    requires OwnInv(s) && a.Open? && Can(s, a) && g in After(s, a).hands && After(s, a).hands[g].seg.owner
    ensures Inherits(s, After(s, a), g, g)
  {
    assert HandOk(s.k, s.hands[a.h]) && HandOk(s.k, s.hands[g]);
    AdoptAccounted(s.k, s.hands[a.h], s.k.names[a.name]);
  }

  lemma GiveUpInherits(s: State, a: Action, g: nat)
    requires OwnInv(s) && GivesUp(a) && Can(s, a) && g in After(s, a).hands && After(s, a).hands[g].seg.owner
    ensures Inherits(s, After(s, a), Source(a, g), g)
  {
    assert HandOk(s.k, s.hands[a.h]) && HandOk(s.k, s.hands[Source(a, g)]);
    DetachEffect(s.k, s.hands[a.h]);
  }

  lemma OtherInherits(s: State, a: Action, g: nat)
    requires OwnInv(s) && Can(s, a) && !a.Create? && !a.Open? && !GivesUp(a)
    requires g in After(s, a).hands && After(s, a).hands[g].seg.owner
    ensures Inherits(s, After(s, a), Source(a, g), g)
  {
  }

  lemma OwnersStep(s: State, a: Action, made: set<(nat, string)>)
    requires OwnInv(s) && OwnersInv(s, made) && Can(s, a)
    ensures OwnInv(After(s, a)) && OwnersInv(After(s, a), made + Creates(s, a))
  {
    StepKeeps(s, a);
    if a.Create? {
      CreateKeepsOwners(s, a, made);
    } else {
      var s' := After(s, a);
      forall g | g in s'.hands && s'.hands[g].seg.owner ensures exists f :: Inherits(s, s', f, g) {
        if a.Open? {
          OpenInherits(s, a, g);
        } else if GivesUp(a) {
          GiveUpInherits(s, a, g);
        } else {
          OtherInherits(s, a, g);
        }
      }
      ObjectsGrow(s, a);
      OwnersInherited(s, s', made);
      assert made + Creates(s, a) == made;
    }
  }

  lemma ObjectsGrow(s: State, a: Action)
    requires Can(s, a)
    ensures After(s, a).k.nextObject == s.k.nextObject + |Creates(s, a)|
  {
  }

  lemma {:induction false} RunKeepsOwners(s: State, acts: seq<Action>, made: set<(nat, string)>)
    requires OwnInv(s) && OwnersInv(s, made) && Happens(s, acts)
    ensures OwnInv(Outcome(s, acts)) && OwnersInv(Outcome(s, acts), made + Creations(s, acts))
    decreases |acts|
  {
    if acts == [] {
      assert made + Creations(s, acts) == made;
    } else {
      var s1 := After(s, acts[0]);
      OwnersStep(s, acts[0], made);
      RunKeepsOwners(s1, acts[1..], made + Creates(s, acts[0]));
      assert made + Creations(s, acts) == (made + Creates(s, acts[0])) + Creations(s1, acts[1..]);
    }
  }

  /**
    In every run only create() makes owners: an owning handle maps an object the run created under
    the handle's name, and two owning handles never map the same object.
  */
  lemma {:induction false} OwnersAreCreators(s: State, acts: seq<Action>, g: nat, h: nat)
    requires Start(s) && Happens(s, acts)
    requires g in Outcome(s, acts).hands && h in Outcome(s, acts).hands
    requires Outcome(s, acts).hands[g].seg.owner && Outcome(s, acts).hands[h].seg.owner
    ensures var s' := Outcome(s, acts);
            var a, b := s'.hands[g].seg, s'.hands[h].seg;
            && a.addr in s'.k.maps && b.addr in s'.k.maps
            && (s'.k.maps[a.addr], a.name) in Creations(s, acts)
            && (g != h ==> s'.k.maps[a.addr] != s'.k.maps[b.addr])
  {
    assert OwnInv(s) && OwnersInv(s, {});
    RunKeepsOwners(s, acts, {});
    var s' := Outcome(s, acts);
    assert OwnerMade(s'.k, s'.hands[g].seg, {} + Creations(s, acts));
    assert OwnerMade(s'.k, s'.hands[h].seg, {} + Creations(s, acts));
  }

  /** Nothing in these steps names or unnames an object on purpose. */
  predicate OnlyAttaches(acts: seq<Action>) {
    forall i :: 0 <= i < |acts| ==> !acts[i].Create? && !acts[i].FailedCreate? && !acts[i].Remove?
  }

  lemma NoOwnerKeepsNames(s: State, a: Action)
    requires OwnersInv(s, {}) && Can(s, a) && !a.Create? && !a.FailedCreate? && !a.Remove?
    ensures After(s, a).k.names == s.k.names
  {
    if a.Open? || GivesUp(a) {
      assert OwnerMade(s.k, s.hands[a.h].seg, {});
    }
  }

  lemma {:induction false} AttachersKeepNamesFrom(s: State, acts: seq<Action>)
    requires OwnInv(s) && OwnersInv(s, {}) && Happens(s, acts) && OnlyAttaches(acts)
    ensures Outcome(s, acts).k.names == s.k.names
    decreases |acts|
  {
    if acts != [] {
      assert !acts[0].Create?;
      OwnersStep(s, acts[0], {});
      NoOwnerKeepsNames(s, acts[0]);
      assert {} + Creates(s, acts[0]) == {};
      AttachersKeepNamesFrom(After(s, acts[0]), acts[1..]);
    }
  }

  /** However many handles attach, fail, move, bind, detach and die: without create() or remove() all names stay. */
  lemma {:induction false} AttachersKeepNames(s: State, acts: seq<Action>)
    requires Start(s) && Happens(s, acts) && OnlyAttaches(acts)
    ensures Outcome(s, acts).k.names == s.k.names
  {
    AttachersKeepNamesFrom(s, acts);
  }

  // ---------------------------------------------------------------- names

  /** An owner's name leads to its own object or nowhere. */
  predicate OwnName(k: Kernel, seg: Seg) {
    seg.owner && seg.addr in k.maps && seg.name in k.names ==> k.names[seg.name] == k.maps[seg.addr]
  }

  ghost predicate KnownObjects(k: Kernel) {
    && (forall n :: n in k.names ==> k.names[n] < k.nextObject)
    && (forall a :: a in k.maps ==> k.maps[a] < k.nextObject)
  }

  ghost predicate NamesInv(s: State) {
    KnownObjects(s.k) && forall h :: h in s.hands ==> OwnName(s.k, s.hands[h].seg)
  }

  /** Some live owning handle has this name. */
  ghost predicate NameTaken(s: State, name: string) {
    exists h :: h in s.hands && s.hands[h].seg.owner && s.hands[h].seg.name == name
  }

  /** create() keeps owners pointing at their own objects exactly when no live owner has the name. */
  lemma CreateKeepsNamesIff(s: State, h: nat, name: string, size: nat)
    requires OwnInv(s) && NamesInv(s) && Can(s, Create(h, name, size))
    ensures NamesInv(After(s, Create(h, name, size))) <==> !NameTaken(s, name)
  {
    var s' := After(s, Create(h, name, size));
    assert s'.k.maps == s.k.maps[s.k.nextAddr := s.k.nextObject];
    if NameTaken(s, name) {
      var g :| g in s.hands && s.hands[g].seg.owner && s.hands[g].seg.name == name;
      assert HandOk(s.k, s.hands[g]);
      assert !OwnName(s'.k, s'.hands[g].seg);
    } else {
      forall g | g in s'.hands ensures OwnName(s'.k, s'.hands[g].seg) {
        if g != h {
          assert OwnName(s.k, s.hands[g].seg) && HandOk(s.k, s.hands[g]);
        }
      }
    }
  }

  /** Fewer names, fewer or new mappings, the same owners. */
  predicate Fewer(k: Kernel, k': Kernel) {
    && k'.nextObject == k.nextObject
    && (forall n :: n in k'.names ==> n in k.names && k'.names[n] == k.names[n])
    && (forall a :: a in k'.maps && a < k.nextAddr ==> a in k.maps && k'.maps[a] == k.maps[a])
  }

  lemma DetachIsFewer(k: Kernel, hd: Hand)
    ensures Fewer(k, AfterDetach(k, hd))
  {
  }

  lemma DropKeepsNames(s: State, k': Kernel)
    requires OwnInv(s) && NamesInv(s) && Fewer(s.k, k') && KnownObjects(k')
    ensures forall h :: h in s.hands ==> OwnName(k', s.hands[h].seg)
  {
  }

  lemma GiveUpKeepsNames(s: State, a: Action)
    requires OwnInv(s) && NamesInv(s) && Can(s, a)
    requires GivesUp(a)
    ensures NamesInv(After(s, a))
  {
    DetachIsFewer(s.k, s.hands[a.h]);
    assert HandOk(s.k, s.hands[a.h]);
    DetachEffect(s.k, s.hands[a.h]);
    DropKeepsNames(s, After(s, a).k);
  }

  lemma OpenKeepsNames(s: State, a: Action)
    requires OwnInv(s) && NamesInv(s) && a.Open? && Can(s, a)
    ensures NamesInv(After(s, a))
  {
  }

  lemma OtherKeepsNames(s: State, a: Action)
    requires OwnInv(s) && NamesInv(s) && Can(s, a)
    requires a.Make? || a.FailedCreate? || a.Bind? || a.MoveConstruct? || a.Remove? || a.OtherClaims?
    ensures NamesInv(After(s, a))
  {
    DropKeepsNames(s, After(s, a).k);
  }

  lemma StepKeepsNames(s: State, a: Action)
    requires OwnInv(s) && NamesInv(s) && Can(s, a) && (a.Create? ==> !NameTaken(s, a.name))
    ensures NamesInv(After(s, a))
  {
    if a.Create? {
      CreateKeepsNamesIff(s, a.h, a.name, a.size);
    } else if a.Open? {
      OpenKeepsNames(s, a);
    } else if GivesUp(a) {
      GiveUpKeepsNames(s, a);
    } else if !a.MoveAssign? {
      OtherKeepsNames(s, a);
    }
  }

  /** A run in which no name is created while a live handle owns it. */
  ghost predicate DistinctNames(s: State, acts: seq<Action>)
    decreases |acts|
  {
    acts == [] ||
    (Can(s, acts[0]) && (acts[0].Create? ==> !NameTaken(s, acts[0].name)) &&
     DistinctNames(After(s, acts[0]), acts[1..]))
  }

  lemma {:induction false} RunKeepsNames(s: State, acts: seq<Action>)
    requires OwnInv(s) && NamesInv(s) && DistinctNames(s, acts)
    ensures Happens(s, acts) && OwnInv(Outcome(s, acts)) && NamesInv(Outcome(s, acts))
    decreases |acts|
  {
    if acts != [] {
      StepKeeps(s, acts[0]);
      StepKeepsNames(s, acts[0]);
      RunKeepsNames(After(s, acts[0]), acts[1..]);
    }
  }

  /**
    While live owned names are distinct, the end of a handle unlinks a name exactly when it owns it,
    and then the name was that of the very object it created and still maps.
  */
  lemma UnlinksOwnObjectOnly(s: State, acts: seq<Action>, a: Action, name: string)
    requires Start(s) && DistinctNames(s, acts)
    requires Happens(s, acts) && Can(Outcome(s, acts), a) && GivesUp(a)
    requires name != "" && name in Outcome(s, acts).k.names
    ensures var s' := Outcome(s, acts);
            var seg := s'.hands[a.h].seg;
            && (name !in After(s', a).k.names <==> seg.owner && seg.name == name)
            && (seg.owner && seg.name == name ==>
                  && seg.addr in s'.k.maps && s'.k.names[name] == s'.k.maps[seg.addr]
                  && (s'.k.names[name], name) in Creations(s, acts))
  {
    assert OwnInv(s) && NamesInv(s);
    RunKeepsNames(s, acts);
    var s' := Outcome(s, acts);
    assert HandOk(s'.k, s'.hands[a.h]) && OwnName(s'.k, s'.hands[a.h].seg);
    if s'.hands[a.h].seg.owner {
      OwnersAreCreators(s, acts, a.h, a.h);
    }
  }

  /** Created twice, a name is lost to its second owner when the first one goes. */
  lemma SameNameUnlinksOther(s: State, name: string, p: int, q: int)
    requires Start(s) && name != ""
    ensures var acts := [Make(1, p), Create(1, name, 1), Make(2, q), Create(2, name, 1)];
            && Happens(s, acts)
            && var s' := Outcome(s, acts);
               && Can(s', Destroy(1)) && Can(s', Destroy(2)) && name in s'.k.names
               && s'.hands[1].seg.addr in s'.k.maps && s'.hands[2].seg.addr in s'.k.maps
               && s'.k.names[name] == s'.k.maps[s'.hands[2].seg.addr] != s'.k.maps[s'.hands[1].seg.addr]
               && name !in After(s', Destroy(1)).k.names
  {
    var acts := [Make(1, p), Create(1, name, 1), Make(2, q), Create(2, name, 1)];
    var s1 := After(s, acts[0]);
    var s2 := After(s1, acts[1]);
    var s3 := After(s2, acts[2]);
    var s4 := After(s3, acts[3]);
    assert acts[1..] == [acts[1], acts[2], acts[3]] && acts[2..] == [acts[2], acts[3]] && acts[3..] == [acts[3]];
    assert acts[1..][1..] == acts[2..] && acts[2..][1..] == acts[3..] && acts[3..][1..] == [];
    assert Happens(s4, []) && Happens(s3, acts[3..]) && Happens(s2, acts[2..]) && Happens(s1, acts[1..]);
    assert Outcome(s3, acts[3..]) == s4;
    assert Outcome(s2, acts[2..]) == s4;
  }
}

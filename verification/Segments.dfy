/**
  Segments and handles as resources: what reset(), the moves, swapWith() and detach() do to the
  mappings, the names and the pid slots.  Each method is proved against a function on values.
*/
module Segments {
  import S = System

  /** A ShmSegment; addr 0 is the null pointer. */
  datatype Seg = Seg(addr: nat, size: nat, owner: bool, name: string)

  const NO_SEG := Seg(0, 0, false, "")

  /**
    The operating system's side.  `names` and `maps` lead to shared memory objects; addresses and
    objects are numbered and never reused, so `unmapped` tells every munmap call apart.  A fault is
    an access to, or an munmap of, something that is not mapped.
  */
  datatype Kernel = Kernel(names: map<string, nat>, maps: map<nat, nat>, pids: map<(nat, S.Role), int>,
                           nextAddr: nat, nextObject: nat, unmapped: seq<nat>, faults: nat)

  function Munmap(k: Kernel, addr: nat): Kernel {
    k.(maps := k.maps - {addr}, unmapped := k.unmapped + [addr],
       faults := k.faults + if addr in k.maps then 0 else 1)
  }

  function Unlink(k: Kernel, name: string): Kernel { k.(names := k.names - {name}) }

  /** ShmSegment::reset() */
  function AfterReset(k: Kernel, s: Seg): Kernel {
    var k1 := if s.addr != 0 then Munmap(k, s.addr) else k;
    if s.owner && s.name != "" then Unlink(k1, s.name) else k1
  }

  /** A released segment is unmapped like any other, but its name outlives it. */
  lemma ReleasedKeepsName(k: Kernel, s: Seg)
    ensures AfterReset(k, s.(owner := false)) == AfterReset(k, s).(names := k.names)
    ensures s.owner && s.name != "" && s.name in k.names ==> AfterReset(k, s.(owner := false)) != AfterReset(k, s)
  {
    if s.owner && s.name != "" && s.name in k.names {
      assert s.name !in AfterReset(k, s).names;
    }
  }

  /** A queue handle of process `pid`. */
  datatype Hand = Hand(pid: int, seg: Seg, ctrl: nat, slots: nat, capacity: nat, role: S.Role, bound: bool,
                       readIdxCache: nat, writeIdxCache: nat)

  /** A default-constructed handle. */
  function NoHand(pid: int): Hand { Hand(pid, NO_SEG, 0, 0, 0, S.Producer, false, 0, 0) }

  /** slot.compare_exchange_strong(self, -1) */
  function ClearPid(k: Kernel, ctrl: nat, role: S.Role, self: int): Kernel {
    if ctrl !in k.maps then k.(faults := k.faults + 1)
    else
      var slot := (k.maps[ctrl], role);
      if slot in k.pids && k.pids[slot] == self then k.(pids := k.pids[slot := -1]) else k
  }

  /** What detach() does outside the handle ... */
  function AfterDetach(k: Kernel, h: Hand): Kernel {
    AfterReset(if h.ctrl != 0 && h.bound then ClearPid(k, h.ctrl, h.role, h.pid) else k, h.seg)
  }

  /** ... and to it. */
  function Detached(h: Hand): Hand { h.(seg := NO_SEG, ctrl := 0, slots := 0, bound := false) }

  // ---------------------------------------------------------------- in place

  class Os {
    var k: Kernel

    constructor (k: Kernel)
      ensures this.k == k
    {
      this.k := k;
    }
  }

  class ShmSegment {
    var addr: nat
    var size: nat
    var owner: bool
    var name: string

    function Value(): Seg
      reads this
    {
      Seg(addr, size, owner, name)
    }

    constructor ()
      ensures Value() == NO_SEG
    {
      addr, size, owner, name := 0, 0, false, "";
    }

    /** The move constructor leaves the source empty. */
    constructor Move(o: ShmSegment)
      modifies o
      ensures Value() == old(o.Value()) && o.Value() == NO_SEG
    {
      addr, size, owner, name := 0, 0, false, "";
      new;
      Swap(o);
    }

    method Swap(o: ShmSegment)
      modifies this, o
      ensures Value() == old(o.Value()) && o.Value() == old(Value())
    {
      addr, o.addr := o.addr, addr;
      size, o.size := o.size, size;
      owner, o.owner := o.owner, owner;
      name, o.name := o.name, name;
    }

    method Reset(os: Os)
      modifies this, os
      ensures os.k == AfterReset(old(os.k), old(Value())) && Value() == NO_SEG
    {
      if addr != 0 {
        os.k := Munmap(os.k, addr);
        addr := 0;
      }
      if owner && |name| > 0 {
        os.k := Unlink(os.k, name);
      }
      owner, size, name := false, 0, "";
    }

    /** The mapping stays; its name will not be unlinked. */
    method Release()
      modifies this
      ensures Value() == old(Value()).(owner := false)
    {
      owner := false;
    }

    /** Move assignment releases what this segment held, unless it is assigned to itself. */
    method MoveAssign(os: Os, o: ShmSegment)
      modifies this, o, os
      ensures this == o ==> Value() == old(Value()) && os.k == old(os.k)
      ensures this != o ==> Value() == old(o.Value()) && o.Value() == NO_SEG && os.k == AfterReset(old(os.k), old(Value()))
    {
      if this != o {
        var tmp := new ShmSegment.Move(o);
        Swap(tmp);
        tmp.Reset(os);
      }
    }
  }

  /** std::swap: three moves, each of which resets an empty segment only. */
  method SwapSegments(os: Os, a: ShmSegment, b: ShmSegment)
    modifies a, b, os
    ensures a.Value() == old(b.Value()) && b.Value() == old(a.Value()) && os.k == old(os.k)
  {
    var tmp := new ShmSegment.Move(a);
    a.MoveAssign(os, b);
    b.MoveAssign(os, tmp);
    tmp.Reset(os);
  }

  class QueueHandle {
    const pid: int
    const seg: ShmSegment
    var ctrl: nat
    var slots: nat
    var capacity: nat
    var role: S.Role
    var bound: bool
    var readIdxCache: nat
    var writeIdxCache: nat

    function Value(): Hand
      reads this, seg
    {
      Hand(pid, seg.Value(), ctrl, slots, capacity, role, bound, readIdxCache, writeIdxCache)
    }

    constructor (pid: int)
      ensures Value() == NoHand(pid) && this.pid == pid && fresh(seg)
    {
      this.pid := pid;
      seg := new ShmSegment();
      ctrl, slots, capacity, role, bound := 0, 0, 0, S.Producer, false;
      readIdxCache, writeIdxCache := 0, 0;
    }

    /** The move constructor: swap with a default-constructed handle. */
    constructor Move(os: Os, o: QueueHandle)
      modifies o, o.seg, os
      ensures Value() == old(o.Value()) && o.Value() == NoHand(o.pid) && os.k == old(os.k)
      ensures pid == o.pid && fresh(seg)
    {
      pid := o.pid;
      seg := new ShmSegment();
      ctrl, slots, capacity, role, bound := 0, 0, 0, S.Producer, false;
      readIdxCache, writeIdxCache := 0, 0;
      new;
      SwapWith(os, o);
    }

    method SwapWith(os: Os, o: QueueHandle)
      requires o.pid == pid && (o.seg == seg ==> o == this)
      modifies this, seg, o, o.seg, os
      ensures Value() == old(o.Value()) && o.Value() == old(Value()) && os.k == old(os.k)
    {
      SwapSegments(os, seg, o.seg);
      ctrl, o.ctrl := o.ctrl, ctrl;
      slots, o.slots := o.slots, slots;
      capacity, o.capacity := o.capacity, capacity;
      role, o.role := o.role, role;
      bound, o.bound := o.bound, bound;
      readIdxCache, o.readIdxCache := o.readIdxCache, readIdxCache;
      writeIdxCache, o.writeIdxCache := o.writeIdxCache, writeIdxCache;
    }

    method Detach(os: Os)
      modifies this, seg, os
      ensures Value() == Detached(old(Value())) && os.k == AfterDetach(old(os.k), old(Value()))
    {
      if ctrl != 0 && bound {
        os.k := ClearPid(os.k, ctrl, role, pid);
      }
      ctrl, slots, bound := 0, 0, false;
      seg.Reset(os);
    }

    method MoveAssign(os: Os, o: QueueHandle)
      requires o.pid == pid && (o.seg == seg ==> o == this)
      modifies this, seg, o, o.seg, os
      ensures this == o ==> Value() == old(Value()) && os.k == old(os.k)
      ensures this != o ==> Value() == old(o.Value()) && o.Value() == Detached(old(Value()))
                            && os.k == AfterDetach(old(os.k), old(Value()))
    {
      if this != o {
        Detach(os);
        SwapWith(os, o);
      }
    }
  }
}

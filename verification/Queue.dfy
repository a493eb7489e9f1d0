/**
  The queue handle and its operations, in place: the shared control block and slot array
  are heap objects, the index caches are fields of the handle, all index arithmetic is the
  64-bit arithmetic of module Geometry.  The calls are proved against the functions of the
  same name in module RingSpec; the two handles of a queue share its control block and slots.
*/
module Queue {
  import opened Positions
  import opened Machine
  import opened Geometry
  import opened RingSpec
  import S = System

  /** The mutable part of the shared control block. */
  class ControlBlock {
    var writeIdx: nat
    var readIdx: nat

    constructor ()
      ensures writeIdx == 0 && readIdx == 0
    {
      writeIdx, readIdx := 0, 0;
    }
  }

  class ShmSpscQueue<T> {
    const ctrl: ControlBlock
    const slots: array<T>
    const capacity: nat // includes the one unused slack slot
    var readIdxCache: nat
    var writeIdxCache: nat

    ghost function Value(): Ring<T>
      reads this, ctrl, slots
    {
      Ring(slots[..], ctrl.writeIdx, ctrl.readIdx, readIdxCache, writeIdxCache)
    }

    /** The control block is sound. */
    ghost predicate Sound()
      reads this, ctrl, slots
    {
      capacity == slots.Length && 2 <= capacity < U64 && Value().Indexed()
    }

    /** Fit for the calls of a role; only the cache that role uses has to be any good. */
    ghost predicate Valid(role: S.Role)
      reads this, ctrl, slots
    {
      Sound() && if role == S.Producer then Value().CanPush() else Value().CanPop()
    }

    /** A handle on existing shared memory snapshots both indices. */
    constructor (ctrl: ControlBlock, slots: array<T>)
      requires 2 <= slots.Length < U64
      requires ctrl.writeIdx < slots.Length && ctrl.readIdx < slots.Length
      ensures Valid(S.Producer) && Valid(S.Consumer) && this.ctrl == ctrl && this.slots == slots
      ensures readIdxCache == ctrl.readIdx && writeIdxCache == ctrl.writeIdx
    {
      this.ctrl, this.slots, this.capacity := ctrl, slots, slots.Length;
      this.readIdxCache, this.writeIdxCache := ctrl.readIdx, ctrl.writeIdx;
    }

    method TryPush(v: T) returns (ok: bool)
      requires Valid(S.Producer)
      modifies this`readIdxCache, ctrl`writeIdx, slots
      ensures Valid(S.Producer) && (old(Valid(S.Consumer)) ==> Valid(S.Consumer))
      ensures (Value(), ok) == RingSpec.TryPush(old(Value()), v)
      ensures ok <==> |old(Value().Contents())| < capacity - 1
      ensures Value().Contents() == old(Value().Contents()) + (if ok then [v] else [])
    {
      ghost var q := Value();
      TryPushAppends(q, v);
      var w := ctrl.writeIdx;
      var next := NextIndex(capacity, w);
      assert next == Wrap(w + 1, capacity);
      if next == readIdxCache {
        readIdxCache := ctrl.readIdx;
        if next == readIdxCache {
          assert Value() == q.(rc := q.r);
          return false;
        }
      }
      slots[w] := v;
      ctrl.writeIdx := next;
      assert slots[..] == q.slots[w := v];
      assert Value() == q.(rc := readIdxCache, slots := q.slots[w := v], w := next);
      return true;
    }

    /** One memcpy into the slot array. */
    method CopyIn(at: nat, src: seq<T>, from: nat, len: nat)
      requires at + len <= slots.Length && from + len <= |src|
      modifies slots
      ensures forall k :: 0 <= k < slots.Length ==>
                slots[k] == if at <= k < at + len then src[from + (k - at)] else old(slots[k])
    {
      for i := 0 to len
        invariant forall k :: 0 <= k < slots.Length ==>
                    slots[k] == if at <= k < at + i then src[from + (k - at)] else old(slots[k])
      {
        slots[at + i] := src[from + i];
      }
    }

    /** The memcpy pair of push_n, one per side of the wrap. */
    method CopyRunIn(w: nat, src: seq<T>, count: nat)
      requires w < slots.Length == capacity < U64 && count <= |src| && count < capacity
      modifies slots
      ensures slots[..] == Store(old(slots[..]), w, src, count)
    {
      var left := Sub64(capacity, w);
      assert left == capacity - w;
      var first := if count <= left then count else left;
      CopyIn(w, src, 0, first);
      if count > first {
        CopyIn(0, src, first, count - first);
      }
    }

    /** How much of a batch of n fits, refreshing the cached read index only when it must. */
    method Room(n: nat) returns (count: nat)
      requires Valid(S.Producer) && n > 0
      modifies this`readIdxCache
      ensures (readIdxCache, count) == PushGrant(old(Value()), n)
    {
      var w := ctrl.writeIdx;
      SlotCountsExact(capacity, w, readIdxCache);
      SlotCountsExact(capacity, w, ctrl.readIdx);
      var free := FreeSlots(capacity, w, readIdxCache);
      if free < n {
        readIdxCache := ctrl.readIdx;
        free := FreeSlots(capacity, w, readIdxCache);
        if free == 0 {
          return 0;
        }
      }
      count := if n <= free then n else free;
    }

    /** Up to 2^63 slots; beyond, a batch can publish a wrong index (Geometry.NextBatchIndexExact). */
    method PushN(src: seq<T>) returns (count: nat)
      requires Valid(S.Producer) && capacity <= U64 / 2
      modifies this`readIdxCache, ctrl`writeIdx, slots
      ensures Valid(S.Producer) && (old(Valid(S.Consumer)) ==> Valid(S.Consumer))
      ensures (Value(), count) == RingSpec.PushN(old(Value()), src)
      ensures Value().Contents() == old(Value().Contents()) + src[..count]
    {
      ghost var q := Value();
      PushNAppends(q, src);
      if |src| == 0 {
        return 0;
      }
      count := Room(|src|);
      if count == 0 {
        assert Value() == RingSpec.PushN(q, src).0;
        return 0;
      }
      var w := ctrl.writeIdx;
      CopyRunIn(w, src, count);
      ctrl.writeIdx := NextBatchIndex(capacity, w, count);
      NextBatchIsWrap(capacity, w, count);
      assert Value() == RingSpec.PushN(q, src).0;
    }

    /** front(): the address of the oldest item is its slot; -1 stands for nullptr. */
    method Front() returns (at: int)
      requires Valid(S.Consumer)
      modifies this`writeIdxCache
      ensures Valid(S.Consumer) && (old(Valid(S.Producer)) ==> Valid(S.Producer))
      ensures Value() == RingSpec.Front(old(Value())).0
      ensures at == (if RingSpec.Front(old(Value())).1 then ctrl.readIdx else -1)
      ensures at == -1 <==> old(Value().Contents()) == []
      ensures at != -1 ==> 0 <= at < slots.Length && slots[at] == Value().Contents()[0]
    {
      ghost var q := Value();
      TryPopTakesOldest(q);
      var r := ctrl.readIdx;
      if r == writeIdxCache {
        writeIdxCache := ctrl.writeIdx;
        if r == writeIdxCache {
          return -1;
        }
      }
      assert Value().Contents()[0] == slots[Wrap(r + 0, capacity)];
      return r;
    }

    /** pop() requires a preceding front() that found an item. */
    method Pop()
      requires Valid(S.Consumer) && writeIdxCache != ctrl.readIdx
      modifies ctrl`readIdx
      ensures Valid(S.Consumer) && (old(Valid(S.Producer)) ==> Valid(S.Producer))
      ensures Value() == RingSpec.Pop(old(Value()))
      ensures Value().Contents() == old(Value().Contents())[1..]
    {
      ghost var q := Value();
      PopDropsOldest(q);
      var r := ctrl.readIdx;
      ctrl.readIdx := NextIndex(capacity, r);
      assert Value() == RingSpec.Pop(q);
    }

    method TryPop() returns (out: seq<T>)
      requires Valid(S.Consumer)
      modifies this`writeIdxCache, ctrl`readIdx
      ensures Valid(S.Consumer) && (old(Valid(S.Producer)) ==> Valid(S.Producer))
      ensures (Value(), out) == RingSpec.TryPop(old(Value()))
      ensures out == [] <==> old(Value().Contents()) == []
      ensures old(Value().Contents()) == out + Value().Contents()
    {
      TryPopTakesOldest(Value());
      var p := Front();
      if p == -1 {
        return [];
      }
      out := [slots[p]];
      Pop();
    }

    /** One memcpy out of the slot array. */
    method CopyOut(dst: array<T>, to: nat, at: nat, len: nat)
      requires at + len <= slots.Length && to + len <= dst.Length && dst != slots
      modifies dst
      ensures forall k :: 0 <= k < dst.Length ==>
                dst[k] == if to <= k < to + len then slots[at + (k - to)] else old(dst[k])
    {
      for i := 0 to len
        invariant forall k :: 0 <= k < dst.Length ==>
                    dst[k] == if to <= k < to + i then slots[at + (k - to)] else old(dst[k])
      {
        dst[to + i] := slots[at + i];
      }
    }

    /** The memcpy pair of pop_n. */
    method CopyRunOut(dst: array<T>, r: nat, count: nat)
      requires r < slots.Length == capacity < U64 && count < capacity && count <= dst.Length && dst != slots
      modifies dst
      ensures dst[..count] == Fetch(slots[..], r, count)
      ensures dst[count..] == old(dst[..])[count..]
    {
      var left := Sub64(capacity, r);
      assert left == capacity - r;
      var first := if count <= left then count else left;
      CopyOut(dst, 0, r, first);
      if count > first {
        CopyOut(dst, first, 0, count - first);
      }
      forall i | 0 <= i < count ensures dst[i] == Fetch(slots[..], r, count)[i] {
        assert Fetch(slots[..], r, count)[i] == slots[Wrap(r + i, capacity)];
      }
    }

    /** How much of a request for n is there, refreshing the cached write index only when it must. */
    method Available(n: nat) returns (count: nat)
      requires Valid(S.Consumer) && n > 0
      modifies this`writeIdxCache
      ensures (writeIdxCache, count) == PopGrant(old(Value()), n)
    {
      var r := ctrl.readIdx;
      SlotCountsExact(capacity, writeIdxCache, r);
      SlotCountsExact(capacity, ctrl.writeIdx, r);
      var avail := UsedSlots(capacity, writeIdxCache, r);
      if avail < n {
        writeIdxCache := ctrl.writeIdx;
        avail := UsedSlots(capacity, writeIdxCache, r);
        if avail == 0 {
          return 0;
        }
      }
      count := if n <= avail then n else avail;
    }

    method PopN(dst: array<T>, n: nat) returns (count: nat)
      requires Valid(S.Consumer) && capacity <= U64 / 2 && n <= dst.Length && dst != slots
      modifies this`writeIdxCache, ctrl`readIdx, dst
      ensures Valid(S.Consumer) && (old(Valid(S.Producer)) ==> Valid(S.Producer))
      ensures count <= n && (Value(), dst[..count]) == RingSpec.PopN(old(Value()), n)
      ensures old(Value().Contents()) == dst[..count] + Value().Contents()
      ensures dst[count..] == old(dst[..])[count..]
    {
      ghost var q := Value();
      PopNTakesOldest(q, n);
      if n == 0 {
        return 0;
      }
      count := Available(n);
      if count == 0 {
        assert Value() == RingSpec.PopN(q, n).0;
        return 0;
      }
      var r := ctrl.readIdx;
      CopyRunOut(dst, r, count);
      ctrl.readIdx := NextBatchIndex(capacity, r, count);
      NextBatchIsWrap(capacity, r, count);
      assert Value() == RingSpec.PopN(q, n).0;
    }

    method Size() returns (size: nat)
      requires Sound()
      ensures size == |Value().Contents()|
    {
      SlotCountsExact(capacity, ctrl.writeIdx, ctrl.readIdx);
      size := UsedSlots(capacity, ctrl.writeIdx, ctrl.readIdx);
    }

    method Empty() returns (b: bool)
      requires Sound()
      ensures b <==> Value().Contents() == []
    {
      b := ctrl.writeIdx == ctrl.readIdx;
    }
  }

  /** The two ends of one queue. */
  ghost predicate Ends<T>(p: ShmSpscQueue<T>, c: ShmSpscQueue<T>)
    reads p, p.ctrl, p.slots, c, c.ctrl, c.slots
  {
    p != c && p.ctrl == c.ctrl && p.slots == c.slots && p.Valid(S.Producer) && c.Valid(S.Consumer)
  }

  /** A try_push at one end, a try_pop at the other, from any state of the queue. */
  method PassOne<T>(p: ShmSpscQueue<T>, c: ShmSpscQueue<T>, v: T) returns (ok: bool, out: seq<T>)
    requires Ends(p, c)
    modifies p, c, p.ctrl, p.slots
    ensures Ends(p, c) && out != []
    ensures old(c.Value().Contents()) + (if ok then [v] else []) == out + c.Value().Contents()
  {
    ghost var q := p.Value();
    assert c.Value() == q.Through(c.readIdxCache, c.writeIdxCache);
    TryPushIsPushOne(q, v);
    PushKeepsConsumers(q, [v], c.readIdxCache, c.writeIdxCache);
    ok := p.TryPush(v);
    ghost var q' := c.Value();
    assert q' == p.Value().Through(c.readIdxCache, c.writeIdxCache);
    assert p.Value() == q'.Through(p.readIdxCache, p.writeIdxCache);
    TryPopIsPopOne(q');
    PopKeepsProducers(q', 1, p.readIdxCache, p.writeIdxCache);
    out := c.TryPop();
    assert p.Value() == c.Value().Through(p.readIdxCache, p.writeIdxCache);
  }

  /** One end pushes what fits and the other stays fit to pop, however stale its caches. */
  method PushAtOneEnd<T>(p: ShmSpscQueue<T>, c: ShmSpscQueue<T>, src: seq<T>) returns (count: nat)
    requires Ends(p, c) && p.capacity <= U64 / 2
    modifies p, p.ctrl, p.slots
    ensures Ends(p, c) && count <= |src|
    ensures c.Value().Contents() == old(c.Value().Contents()) + src[..count]
    ensures src != [] ==> c.Value().Contents() != []
  {
    ghost var q, rc, wc := p.Value(), c.readIdxCache, c.writeIdxCache;
    assert c.Value() == q.Through(rc, wc);
    PushKeepsConsumers(q, src, rc, wc);
    PushNAppends(q, src);
    count := p.PushN(src);
    assert c.Value() == p.Value().Through(rc, wc);
  }

  /** The other end pops into a buffer and the first stays fit to push. */
  method PopAtOtherEnd<T>(p: ShmSpscQueue<T>, c: ShmSpscQueue<T>, dst: array<T>) returns (count: nat)
    requires Ends(p, c) && p.capacity <= U64 / 2 && dst != p.slots && dst.Length >= 1
    modifies c, c.ctrl, dst
    ensures Ends(p, c) && count <= dst.Length
    ensures old(c.Value().Contents()) == dst[..count] + c.Value().Contents()
    ensures old(c.Value().Contents()) != [] ==> count >= 1
  {
    ghost var q, rc, wc := c.Value(), p.readIdxCache, p.writeIdxCache;
    assert p.Value() == q.Through(rc, wc);
    PopKeepsProducers(q, dst.Length, rc, wc);
    PopNTakesOldest(q, dst.Length);
    count := c.PopN(dst, dst.Length);
    assert p.Value() == c.Value().Through(rc, wc);
  }

  /**
    Two handles, any number of laps: everything pushed at one end arrives at the other, in order,
    whatever the buffer and the ring size.
  */
  method Transfer<T>(p: ShmSpscQueue<T>, c: ShmSpscQueue<T>, src: seq<T>, dst: array<T>) returns (out: seq<T>)
    requires Ends(p, c) && p.capacity <= U64 / 2 && dst != p.slots && dst.Length >= 1
    requires c.Value().Contents() == []
    modifies p, c, p.ctrl, p.slots, dst
    ensures Ends(p, c) && out == src && c.Value().Contents() == []
  {
    out := [];
    var sent: nat := 0;
    while |out| < |src|
      invariant Ends(p, c) && sent <= |src|
      invariant out + c.Value().Contents() == src[..sent]
      decreases |src| - |out|
    {
      ghost var before := c.Value().Contents();
      var count := PushAtOneEnd(p, c, src[sent..]);
      ghost var waiting := c.Value().Contents();
      OnTheWay(src, out, before, sent, count);
      sent := sent + count;
      var got := PopAtOtherEnd(p, c, dst);
      assert out + waiting == (out + dst[..got]) + c.Value().Contents();
      out := out + dst[..got];
    }
  }

  /** What has arrived and what waits is what was sent, and something waits while not all has arrived. */
  lemma OnTheWay<T>(src: seq<T>, out: seq<T>, before: seq<T>, sent: nat, count: nat)
    requires sent + count <= |src| && out + before == src[..sent] && |out| < |src|
    ensures out + (before + src[sent..][..count]) == src[..sent + count]
    ensures before == [] ==> src[sent..] != []
  {
  }
}

/**
  One call at a time: the ring as a value, and what each operation does to it while the
  peer's index stands still.  Module Queue implements these functions in place; module
  System lets the calls of two processes interleave word by word.
*/
module RingSpec {
  import opened Positions

  /** Shared slots and indices, with the two index caches of the calling handle. */
  datatype Ring<T> = Ring(slots: seq<T>, w: nat, r: nat, rc: nat, wc: nat) {
    function N(): nat { |slots| }

    predicate Indexed() { w < N() && r < N() }

    predicate InBounds() { Indexed() && rc < N() && wc < N() }

    /** Fit to push: a stale read index errs towards "no room".  The other cache does not matter. */
    predicate CanPush() { InBounds() && Used(N(), w, rc) >= Used(N(), w, r) }

    /** Fit to pop: a stale write index errs towards "nothing there". */
    predicate CanPop() { InBounds() && Used(N(), wc, r) <= Used(N(), w, r) }

    /** The same ring through another handle, with its own caches. */
    function Through(rc': nat, wc': nat): Ring<T> { this.(rc := rc', wc := wc') }

    /** The items in the queue, oldest first. */
    function Contents(): (c: seq<T>)
      requires Indexed()
      ensures |c| == Used(N(), w, r)
    {
      Fetch(slots, r, Used(N(), w, r))
    }

    function Capacity(): int { N() - 1 }
  }

  /** `slots` with the first `count` elements of `src` laid out from index w on. */
  function Store<T>(slots: seq<T>, w: nat, src: seq<T>, count: nat): (s: seq<T>)
    requires w < |slots| && count <= |src|
    ensures |s| == |slots|
  {
    seq(|slots|, i requires 0 <= i < |slots| =>
      if Used(|slots|, i, w) < count then src[Used(|slots|, i, w)] else slots[i])
  }

  /** The first `count` elements found from index r on. */
  function Fetch<T>(slots: seq<T>, r: nat, count: nat): (s: seq<T>)
    requires r < |slots| && count <= |slots|
    ensures |s| == count
  {
    seq(count, i requires 0 <= i < count => slots[Wrap(r + i, |slots|)])
  }

  lemma FetchOne<T>(slots: seq<T>, r: nat)
    requires r < |slots|
    ensures Fetch(slots, r, 1) == [slots[r]]
  {
    assert Fetch(slots, r, 1)[0] == slots[Wrap(r + 0, |slots|)];
  }

  lemma FetchConcat<T>(slots: seq<T>, r: nat, a: nat, b: nat)
    requires r < |slots| && a + b <= |slots|
    ensures Fetch(slots, r, a + b) == Fetch(slots, r, a) + Fetch(slots, Wrap(r + a, |slots|), b)
  {
    var left, right := Fetch(slots, r, a), Fetch(slots, Wrap(r + a, |slots|), b);
    forall i | 0 <= i < a + b ensures Fetch(slots, r, a + b)[i] == (left + right)[i] {
      if i >= a {
        assert Wrap(Wrap(r + a, |slots|) + (i - a), |slots|) == Wrap(r + i, |slots|);
      }
    }
  }

  lemma FetchAfterStore<T>(slots: seq<T>, w: nat, r: nat, src: seq<T>, count: nat)
    requires w < |slots| && r < |slots| && count <= |src| && count <= Free(|slots|, w, r)
    ensures Fetch(Store(slots, w, src, count), r, Used(|slots|, w, r) + count)
         == Fetch(slots, r, Used(|slots|, w, r)) + src[..count]
  {
    var n, u, s := |slots|, Used(|slots|, w, r), Store(slots, w, src, count);
    forall i | 0 <= i < u + count
      ensures Fetch(s, r, u + count)[i] == (Fetch(slots, r, u) + src[..count])[i]
    {
      var k := Wrap(r + i, n);
      assert s[k] == if Used(n, k, w) < count then src[Used(n, k, w)] else slots[k];
    }
  }

  function TryPush<T>(q: Ring<T>, v: T): (Ring<T>, bool)
    requires q.InBounds()
  {
    var next := Wrap(q.w + 1, q.N());
    var rc := if next == q.rc then q.r else q.rc;
    if next == rc then (q.(rc := rc), false)
    else (q.(rc := rc, slots := q.slots[q.w := v], w := next), true)
  }

  /** How many of n items push_n accepts, and its index cache afterwards. */
  function PushGrant<T>(q: Ring<T>, n: nat): (g: (nat, nat))
    requires q.InBounds()
    ensures g.0 < q.N() && g.1 <= n && g.1 <= Free(q.N(), q.w, g.0)
  {
    if n == 0 then (q.rc, 0)
    else
      var rc := if Free(q.N(), q.w, q.rc) < n then q.r else q.rc;
      var free := Free(q.N(), q.w, rc);
      (rc, if n <= free then n else free)
  }

  function PushN<T>(q: Ring<T>, src: seq<T>): (Ring<T>, nat)
    requires q.InBounds()
  {
    var (rc, count) := PushGrant(q, |src|);
    if count == 0 then (q.(rc := rc), 0)
    else (q.(rc := rc, slots := Store(q.slots, q.w, src, count), w := Wrap(q.w + count, q.N())), count)
  }

  /** front(): the refreshed handle, and whether it found an item. */
  function Front<T>(q: Ring<T>): (Ring<T>, bool)
    requires q.InBounds()
  {
    var wc := if q.r == q.wc then q.w else q.wc;
    (q.(wc := wc), q.r != wc)
  }

  function Pop<T>(q: Ring<T>): Ring<T>
    requires q.InBounds()
  {
    q.(r := Wrap(q.r + 1, q.N()))
  }

  /** try_pop: the popped items are none or one. */
  function TryPop<T>(q: Ring<T>): (Ring<T>, seq<T>)
    requires q.InBounds()
  {
    var (q', found) := Front(q);
    if found then (Pop(q'), [q'.slots[q'.r]]) else (q', [])
  }

  /** How many of n items pop_n finds, and its index cache afterwards. */
  function PopGrant<T>(q: Ring<T>, n: nat): (g: (nat, nat))
    requires q.InBounds()
    ensures g.0 < q.N() && g.1 <= n && g.1 <= Used(q.N(), g.0, q.r)
  {
    if n == 0 then (q.wc, 0)
    else
      var wc := if Used(q.N(), q.wc, q.r) < n then q.w else q.wc;
      var avail := Used(q.N(), wc, q.r);
      (wc, if n <= avail then n else avail)
  }

  function PopN<T>(q: Ring<T>, n: nat): (Ring<T>, seq<T>)
    requires q.InBounds()
  {
    var (wc, count) := PopGrant(q, n);
    if count == 0 then (q.(wc := wc), [])
    else (q.(wc := wc, r := Wrap(q.r + count, q.N())), Fetch(q.slots, q.r, count))
  }

  // ---------------------------------------------------------------- pushing

  /** A batch is accepted up to the true free room, in order, behind what is already there. */
  lemma PushNAppends<T>(q: Ring<T>, src: seq<T>)
    requires q.CanPush()
    ensures var (q', count) := PushN(q, src);
            && q'.CanPush() && q'.N() == q.N() && q'.r == q.r && q'.wc == q.wc
            && (q.Capacity() - |q.Contents()| <= |src| ==> count == q.Capacity() - |q.Contents()|)
            && (q.Capacity() - |q.Contents()| > |src| ==> count == |src|)
            && q'.Contents() == q.Contents() + src[..count]
  {
    var (q', count) := PushN(q, src);
    if count > 0 {
      UsedAfterAdvance(q.N(), q.w, q.r, count);
      UsedAfterAdvance(q.N(), q.w, q'.rc, count);
      FetchAfterStore(q.slots, q.w, q.r, src, count);
    }
  }

  /** A push leaves every handle fit to pop so: what it believed to be there still is. */
  lemma PushKeepsConsumers<T>(q: Ring<T>, src: seq<T>, rc: nat, wc: nat)
    requires q.CanPush() && q.Through(rc, wc).CanPop()
    ensures PushN(q, src).0.Through(rc, wc).CanPop()
  {
    PushNAppends(q, src);
  }

  /** try_push fails exactly on a full queue and otherwise appends its argument. */
  lemma TryPushAppends<T>(q: Ring<T>, v: T)
    requires q.CanPush()
    ensures var (q', ok) := TryPush(q, v);
            && q'.CanPush() && q'.N() == q.N() && q'.r == q.r
            && (ok <==> |q.Contents()| < q.Capacity())
            && q'.Contents() == q.Contents() + (if ok then [v] else [])
  {
    TryPushIsPushOne(q, v);
    PushNAppends(q, [v]);
  }

  /** try_push is push_n of one element. */
  lemma TryPushIsPushOne<T>(q: Ring<T>, v: T)
    requires q.InBounds()
    ensures PushN(q, [v]).0 == TryPush(q, v).0
    ensures PushN(q, [v]).1 == if TryPush(q, v).1 then 1 else 0
  {
  }

  /** try_push over and over, until the first failure or the end of the source. */
  function PushEach<T>(q: Ring<T>, src: seq<T>): (Ring<T>, nat)
    requires q.InBounds()
    decreases |src|
  {
    if src == [] then (q, 0)
    else
      var (q1, ok) := TryPush(q, src[0]);
      if !ok then (q1, 0)
      else
        var (q', count) := PushEach(q1, src[1..]);
        (q', count + 1)
  }

  /** One batch is the same as its items one at a time: count, slots, index and cache. */
  lemma {:induction false} PushNIsPushEach<T>(q: Ring<T>, src: seq<T>)
    requires q.CanPush()
    ensures PushN(q, src) == PushEach(q, src)
    decreases |src|
  {
    if src != [] {
      var (q1, ok) := TryPush(q, src[0]);
      TryPushAppends(q, src[0]);
      if ok {
        PushNIsPushEach(q1, src[1..]);
        PushNSplits(q, src);
      }
    }
  }

  lemma PushGrantSplits<T>(q: Ring<T>, v: T, n: nat)
    requires q.CanPush() && n > 0 && TryPush(q, v).1
    ensures var (q1, _) := TryPush(q, v);
            PushGrant(q, n).1 >= 1 &&
            PushGrant(q1, n - 1) == (PushGrant(q, n).0, PushGrant(q, n).1 - 1)
  {
    var (q1, _) := TryPush(q, v);
    UsedAfterAdvance(q.N(), q.w, q1.rc, 1);
    UsedAfterAdvance(q.N(), q.w, q.r, 1);
  }

  lemma PushNSplits<T>(q: Ring<T>, src: seq<T>)
    requires q.CanPush() && src != [] && TryPush(q, src[0]).1
    ensures var (q1, _) := TryPush(q, src[0]);
            PushN(q, src) == (PushN(q1, src[1..]).0, PushN(q1, src[1..]).1 + 1)
  {
    var (q1, _) := TryPush(q, src[0]);
    PushGrantSplits(q, src[0], |src|);
    StoreSplits(q.slots, q.w, src, PushGrant(q, |src|).1);
    PushNUniform(q, src);
    PushNUniform(q1, src[1..]);
  }

  /** An empty grant is no special case. */
  lemma PushNUniform<T>(q: Ring<T>, src: seq<T>)
    requires q.InBounds()
    ensures var (rc, count) := PushGrant(q, |src|);
            PushN(q, src) ==
              (q.(rc := rc, slots := Store(q.slots, q.w, src, count), w := Wrap(q.w + count, q.N())), count)
  {
    StoreNothing(q.slots, q.w, src);
  }

  lemma StoreNothing<T>(slots: seq<T>, w: nat, src: seq<T>)
    requires w < |slots|
    ensures Store(slots, w, src, 0) == slots
  {
  }

  lemma StoreSplits<T>(slots: seq<T>, w: nat, src: seq<T>, count: nat)
    requires w < |slots| && 1 <= count <= |src| && count < |slots|
    ensures Store(slots, w, src, count)
         == Store(slots[w := src[0]], Wrap(w + 1, |slots|), src[1..], count - 1)
  {
  }

  // ---------------------------------------------------------------- popping

  /** A batch takes the oldest items, as many as asked for or as there are. */
  lemma PopNTakesOldest<T>(q: Ring<T>, n: nat)
    requires q.CanPop()
    ensures var (q', out) := PopN(q, n);
            && q'.CanPop() && q'.N() == q.N() && q'.slots == q.slots && q'.w == q.w && q'.rc == q.rc
            && |out| == (if n <= |q.Contents()| then n else |q.Contents()|)
            && q.Contents() == out + q'.Contents()
  {
    var (q', out) := PopN(q, n);
    if out != [] {
      UsedAfterConsume(q.N(), q.w, q.r, |out|);
      UsedAfterConsume(q.N(), q'.wc, q.r, |out|);
      FetchConcat(q.slots, q.r, |out|, |q.Contents()| - |out|);
    }
  }

  /** A pop leaves every handle fit to push so: the room it believed to have is still there. */
  lemma PopKeepsProducers<T>(q: Ring<T>, n: nat, rc: nat, wc: nat)
    requires q.CanPop() && q.Through(rc, wc).CanPush()
    ensures PopN(q, n).0.Through(rc, wc).CanPush()
  {
    PopNTakesOldest(q, n);
  }

  /** try_pop fails exactly on an empty queue and otherwise takes the oldest item. */
  lemma TryPopTakesOldest<T>(q: Ring<T>)
    requires q.CanPop()
    ensures var (q', out) := TryPop(q);
            && q'.CanPop() && q'.N() == q.N() && q'.w == q.w
            && (out == [] <==> q.Contents() == [])
            && q.Contents() == out + q'.Contents()
  {
    TryPopIsPopOne(q);
    PopNTakesOldest(q, 1);
  }

  /** pop() after a front() that found something drops the oldest item. */
  lemma PopDropsOldest<T>(q: Ring<T>)
    requires q.CanPop() && q.r != q.wc
    ensures Pop(q).CanPop() && (q.CanPush() ==> Pop(q).CanPush())
    ensures q.Contents() != [] && Pop(q).Contents() == q.Contents()[1..]
  {
    TryPopTakesOldest(q);
    assert TryPop(q) == (Pop(q), [q.slots[q.r]]);
  }

  /** try_pop is pop_n of one element. */
  lemma TryPopIsPopOne<T>(q: Ring<T>)
    requires q.InBounds()
    ensures PopN(q, 1) == TryPop(q)
  {
    FetchOne(q.slots, q.r);
  }

  /** try_pop over and over, until the first failure or n items. */
  function PopEach<T>(q: Ring<T>, n: nat): (Ring<T>, seq<T>)
    requires q.InBounds()
    decreases n
  {
    if n == 0 then (q, [])
    else
      var (q1, out) := TryPop(q);
      if out == [] then (q1, [])
      else
        var (q', rest) := PopEach(q1, n - 1);
        (q', out + rest)
  }

  /** One batched pop is the same as its items one at a time: items, index and cache. */
  lemma {:induction false} PopNIsPopEach<T>(q: Ring<T>, n: nat)
    requires q.CanPop()
    ensures PopN(q, n) == PopEach(q, n)
    decreases n
  {
    if n > 0 {
      TryPopTakesOldest(q);
      var (q1, out) := TryPop(q);
      if out != [] {
        PopNIsPopEach(q1, n - 1);
        PopNSplits(q, n);
      }
    }
  }

  /** What is granted after one try_pop is the rest of what was granted before. */
  lemma PopGrantSplits<T>(q: Ring<T>, n: nat)
    requires q.CanPop() && n > 0 && TryPop(q).1 != []
    ensures var (q1, _) := TryPop(q);
            && q1.InBounds() && PopGrant(q, n).1 >= 1
            && PopGrant(q1, n - 1) == (PopGrant(q, n).0, PopGrant(q, n).1 - 1)
  {
    var (q1, _) := TryPop(q);
    UsedAfterConsume(q.N(), q1.wc, q.r, 1);
    UsedAfterConsume(q.N(), q.w, q.r, 1);
  }

  lemma PopNSplits<T>(q: Ring<T>, n: nat)
    requires q.CanPop() && n > 0 && TryPop(q).1 != []
    ensures var (q1, out) := TryPop(q);
            PopN(q, n) == (PopN(q1, n - 1).0, out + PopN(q1, n - 1).1)
  {
    PopGrantSplits(q, n);
    FetchConcat(q.slots, q.r, 1, PopGrant(q, n).1 - 1);
    FetchOne(q.slots, q.r);
  }
}

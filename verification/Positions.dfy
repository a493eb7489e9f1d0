/**
  Logical positions and physical slots.

  The queue numbers items 0, 1, 2, ... without bound; a position is stored in
  shared memory only as the slot it lands in, its remainder modulo the slot count.
  `Used` and `Free` are the unbounded-integer readings of usedSlots() and freeSlots();
  module Geometry proves that the 64-bit code computes exactly them.  The lemmas here
  turn remainders into comparisons, so that the proofs elsewhere stay linear.
*/
module Positions {

  /** The slot of logical position p in a ring of n slots. */
  function Slot(p: nat, n: nat): (s: nat)
    requires n > 0
    ensures s < n
  {
    p % n
  }

  function Wrap(i: nat, n: nat): (s: nat)
    requires i < 2 * n
    ensures s < n
  {
    if i >= n then i - n else i
  }

  /** Items between read index r and write index w. */
  function Used(n: nat, w: nat, r: nat): (u: nat)
    requires w < n && r < n
    ensures u < n
  {
    if w >= r then w - r else w + n - r
  }

  /** Room left between write index w and read index r; one slot stays unused. */
  function Free(n: nat, w: nat, r: nat): (f: nat)
    requires w < n && r < n
    ensures f == n - 1 - Used(n, w, r)
  {
    (if r > w then r - w else r + n - w) - 1
  }

  /**
    The slot of the i-th element of a run of `count` elements that starts at index
    `start`, as the two memcpy calls of a batch place it: the first min(count, n - start)
    elements from `start` on, the others from slot 0 on.
  */
  function RunSlot(n: nat, start: nat, count: nat, i: nat): (s: nat)
    requires start < n && i < count <= n
    ensures s < n
  {
    var first := if count <= n - start then count else n - start;
    if i < first then start + i else i - first
  }

  lemma RemainderSuccessor(x: nat, n: nat)
    requires n > 0
    ensures (x + 1) % n == if x % n + 1 == n then 0 else x % n + 1
  {
    var q, m := x / n, x % n;
    assert x == q * n + m;
    if m + 1 == n {
      assert x + 1 == (q + 1) * n;
      RemainderUnique(x + 1, n, q + 1, 0);
    } else {
      RemainderUnique(x + 1, n, q, m + 1);
    }
  }

  lemma RemainderUnique(x: int, n: nat, q: int, m: nat)
    requires n > 0 && m < n && x == q * n + m
    ensures x % n == m
  {
    if q > x / n {
      WholeLap(q - x / n, n);
    } else if q < x / n {
      WholeLap(x / n - q, n);
    }
  }

  lemma WholeLap(k: nat, n: nat)
    requires k >= 1
    ensures k * n >= n
  {
  }

  /** Moving by at most one lap is one wrap. */
  lemma {:induction false} SlotAdd(p: nat, c: nat, n: nat)
    requires n > 0 && c <= n
    ensures Slot(p + c, n) == Wrap(Slot(p, n) + c, n)
  {
    if c > 0 { SlotAdd(p, c - 1, n); RemainderSuccessor(p + c - 1, n); }
  }

  /** Two positions less than a lap apart never share a slot. */
  lemma SlotInjective(p: nat, q: nat, n: nat)
    requires n > 0 && p < q < p + n
    ensures Slot(p, n) != Slot(q, n)
  {
    SlotAdd(p, q - p, n);
  }

  /** Read off the indices of two positions less than a lap apart, Used is their distance. */
  lemma UsedIsDistance(c: nat, p: nat, n: nat)
    requires n > 0 && c <= p < c + n
    ensures Used(n, Slot(p, n), Slot(c, n)) == p - c
  {
    SlotAdd(c, p - c, n);
  }

  /** Whatever two positions are, however far apart, Used reads off their indices the distance modulo n. */
  lemma UsedIsRemainder(p: nat, c: nat, n: nat)
    requires n > 0
    ensures Used(n, Slot(p, n), Slot(c, n)) == (p - c) % n
  {
    var a, b := p / n, c / n;
    assert p == a * n + Slot(p, n) && c == b * n + Slot(c, n);
    var q := if Slot(p, n) >= Slot(c, n) then a - b else a - b - 1;
    assert p - c == q * n + Used(n, Slot(p, n), Slot(c, n));
    RemainderUnique(p - c, n, q, Used(n, Slot(p, n), Slot(c, n)));
  }

  /** A count below n is x modulo n exactly when it differs from x by whole laps. */
  lemma SameRemainder(u: nat, x: int, n: nat)
    requires u < n
    ensures u == x % n <==> (u - x) % n == 0
  {
    var q := x / n;
    assert x == q * n + x % n;
    if u == x % n {
      RemainderUnique(u - x, n, -q, 0);
    } else if (u - x) % n == 0 {
      var k := (u - x) / n;
      assert x == -k * n + u;
      RemainderUnique(x, n, -k, u);
    }
  }

  /**
    An index is never ambiguous within a lap: below position p there is exactly one
    position in the last lap with slot `index`, namely p - Used(slot of p, index).
  */
  lemma PositionBelow(p: nat, index: nat, n: nat, q: nat)
    requires n > 0 && index < n && q <= p < q + n
    ensures Slot(q, n) == index <==> q == p - Used(n, Slot(p, n), index)
  {
    UsedIsDistance(q, p, n);
  }

  /** The mirror image for an index at or above position c. */
  lemma PositionAbove(c: nat, index: nat, n: nat, q: nat)
    requires n > 0 && index < n && c <= q < c + n
    ensures Slot(q, n) == index <==> q == c + Used(n, index, Slot(c, n))
  {
    UsedIsDistance(c, q, n);
  }

  /** The two memcpy calls of a batch touch exactly the slots of the run's positions, in order. */
  lemma RunSlotIsSlot(p: nat, count: nat, i: nat, n: nat)
    requires n > 0 && i < count <= n
    ensures RunSlot(n, Slot(p, n), count, i) == Slot(p + i, n)
  {
    SlotAdd(p, i, n);
  }

  /** Advancing the write index by d eats exactly d of the free room. */
  lemma UsedAfterAdvance(n: nat, w: nat, r: nat, d: nat)
    requires w < n && r < n && d <= Free(n, w, r)
    ensures Used(n, Wrap(w + d, n), r) == Used(n, w, r) + d
  {
  }

  /** Advancing the read index by d gives exactly d back. */
  lemma UsedAfterConsume(n: nat, w: nat, r: nat, d: nat)
    requires w < n && r < n && d <= Used(n, w, r)
    ensures Used(n, w, Wrap(r + d, n)) == Used(n, w, r) - d
  {
  }
}

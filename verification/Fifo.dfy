/** The reference: an atomic bounded FIFO that remembers everything put in and taken out. */
module Fifo {
  datatype Fifo<T> = Fifo(bound: nat, queue: seq<T>, entered: seq<T>, left: seq<T>)

  datatype Event<T> = Internal | Enqueue(items: seq<T>) | Dequeue(items: seq<T>)

  /** One atomic operation: a batch enters at the back if it fits, a batch leaves at the front. */
  ghost predicate Step<T>(q: Fifo<T>, e: Event<T>, q': Fifo<T>) {
    match e
    case Internal => q' == q
    case Enqueue(items) =>
      && |q.queue| + |items| <= q.bound
      && q' == q.(queue := q.queue + items, entered := q.entered + items)
    case Dequeue(items) =>
      && items <= q.queue
      && q' == q.(queue := q.queue[|items|..], left := q.left + items)
  }

  ghost predicate Steps<T(!new)>(q: Fifo<T>, es: seq<Event<T>>, q': Fifo<T>)
    decreases |es|
  {
    if es == [] then q' == q
    else exists mid :: Step(q, es[0], mid) && Steps(mid, es[1..], q')
  }

  ghost predicate Conserved<T>(q: Fifo<T>) {
    q.entered == q.left + q.queue && |q.queue| <= q.bound
  }

  lemma StepConserves<T>(q: Fifo<T>, e: Event<T>, q': Fifo<T>)
    requires Conserved(q) && Step(q, e, q')
    ensures Conserved(q') && q.entered <= q'.entered && q.left <= q'.left
  {
  }

  /** Nothing is lost, invented, duplicated or reordered: what left, then what waits, is what entered. */
  lemma {:induction false} Conservation<T(!new)>(q: Fifo<T>, es: seq<Event<T>>, q': Fifo<T>)
    requires Conserved(q) && Steps(q, es, q')
    ensures Conserved(q') && q.entered <= q'.entered && q.left <= q'.left
    decreases |es|
  {
    if es != [] {
      var mid :| Step(q, es[0], mid) && Steps(mid, es[1..], q');
      StepConserves(q, es[0], mid);
      Conservation(mid, es[1..], q');
    }
  }
}

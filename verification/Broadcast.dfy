/** A bounded broadcast channel, seen from one receiver: a receiver that falls behind
    loses its oldest messages and is told so. */
module Broadcast {

  datatype Inbox<T> = Inbox(queue: seq<T>, lagged: bool)

  /** A message arrives. */
  function Arrive<T>(b: Inbox<T>, x: T, capacity: nat): Inbox<T>
    requires capacity > 0
  {
    if |b.queue| < capacity then b.(queue := b.queue + [x])
    else Inbox(b.queue[|b.queue| - capacity + 1..] + [x], true)
  }

  predicate Pending<T>(b: Inbox<T>) {
    b.lagged || b.queue != []
  }

  /** Something is due about x: it is queued, or something was lost. */
  ghost predicate Signals<T>(b: Inbox<T>, x: T) {
    b.lagged || x in b.queue
  }

  /** Only a full receiver loses anything, and then only its oldest messages, with a notice. */
  lemma ArriveExactly<T>(b: Inbox<T>, x: T, capacity: nat)
    requires capacity > 0
    ensures var b' := Arrive(b, x, capacity); var all := b.queue + [x];
            && (|all| <= capacity ==> b'.queue == all && b'.lagged == b.lagged)
            && (|all| > capacity ==> b'.queue == all[|all| - capacity..] && b'.lagged)
  {}

  /** An arrival is signalled, and no signal is ever lost by one. */
  lemma ArriveSignals<T>(b: Inbox<T>, x: T, y: T, capacity: nat)
    requires capacity > 0
    ensures Signals(Arrive(b, x, capacity), x)
    ensures Signals(b, y) ==> Signals(Arrive(b, x, capacity), y)
  {
    var q := Arrive(b, x, capacity).queue;
    assert q[|q| - 1] == x;
    if y in b.queue && |b.queue| < capacity {
      var i :| 0 <= i < |b.queue| && b.queue[i] == y;
      assert q[i] == y;
    }
  }
}

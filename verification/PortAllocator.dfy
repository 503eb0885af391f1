/** The proxy's round-robin port allocator over [min, max]. */
module PortAllocator {
  import opened Prelude

  type Port = p: int | 0 <= p < 0x1_0000

  /** A counter past the range restarts it. */
  function Clamp(p: Port, min: Port, max: Port): Port {
    if p > max then min else p
  }

  /** The k-th port of a round that starts at `from`. */
  function Nth(min: Port, max: Port, from: int, k: int): int {
    if from + k <= max then from + k else from + k - (max - min + 1)
  }

  /** When in that round port p comes up. */
  function Turn(min: Port, max: Port, from: int, p: int): int {
    if from <= p then p - from else p - from + (max - min + 1)
  }

  /** A full round goes up from the start, wraps at the top, and visits every port of the
      range, each once. */
  lemma RoundIsPermutation(min: Port, max: Port, from: Port)
    requires min <= from <= max
    ensures Nth(min, max, from, 0) == from
    ensures forall k :: 0 <= k < max - min ==>
              Nth(min, max, from, k + 1) == if Nth(min, max, from, k) == max then min else Nth(min, max, from, k) + 1
    ensures forall k :: 0 <= k <= max - min ==> min <= Nth(min, max, from, k) <= max
    ensures forall j, k :: 0 <= j < k <= max - min ==> Nth(min, max, from, j) != Nth(min, max, from, k)
    ensures forall p :: min <= p <= max ==>
              0 <= Turn(min, max, from, p) <= max - min && Nth(min, max, from, Turn(min, max, from, p)) == p
  {}

  class PortAllocator {
    const min: Port
    const max: Port
    var nextPort: Port

    ghost predicate Valid()
      reads this
    {
      min <= max ==> min <= nextPort <= max
    }

    constructor (min: Port, max: Port)
      ensures Valid() && this.min == min && this.max == max && nextPort == min
    {
      this.min, this.max, nextPort := min, max, min;
    }

    /** Bind the first usable port of a round starting at `nextPort`; report exhaustion only
        if no port of the range is usable. The 16-bit counter wraps, but is put back in
        range after every attempt, also at 65535. */
    method Bind(usable: set<int>) returns (r: Option<Port>)
      requires Valid()
      modifies this
      ensures Valid()
      ensures r.None? <==> forall p :: min <= p <= max ==> p !in usable
      ensures r.None? ==> nextPort == old(nextPort)
      ensures r.Some? ==>
                exists k :: && 0 <= k <= max - min && r.value == Nth(min, max, old(nextPort), k) && r.value in usable
                            && (forall j :: 0 <= j < k ==> Nth(min, max, old(nextPort), j) !in usable)
                            && nextPort == (if r.value == max then min else r.value + 1)
    {
      ghost var from := nextPort;
      if min <= max { RoundIsPermutation(min, max, from); }
      var i: int := min;
      while i <= max
        invariant Valid() && min <= i && (min <= max ==> i <= max + 1)
        invariant nextPort == if min <= max then Nth(min, max, from, i - min) else from
        invariant forall j :: 0 <= j < i - min ==> Nth(min, max, from, j) !in usable
      {
        var fetched: Port := nextPort;
        nextPort := (nextPort + 1) % 0x1_0000;
        var port := Clamp(fetched, min, max);
        nextPort := if port >= max then min else port + 1;
        if port in usable {
          assert port == Nth(min, max, from, i - min);
          return Some(port);
        }
        i := i + 1;
      }
      forall p {:trigger p in usable} | min <= p <= max ensures p !in usable {
        assert Nth(min, max, from, Turn(min, max, from, p)) == p;
      }
      return None;
    }
  }
}

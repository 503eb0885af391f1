/** Whole histories of a Space: leases granted, tuples written, handed out,
    announced as expired, lease cancels sent. */
module SpaceHistory {
  import opened Prelude
  import opened SpaceSpec

  /** `granted`: leases issued. `bound`: leases already attached to a written tuple.
      `ids`: tuple ids ever used. `cancelled`: leases whose cancel the manager sent.
      `announced`: tuples sent on the expiry broadcast, in order. */
  datatype World = World(
    store: Store, ids: set<Id>, granted: set<Id>, bound: set<Id>,
    cancelled: set<Id>, announced: seq<Tuple>)

  datatype Event = Grant(lease: Id) | Do(step: Step)

  ghost predicate Init(w: World) {
    w.store == map[] && w.ids == {} && w.bound == {} && w.cancelled == {} && w.announced == []
  }

  /** A write uses a fresh tuple id and a granted lease that backs nothing yet. */
  ghost predicate Writable(w: World, r: Tuple) {
    r.id !in w.ids && r.lease in w.granted && r.lease !in w.bound
  }

  ghost predicate Can(w: World, e: Event) {
    match e
    case Grant(l) => l !in w.granted
    case Do(s) => Enabled(w.store, s) && (s.Write? || s.WriteUnder? ==> Writable(w, s.r))
  }

  ghost predicate BackedBy(a: Store, id: Id, l: Id) {
    id in a && a[id].tuple.lease == l
  }

  ghost predicate Backs(a: Store, l: Id) {
    exists id :: BackedBy(a, id, l)
  }

  /** The tuples a reclaim of lease l removes and announces (at most one). */
  ghost function Expiring(a: Store, l: Id): set<Tuple> {
    set id | id in a && a[id].tuple.lease == l :: a[id].tuple
  }

  ghost predicate Announces(before: seq<Tuple>, after: seq<Tuple>, expiring: set<Tuple>) {
    if expiring == {} then after == before
    else exists r :: r in expiring && after == before + [r]
  }

  ghost predicate Next(w: World, e: Event, w': World) {
    && Can(w, e)
    && match e
       case Grant(l) => w' == w.(granted := w.granted + {l})
       case Do(s) =>
         && w'.store == Apply(w.store, s)
         && w'.granted == w.granted
         && (if s.Write? || s.WriteUnder?
             then w'.ids == w.ids + {s.r.id} && w'.bound == w.bound + {s.r.lease}
             else w'.ids == w.ids && w'.bound == w.bound)
         && w'.cancelled == w.cancelled + Leases(Consumed(w.store, s))
         && Announces(w.announced, w'.announced,
                      if s.Reclaim? then Expiring(w.store, s.lease) else {})
  }

  /** A history: states, and the event between each two of them. */
  ghost predicate IsRun(ws: seq<World>, es: seq<Event>) {
    && |ws| == |es| + 1
    && forall i :: 0 <= i < |es| ==> Next(ws[i], es[i], ws[i + 1])
  }

  // ── The invariant ───────────────────────────────────────────────────────────

  ghost predicate WasAnnounced(announced: seq<Tuple>, l: Id) {
    exists r :: r in announced && r.lease == l
  }

  ghost predicate Inv(w: World) {
    && WF(w.store)
    && (forall l :: l in w.bound && !Backs(w.store, l) ==> l in w.cancelled || WasAnnounced(w.announced, l))
    && w.store.Keys <= w.ids
    && (forall id :: id in w.store ==> w.store[id].tuple.lease in w.bound)
    && w.bound <= w.granted
    && w.cancelled <= w.bound
    && (forall id :: id in w.store ==> w.store[id].tuple.lease !in w.cancelled)
    && (forall r :: r in w.announced ==>
          && r.lease in w.bound && r.lease !in w.cancelled
          && r.id in w.ids && r.id !in w.store && !Backs(w.store, r.lease))
    && (forall i, j :: 0 <= i < j < |w.announced| ==>
          w.announced[i].id != w.announced[j].id && w.announced[i].lease != w.announced[j].lease)
  }

  lemma NextKeepsStoreInv(w: World, e: Event, w': World)
    requires Inv(w) && Next(w, e, w')
    ensures WF(w'.store) && w'.store.Keys <= w'.ids
    ensures forall id :: id in w'.store ==> w'.store[id].tuple.lease in w'.bound
    ensures w'.bound <= w'.granted
  {
    if e.Do? {
      ApplyKeepsWF(w.store, e.step);
      forall id | id in w'.store
        ensures id in w'.ids && w'.store[id].tuple.lease in w'.bound
      {
        ApplyKeepsTuples(w.store, e.step, id);
      }
    }
  }

  /** A tuple id once used and now absent never comes back, and neither does a
      lease that backs nothing any more. */
  lemma GoneStaysGone(w: World, e: Event, w': World)
    requires Inv(w) && Next(w, e, w')
    ensures forall id :: id in w.ids && id !in w.store ==> id !in w'.store
    ensures forall l :: l in w.bound && !Backs(w.store, l) ==> !Backs(w'.store, l)
    ensures w.ids <= w'.ids && w.bound <= w'.bound
  {
    if e.Do? {
      forall id | id in w'.store
        ensures if id in w.store then BackedBy(w.store, id, w'.store[id].tuple.lease)
                else id !in w.ids && w'.store[id].tuple.lease !in w.bound
      {
        ApplyKeepsTuples(w.store, e.step, id);
      }
    }
  }

  /** The leases cancelled by a step backed live tuples before it and back nothing after. */
  lemma CancelsAreSpent(w: World, s: Step, l: Id)
    requires Inv(w) && Enabled(w.store, s) && l in Leases(Consumed(w.store, s))
    ensures l in w.bound && Backs(w.store, l)
    ensures forall id :: id in Apply(w.store, s) && id in w.store ==> Apply(w.store, s)[id].tuple.lease != l
  {
    var r :| r in Consumed(w.store, s) && r.lease == l;
    ConsumedIsGone(w.store, s, r);
    assert BackedBy(w.store, r.id, l);
    forall id | id in Apply(w.store, s) && id in w.store
      ensures Apply(w.store, s)[id].tuple.lease != l
    {
      ApplyKeepsTuples(w.store, s, id);
    }
  }

  lemma NextKeepsCancelled(w: World, e: Event, w': World)
    requires Inv(w) && Next(w, e, w')
    ensures w'.cancelled <= w'.bound
    ensures forall id :: id in w'.store ==> w'.store[id].tuple.lease !in w'.cancelled
    ensures forall r :: r in w.announced ==> r.lease !in w'.cancelled
  {
    if e.Do? {
      forall l | l in w'.cancelled && l !in w.cancelled
        ensures l in w.bound && Backs(w.store, l)
        ensures forall id :: id in w'.store && id in w.store ==> w'.store[id].tuple.lease != l
      {
        CancelsAreSpent(w, e.step, l);
      }
      forall id | id in w'.store
        ensures w'.store[id].tuple.lease !in w'.cancelled
      {
        ApplyKeepsTuples(w.store, e.step, id);
      }
    }
  }

  /** A reclaim announces a tuple that was live and whose lease now backs nothing. */
  lemma ReclaimAnnouncesTheRemoved(w: World, l: Id, w': World, r: Tuple)
    requires Inv(w) && Next(w, Do(Reclaim(l)), w') && r in Expiring(w.store, l)
    ensures r.lease == l && BackedBy(w.store, r.id, l)
    ensures r.id !in w'.store && !Backs(w'.store, l)
  {}

  /** A lease whose tuple this step removed is cancelled or its tuple announced. */
  lemma RemovedIsAccounted(w: World, s: Step, w': World, id: Id)
    requires Inv(w) && Next(w, Do(s), w') && id in w.store && id !in w'.store
    ensures var l := w.store[id].tuple.lease; l in w'.cancelled || WasAnnounced(w'.announced, l)
  {
    var r := w.store[id].tuple;
    if s.Reclaim? {
      assert r in Expiring(w.store, s.lease);
      var x :| x in Expiring(w.store, s.lease) && w'.announced == w.announced + [x];
      assert x in w'.announced;
    } else {
      GoneIsConsumed(w.store, s, id);
    }
  }

  lemma NextKeepsAccounts(w: World, e: Event, w': World, l: Id)
    requires Inv(w) && Next(w, e, w') && l in w'.bound && !Backs(w'.store, l)
    ensures l in w'.cancelled || WasAnnounced(w'.announced, l)
  {
    if e.Grant? {
    } else if l in w.bound && !Backs(w.store, l) {
      assert l in w.cancelled || WasAnnounced(w.announced, l);
      assert forall r :: r in w.announced ==> r in w'.announced;
    } else if l in w.bound {
      var id :| BackedBy(w.store, id, l);
      if id in w'.store {
        ApplyKeepsTuples(w.store, e.step, id);
        assert BackedBy(w'.store, id, l);
      }
      RemovedIsAccounted(w, e.step, w', id);
    } else {
      assert BackedBy(w'.store, e.step.r.id, l);
    }
  }

  lemma NextKeepsInv(w: World, e: Event, w': World)
    requires Inv(w) && Next(w, e, w')
    ensures Inv(w')
  {
    hide Next, Announces;
    forall l | l in w'.bound && !Backs(w'.store, l) ensures l in w'.cancelled || WasAnnounced(w'.announced, l) {
      NextKeepsAccounts(w, e, w', l);
    }
    NextKeepsStoreInv(w, e, w');
    NextKeepsCancelled(w, e, w');
    NextKeepsAnnounced(w, e, w');
  }

  lemma NextKeepsAnnounced(w: World, e: Event, w': World)
    requires Inv(w) && Next(w, e, w')
    ensures forall r :: r in w'.announced ==>
              && r.lease in w'.bound && r.lease !in w'.cancelled
              && r.id in w'.ids && r.id !in w'.store && !Backs(w'.store, r.lease)
    ensures forall i, j :: 0 <= i < j < |w'.announced| ==>
              w'.announced[i].id != w'.announced[j].id && w'.announced[i].lease != w'.announced[j].lease
  {
    NextKeepsStoreInv(w, e, w');
    GoneStaysGone(w, e, w');
    NextKeepsCancelled(w, e, w');
    hide WasAnnounced, Apply, Consumed;
    if e.Do? && e.step.Reclaim? && Expiring(w.store, e.step.lease) != {} {
      var r :| r in Expiring(w.store, e.step.lease) && w'.announced == w.announced + [r];
      ReclaimAnnouncesTheRemoved(w, e.step.lease, w', r);
    } else {
      assert w'.announced == w.announced;
    }
  }

  lemma {:induction false} RunKeepsInv(ws: seq<World>, es: seq<Event>, i: nat)
    requires IsRun(ws, es) && Inv(ws[0]) && i <= |es|
    ensures Inv(ws[i])
  {
    if i > 0 {
      RunKeepsInv(ws, es, i - 1);
      NextKeepsInv(ws[i - 1], es[i - 1], ws[i]);
    }
  }

  lemma {:induction false} RunGrows(ws: seq<World>, es: seq<Event>, i: nat, j: nat)
    requires IsRun(ws, es) && i <= j <= |es|
    ensures ws[i].cancelled <= ws[j].cancelled && ws[i].ids <= ws[j].ids && ws[i].bound <= ws[j].bound
    decreases j
  {
    if i < j {
      RunGrows(ws, es, i, j - 1);
      assert Next(ws[j - 1], es[j - 1], ws[j]);
    }
  }

  // ── Cancels come back as no-ops, expiry is announced once ───────────────────

  /** A lease cancelled by a take, a commit, an abort or a cancel comes back through
      the reclaim cascade to a Space that no longer holds anything for it: nothing
      is removed and nothing announced, however late it arrives. */
  lemma CancelsComeBackEmpty(ws: seq<World>, es: seq<Event>, i: nat, j: nat, l: Id)
    requires IsRun(ws, es) && Init(ws[0]) && i <= j <= |es| && l in ws[i].cancelled
    ensures DropLease(ws[j].store, l) == ws[j].store && Expiring(ws[j].store, l) == {}
  {
    RunKeepsInv(ws, es, j);
    RunGrows(ws, es, i, j);
  }

  /** No tuple, and no lease, is announced as expired twice, and no tuple that was
      consumed (its lease cancelled) is ever announced. */
  lemma ExpiryAnnouncedOnce(ws: seq<World>, es: seq<Event>, n: nat)
    requires IsRun(ws, es) && Init(ws[0]) && n <= |es|
    ensures forall i, j :: 0 <= i < j < |ws[n].announced| ==>
              ws[n].announced[i].id != ws[n].announced[j].id
    ensures forall r :: r in ws[n].announced ==> r.lease !in ws[n].cancelled
  {
    RunKeepsInv(ws, es, n);
  }

  // ── A reclaimed lease stays reclaimed ───────────────────────────────────────

  /** A lease is granted once, and binds to one tuple. */
  lemma GrantsAreKept(w: World, e: Event, w': World)
    requires Inv(w) && Next(w, e, w')
    ensures w.granted <= w'.granted && (e.Grant? ==> e.lease in w'.granted && e.lease !in w.granted && w'.store == w.store)
    ensures e.Do? && (e.step.Write? || e.step.WriteUnder?) ==> e.step.r.lease in w'.bound && e.step.r.lease !in w.bound
  {}

  /** No lease is forgotten: in every history, a lease that was bound to a tuple and backs
      nothing any more had its cancel sent or its tuple announced as expired, and not both. */
  lemma LeasesAccountedFor(ws: seq<World>, es: seq<Event>, n: nat, l: Id)
    requires IsRun(ws, es) && Init(ws[0]) && n <= |es| && l in ws[n].bound && !Backs(ws[n].store, l)
    ensures l in ws[n].cancelled <==> !WasAnnounced(ws[n].announced, l)
  {
    RunKeepsInv(ws, es, n);
  }

  lemma {:induction false} SpentLeaseStaysSpent(ws: seq<World>, es: seq<Event>, i: nat, j: nat, l: Id)
    requires IsRun(ws, es) && Inv(ws[0]) && i <= j <= |es|
    requires l in ws[i].bound && !Backs(ws[i].store, l)
    ensures l in ws[j].bound && !Backs(ws[j].store, l)
    decreases j
  {
    if i < j {
      SpentLeaseStaysSpent(ws, es, i, j - 1, l);
      RunKeepsInv(ws, es, j - 1);
      GoneStaysGone(ws[j - 1], es[j - 1], ws[j]);
    }
  }

  /** Once the lease of a stored tuple is reclaimed, no later commit publishes the
      tuple and no later abort restores it: it is in no buffer and not committed. */
  lemma ReclaimIsFinal(ws: seq<World>, es: seq<Event>, i: nat, j: nat, l: Id)
    requires IsRun(ws, es) && Inv(ws[0]) && i < j <= |es|
    requires es[i] == Do(Reclaim(l)) && l in ws[i].bound
    ensures !Backs(ws[j].store, l)
  {
    var w, w' := ws[i], ws[i + 1];
    assert Next(w, es[i], w');
    assert !Backs(w'.store, l);
    SpentLeaseStaysSpent(ws, es, i + 1, j, l);
  }

  /** A reclaim that overtakes the write (the lease ran out between grant and
      insert) finds nothing, and the tuple then appears without a lease. */
  lemma ReclaimOvertakesWrite(w: World, l: Id) returns (ws: seq<World>, es: seq<Event>)
    requires Inv(w) && l in w.granted && l !in w.bound
    ensures IsRun(ws, es) && ws[0] == w && |es| == 2
    ensures es[0] == Do(Reclaim(l)) && Backs(ws[2].store, l)
  {
    var id := FreshId(w.ids);
    var r := Tuple(id, l, map[], []);
    assert Expiring(w.store, l) == {} by {
      assert forall i :: i in w.store ==> w.store[i].tuple.lease != l;
    }
    var w1 := w.(store := DropLease(w.store, l));
    var w2 := w1.(store := Put(w1.store, r, Public), ids := w.ids + {id}, bound := w.bound + {l});
    assert Next(w, Do(Reclaim(l)), w1) by {
      assert w1.cancelled == w.cancelled + Leases(Consumed(w.store, Reclaim(l)));
    }
    assert Next(w1, Do(Write(r)), w2) by {
      assert w2.cancelled == w1.cancelled + Leases(Consumed(w1.store, Write(r)));
    }
    ws, es := [w, w1, w2], [Do(Reclaim(l)), Do(Write(r))];
    assert BackedBy(w2.store, id, l);
  }

  /** An id outside a finite set. */
  lemma FreshId(used: set<Id>) returns (id: Id)
    ensures id !in used
  {
    if used == {} {
      id := 0;
    } else {
      var top := MaxId(used);
      id := top + 1;
    }
  }

  lemma {:induction false} MaxId(s: set<Id>) returns (m: Id)
    requires s != {}
    ensures m in s && forall x :: x in s ==> x <= m
    decreases |s|
  {
    var x :| x in s;
    if s == {x} {
      m := x;
    } else {
      var rest := s - {x};
      m := MaxId(rest);
      assert s == rest + {x};
      if m < x { m := x; }
    }
  }

  /** Exactly when a reclaim is final: if and only if the write had already stored
      its tuple when the reclaim ran. */
  lemma ReclaimFinalExactly(w: World, l: Id)
    requires Inv(w) && l in w.granted
    ensures l in w.bound
       <==> forall ws: seq<World>, es: seq<Event> :: IsRun(ws, es) && ws[0] == w && es != [] && es[0] == Do(Reclaim(l))
                        ==> !Backs(ws[|es|].store, l)
  {
    if l in w.bound {
      forall ws: seq<World>, es: seq<Event> | IsRun(ws, es) && ws[0] == w && es != [] && es[0] == Do(Reclaim(l))
        ensures !Backs(ws[|es|].store, l)
      {
        ReclaimIsFinal(ws, es, 0, |es|, l);
      }
    } else {
      var ws, es := ReclaimOvertakesWrite(w, l);
    }
  }

  // ── Exclusive takes and isolation ───────────────────────────────────────────

  /** The event hands tuple x to a taker. */
  predicate Hands(e: Event, x: Id) {
    e.Do? && (e.step.Take? || e.step.TakeUnder? || e.step.TakeOwn?) && e.step.id == x
  }

  /** x is either gone for good or parked at p, out of every taker's reach. */
  ghost predicate Parked(w: World, x: Id, p: Place) {
    x in w.ids && (x in w.store ==> w.store[x].place == p)
  }

  lemma ParkedStaysParked(w: World, e: Event, w': World, x: Id, p: Place)
    requires Inv(w) && Next(w, e, w') && Parked(w, x, p)
    requires p.Taken? || p.SelfTaken?
    requires p.Taken? ==> e != Do(Abort(p.txn))
    ensures Parked(w', x, p) && !Hands(e, x)
  {}

  lemma {:induction false} ParkedThroughout(ws: seq<World>, es: seq<Event>, i: nat, j: nat, x: Id, p: Place)
    requires IsRun(ws, es) && Inv(ws[0]) && i <= j <= |es|
    requires Parked(ws[i], x, p) && (p.Taken? || p.SelfTaken?)
    requires forall k :: i <= k < j && p.Taken? ==> es[k] != Do(Abort(p.txn))
    ensures Parked(ws[j], x, p)
    decreases j
  {
    if i < j {
      ParkedThroughout(ws, es, i, j - 1, x, p);
      RunKeepsInv(ws, es, j - 1);
      ParkedStaysParked(ws[j - 1], es[j - 1], ws[j], x, p);
    }
  }

  /** Where a handed-out tuple goes. */
  function ParkedAt(e: Event): Place
    requires e.Do? && (e.step.Take? || e.step.TakeUnder? || e.step.TakeOwn?)
  {
    if e.step.TakeUnder? then Taken(e.step.txn)
    else if e.step.TakeOwn? then SelfTaken(e.step.txn)
    else SelfTaken(0)
  }

  /** However many takers race on scan and remove, a tuple handed out twice was
      first handed to a transaction, and that transaction aborted in between. */
  lemma ExclusiveTake(ws: seq<World>, es: seq<Event>, i: nat, j: nat, x: Id)
    requires IsRun(ws, es) && Init(ws[0]) && i < j < |es|
    requires Hands(es[i], x) && Hands(es[j], x)
    ensures es[i].step.TakeUnder?
    ensures exists k :: i < k < j && es[k] == Do(Abort(es[i].step.txn))
  {
    var p := ParkedAt(es[i]);
    RunKeepsInv(ws, es, i);
    assert Next(ws[i], es[i], ws[i + 1]);
    assert Parked(ws[i + 1], x, p);
    assert Next(ws[j], es[j], ws[j + 1]);
    if forall k :: i + 1 <= k < j && p.Taken? ==> es[k] != Do(Abort(p.txn)) {
      ParkedThroughout(ws, es, i + 1, j, x, p);
    }
  }

  /** x was written under t and t has not committed: it is in t's write or
      self-taken buffer, or gone. */
  ghost predicate Private(w: World, x: Id, t: Id) {
    x in w.ids && (x in w.store ==> w.store[x].place == Written(t) || w.store[x].place == SelfTaken(t))
  }

  lemma {:induction false} PrivateThroughout(ws: seq<World>, es: seq<Event>, i: nat, j: nat, x: Id, t: Id)
    requires IsRun(ws, es) && Inv(ws[0]) && i <= j <= |es| && Private(ws[i], x, t)
    requires forall k :: i <= k < j ==> es[k] != Do(Commit(t))
    ensures Private(ws[j], x, t)
    decreases j
  {
    if i < j {
      PrivateThroughout(ws, es, i, j - 1, x, t);
      RunKeepsInv(ws, es, j - 1);
      assert Next(ws[j - 1], es[j - 1], ws[j]);
    }
  }

  /** Until t commits, nobody else sees what it wrote, and nobody else is handed it. */
  lemma Isolation(ws: seq<World>, es: seq<Event>, i: nat, j: nat, t: Id, r: Tuple, who: Option<Id>)
    requires IsRun(ws, es) && Init(ws[0]) && i < j <= |es| && es[i] == Do(WriteUnder(t, r))
    requires forall k :: i < k < j ==> es[k] != Do(Commit(t))
    requires who != Some(t)
    ensures !Sees(ws[j].store, who, r.id)
    ensures j < |es| && Hands(es[j], r.id) ==> es[j] == Do(TakeOwn(t, r.id))
  {
    assert Next(ws[i], es[i], ws[i + 1]);
    PrivateThroughout(ws, es, i + 1, j, r.id, t);
    if j < |es| { assert Next(ws[j], es[j], ws[j + 1]); }
  }
}

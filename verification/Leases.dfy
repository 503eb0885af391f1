/** The lease store, and renewals racing the reaper. */
module Leases {
  import opened Prelude
  import opened LeasePolicy

  datatype Lease = Lease(resource: Id, grantedAt: int, expiresAt: int, ttl: U64)

  predicate Expired(l: Lease, now: int) {
    l.ttl != FOREVER && now >= l.expiresAt
  }

  /** A lease as read: its id and the record seen. */
  datatype Listing = Listing(id: Id, lease: Lease)

  // ── Store operations, as functions of the stored leases ─────────────────────

  /** The record a renewal writes; none if the lease is gone or the expiry unrepresentable. */
  function Renewal(leases: map<Id, Lease>, id: Id, ttl: U64, now: int): Option<Lease> {
    if id in leases && ExpiryFor(now, ttl).Some?
    then Some(leases[id].(expiresAt := ExpiryFor(now, ttl).value, ttl := ttl))
    else None
  }

  function Renewed(leases: map<Id, Lease>, id: Id, ttl: U64, now: int): map<Id, Lease> {
    match Renewal(leases, id, ttl, now) case None => leases case Some(l) => leases[id := l]
  }

  /** When a lease written at `now` for `ttl` falls due. */
  function Due(now: int, ttl: U64): int {
    if ttl == FOREVER then MAX_UTC else now + ttl
  }

  /** A renewal makes the lease run from now for the new TTL, keeps what it was granted for
      and when, and touches no other lease. */
  lemma RenewalExtends(leases: map<Id, Lease>, id: Id, ttl: U64, now: int)
    requires 0 <= now
    ensures Renewal(leases, id, ttl, now).Some? <==> id in leases && Due(now, ttl) <= MAX_UTC
    ensures id in leases && Due(now, ttl) <= MAX_UTC ==>
              var l := Lease(leases[id].resource, leases[id].grantedAt, Due(now, ttl), ttl);
              Renewal(leases, id, ttl, now) == Some(l) && Renewed(leases, id, ttl, now) == leases[id := l]
    ensures Renewal(leases, id, ttl, now).None? ==> Renewed(leases, id, ttl, now) == leases
  {
    ExpiryExactly(now, ttl);
  }

  /** The stored lease is still the version that was listed. */
  predicate Unchanged(leases: map<Id, Lease>, x: Listing) {
    x.id in leases && leases[x.id].expiresAt == x.lease.expiresAt
  }

  class LeaseStore {
    var leases: map<Id, Lease>

    constructor ()
      ensures leases == map[]
    {
      leases := map[];
    }

    method Create(id: Id, resource: Id, ttl: U64, now: int) returns (r: Option<Lease>)
      requires id !in leases
      modifies this
      ensures r == match ExpiryFor(now, ttl) case None => None case Some(x) => Some(Lease(resource, now, x, ttl))
      ensures leases == if r.Some? then old(leases)[id := r.value] else old(leases)
    {
      var expiry := ExpiryFor(now, ttl);
      if expiry.None? {
        return None;
      }
      r := Some(Lease(resource, now, expiry.value, ttl));
      leases := leases[id := r.value];
    }

    /** Never re-creates: a lease that is gone stays gone. */
    method Renew(id: Id, ttl: U64, now: int) returns (r: Option<Lease>)
      modifies this
      ensures r == Renewal(old(leases), id, ttl, now) && leases == Renewed(old(leases), id, ttl, now)
      ensures r.Some? ==>
                && id in old(leases) && id in leases && leases[id] == r.value
                && r.value == Lease(old(leases)[id].resource, old(leases)[id].grantedAt, Due(now, ttl), ttl)
      ensures r.None? ==> leases == old(leases)
    {
      var expiry := ExpiryFor(now, ttl);
      if expiry.None? || id !in leases {
        return None;
      }
      r := Some(leases[id].(expiresAt := expiry.value, ttl := ttl));
      leases := leases[id := r.value];
    }

    method ListExpired(now: int) returns (rs: seq<Listing>)
      ensures forall x :: x in rs <==> x.id in leases && leases[x.id] == x.lease && Expired(x.lease, now)
      ensures forall i, j :: 0 <= i < j < |rs| ==> rs[i].id != rs[j].id
    {
      rs := [];
      var todo := leases.Keys;
      while todo != {}
        invariant todo <= leases.Keys
        invariant forall x :: x in rs <==> x.id in leases && x.id !in todo && leases[x.id] == x.lease && Expired(x.lease, now)
        invariant forall i, j :: 0 <= i < j < |rs| ==> rs[i].id != rs[j].id
        decreases |todo|
      {
        var id :| id in todo;
        if Expired(leases[id], now) {
          assert forall i :: 0 <= i < |rs| ==> rs[i] in rs;
          rs := rs + [Listing(id, leases[id])];
        }
        todo := todo - {id};
      }
    }

    method RemoveIfUnchanged(x: Listing) returns (removed: bool)
      modifies this
      ensures removed <==> Unchanged(old(leases), x)
      ensures removed <==> x.id in old(leases) && old(leases)[x.id].expiresAt == x.lease.expiresAt
      ensures leases == if removed then old(leases) - {x.id} else old(leases)
    {
      removed := x.id in leases && leases[x.id].expiresAt == x.lease.expiresAt;
      if removed {
        leases := leases - {x.id};
      }
    }

    /** One reaper pass with nobody in between: exactly the expired leases go. */
    method DrainExpired(now: int) returns (removed: seq<Listing>)
      modifies this
      ensures forall id :: id in leases <==> id in old(leases) && !Expired(old(leases)[id], now)
      ensures forall id :: id in leases ==> leases[id] == old(leases)[id]
      ensures forall x :: x in removed <==> x.id in old(leases) && old(leases)[x.id] == x.lease && Expired(x.lease, now)
    {
      var expired := ListExpired(now);
      removed := [];
      for i := 0 to |expired|
        invariant removed == expired[..i]
        invariant forall id :: id in leases <==> id in old(leases) && forall k :: 0 <= k < i ==> expired[k].id != id
        invariant forall id :: id in leases ==> leases[id] == old(leases)[id]
      {
        assert expired[i] in expired;
        var gone := RemoveIfUnchanged(expired[i]);
        if gone {
          removed := removed + [expired[i]];
        }
      }
      assert removed == expired;
      forall id | id in old(leases) && Expired(old(leases)[id], now) ensures id !in leases {
        assert Listing(id, old(leases)[id]) in expired;
      }
    }
  }

  // ── Renewals racing the reaper ──────────────────────────────────────────────

  type Actor = nat

  /** `checked`: renewals past their not-expired check, not yet written. `listed`: records
      the reaper read and will try to remove. `reaped`: what it reported as
      removed (the record it had listed), and when. */
  datatype Reap = Reap(id: Id, lease: Lease, at: int)

  datatype World = World(
    now: int, leases: map<Id, Lease>, used: set<Id>,
    checked: map<Actor, Id>, listed: set<Listing>, reaped: seq<Reap>)

  datatype Step =
    | Tick(now: int)
    | Grant(id: Id, resource: Id, ttl: U64)
    | RenewCheck(a: Actor, id: Id)
    | RenewWrite(a: Actor, ttl: U64)
    | List
    | Collect(x: Listing)
    | Cancel(id: Id)

  ghost predicate Init(w: World) {
    w.now < MAX_UTC && w.leases == map[] && w.used == {} && w.checked == map[] && w.listed == {} && w.reaped == []
  }

  /** The clock never runs backwards and stays representable; lease ids are fresh. */
  ghost predicate Enabled(w: World, s: Step) {
    match s
    case Tick(now) => w.now <= now < MAX_UTC
    case Grant(id, _, ttl) => id !in w.used && ExpiryFor(w.now, ttl).Some?
    case RenewCheck(a, id) => a !in w.checked && id in w.leases && !Expired(w.leases[id], w.now)
    case RenewWrite(a, ttl) => a in w.checked
    case List => true
    case Collect(x) => x in w.listed
    case Cancel(_) => true
  }

  ghost function Next(w: World, s: Step): World
    requires Enabled(w, s)
  {
    match s
    case Tick(now) => w.(now := now)
    case Grant(id, resource, ttl) =>
      w.(leases := w.leases[id := Lease(resource, w.now, ExpiryFor(w.now, ttl).value, ttl)], used := w.used + {id})
    case RenewCheck(a, id) => w.(checked := w.checked[a := id])
    case RenewWrite(a, ttl) => w.(leases := Renewed(w.leases, w.checked[a], ttl, w.now), checked := w.checked - {a})
    case List => w.(listed := w.listed + set id | id in w.leases && Expired(w.leases[id], w.now) :: Listing(id, w.leases[id]))
    case Collect(x) =>
      if Unchanged(w.leases, x)
      then w.(listed := w.listed - {x}, leases := w.leases - {x.id}, reaped := w.reaped + [Reap(x.id, x.lease, w.now)])
      else w.(listed := w.listed - {x})
    case Cancel(id) => w.(leases := w.leases - {id})
  }

  ghost predicate Inv(w: World) {
    && w.now < MAX_UTC
    && w.leases.Keys <= w.used
    && (forall id :: id in w.leases && w.leases[id].ttl == FOREVER ==> w.leases[id].expiresAt == MAX_UTC)
    && (forall x :: x in w.listed ==> x.lease.expiresAt <= w.now && x.lease.ttl != FOREVER && x.id in w.used)
    && (forall i :: 0 <= i < |w.reaped| ==>
          var p := w.reaped[i];
          p.lease.expiresAt <= p.at <= w.now && p.lease.ttl != FOREVER && p.id in w.used && p.id !in w.leases)
    && (forall i, j :: 0 <= i < j < |w.reaped| ==> w.reaped[i].id != w.reaped[j].id)
  }

  lemma NextKeepsInv(w: World, s: Step)
    requires Inv(w) && Enabled(w, s)
    ensures Inv(Next(w, s))
  {}

  ghost predicate IsRun(ws: seq<World>, steps: seq<Step>) {
    && |ws| == |steps| + 1 && Init(ws[0])
    && forall i :: 0 <= i < |steps| ==> Enabled(ws[i], steps[i]) && ws[i + 1] == Next(ws[i], steps[i])
  }

  lemma {:induction false} RunInv(ws: seq<World>, steps: seq<Step>, i: nat)
    requires IsRun(ws, steps) && i <= |steps|
    ensures Inv(ws[i])
  {
    if i > 0 {
      RunInv(ws, steps, i - 1);
      NextKeepsInv(ws[i - 1], steps[i - 1]);
    }
  }

  /** Never reaped early: whatever renewals got in between listing and removing, a lease is
      reaped only at or after the expiry its record carries at that very moment, a FOREVER
      lease never, and no lease twice. */
  lemma NeverReapedEarly(ws: seq<World>, steps: seq<Step>, i: nat, x: Listing)
    requires IsRun(ws, steps) && i < |steps| && steps[i] == Collect(x) && Unchanged(ws[i].leases, x)
    ensures Expired(ws[i].leases[x.id], ws[i].now)
    ensures forall k :: 0 <= k < |ws[i].reaped| ==> ws[i].reaped[k].id != x.id
  {
    RunInv(ws, steps, i);
    assert Enabled(ws[i], steps[i]);
  }

  /** A lease renewed after the reaper listed it survives that listing, if the renewal
      really moved its expiry. */
  lemma RenewalSurvivesListing(ws: seq<World>, steps: seq<Step>, i: nat, x: Listing)
    requires IsRun(ws, steps) && i < |steps| && steps[i] == Collect(x)
    requires x.id in ws[i].leases && !Expired(ws[i].leases[x.id], ws[i].now)
    ensures ws[i + 1].leases == ws[i].leases && ws[i + 1].reaped == ws[i].reaped
  {
    if Unchanged(ws[i].leases, x) { NeverReapedEarly(ws, steps, i, x); }
  }

  /** Time passes as told, and a renewal writes once. */
  lemma ClockAndRenewals(w: World, s: Step)
    requires Enabled(w, s)
    ensures s.Tick? ==> Next(w, s) == w.(now := s.now)
    ensures s.RenewWrite? ==> s.a !in Next(w, s).checked && Next(w, s).now == w.now
  {}

  // ── How a lease ends ────────────────────────────────────────────────────────

  ghost predicate Ends(w: World, s: Step, id: Id) {
    s == Cancel(id)
    || (s.Collect? && s.x.id == id && id in w.leases && w.leases[id].expiresAt == s.x.lease.expiresAt)
  }

  /** A stored lease goes exactly by a cancel, or by the reaper finding the expiry it listed;
      a reaped one is then reported, with the record that was listed. */
  lemma EndsExactly(ws: seq<World>, steps: seq<Step>, i: nat, id: Id)
    requires IsRun(ws, steps) && i < |steps| && id in ws[i].leases
    ensures id !in ws[i + 1].leases <==> Ends(ws[i], steps[i], id)
    ensures steps[i].Collect? && Ends(ws[i], steps[i], id) ==>
              ws[i + 1].reaped == ws[i].reaped + [Reap(id, steps[i].x.lease, ws[i].now)]
    ensures !(steps[i].Collect? && Ends(ws[i], steps[i], steps[i].x.id)) ==> ws[i + 1].reaped == ws[i].reaped
  {
    assert Enabled(ws[i], steps[i]);
  }

  /** And it never comes back. */
  lemma {:induction false} EndedStaysEnded(ws: seq<World>, steps: seq<Step>, i: nat, j: nat, id: Id)
    requires IsRun(ws, steps) && i < j <= |steps| && id in ws[i].leases && Ends(ws[i], steps[i], id)
    ensures id !in ws[j].leases && id in ws[j].used
    decreases j
  {
    RunInv(ws, steps, i);
    if j == i + 1 {
      EndsExactly(ws, steps, i, id);
    } else {
      EndedStaysEnded(ws, steps, i, j - 1, id);
      assert Enabled(ws[j - 1], steps[j - 1]);
    }
  }

  /** An expired lease that no renewal has checked before is never extended: it stays as it
      is until it goes. */
  lemma {:induction false} ExpiredIsNotRenewed(ws: seq<World>, steps: seq<Step>, i: nat, j: nat, id: Id)
    requires IsRun(ws, steps) && i <= j <= |steps| && id in ws[i].leases && Expired(ws[i].leases[id], ws[i].now)
    requires forall a :: a in ws[i].checked ==> ws[i].checked[a] != id
    ensures id in ws[j].leases ==> ws[j].leases[id] == ws[i].leases[id]
    ensures ws[i].now <= ws[j].now && id in ws[j].used && forall a :: a in ws[j].checked ==> ws[j].checked[a] != id
    decreases j
  {
    RunInv(ws, steps, i);
    if i < j {
      ExpiredIsNotRenewed(ws, steps, i, j - 1, id);
      assert Enabled(ws[j - 1], steps[j - 1]);
    }
  }

  // ── A lease keeps its term ──────────────────────────────────────────────────

  /** The step writes lease id for ttl: its grant, or a renewal that finds it. */
  ghost predicate Writes(w: World, s: Step, id: Id, ttl: U64) {
    || (s.Grant? && s.id == id && s.ttl == ttl)
    || (s.RenewWrite? && s.a in w.checked && w.checked[s.a] == id && s.ttl == ttl
        && id in w.leases && ExpiryFor(w.now, ttl).Some?)
  }

  /** The stored record is that of the last write. */
  lemma {:induction false} StoredIsLastWrite(ws: seq<World>, steps: seq<Step>, i: nat, j: nat, id: Id, ttl: U64)
    requires IsRun(ws, steps) && i < j <= |steps| && Enabled(ws[i], steps[i]) && Writes(ws[i], steps[i], id, ttl)
    requires forall k, u :: i < k < j ==> !Writes(ws[k], steps[k], id, u)
    requires id in ws[j].leases
    ensures ws[j].leases[id].expiresAt == Due(ws[i].now, ttl) && ws[j].leases[id].ttl == ttl
    decreases j
  {
    if j > i + 1 {
      var w, s := ws[j - 1], steps[j - 1];
      assert Enabled(w, s) && ws[j] == Next(w, s);
      forall u ensures !Writes(w, s, id, u) {}
      NoWriteNoChange(w, s, id);
      StoredIsLastWrite(ws, steps, i, j - 1, id, ttl);
    }
  }

  lemma NoWriteNoChange(w: World, s: Step, id: Id)
    requires Enabled(w, s) && (forall u :: !Writes(w, s, id, u)) && id in Next(w, s).leases
    ensures id in w.leases && Next(w, s).leases[id] == w.leases[id]
  {
    if s.Grant? { assert !Writes(w, s, id, s.ttl); }
    if s.RenewWrite? { assert !Writes(w, s, id, s.ttl); }
  }

  /** The last write of id before j. */
  lemma {:induction false} LastWrite(ws: seq<World>, steps: seq<Step>, i: nat, j: nat, id: Id, ttl: U64)
    returns (k: nat, u: U64)
    requires i < j <= |steps| < |ws| && Writes(ws[i], steps[i], id, ttl)
    ensures i <= k < j && Writes(ws[k], steps[k], id, u) && (k == i ==> u == ttl)
    ensures forall n, v :: k < n < j ==> !Writes(ws[n], steps[n], id, v)
    decreases j
  {
    var w, s := ws[j - 1], steps[j - 1];
    if j == i + 1 {
      k, u := i, ttl;
    } else if v: U64 :| Writes(w, s, id, v) {
      k, u := j - 1, v;
    } else {
      k, u := LastWrite(ws, steps, i, j - 1, id, ttl);
    }
  }

  /** A lease written for ttl is not reaped before that time is up, unless a later renewal
      wrote an earlier due time. */
  lemma KeepsItsTerm(ws: seq<World>, steps: seq<Step>, i: nat, j: nat, id: Id, ttl: U64, x: Listing)
    requires IsRun(ws, steps) && i < j < |steps| && Writes(ws[i], steps[i], id, ttl)
    requires steps[j] == Collect(x) && x.id == id && Unchanged(ws[j].leases, x)
    ensures || (ttl != FOREVER && ws[j].now >= ws[i].now + ttl)
            || exists k, u :: i < k < j && Writes(ws[k], steps[k], id, u) && Due(ws[k].now, u) < Due(ws[i].now, ttl)
  {
    var k, u := LastWrite(ws, steps, i, j, id, ttl);
    assert Enabled(ws[k], steps[k]);
    StoredIsLastWrite(ws, steps, k, j, id, u);
    NeverReapedEarly(ws, steps, j, x);
    RunInv(ws, steps, j);
  }

  /** And from that time on every listing of expired leases includes it, never before. */
  lemma ListedWhenDue(ws: seq<World>, steps: seq<Step>, i: nat, j: nat, id: Id, ttl: U64)
    requires IsRun(ws, steps) && i < j < |steps| && Writes(ws[i], steps[i], id, ttl) && steps[j] == List
    requires forall k, u :: i < k < j ==> !Writes(ws[k], steps[k], id, u)
    requires id in ws[j].leases
    ensures var x := Listing(id, ws[j].leases[id]);
            x in ws[j + 1].listed <==> x in ws[j].listed || (ttl != FOREVER && ws[j].now >= ws[i].now + ttl)
  {
    assert Enabled(ws[i], steps[i]) && Enabled(ws[j], steps[j]);
    StoredIsLastWrite(ws, steps, i, j, id, ttl);
  }

  /** Reclaimed as expired at most once, over the whole run. */
  lemma ReapedOnce(ws: seq<World>, steps: seq<Step>, n: nat, i: nat, j: nat)
    requires IsRun(ws, steps) && n <= |steps| && i < j < |ws[n].reaped|
    ensures ws[n].reaped[i].id != ws[n].reaped[j].id
    ensures ws[n].reaped[i].lease.expiresAt <= ws[n].reaped[i].at && ws[n].reaped[i].lease.ttl != FOREVER
  {
    RunInv(ws, steps, n);
  }
}

/** How the in-memory store's six maps represent the abstract store, and why every
    in-place update keeps them doing so. */
module SpaceRep {
  import opened Prelude
  import opened Matcher
  import opened SpaceSpec

  type Buffers = map<Id, seq<Tuple>>

  /** Which of the three per-transaction buffers. */
  datatype Kind = Writes | Takes | OwnTakes

  predicate IsKind(p: Place, k: Kind) {
    match k case Writes => p.Written? case Takes => p.Taken? case OwnTakes => p.SelfTaken?
  }

  function At(k: Kind, t: Id): Place {
    match k case Writes => Written(t) case Takes => Taken(t) case OwnTakes => SelfTaken(t)
  }

  function Buf(b: Buffers, t: Id): seq<Tuple> {
    if t in b then b[t] else []
  }

  // ── What each map holds of the abstract store ───────────────────────────────

  ghost predicate TuplesOk(tuples: map<Id, Tuple>, a: Store) {
    tuples == CommittedMap(a)
  }

  /** `lease_index` is exactly the lease map of the committed tuples. */
  ghost predicate LeasesOk(idx: map<Id, Id>, a: Store) {
    && (forall id :: IsCommitted(a, id) ==> a[id].tuple.lease in idx && idx[a[id].tuple.lease] == id)
    && (forall l :: l in idx ==> IsCommitted(a, idx[l]) && a[idx[l]].tuple.lease == l)
  }

  /** `txn_lease_index` is exactly the lease map of the buffered tuples. */
  ghost predicate TxnLeasesOk(idx: map<Id, (Id, Id)>, a: Store) {
    && (forall id :: id in a && !a[id].place.Public? ==>
          a[id].tuple.lease in idx && idx[a[id].tuple.lease] == (a[id].place.txn, id))
    && (forall l :: l in idx ==> Held(a, idx[l].0, idx[l].1) && a[idx[l].1].tuple.lease == l)
  }

  /** A buffer holds exactly the tuples at its place, each once. */
  ghost predicate BufOk(b: Buffers, a: Store, k: Kind) {
    && (forall t, r :: t in b && r in b[t] ==> r.id in a && a[r.id] == Cell(r, At(k, t)))
    && (forall id :: id in a && IsKind(a[id].place, k) ==> a[id].tuple in Buf(b, a[id].place.txn))
    && (forall t :: t in b ==> DistinctIds(b[t]))
  }

  // ── Batches of records ──────────────────────────────────────────────────────

  /** The batch inserted one after the other. */
  ghost function AddAll(m: map<Id, Tuple>, rs: seq<Tuple>): map<Id, Tuple> {
    if rs == [] then m else
      var k := |rs| - 1; AddAll(m, rs[..k])[rs[k].id := rs[k]]
  }

  ghost function IndexAll(m: map<Id, Id>, rs: seq<Tuple>): map<Id, Id> {
    if rs == [] then m else
      var k := |rs| - 1; IndexAll(m, rs[..k])[rs[k].lease := rs[k].id]
  }

  ghost function ForgetAll(m: map<Id, (Id, Id)>, rs: seq<Tuple>): map<Id, (Id, Id)> {
    if rs == [] then m else
      var k := |rs| - 1; ForgetAll(m, rs[..k]) - {rs[k].lease}
  }

  ghost function LeasesOf(rs: seq<Tuple>): set<Id> {
    set i | 0 <= i < |rs| :: rs[i].lease
  }

  /** Every record of the batch is at place p of the abstract store, and is all of it. */
  ghost predicate Batch(rs: seq<Tuple>, a: Store, p: Place) {
    && DistinctIds(rs)
    && (forall r :: r in rs ==> r.id in a && a[r.id] == Cell(r, p))
    && (forall id :: id in a && a[id].place == p ==> a[id].tuple in rs)
  }

  lemma BufferIsBatch(b: Buffers, a: Store, k: Kind, t: Id)
    requires BufOk(b, a, k)
    ensures Batch(Buf(b, t), a, At(k, t))
    ensures SetOf(Buf(b, t)) == TuplesAt(a, At(k, t))
  {}

  function RemoveAt(s: seq<Tuple>, i: nat): seq<Tuple>
    requires i < |s|
  {
    s[..i] + s[i + 1..]
  }

  lemma RemoveAtFacts(s: seq<Tuple>, i: nat)
    requires i < |s| && DistinctIds(s)
    ensures DistinctIds(RemoveAt(s, i))
    ensures forall r :: r in RemoveAt(s, i) <==> r in s && r.id != s[i].id
  {
    forall r | r in s && r.id != s[i].id ensures r in RemoveAt(s, i) {
      var j :| 0 <= j < |s| && s[j] == r;
      assert RemoveAt(s, i)[if j < i then j else j - 1] == r;
    }
  }

  // ── How the maps follow each abstract step ──────────────────────────────────

  lemma DistinctSnoc(s: seq<Tuple>, r: Tuple)
    requires (s != [] ==> DistinctIds(s)) && forall x :: x in s ==> x.id != r.id
    ensures DistinctIds(s + [r])
  {}

  lemma PushKeepsBuf(b: Buffers, a: Store, k: Kind, t: Id, r: Tuple)
    requires BufOk(b, a, k) && (r.id in a ==> !IsKind(a[r.id].place, k))
    ensures BufOk(b[t := Buf(b, t) + [r]], Put(a, r, At(k, t)), k)
  {
    hide DistinctIds;
    var b', a' := b[t := Buf(b, t) + [r]], Put(a, r, At(k, t));
    assert forall x :: x in b'[t] <==> x == r || x in Buf(b, t);
    forall id | id in a' && IsKind(a'[id].place, k) ensures a'[id].tuple in Buf(b', a'[id].place.txn) {
      if id != r.id { assert a[id].tuple in Buf(b, a[id].place.txn); }
    }
    DistinctSnoc(Buf(b, t), r);
  }

  /** Taking one record out of a buffer and out of the place it had. */
  lemma PullKeepsBuf(b: Buffers, a: Store, a': Store, k: Kind, t: Id, i: nat)
    requires WF(a) && BufOk(b, a, k) && t in b && i < |b[t]| && SameBut(a, a', b[t][i].id)
    requires b[t][i].id in a' ==> !IsKind(a'[b[t][i].id].place, k)
    ensures BufOk(b[t := RemoveAt(b[t], i)], a', k)
  {
    hide DistinctIds, RemoveAt;
    RemoveAtFacts(b[t], i);
    var b' := b[t := RemoveAt(b[t], i)];
    assert b[t][i] in b[t];
    forall u: Id, r: Tuple | u in b' && r in b'[u] ensures r.id in a' && a'[r.id] == Cell(r, At(k, u)) {
      assert r in b[u] && r.id != b[t][i].id;
    }
    forall id | id in a' && IsKind(a'[id].place, k) ensures a'[id].tuple in Buf(b', a'[id].place.txn) {
      assert a[id].tuple in Buf(b, a[id].place.txn);
    }
  }

  /** A change that leaves this kind of place alone leaves the buffer right. */
  lemma OtherKeepsBuf(b: Buffers, a: Store, a': Store, k: Kind)
    requires BufOk(b, a, k)
    requires forall id :: id in a && IsKind(a[id].place, k) ==> id in a' && a'[id] == a[id]
    requires forall id :: id in a' && IsKind(a'[id].place, k) ==> id in a && a'[id] == a[id]
    ensures BufOk(b, a', k)
  {}

  /** Dropping t's buffer when nothing is left at its place. */
  lemma ClearKeepsBuf(b: Buffers, a: Store, a': Store, k: Kind, t: Id)
    requires BufOk(b, a, k)
    requires forall id :: id in a && IsKind(a[id].place, k) && a[id].place.txn != t ==> id in a' && a'[id] == a[id]
    requires forall id :: id in a' && IsKind(a'[id].place, k) ==> id in a && a'[id] == a[id] && a[id].place.txn != t
    ensures BufOk(b - {t}, a', k)
  {}

  lemma AddTuple(tuples: map<Id, Tuple>, a: Store, a': Store, r: Tuple)
    requires TuplesOk(tuples, a) && SameBut(a, a', r.id) && r.id in a' && a'[r.id] == Cell(r, Public)
    ensures TuplesOk(tuples[r.id := r], a')
  {}

  lemma DelTuple(tuples: map<Id, Tuple>, a: Store, a': Store, id: Id)
    requires TuplesOk(tuples, a) && SameBut(a, a', id) && !IsCommitted(a', id)
    ensures TuplesOk(tuples - {id}, a')
    ensures !IsCommitted(a, id) ==> TuplesOk(tuples, a')
  {
    if !IsCommitted(a, id) { assert tuples - {id} == tuples; }
  }

  lemma TupleEntry(tuples: map<Id, Tuple>, a: Store, id: Id)
    requires TuplesOk(tuples, a)
    ensures id in tuples <==> IsCommitted(a, id)
    ensures id in tuples ==> tuples[id] == a[id].tuple
  {}

  lemma LeaseElsewhere(a: Store, id: Id)
    requires WF(a) && id in a
    ensures a[id].tuple.id == id
    ensures forall j :: j in a && j != id ==> a[j].tuple.lease != a[id].tuple.lease
  {}

  lemma AddLease(idx: map<Id, Id>, a: Store, a': Store, r: Tuple)
    requires WF(a) && LeasesOk(idx, a) && SameBut(a, a', r.id)
    requires r.id in a' && a'[r.id] == Cell(r, Public)
    requires forall j :: j in a && j != r.id ==> a[j].tuple.lease != r.lease
    requires r.id in a ==> !a[r.id].place.Public?
    ensures LeasesOk(idx[r.lease := r.id], a')
  {}

  lemma DelLease(idx: map<Id, Id>, a: Store, a': Store, id: Id)
    requires WF(a) && LeasesOk(idx, a) && SameBut(a, a', id) && IsCommitted(a, id) && !IsCommitted(a', id)
    ensures LeasesOk(idx - {a[id].tuple.lease}, a')
  {}

  lemma SkipLease(idx: map<Id, Id>, a: Store, a': Store, id: Id)
    requires LeasesOk(idx, a) && SameBut(a, a', id) && !IsCommitted(a, id) && !IsCommitted(a', id)
    ensures LeasesOk(idx, a')
  {}

  lemma AddTxnLease(idx: map<Id, (Id, Id)>, a: Store, a': Store, r: Tuple, p: Place)
    requires WF(a) && TxnLeasesOk(idx, a) && SameBut(a, a', r.id) && !p.Public?
    requires r.id in a' && a'[r.id] == Cell(r, p)
    requires forall j :: j in a && j != r.id ==> a[j].tuple.lease != r.lease
    requires r.id in a ==> a[r.id].tuple == r
    ensures TxnLeasesOk(idx[r.lease := (p.txn, r.id)], a')
  {}

  lemma DelTxnLease(idx: map<Id, (Id, Id)>, a: Store, a': Store, id: Id)
    requires WF(a) && TxnLeasesOk(idx, a) && SameBut(a, a', id)
    requires id in a && !a[id].place.Public? && (id in a' ==> a'[id].place.Public?)
    ensures TxnLeasesOk(idx - {a[id].tuple.lease}, a')
  {}

  lemma SkipTxnLease(idx: map<Id, (Id, Id)>, a: Store, a': Store, id: Id)
    requires TxnLeasesOk(idx, a) && SameBut(a, a', id)
    requires (id in a ==> a[id].place.Public?) && (id in a' ==> a'[id].place.Public?)
    ensures TxnLeasesOk(idx, a')
  {}

  // ── The whole representation ────────────────────────────────────────────────

  datatype Rep = Rep(
    tuples: map<Id, Tuple>, leaseIndex: map<Id, Id>, txnLeaseIndex: map<Id, (Id, Id)>,
    uncommitted: Buffers, txnTaken: Buffers, txnSelfTaken: Buffers)

  /** Partition and index agreement: every live tuple is in exactly the map its place
      names, and the two indexes are exactly the lease maps. */
  ghost predicate Repr(m: Rep, a: Store) {
    && WF(a)
    && TuplesOk(m.tuples, a) && LeasesOk(m.leaseIndex, a) && TxnLeasesOk(m.txnLeaseIndex, a)
    && BufOk(m.uncommitted, a, Writes) && BufOk(m.txnTaken, a, Takes) && BufOk(m.txnSelfTaken, a, OwnTakes)
  }

  lemma InsertRepr(m: Rep, a: Store, r: Tuple)
    requires Repr(m, a) && Fresh(a, r)
    ensures Repr(m.(tuples := m.tuples[r.id := r], leaseIndex := m.leaseIndex[r.lease := r.id]), Put(a, r, Public))
  {
    hide WF, TuplesOk, LeasesOk, TxnLeasesOk, BufOk;
    var a' := Put(a, r, Public);
    ApplyKeepsWF(a, Write(r));
    AddTuple(m.tuples, a, a', r);
    AddLease(m.leaseIndex, a, a', r);
    SkipTxnLease(m.txnLeaseIndex, a, a', r.id);
    OtherKeepsBuf(m.uncommitted, a, a', Writes);
    OtherKeepsBuf(m.txnTaken, a, a', Takes);
    OtherKeepsBuf(m.txnSelfTaken, a, a', OwnTakes);
  }

  lemma InsertUncommittedRepr(m: Rep, a: Store, t: Id, r: Tuple)
    requires Repr(m, a) && Fresh(a, r)
    ensures Repr(m.(txnLeaseIndex := m.txnLeaseIndex[r.lease := (t, r.id)],
                    uncommitted := m.uncommitted[t := Buf(m.uncommitted, t) + [r]]),
                 Put(a, r, Written(t)))
  {
    hide WF, TuplesOk, LeasesOk, TxnLeasesOk, BufOk;
    var a' := Put(a, r, Written(t));
    ApplyKeepsWF(a, WriteUnder(t, r));
    DelTuple(m.tuples, a, a', r.id);
    SkipLease(m.leaseIndex, a, a', r.id);
    AddTxnLease(m.txnLeaseIndex, a, a', r, Written(t));
    PushKeepsBuf(m.uncommitted, a, Writes, t, r);
    OtherKeepsBuf(m.txnTaken, a, a', Takes);
    OtherKeepsBuf(m.txnSelfTaken, a, a', OwnTakes);
  }

  lemma RemoveRepr(m: Rep, a: Store, id: Id)
    requires Repr(m, a) && IsCommitted(a, id)
    ensures Repr(m.(tuples := m.tuples - {id}, leaseIndex := m.leaseIndex - {a[id].tuple.lease}), Drop(a, id))
  {
    hide WF, TuplesOk, LeasesOk, TxnLeasesOk, BufOk;
    var a' := Drop(a, id);
    ApplyKeepsWF(a, Take(id));
    DelTuple(m.tuples, a, a', id);
    DelLease(m.leaseIndex, a, a', id);
    SkipTxnLease(m.txnLeaseIndex, a, a', id);
    OtherKeepsBuf(m.uncommitted, a, a', Writes);
    OtherKeepsBuf(m.txnTaken, a, a', Takes);
    OtherKeepsBuf(m.txnSelfTaken, a, a', OwnTakes);
  }

  lemma TakeUnderRepr(m: Rep, a: Store, t: Id, id: Id)
    requires Repr(m, a) && IsCommitted(a, id)
    ensures var r := a[id].tuple;
            Repr(m.(tuples := m.tuples - {id}, leaseIndex := m.leaseIndex - {r.lease},
                    txnLeaseIndex := m.txnLeaseIndex[r.lease := (t, r.id)],
                    txnTaken := m.txnTaken[t := Buf(m.txnTaken, t) + [r]]),
                 Move(a, id, Taken(t)))
  {
    hide WF, TuplesOk, LeasesOk, TxnLeasesOk, BufOk;
    var r, a' := a[id].tuple, Move(a, id, Taken(t));
    ApplyKeepsWF(a, TakeUnder(t, id));
    LeaseElsewhere(a, id);
    DelTuple(m.tuples, a, a', id);
    DelLease(m.leaseIndex, a, a', id);
    AddTxnLease(m.txnLeaseIndex, a, a', r, Taken(t));
    OtherKeepsBuf(m.uncommitted, a, a', Writes);
    PushKeepsBuf(m.txnTaken, a, Takes, t, r);
    OtherKeepsBuf(m.txnSelfTaken, a, a', OwnTakes);
  }

  lemma BufEntry(b: Buffers, a: Store, k: Kind, t: Id, i: nat)
    requires BufOk(b, a, k) && t in b && i < |b[t]|
    ensures b[t][i].id in a && a[b[t][i].id] == Cell(b[t][i], At(k, t))
  {
    assert b[t][i] in b[t];
  }

  lemma TxnLeaseEntry(idx: map<Id, (Id, Id)>, a: Store, id: Id)
    requires TxnLeasesOk(idx, a) && id in a && !a[id].place.Public?
    ensures a[id].tuple.lease in idx && idx[a[id].tuple.lease] == (a[id].place.txn, id)
  {}

  lemma TakeOwnRepr(m: Rep, a: Store, t: Id, i: nat, r: Tuple)
    requires Repr(m, a) && t in m.uncommitted && i < |m.uncommitted[t]| && r == m.uncommitted[t][i]
    ensures r.id in a && a[r.id] == Cell(r, Written(t))
    ensures Repr(m.(uncommitted := m.uncommitted[t := RemoveAt(m.uncommitted[t], i)],
                    txnSelfTaken := m.txnSelfTaken[t := Buf(m.txnSelfTaken, t) + [r]]),
                 Move(a, r.id, SelfTaken(t)))
  {
    hide WF, TuplesOk, LeasesOk, TxnLeasesOk, BufOk;
    BufEntry(m.uncommitted, a, Writes, t, i);
    TxnLeaseEntry(m.txnLeaseIndex, a, r.id);
    var a' := Move(a, r.id, SelfTaken(t));
    ApplyKeepsWF(a, TakeOwn(t, r.id));
    LeaseElsewhere(a, r.id);
    DelTuple(m.tuples, a, a', r.id);
    SkipLease(m.leaseIndex, a, a', r.id);
    AddTxnLease(m.txnLeaseIndex, a, a', r, SelfTaken(t));
    assert m.txnLeaseIndex[r.lease := (t, r.id)] == m.txnLeaseIndex;
    PullKeepsBuf(m.uncommitted, a, a', Writes, t, i);
    OtherKeepsBuf(m.txnTaken, a, a', Takes);
    PushKeepsBuf(m.txnSelfTaken, a, OwnTakes, t, r);
  }

  // Reclaiming a lease from a buffer.

  function BufOf(m: Rep, k: Kind): Buffers {
    match k case Writes => m.uncommitted case Takes => m.txnTaken case OwnTakes => m.txnSelfTaken
  }

  function WithBuf(m: Rep, k: Kind, b: Buffers): Rep {
    match k case Writes => m.(uncommitted := b) case Takes => m.(txnTaken := b) case OwnTakes => m.(txnSelfTaken := b)
  }

  lemma DropLeaseIsDrop(a: Store, id: Id)
    requires WF(a) && id in a
    ensures DropLease(a, a[id].tuple.lease) == Drop(a, id)
  {
    LeaseElsewhere(a, id);
  }

  lemma NoLeaseNoDrop(m: Rep, a: Store, l: Id)
    requires Repr(m, a) && l !in m.leaseIndex && l !in m.txnLeaseIndex
    ensures DropLease(a, l) == a && forall id :: id in a ==> a[id].tuple.lease != l
  {
    forall id | id in a ensures a[id].tuple.lease != l {
      if IsCommitted(a, id) {} else { TxnLeaseEntry(m.txnLeaseIndex, a, id); }
    }
  }

  lemma ReclaimRepr(m: Rep, a: Store, k: Kind, t: Id, i: nat, r: Tuple)
    requires Repr(m, a) && t in BufOf(m, k) && i < |BufOf(m, k)[t]| && r == BufOf(m, k)[t][i]
    ensures r.id in a && a[r.id].tuple == r
    ensures Repr(WithBuf(m, k, BufOf(m, k)[t := RemoveAt(BufOf(m, k)[t], i)])
                   .(txnLeaseIndex := m.txnLeaseIndex - {r.lease}),
                 Drop(a, r.id))
  {
    hide WF, TuplesOk, LeasesOk, TxnLeasesOk, BufOk;
    BufEntry(BufOf(m, k), a, k, t, i);
    var a' := Drop(a, r.id);
    ApplyKeepsWF(a, Reclaim(r.lease));
    DropLeaseIsDrop(a, r.id);
    DelTuple(m.tuples, a, a', r.id);
    SkipLease(m.leaseIndex, a, a', r.id);
    DelTxnLease(m.txnLeaseIndex, a, a', r.id);
    PullKeepsBuf(BufOf(m, k), a, a', k, t, i);
    if k != Writes { OtherKeepsBuf(m.uncommitted, a, a', Writes); }
    if k != Takes { OtherKeepsBuf(m.txnTaken, a, a', Takes); }
    if k != OwnTakes { OtherKeepsBuf(m.txnSelfTaken, a, a', OwnTakes); }
  }

  // Ending a transaction: the tuples at place p become public, the rest t held is gone.

  ghost predicate Outcome(a: Store, a': Store, t: Id, p: Place) {
    && (forall id :: id in a' <==> id in a && (Held(a, t, id) ==> a[id].place == p))
    && (forall id :: id in a' ==> a'[id] == if a[id].place == p then Cell(a[id].tuple, Public) else a[id])
  }

  ghost predicate DistinctLeases(rs: seq<Tuple>) {
    forall i, j :: 0 <= i < j < |rs| ==> rs[i].lease != rs[j].lease
  }

  lemma BatchLeases(rs: seq<Tuple>, a: Store, p: Place)
    requires WF(a) && Batch(rs, a, p)
    ensures DistinctLeases(rs)
  {
    forall i, j | 0 <= i < j < |rs| ensures rs[i].lease != rs[j].lease {
      assert rs[i] in rs && rs[j] in rs;
    }
  }

  lemma {:induction false} AddAllExact(m: map<Id, Tuple>, rs: seq<Tuple>)
    requires DistinctIds(rs)
    ensures forall r :: r in rs ==> r.id in AddAll(m, rs) && AddAll(m, rs)[r.id] == r
    ensures forall id :: id in AddAll(m, rs) ==>
              (id in m && AddAll(m, rs)[id] == m[id]) || (AddAll(m, rs)[id] in rs && AddAll(m, rs)[id].id == id)
    ensures m.Keys <= AddAll(m, rs).Keys
  {
    if rs != [] {
      var k := |rs| - 1;
      AddAllExact(m, rs[..k]);
      assert forall r :: r in rs <==> r in rs[..k] || r == rs[k];
    }
  }

  lemma {:induction false} IndexAllExact(m: map<Id, Id>, rs: seq<Tuple>)
    requires DistinctLeases(rs)
    ensures forall r :: r in rs ==> r.lease in IndexAll(m, rs) && IndexAll(m, rs)[r.lease] == r.id
    ensures forall l :: l in IndexAll(m, rs) ==>
              (l in m && IndexAll(m, rs)[l] == m[l]) || exists r :: r in rs && r.lease == l && r.id == IndexAll(m, rs)[l]
    ensures m.Keys <= IndexAll(m, rs).Keys
    ensures forall l :: l in m && l !in LeasesOf(rs) ==> IndexAll(m, rs)[l] == m[l]
  {
    if rs != [] {
      var k := |rs| - 1;
      IndexAllExact(m, rs[..k]);
      LeasesOfSnoc(rs, k);
      assert rs[..k + 1] == rs;
      assert forall r :: r in rs <==> r in rs[..k] || r == rs[k];
    }
  }

  lemma {:induction false} ForgetAllExact(m: map<Id, (Id, Id)>, rs: seq<Tuple>)
    ensures ForgetAll(m, rs) == m - LeasesOf(rs)
  {
    if rs != [] {
      var k := |rs| - 1;
      ForgetAllExact(m, rs[..k]);
      LeasesOfSnoc(rs, k);
      assert rs[..k + 1] == rs;
    }
  }

  lemma ForgetTwo(m: map<Id, (Id, Id)>, x: seq<Tuple>, y: seq<Tuple>, gone: set<Id>)
    requires gone == LeasesOf(x) + LeasesOf(y)
    ensures ForgetAll(ForgetAll(m, x), y) == m - gone
  {
    ForgetAllExact(m, x);
    ForgetAllExact(ForgetAll(m, x), y);
  }

  lemma PublishTuples(tuples: map<Id, Tuple>, a: Store, a': Store, rs: seq<Tuple>, t: Id, p: Place)
    requires WF(a) && TuplesOk(tuples, a) && Batch(rs, a, p) && !p.Public? && p.txn == t && Outcome(a, a', t, p)
    ensures TuplesOk(AddAll(tuples, rs), a')
  {
    AddAllExact(tuples, rs);
    var m := AddAll(tuples, rs);
    hide AddAll, DistinctIds;
    forall id | id in m ensures IsCommitted(a', id) && m[id] == a'[id].tuple {
      if id in tuples && m[id] == tuples[id] { TupleEntry(tuples, a, id); }
    }
    forall id | IsCommitted(a', id) ensures id in m {
      if a[id].place == p { assert a[id].tuple in rs; } else { TupleEntry(tuples, a, id); }
    }
    assert m == CommittedMap(a');
  }

  lemma PublishLeases(idx: map<Id, Id>, a: Store, a': Store, rs: seq<Tuple>, t: Id, p: Place)
    requires WF(a) && LeasesOk(idx, a) && Batch(rs, a, p) && DistinctLeases(rs)
    requires !p.Public? && p.txn == t && Outcome(a, a', t, p)
    ensures LeasesOk(IndexAll(idx, rs), a')
  {
    hide IndexAll, DistinctIds, DistinctLeases;
    IndexAllExact(idx, rs);
    var m := IndexAll(idx, rs);
    forall l | l in m ensures IsCommitted(a', m[l]) && a'[m[l]].tuple.lease == l {
      if l in idx && m[l] == idx[l] { LeaseEntry(idx, a, l); }
    }
    forall id | IsCommitted(a', id) ensures a'[id].tuple.lease in m && m[a'[id].tuple.lease] == id {
      if a[id].place == p {
        assert a[id].tuple in rs;
      } else {
        assert IsCommitted(a, id);
        if l :| l == a[id].tuple.lease && l in LeasesOf(rs) {
          var i :| 0 <= i < |rs| && rs[i].lease == l;
          assert rs[i] in rs;
        }
      }
    }
  }

  ghost function HeldLeases(a: Store, t: Id): set<Id> {
    set id | id in a && Held(a, t, id) :: a[id].tuple.lease
  }

  lemma ForgetLeases(idx: map<Id, (Id, Id)>, a: Store, a': Store, gone: set<Id>, t: Id, p: Place)
    requires WF(a) && TxnLeasesOk(idx, a) && !p.Public? && p.txn == t && Outcome(a, a', t, p)
    requires gone == HeldLeases(a, t)
    ensures TxnLeasesOk(idx - gone, a')
  {}

  lemma BatchesCoverHeld(a: Store, t: Id, w: seq<Tuple>, x: seq<Tuple>, o: seq<Tuple>)
    requires Batch(w, a, Written(t)) && Batch(x, a, Taken(t)) && Batch(o, a, SelfTaken(t))
    ensures LeasesOf(w) + LeasesOf(x) + LeasesOf(o) == HeldLeases(a, t)
  {
    forall rs: seq<Tuple>, l: Id | rs in {w, x, o} && l in LeasesOf(rs) ensures l in HeldLeases(a, t) {
      var i :| 0 <= i < |rs| && rs[i].lease == l;
      assert rs[i] in rs && Held(a, t, rs[i].id);
    }
    forall l | l in HeldLeases(a, t) ensures l in LeasesOf(w) + LeasesOf(x) + LeasesOf(o) {
      var id :| id in a && Held(a, t, id) && a[id].tuple.lease == l;
      var rs := if a[id].place.Written? then w else if a[id].place.Taken? then x else o;
      var i :| 0 <= i < |rs| && rs[i] == a[id].tuple;
    }
  }

  lemma EndClearsBuf(b: Buffers, a: Store, a': Store, k: Kind, t: Id, p: Place)
    requires BufOk(b, a, k) && !p.Public? && p.txn == t && Outcome(a, a', t, p)
    ensures BufOk(b - {t}, a', k)
  {
    hide BufOk;
    ClearKeepsBuf(b, a, a', k, t);
  }

  lemma EndRepr(m: Rep, a: Store, a': Store, t: Id, p: Place, published: seq<Tuple>)
    requires Repr(m, a) && !p.Public? && p.txn == t && Outcome(a, a', t, p) && WF(a')
    requires Batch(published, a, p) && DistinctLeases(published)
    ensures Repr(Rep(AddAll(m.tuples, published), IndexAll(m.leaseIndex, published), m.txnLeaseIndex - HeldLeases(a, t),
                     m.uncommitted - {t}, m.txnTaken - {t}, m.txnSelfTaken - {t}),
                 a')
  {
    hide WF, TuplesOk, LeasesOk, TxnLeasesOk, BufOk, Outcome, Batch, Held;
    PublishTuples(m.tuples, a, a', published, t, p);
    PublishLeases(m.leaseIndex, a, a', published, t, p);
    ForgetLeases(m.txnLeaseIndex, a, a', HeldLeases(a, t), t, p);
    EndClearsBuf(m.uncommitted, a, a', Writes, t, p);
    EndClearsBuf(m.txnTaken, a, a', Takes, t, p);
    EndClearsBuf(m.txnSelfTaken, a, a', OwnTakes, t, p);
  }

  lemma OutcomesAreOutcomes(a: Store, t: Id)
    ensures Outcome(a, CommitTxn(a, t), t, Written(t)) && Outcome(a, AbortTxn(a, t), t, Taken(t))
  {}

  lemma LeasesOfSnoc(rs: seq<Tuple>, i: nat)
    requires i < |rs|
    ensures LeasesOf(rs[..i + 1]) == LeasesOf(rs[..i]) + {rs[i].lease}
  {
    var p, q := rs[..i], rs[..i + 1];
    forall l | l in LeasesOf(p) ensures l in LeasesOf(q) {
      var k :| 0 <= k < |p| && p[k].lease == l;
      assert q[k].lease == l;
    }
    assert q[i].lease == rs[i].lease;
  }

  lemma LeasesOfConcat(x: seq<Tuple>, y: seq<Tuple>)
    ensures LeasesOf(x + y) == LeasesOf(x) + LeasesOf(y)
    ensures SetOf(x + y) == SetOf(x) + SetOf(y)
  {
    forall l | l in LeasesOf(y) ensures l in LeasesOf(x + y) {
      var k :| 0 <= k < |y| && y[k].lease == l;
      assert (x + y)[|x| + k].lease == l;
    }
    forall l | l in LeasesOf(x) ensures l in LeasesOf(x + y) {
      var k :| 0 <= k < |x| && x[k].lease == l;
      assert (x + y)[k].lease == l;
    }
  }

  /** What t's three buffers hold, in abstract terms. */
  lemma Holdings(m: Rep, a: Store, t: Id)
    requires Repr(m, a)
    ensures var w, x, o := Buf(m.uncommitted, t), Buf(m.txnTaken, t), Buf(m.txnSelfTaken, t);
            && Batch(w, a, Written(t)) && Batch(x, a, Taken(t)) && Batch(o, a, SelfTaken(t))
            && DistinctIds(w) && DistinctLeases(w) && DistinctIds(x) && DistinctLeases(x)
            && SetOf(w) == TuplesAt(a, Written(t))
            && SetOf(x) == TuplesAt(a, Taken(t))
            && SetOf(o) == TuplesAt(a, SelfTaken(t))
            && LeasesOf(w) + LeasesOf(x) + LeasesOf(o) == HeldLeases(a, t)
  {
    BufferIsBatch(m.uncommitted, a, Writes, t);
    BufferIsBatch(m.txnTaken, a, Takes, t);
    BufferIsBatch(m.txnSelfTaken, a, OwnTakes, t);
    hide TuplesOk, LeasesOk, TxnLeasesOk, BufOk;
    var w, x, o := Buf(m.uncommitted, t), Buf(m.txnTaken, t), Buf(m.txnSelfTaken, t);
    BatchLeases(w, a, Written(t));
    BatchLeases(x, a, Taken(t));
    BatchesCoverHeld(a, t, w, x, o);
  }

  /** Batches at two different places share no tuple. */
  lemma BatchesDistinct(rs: seq<Tuple>, qs: seq<Tuple>, a: Store, p: Place, q: Place)
    requires Batch(rs, a, p) && Batch(qs, a, q) && p != q
    ensures DistinctIds(rs + qs)
  {
    var both := rs + qs;
    forall i, j | 0 <= i < j < |both| ensures both[i].id != both[j].id {
      if i < |rs| <= j { assert rs[i] in rs && qs[j - |rs|] in qs; }
    }
  }

  /** All a commit does to the maps, and what it hands back. */
  lemma CommitFacts(m: Rep, a: Store, t: Id, w: seq<Tuple>, x: seq<Tuple>, o: seq<Tuple>)
    requires Repr(m, a) && w == Buf(m.uncommitted, t) && x == Buf(m.txnTaken, t) && o == Buf(m.txnSelfTaken, t)
    ensures DistinctIds(w) && SetOf(w) == Published(a, Commit(t))
    ensures DistinctIds(x + o) && SetOf(x + o) == Consumed(a, Commit(t))
    ensures Repr(Rep(AddAll(m.tuples, w), IndexAll(m.leaseIndex, w), ForgetAll(ForgetAll(m.txnLeaseIndex, w), x + o),
                     m.uncommitted - {t}, m.txnTaken - {t}, m.txnSelfTaken - {t}),
                 SpaceSpec.CommitTxn(a, t))
  {
    Holdings(m, a, t);
    BatchesDistinct(x, o, a, Taken(t), SelfTaken(t));
    LeasesOfConcat(x, o);
    hide TuplesOk, LeasesOk, TxnLeasesOk, BufOk, WF, Batch, LeasesOf, HeldLeases, DistinctIds, DistinctLeases;
    ForgetTwo(m.txnLeaseIndex, w, x + o, HeldLeases(a, t));
    OutcomesAreOutcomes(a, t);
    ApplyKeepsWF(a, Commit(t));
    EndRepr(m, a, SpaceSpec.CommitTxn(a, t), t, Written(t), w);
  }

  lemma AbortFacts(m: Rep, a: Store, t: Id, w: seq<Tuple>, x: seq<Tuple>, o: seq<Tuple>)
    requires Repr(m, a) && w == Buf(m.uncommitted, t) && x == Buf(m.txnTaken, t) && o == Buf(m.txnSelfTaken, t)
    ensures DistinctIds(x) && SetOf(x) == Published(a, Abort(t))
    ensures DistinctIds(w + o) && SetOf(w + o) == Consumed(a, Abort(t))
    ensures Repr(Rep(AddAll(m.tuples, x), IndexAll(m.leaseIndex, x), ForgetAll(ForgetAll(m.txnLeaseIndex, w + o), x),
                     m.uncommitted - {t}, m.txnTaken - {t}, m.txnSelfTaken - {t}),
                 SpaceSpec.AbortTxn(a, t))
  {
    Holdings(m, a, t);
    BatchesDistinct(w, o, a, Written(t), SelfTaken(t));
    LeasesOfConcat(w, o);
    hide TuplesOk, LeasesOk, TxnLeasesOk, BufOk, WF, Batch, LeasesOf, HeldLeases, DistinctIds, DistinctLeases;
    ForgetTwo(m.txnLeaseIndex, w + o, x, HeldLeases(a, t));
    OutcomesAreOutcomes(a, t);
    ApplyKeepsWF(a, Abort(t));
    EndRepr(m, a, SpaceSpec.AbortTxn(a, t), t, Taken(t), x);
  }

  // Looking things up.

  lemma LeaseEntry(idx: map<Id, Id>, a: Store, l: Id)
    requires LeasesOk(idx, a) && l in idx
    ensures IsCommitted(a, idx[l]) && a[idx[l]].tuple.lease == l
  {}

  lemma TxnLeaseHeld(idx: map<Id, (Id, Id)>, a: Store, l: Id)
    requires TxnLeasesOk(idx, a) && l in idx
    ensures Held(a, idx[l].0, idx[l].1) && a[idx[l].1].tuple.lease == l
  {}

  lemma HeldIsBuffered(m: Rep, a: Store, t: Id, id: Id)
    requires Repr(m, a) && Held(a, t, id)
    ensures exists r: Tuple :: r.id == id &&
              (r in Buf(m.uncommitted, t) || r in Buf(m.txnTaken, t) || r in Buf(m.txnSelfTaken, t))
  {
    hide TuplesOk, LeasesOk, TxnLeasesOk;
    assert a[id].tuple.id == id;
  }

  lemma NoOwnBufferedMatch(b: Buffers, a: Store, t: Id, template: Template)
    requires BufOk(b, a, Writes) && forall r :: r in Buf(b, t) ==> !Matches(template, r.attrs)
    ensures NoOwnMatch(a, t, template)
  {}

  lemma NoCommittedMatch(tuples: map<Id, Tuple>, a: Store, who: Option<Id>, template: Template)
    requires TuplesOk(tuples, a) && forall id :: id in tuples ==> !Matches(template, tuples[id].attrs)
    requires who.Some? ==> NoOwnMatch(a, who.value, template)
    ensures NoneMatch(a, who, template)
  {
    forall id | Sees(a, who, id) ensures !Matches(template, a[id].tuple.attrs) {
      TupleEntry(tuples, a, id);
    }
  }
}

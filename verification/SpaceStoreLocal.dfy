/** The in-memory Space store: six maps changed in place, proved against the abstract store. */
module SpaceStoreLocal {
  import opened Prelude
  import opened Matcher
  import opened SpaceSpec
  import opened SpaceRep

  /** Where a tuple id sits in a buffer. */
  method Position(buf: seq<Tuple>, id: Id) returns (pos: Option<nat>)
    ensures pos.Some? ==> pos.value < |buf| && buf[pos.value].id == id
    ensures pos.None? ==> forall r :: r in buf ==> r.id != id
  {
    for i := 0 to |buf|
      invariant forall k :: 0 <= k < i ==> buf[k].id != id
    {
      if buf[i].id == id {
        return Some(i);
      }
    }
    return None;
  }

  /** The first record of a buffer that matches. */
  method FirstMatch(template: Template, buf: seq<Tuple>) returns (pos: Option<nat>)
    ensures pos.Some? ==> pos.value < |buf| && Matches(template, buf[pos.value].attrs)
    ensures pos.Some? ==> forall k :: 0 <= k < pos.value ==> !Matches(template, buf[k].attrs)
    ensures pos.None? ==> forall r :: r in buf ==> !Matches(template, r.attrs)
  {
    for i := 0 to |buf|
      invariant forall k :: 0 <= k < i ==> !Matches(template, buf[k].attrs)
    {
      if Matches(template, buf[i].attrs) {
        return Some(i);
      }
    }
    return None;
  }

  class SpaceStore {
    var tuples: map<Id, Tuple>
    var leaseIndex: map<Id, Id>
    var uncommitted: Buffers
    var txnTaken: Buffers
    var txnSelfTaken: Buffers
    var txnLeaseIndex: map<Id, (Id, Id)>
    ghost var a: Store

    ghost function State(): Rep
      reads this
    {
      Rep(tuples, leaseIndex, txnLeaseIndex, uncommitted, txnTaken, txnSelfTaken)
    }

    ghost predicate Valid()
      reads this
    {
      Repr(State(), a)
    }

    constructor ()
      ensures Valid() && a == map[]
    {
      tuples, leaseIndex, txnLeaseIndex := map[], map[], map[];
      uncommitted, txnTaken, txnSelfTaken := map[], map[], map[];
      a := map[];
    }

    method Insert(r: Tuple)
      requires Valid() && Fresh(a, r)
      modifies this
      ensures Valid() && a == Put(old(a), r, Public)
    {
      hide WF, TuplesOk, LeasesOk, TxnLeasesOk, BufOk;
      InsertRepr(State(), a, r);
      tuples := tuples[r.id := r];
      leaseIndex := leaseIndex[r.lease := r.id];
      a := Put(a, r, Public);
    }

    method InsertUncommitted(t: Id, r: Tuple)
      requires Valid() && Fresh(a, r)
      modifies this
      ensures Valid() && a == Put(old(a), r, Written(t))
    {
      hide WF, TuplesOk, LeasesOk, TxnLeasesOk, BufOk;
      InsertUncommittedRepr(State(), a, t, r);
      txnLeaseIndex := txnLeaseIndex[r.lease := (t, r.id)];
      uncommitted := uncommitted[t := Buf(uncommitted, t) + [r]];
      a := Put(a, r, Written(t));
    }

    method Remove(id: Id) returns (r: Option<Tuple>)
      requires Valid()
      modifies this
      ensures Valid()
      ensures r == if IsCommitted(old(a), id) then Some(old(a)[id].tuple) else None
      ensures a == if r.Some? then Drop(old(a), id) else old(a)
    {
      hide WF, TuplesOk, LeasesOk, TxnLeasesOk, BufOk;
      TupleEntry(tuples, a, id);
      if id !in tuples {
        return None;
      }
      RemoveRepr(State(), a, id);
      r := Some(tuples[id]);
      tuples := tuples - {id};
      leaseIndex := leaseIndex - {r.value.lease};
      a := Drop(a, id);
    }

    /** Reclaim by lease: the tuple goes, wherever it is. */
    method RemoveByLease(l: Id) returns (r: Option<Tuple>)
      requires Valid()
      modifies this
      ensures Valid() && a == DropLease(old(a), l)
      ensures r.Some? ==> r.value.lease == l && r.value.id in old(a) && old(a)[r.value.id].tuple == r.value
      ensures r.None? ==> forall id :: id in old(a) ==> old(a)[id].tuple.lease != l
    {
      hide WF, TuplesOk, LeasesOk, TxnLeasesOk, BufOk;
      ghost var m := State();
      if l in leaseIndex {
        var id := leaseIndex[l];
        LeaseEntry(leaseIndex, a, l);
        TupleEntry(tuples, a, id);
        RemoveRepr(m, a, id);
        DropLeaseIsDrop(a, id);
        LeaseElsewhere(a, id);
        leaseIndex := leaseIndex - {l};
        if id in tuples {
          r := Some(tuples[id]);
          tuples := tuples - {id};
          a := Drop(a, id);
          return;
        }
      }
      r := ReclaimBuffered(l);
    }

    /** The part for a tuple that is in some transaction's buffer. */
    method ReclaimBuffered(l: Id) returns (r: Option<Tuple>)
      requires Valid() && l !in leaseIndex
      modifies this
      ensures Valid() && a == DropLease(old(a), l)
      ensures r.Some? ==> r.value.lease == l && r.value.id in old(a) && old(a)[r.value.id].tuple == r.value
      ensures r.None? ==> forall id :: id in old(a) ==> old(a)[id].tuple.lease != l
    {
      hide WF, TuplesOk, LeasesOk, TxnLeasesOk, BufOk;
      ghost var m := State();
      if l in txnLeaseIndex {
        var (t, id) := txnLeaseIndex[l];
        TxnLeaseHeld(txnLeaseIndex, a, l);
        HeldIsBuffered(m, a, t, id);
        DropLeaseIsDrop(a, id);
        txnLeaseIndex := txnLeaseIndex - {l};
        var pos := Position(Buf(uncommitted, t), id);
        if pos.Some? {
          r := Some(uncommitted[t][pos.value]);
          ReclaimRepr(m, a, Writes, t, pos.value, r.value);
          uncommitted := uncommitted[t := RemoveAt(uncommitted[t], pos.value)];
          a := Drop(a, id);
          return;
        }
        pos := Position(Buf(txnTaken, t), id);
        if pos.Some? {
          r := Some(txnTaken[t][pos.value]);
          ReclaimRepr(m, a, Takes, t, pos.value, r.value);
          txnTaken := txnTaken[t := RemoveAt(txnTaken[t], pos.value)];
          a := Drop(a, id);
          return;
        }
        pos := Position(Buf(txnSelfTaken, t), id);
        if pos.Some? {
          r := Some(txnSelfTaken[t][pos.value]);
          ReclaimRepr(m, a, OwnTakes, t, pos.value, r.value);
          txnSelfTaken := txnSelfTaken[t := RemoveAt(txnSelfTaken[t], pos.value)];
          a := Drop(a, id);
          return;
        }
      }
      NoLeaseNoDrop(m, a, l);
      return None;
    }

    /** Read: committed tuples first, then the reader's own uncommitted writes. */
    method FindMatch(template: Template, who: Option<Id>) returns (r: Option<Tuple>)
      requires Valid()
      ensures r.Some? ==> Sees(a, who, r.value.id) && a[r.value.id].tuple == r.value && Matches(template, r.value.attrs)
      ensures r.Some? && !IsCommitted(a, r.value.id) ==> NoneMatch(a, None, template)
      ensures r.None? ==> NoneMatch(a, who, template)
    {
      hide WF, TuplesOk, LeasesOk, TxnLeasesOk, BufOk;
      var id := Scan(template, tuples);
      if id.Some? {
        TupleEntry(tuples, a, id.value);
        LeaseElsewhere(a, id.value);
        return Some(tuples[id.value]);
      }
      NoCommittedMatch(tuples, a, None, template);
      if who.Some? {
        var pos := FirstMatch(template, Buf(uncommitted, who.value));
        if pos.Some? {
          BufEntry(uncommitted, a, Writes, who.value, pos.value);
          return Some(uncommitted[who.value][pos.value]);
        }
        NoOwnBufferedMatch(uncommitted, a, who.value, template);
      }
      NoCommittedMatch(tuples, a, who, template);
      return None;
    }

    /** Remove a scanned tuple, unless somebody else got there first. */
    method Claim(id: Id, who: Option<Id>) returns (r: Option<Tuple>)
      requires Valid()
      modifies this
      ensures Valid()
      ensures r == if IsCommitted(old(a), id) then Some(old(a)[id].tuple) else None
      ensures a == if r.None? then old(a)
                   else if who.None? then Drop(old(a), id) else Move(old(a), id, Taken(who.value))
    {
      hide WF, TuplesOk, LeasesOk, TxnLeasesOk, BufOk;
      TupleEntry(tuples, a, id);
      if id !in tuples {
        return None;
      }
      LeaseElsewhere(a, id);
      RemoveRepr(State(), a, id);
      r := Some(tuples[id]);
      if who.Some? {
        TakeUnderRepr(State(), a, who.value, id);
      }
      tuples := tuples - {id};
      leaseIndex := leaseIndex - {r.value.lease};
      if who.Some? {
        txnLeaseIndex := txnLeaseIndex[r.value.lease := (who.value, r.value.id)];
        txnTaken := txnTaken[who.value := Buf(txnTaken, who.value) + [r.value]];
        a := Move(a, id, Taken(who.value));
      } else {
        a := Drop(a, id);
      }
    }

    /** Take one of t's own uncommitted writes. */
    method TakeOwnMatch(template: Template, t: Id) returns (r: Option<Tuple>)
      requires Valid()
      modifies this
      ensures Valid()
      ensures r.None? ==> a == old(a) && State() == old(State()) && NoOwnMatch(a, t, template)
      ensures r.Some? ==>
                && Matches(template, r.value.attrs)
                && r.value.id in old(a) && old(a)[r.value.id] == Cell(r.value, Written(t))
                && a == Move(old(a), r.value.id, SelfTaken(t))
    {
      hide WF, TuplesOk, LeasesOk, TxnLeasesOk, BufOk;
      var pos := FirstMatch(template, Buf(uncommitted, t));
      if pos.None? {
        NoOwnBufferedMatch(uncommitted, a, t, template);
        return None;
      }
      var i := pos.value;
      r := Some(uncommitted[t][i]);
      TakeOwnRepr(State(), a, t, i, r.value);
      uncommitted := uncommitted[t := RemoveAt(uncommitted[t], i)];
      txnSelfTaken := txnSelfTaken[t := Buf(txnSelfTaken, t) + [r.value]];
      a := Move(a, r.value.id, SelfTaken(t));
    }

    /** Take: the taker's own uncommitted writes first, then committed tuples. */
    method TakeMatch(template: Template, who: Option<Id>) returns (r: Option<Tuple>)
      requires Valid()
      modifies this
      ensures Valid()
      ensures r.None? ==> a == old(a) && NoneMatch(old(a), who, template)
      ensures r.Some? ==>
                var id, s := r.value.id, TakeStep(old(a), who, r.value.id);
                && Sees(old(a), who, id) && old(a)[id].tuple == r.value && Matches(template, r.value.attrs)
                && Enabled(old(a), s) && a == Apply(old(a), s)
      ensures r.Some? && who.Some? && IsCommitted(old(a), r.value.id) ==> NoOwnMatch(old(a), who.value, template)
    {
      hide WF, TuplesOk, LeasesOk, TxnLeasesOk, BufOk, Matches, NoOwnMatch;
      if who.Some? {
        r := TakeOwnMatch(template, who.value);
        if r.Some? {
          return;
        }
      }
      var id := Scan(template, tuples);
      if id.None? {
        NoCommittedMatch(tuples, a, who, template);
        return None;
      }
      TupleEntry(tuples, a, id.value);
      LeaseElsewhere(a, id.value);
      r := Claim(id.value, who);
    }

    method HasTxn(t: Id) returns (held: bool)
      requires Valid()
      ensures held == SpaceSpec.HasTxn(a, t)
    {
      BufferIsBatch(uncommitted, a, Writes, t);
      BufferIsBatch(txnTaken, a, Takes, t);
      BufferIsBatch(txnSelfTaken, a, OwnTakes, t);
      hide WF, TuplesOk, LeasesOk, TxnLeasesOk, BufOk;
      var w, x, o := Buf(uncommitted, t), Buf(txnTaken, t), Buf(txnSelfTaken, t);
      held := w != [] || x != [] || o != [];
      if w != [] { assert w[0] in w && Held(a, t, w[0].id); }
      if x != [] { assert x[0] in x && Held(a, t, x[0].id); }
      if o != [] { assert o[0] in o && Held(a, t, o[0].id); }
    }

    /** Take t's three buffers out. */
    method Detach(t: Id) returns (writes: seq<Tuple>, takes: seq<Tuple>, own: seq<Tuple>)
      modifies this`uncommitted, this`txnTaken, this`txnSelfTaken
      ensures writes == Buf(old(uncommitted), t) && uncommitted == old(uncommitted) - {t}
      ensures takes == Buf(old(txnTaken), t) && txnTaken == old(txnTaken) - {t}
      ensures own == Buf(old(txnSelfTaken), t) && txnSelfTaken == old(txnSelfTaken) - {t}
    {
      writes, takes, own := Buf(uncommitted, t), Buf(txnTaken, t), Buf(txnSelfTaken, t);
      uncommitted, txnTaken, txnSelfTaken := uncommitted - {t}, txnTaken - {t}, txnSelfTaken - {t};
    }

    /** Make a batch public: out of the buffers' index, into the visible store and its index. */
    method Publish(rs: seq<Tuple>)
      modifies this`tuples, this`leaseIndex, this`txnLeaseIndex
      ensures tuples == AddAll(old(tuples), rs) && leaseIndex == IndexAll(old(leaseIndex), rs)
      ensures txnLeaseIndex == ForgetAll(old(txnLeaseIndex), rs)
    {
      for i := 0 to |rs|
        invariant tuples == AddAll(old(tuples), rs[..i]) && leaseIndex == IndexAll(old(leaseIndex), rs[..i])
        invariant txnLeaseIndex == ForgetAll(old(txnLeaseIndex), rs[..i])
      {
        assert rs[..i + 1][..i] == rs[..i];
        txnLeaseIndex := txnLeaseIndex - {rs[i].lease};
        tuples := tuples[rs[i].id := rs[i]];
        leaseIndex := leaseIndex[rs[i].lease := rs[i].id];
      }
      assert rs[..|rs|] == rs;
    }

    /** Drop the index entries of a batch that leaves the store. */
    method Forget(rs: seq<Tuple>)
      modifies this`txnLeaseIndex
      ensures txnLeaseIndex == ForgetAll(old(txnLeaseIndex), rs)
    {
      for i := 0 to |rs|
        invariant txnLeaseIndex == ForgetAll(old(txnLeaseIndex), rs[..i])
      {
        assert rs[..i + 1][..i] == rs[..i];
        txnLeaseIndex := txnLeaseIndex - {rs[i].lease};
      }
      assert rs[..|rs|] == rs;
    }

    /** Publish t's writes, finalize its takes; both lists go back for broadcasts and
        lease cancels. */
    method CommitTxn(t: Id) returns (flushed: seq<Tuple>, taken: seq<Tuple>)
      requires Valid()
      modifies this
      ensures Valid() && a == SpaceSpec.CommitTxn(old(a), t)
      ensures DistinctIds(flushed) && SetOf(flushed) == Published(old(a), Commit(t))
      ensures DistinctIds(taken) && SetOf(taken) == Consumed(old(a), Commit(t))
    {
      hide Repr, DistinctIds, AddAll, IndexAll, ForgetAll, SetOf, Published, Consumed;
      CommitFacts(State(), a, t, Buf(uncommitted, t), Buf(txnTaken, t), Buf(txnSelfTaken, t));
      var takes, own;
      flushed, takes, own := Detach(t);
      Publish(flushed);
      taken := takes + own;
      Forget(taken);
      a := SpaceSpec.CommitTxn(a, t);
    }

    /** Discard t's writes, restore its takes; both lists go back for lease cancels and
        broadcasts. */
    method AbortTxn(t: Id) returns (discarded: seq<Tuple>, restored: seq<Tuple>)
      requires Valid()
      modifies this
      ensures Valid() && a == SpaceSpec.AbortTxn(old(a), t)
      ensures DistinctIds(discarded) && SetOf(discarded) == Consumed(old(a), Abort(t))
      ensures DistinctIds(restored) && SetOf(restored) == Published(old(a), Abort(t))
    {
      hide Repr, DistinctIds, AddAll, IndexAll, ForgetAll, SetOf, Published, Consumed;
      AbortFacts(State(), a, t, Buf(uncommitted, t), Buf(txnTaken, t), Buf(txnSelfTaken, t));
      var writes, own;
      writes, restored, own := Detach(t);
      discarded := writes + own;
      Forget(discarded);
      Publish(restored);
      a := SpaceSpec.AbortTxn(a, t);
    }
  }
}

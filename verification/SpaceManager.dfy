/** The Space manager and its participant service over the in-memory store: which lease
    cancels and which broadcasts follow each store operation. */
module SpaceManager {
  import opened Prelude
  import opened Matcher
  import opened Txn
  import opened SpaceSpec
  import SpaceStoreLocal

  function LeaseList(rs: seq<Tuple>): (ls: seq<Id>)
    ensures |ls| == |rs| && forall i :: 0 <= i < |rs| ==> ls[i] == rs[i].lease
  {
    seq(|rs|, i requires 0 <= i < |rs| => rs[i].lease)
  }

  /** A list without repetition is its set, each element once. */
  lemma {:induction false} OnceEach<T>(s: seq<T>)
    requires forall i, j :: 0 <= i < j < |s| ==> s[i] != s[j]
    ensures multiset(s) == multiset(set x | x in s)
  {
    if s != [] {
      var k := |s| - 1;
      OnceEach(s[..k]);
      assert s == s[..k] + [s[k]];
      assert s[k] !in s[..k];
      assert (set x | x in s) == (set x | x in s[..k]) + {s[k]};
    }
  }

  /** Distinct live tuples: each broadcast once, each lease listed once. */
  lemma ListsAreExact(a: Store, rs: seq<Tuple>)
    requires WF(a) && DistinctIds(rs) && forall r :: r in rs ==> r.id in a && a[r.id].tuple == r
    ensures multiset(rs) == multiset(SetOf(rs)) && multiset(LeaseList(rs)) == multiset(Leases(SetOf(rs)))
  {
    var ls := LeaseList(rs);
    forall i, j | 0 <= i < j < |rs| ensures rs[i] != rs[j] && ls[i] != ls[j] { assert rs[i] in rs && rs[j] in rs; }
    OnceEach(rs);
    OnceEach(ls);
    forall l | l in Leases(SetOf(rs)) ensures l in ls {
      var r :| r in rs && r.lease == l;
      var i :| 0 <= i < |rs| && rs[i] == r;
      assert ls[i] == l;
    }
    assert (set l | l in ls) == Leases(SetOf(rs));
  }

  /** Published and consumed tuples are live before the step. */
  lemma EffectsAreLive(a: Store, s: Step, r: Tuple)
    requires WF(a) && (s.Commit? || s.Abort?) && r in Published(a, s) + Consumed(a, s)
    ensures r.id in a && a[r.id].tuple == r
  {}

  /** A step lets at most its own transaction hold something new. */
  lemma HoldersGrow(a: Store, s: Step, holders: set<Id>)
    requires SpaceSpec.Enabled(a, s)
    ensures (forall t :: HasTxn(a, t) ==> t in holders) && (forall t :: By(s, t) ==> t in holders || s.Commit? || s.Abort?) ==>
              forall t :: HasTxn(Apply(a, s), t) ==> t in holders
  {
    forall t | HasTxn(Apply(a, s), t) ensures HasTxn(a, t) || (By(s, t) && !s.Commit? && !s.Abort?) {
      var id :| id in Apply(a, s) && Held(Apply(a, s), t, id);
      if id in a && a[id].place == Apply(a, s)[id].place { assert Held(a, t, id); }
    }
  }

  /** An outcome of t keeps the store well-formed and leaves t holding nothing. */
  lemma EndsHolding(a: Store, t: Id, holders: set<Id>)
    requires WF(a)
    ensures WF(CommitTxn(a, t)) && WF(AbortTxn(a, t))
    ensures (forall u :: HasTxn(a, u) ==> u in holders) ==>
              && (forall u :: HasTxn(CommitTxn(a, t), u) ==> u in holders - {t})
              && (forall u :: HasTxn(AbortTxn(a, t), u) ==> u in holders - {t})
  {
    ApplyKeepsWF(a, Commit(t));
    ApplyKeepsWF(a, Abort(t));
    HoldersGrow(a, Commit(t), holders);
    HoldersGrow(a, Abort(t), holders);
    OutcomeReleasesEverything(a, t);
  }

  /** The two lists an outcome hands back, as cancels and broadcasts. */
  lemma EffectLists(a: Store, s: Step, consumed: seq<Tuple>, published: seq<Tuple>)
    requires WF(a) && (s.Commit? || s.Abort?)
    requires DistinctIds(consumed) && SetOf(consumed) == Consumed(a, s)
    requires DistinctIds(published) && SetOf(published) == Published(a, s)
    ensures multiset(LeaseList(consumed)) == multiset(Leases(Consumed(a, s)))
    ensures multiset(published) == multiset(Published(a, s))
  {
    forall r | r in consumed || r in published ensures r.id in a && a[r.id].tuple == r {
      assert r in SetOf(consumed) || r in SetOf(published);
      EffectsAreLive(a, s, r);
    }
    ListsAreExact(a, consumed);
    ListsAreExact(a, published);
  }

  class SpaceManager {
    const store: SpaceStoreLocal.SpaceStore
    /** Whether a coordinator is configured to enlist with. */
    const enlists: bool
    var enlisted: set<Id>
    /** Everything sent so far: lease cancels, appearances, expirations. */
    var cancels: seq<Id>
    var appeared: seq<Tuple>
    var expired: seq<Tuple>

    /** The Space holds something of a transaction only if it enlisted in it. */
    ghost predicate Valid()
      reads this, store
    {
      store.Valid() && WF(store.a) && (enlists ==> forall t :: HasTxn(store.a, t) ==> t in enlisted)
    }

    constructor (store: SpaceStoreLocal.SpaceStore, enlists: bool)
      requires store.Valid() && store.a == map[]
      ensures Valid() && this.store == store && this.enlists == enlists
      ensures enlisted == {} && cancels == [] && appeared == [] && expired == []
    {
      this.store, this.enlists := store, enlists;
      enlisted, cancels, appeared, expired := {}, [], [], [];
    }

    /** The step ran; exactly the tuples it consumed had their leases cancelled, once each,
        and exactly the tuples it published were broadcast, once each. */
    twostate predicate Ran(s: Step)
      requires SpaceSpec.Enabled(old(store.a), s)
      reads this, store
    {
      && store.a == Apply(old(store.a), s)
      && old(cancels) <= cancels && old(appeared) <= appeared
      && multiset(cancels[|old(cancels)|..]) == multiset(Leases(Consumed(old(store.a), s)))
      && multiset(appeared[|old(appeared)|..]) == multiset(Published(old(store.a), s))
    }

    /** Enlist once per transaction. `accepted` is the coordinator's answer, asked for only
        if this Space has not enlisted yet. */
    method EnsureEnlisted(t: Id, accepted: bool) returns (ok: bool)
      modifies this`enlisted
      ensures ok <==> !enlists || t in old(enlisted) || accepted
      ensures enlisted == if enlists && ok then old(enlisted) + {t} else old(enlisted)
    {
      if !enlists || t in enlisted {
        return true;
      }
      if !accepted {
        return false;
      }
      enlisted := enlisted + {t};
      return true;
    }

    /** Write: visible and broadcast at once, or buffered under a transaction this Space
        has enlisted in; a refused enlistment stores nothing. Ids are fresh. */
    method Write(r: Tuple, who: Option<Id>, accepted: bool) returns (ok: bool)
      requires Valid() && Fresh(store.a, r)
      modifies this, store
      ensures Valid() && expired == old(expired)
      ensures ok <==> who.None? || !enlists || who.value in old(enlisted) || accepted
      ensures if ok then Ran(if who.None? then Step.Write(r) else WriteUnder(who.value, r))
              else store.a == old(store.a) && cancels == old(cancels) && appeared == old(appeared)
    {
      hide SpaceStoreLocal.SpaceStore.Valid;
      if who.Some? {
        ok := EnsureEnlisted(who.value, accepted);
        if !ok {
          return;
        }
        ApplyKeepsWF(store.a, WriteUnder(who.value, r));
        store.InsertUncommitted(who.value, r);
        HoldersGrow(old(store.a), WriteUnder(who.value, r), enlisted);
      } else {
        ApplyKeepsWF(store.a, Step.Write(r));
        store.Insert(r);
        HoldersGrow(old(store.a), Step.Write(r), enlisted);
        appeared := appeared + [r];
        assert appeared[|old(appeared)|..] == [r];
        ok := true;
      }
    }

    /** One attempt at a take; outside a transaction the lease goes at once. */
    method TryTake(template: Template, who: Option<Id>, accepted: bool) returns (ok: bool, r: Option<Tuple>)
      requires Valid()
      modifies this, store
      ensures Valid() && expired == old(expired) && appeared == old(appeared)
      ensures ok <==> who.None? || !enlists || who.value in old(enlisted) || accepted
      ensures !ok ==> r.None?
      ensures r.None? ==> store.a == old(store.a) && cancels == old(cancels)
      ensures ok && r.None? ==> NoneMatch(store.a, who, template)
      ensures r.Some? ==>
                && Sees(old(store.a), who, r.value.id) && Matches(template, r.value.attrs)
                && SpaceSpec.Enabled(old(store.a), TakeStep(old(store.a), who, r.value.id))
                && Ran(TakeStep(old(store.a), who, r.value.id))
    {
      hide SpaceStoreLocal.SpaceStore.Valid, Matches, HasTxn, WF;
      ok, r := true, None;
      if who.Some? {
        ok := EnsureEnlisted(who.value, accepted);
        if !ok {
          return;
        }
      }
      r := store.TakeMatch(template, who);
      if r.Some? {
        ApplyKeepsWF(old(store.a), TakeStep(old(store.a), who, r.value.id));
        HoldersGrow(old(store.a), TakeStep(old(store.a), who, r.value.id), enlisted);
        if who.None? {
          cancels := cancels + [r.value.lease];
          assert cancels[|old(cancels)|..] == [r.value.lease];
          assert Leases({r.value}) == {r.value.lease};
        }
      }
    }

    /** Cancel a visible tuple and its lease. */
    method CancelTuple(id: Id) returns (found: bool)
      requires Valid()
      modifies this, store
      ensures Valid() && found == IsCommitted(old(store.a), id) && expired == old(expired)
      ensures if found then Ran(Cancel(id)) else store.a == old(store.a) && cancels == old(cancels)
    {
      hide SpaceStoreLocal.SpaceStore.Valid, HasTxn;
      var r := store.Remove(id);
      found := r.Some?;
      if found {
        ApplyKeepsWF(old(store.a), Cancel(id));
        HoldersGrow(old(store.a), Cancel(id), enlisted);
        cancels := cancels + [r.value.lease];
        assert cancels[|old(cancels)|..] == [r.value.lease];
        assert Leases({r.value}) == {r.value.lease};
      }
    }

    method CommitSpaceTxn(t: Id)
      requires Valid()
      modifies this, store
      ensures Valid() && Ran(Commit(t)) && enlisted == old(enlisted) - {t} && expired == old(expired)
    {
      hide SpaceStoreLocal.SpaceStore.Valid, Leases, SetOf, Published, Consumed, HasTxn, WF, DistinctIds;
      EndsHolding(store.a, t, enlisted);
      var flushed, taken := store.CommitTxn(t);
      enlisted := enlisted - {t};
      CancelAll(taken);
      AnnounceAll(flushed);
      EffectLists(old(store.a), Commit(t), taken, flushed);
      assert cancels[|old(cancels)|..] == LeaseList(taken) && appeared[|old(appeared)|..] == flushed;
    }

    method AbortSpaceTxn(t: Id)
      requires Valid()
      modifies this, store
      ensures Valid() && Ran(Abort(t)) && enlisted == old(enlisted) - {t} && expired == old(expired)
    {
      hide SpaceStoreLocal.SpaceStore.Valid, Leases, SetOf, Published, Consumed, HasTxn, WF, DistinctIds;
      EndsHolding(store.a, t, enlisted);
      var discarded, restored := store.AbortTxn(t);
      enlisted := enlisted - {t};
      CancelAll(discarded);
      AnnounceAll(restored);
      EffectLists(old(store.a), Abort(t), discarded, restored);
      assert cancels[|old(cancels)|..] == LeaseList(discarded) && appeared[|old(appeared)|..] == restored;
    }

    method CancelAll(rs: seq<Tuple>)
      modifies this`cancels
      ensures cancels == old(cancels) + LeaseList(rs)
    {
      for i := 0 to |rs|
        invariant cancels == old(cancels) + LeaseList(rs)[..i]
      {
        cancels := cancels + [rs[i].lease];
      }
    }

    method AnnounceAll(rs: seq<Tuple>)
      modifies this`appeared
      ensures appeared == old(appeared) + rs
    {
      for i := 0 to |rs|
        invariant appeared == old(appeared) + rs[..i]
      {
        appeared := appeared + [rs[i]];
      }
    }

    /** The reclaim cascade: announce the expiration of what was removed, if anything. */
    method OnTupleExpired(lease: Id)
      requires Valid()
      modifies this, store
      ensures Valid() && store.a == DropLease(old(store.a), lease)
      ensures cancels == old(cancels) && appeared == old(appeared) && enlisted == old(enlisted)
      ensures if exists id :: id in old(store.a) && old(store.a)[id].tuple.lease == lease
              then exists id :: && id in old(store.a) && old(store.a)[id].tuple.lease == lease
                                && expired == old(expired) + [old(store.a)[id].tuple]
              else expired == old(expired)
    {
      hide SpaceStoreLocal.SpaceStore.Valid, HasTxn;
      ApplyKeepsWF(store.a, Reclaim(lease));
      HoldersGrow(store.a, Reclaim(lease), enlisted);
      var r := store.RemoveByLease(lease);
      if r.Some? {
        expired := expired + [r.value];
      }
    }

    /** Vote, 2PC phase one. */
    method Prepare(t: Id) returns (vote: Vote)
      requires Valid()
      ensures vote == SpaceSpec.Prepare(store.a, t)
      ensures vote == if HasTxn(store.a, t) then VotePrepared else VoteNotChanged
    {
      var held := store.HasTxn(t);
      vote := VoteFromWire(if held then 0 else 1);
    }

    /** Vote and commit at once, for a sole participant. */
    method PrepareAndCommit(t: Id) returns (vote: Vote)
      requires Valid()
      modifies this, store
      ensures Valid() && vote == SpaceSpec.Prepare(old(store.a), t) && Ran(Commit(t))
      ensures vote == if old(HasTxn(store.a, t)) then VotePrepared else VoteNotChanged
    {
      hide SpaceStoreLocal.SpaceStore.Valid;
      var held := store.HasTxn(t);
      if held {
        CommitSpaceTxn(t);
        vote := VoteFromWire(0);
      } else {
        NothingHeldNothingToDo(store.a, t);
        assert Leases({}) == {};
        vote := VoteFromWire(1);
      }
    }
  }
}

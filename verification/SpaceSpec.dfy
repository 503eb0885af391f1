/** The abstract tuple space: where every live tuple is, and how each store
    operation moves it. Both providers (in memory and DynamoDB) are proved to
    implement exactly these functions. */
module SpaceSpec {
  import opened Prelude
  import opened Matcher
  import opened Txn

  datatype Tuple = Tuple(id: Id, lease: Id, attrs: Attrs, payload: seq<bv8>)

  /** The one place a live tuple occupies. */
  datatype Place =
    | Public                 // visible to everybody
    | Written(txn: Id)          // written under txn, visible to txn only
    | Taken(txn: Id)            // committed, then taken under txn
    | SelfTaken(txn: Id)        // written under txn, then taken under txn

  datatype Cell = Cell(tuple: Tuple, place: Place)

  /** Live tuples by tuple id; an id that is absent is gone. */
  type Store = map<Id, Cell>

  /** Cells sit under their own id, and no lease backs two tuples. */
  ghost predicate WF(a: Store) {
    && (forall id :: id in a ==> a[id].tuple.id == id)
    && (forall i, j :: i in a && j in a && a[i].tuple.lease == a[j].tuple.lease ==> i == j)
  }

  /** Newly generated tuple and lease ids clash with nothing live. */
  ghost predicate Fresh(a: Store, r: Tuple) {
    && r.id !in a
    && forall i :: i in a ==> a[i].tuple.lease != r.lease
  }

  predicate IsCommitted(a: Store, id: Id) {
    id in a && a[id].place.Public?
  }

  /** The tuple is in one of t's buffers. */
  predicate Held(a: Store, t: Id, id: Id) {
    id in a && !a[id].place.Public? && a[id].place.txn == t
  }

  predicate HasTxn(a: Store, t: Id) {
    exists id :: id in a && Held(a, t, id)
  }

  ghost function CommittedMap(a: Store): map<Id, Tuple> {
    map id | id in a && a[id].place == Public :: a[id].tuple
  }

  /** What the committed map would be had t taken nothing. */
  ghost function View(a: Store, t: Id): map<Id, Tuple> {
    map id | id in a && (a[id].place == Public || a[id].place == Taken(t)) :: a[id].tuple
  }

  /** What a client sees: committed tuples, plus the writes of its own transaction. */
  ghost predicate Sees(a: Store, who: Option<Id>, id: Id) {
    id in a && (a[id].place.Public? || (who.Some? && a[id].place == Written(who.value)))
  }

  // ── Operations ──────────────────────────────────────────────────────────────

  ghost function Put(a: Store, r: Tuple, p: Place): Store {
    a[r.id := Cell(r, p)]
  }

  ghost function Drop(a: Store, id: Id): Store {
    map i | i in a && i != id :: a[i]
  }

  ghost function Move(a: Store, id: Id, p: Place): Store
    requires id in a
  {
    a[id := Cell(a[id].tuple, p)]
  }

  /** Whatever the lease backs is gone, even mid-transaction. */
  ghost function DropLease(a: Store, lease: Id): Store {
    map i | i in a && a[i].tuple.lease != lease :: a[i]
  }

  /** Publish t's writes, finalize its takes. */
  ghost function CommitTxn(a: Store, t: Id): Store {
    map i | i in a && a[i].place != Taken(t) && a[i].place != SelfTaken(t) ::
      if a[i].place == Written(t) then Cell(a[i].tuple, Public) else a[i]
  }

  /** Discard t's writes, restore its takes. */
  ghost function AbortTxn(a: Store, t: Id): Store {
    map i | i in a && a[i].place != Written(t) && a[i].place != SelfTaken(t) ::
      if a[i].place == Taken(t) then Cell(a[i].tuple, Public) else a[i]
  }

  /** The tuples occupying a given place. */
  ghost function TuplesAt(a: Store, p: Place): set<Tuple> {
    set i | i in a && a[i].place == p :: a[i].tuple
  }

  // ── Steps: one successful store operation each ──────────────────────────────

  datatype Step =
    | Write(r: Tuple)
    | WriteUnder(txn: Id, r: Tuple)
    | Take(id: Id)
    | TakeUnder(txn: Id, id: Id)
    | TakeOwn(txn: Id, id: Id)
    | Cancel(id: Id)
    | Reclaim(lease: Id)
    | Commit(txn: Id)
    | Abort(txn: Id)

  ghost predicate Enabled(a: Store, s: Step) {
    match s
    case Write(r) => Fresh(a, r)
    case WriteUnder(_, r) => Fresh(a, r)
    case Take(id) => IsCommitted(a, id)
    case TakeUnder(_, id) => IsCommitted(a, id)
    case TakeOwn(t, id) => id in a && a[id].place == Written(t)
    case Cancel(id) => IsCommitted(a, id)
    case Reclaim(_) => true
    case Commit(_) => true
    case Abort(_) => true
  }

  ghost function Apply(a: Store, s: Step): Store
    requires Enabled(a, s)
  {
    match s
    case Write(r) => Put(a, r, Public)
    case WriteUnder(t, r) => Put(a, r, Written(t))
    case Take(id) => Drop(a, id)
    case TakeUnder(t, id) => Move(a, id, Taken(t))
    case TakeOwn(t, id) => Move(a, id, SelfTaken(t))
    case Cancel(id) => Drop(a, id)
    case Reclaim(l) => DropLease(a, l)
    case Commit(t) => CommitTxn(a, t)
    case Abort(t) => AbortTxn(a, t)
  }

  /** The step is one of transaction t's own. */
  predicate By(s: Step, t: Id) {
    (s.WriteUnder? || s.TakeUnder? || s.TakeOwn? || s.Commit? || s.Abort?) && s.txn == t
  }

  /** The tuples a step makes visible, which the manager then broadcasts. */
  ghost function Published(a: Store, s: Step): set<Tuple> {
    match s
    case Write(r) => {r}
    case Commit(t) => TuplesAt(a, Written(t))
    case Abort(t) => TuplesAt(a, Taken(t))
    case _ => {}
  }

  /** The tuples whose lease the manager cancels after a step. */
  ghost function Consumed(a: Store, s: Step): set<Tuple> {
    match s
    case Take(id) => if id in a then {a[id].tuple} else {}
    case Cancel(id) => if id in a then {a[id].tuple} else {}
    case Commit(t) => TuplesAt(a, Taken(t)) + TuplesAt(a, SelfTaken(t))
    case Abort(t) => TuplesAt(a, Written(t)) + TuplesAt(a, SelfTaken(t))
    case _ => {}
  }

  lemma ApplyKeepsWF(a: Store, s: Step)
    requires WF(a) && Enabled(a, s)
    ensures WF(Apply(a, s))
  {}

  /** Only published tuples become visible. */
  lemma NewlyVisibleIsPublished(a: Store, s: Step, id: Id)
    requires WF(a) && Enabled(a, s)
    requires IsCommitted(Apply(a, s), id) && !IsCommitted(a, id)
    ensures Apply(a, s)[id].tuple in Published(a, s)
  {}

  /** No step rewrites a tuple: what is there afterwards was there before, or was just written. */
  lemma ApplyKeepsTuples(a: Store, s: Step, id: Id)
    requires WF(a) && Enabled(a, s) && id in Apply(a, s)
    ensures if id in a then Apply(a, s)[id].tuple == a[id].tuple
            else (s.Write? || s.WriteUnder?) && Apply(a, s)[id].tuple == s.r
  {}

  /** A consumed tuple was live before the step and is gone after it. */
  lemma ConsumedIsGone(a: Store, s: Step, r: Tuple)
    requires WF(a) && Enabled(a, s) && r in Consumed(a, s)
    ensures r.id in a && a[r.id].tuple == r && r.id !in Apply(a, s)
  {}

  /** And whatever is gone after a step was consumed by it, except by a reclaim, whose lease
      is spent already. */
  lemma GoneIsConsumed(a: Store, s: Step, id: Id)
    requires Enabled(a, s) && !s.Reclaim? && id in a && id !in Apply(a, s)
    ensures a[id].tuple in Consumed(a, s)
  {}

  /** A published tuple is visible after the step and was not before. */
  lemma PublishedIsVisible(a: Store, s: Step, r: Tuple)
    requires WF(a) && Enabled(a, s) && r in Published(a, s)
    ensures IsCommitted(Apply(a, s), r.id) && Apply(a, s)[r.id].tuple == r && !IsCommitted(a, r.id)
  {}

  /** A take or cancel of the tuple, or the reclaim of its lease. */
  predicate Removes(s: Step, r: Tuple) {
    ((s.Take? || s.TakeUnder? || s.Cancel?) && s.id == r.id) || (s.Reclaim? && s.lease == r.lease)
  }

  ghost predicate Visible(a: Store, r: Tuple) {
    IsCommitted(a, r.id) && a[r.id].tuple == r
  }

  /** A tuple is visible after a step exactly if the step published it, or it was visible
      and the step did not remove it. */
  lemma VisibleAfter(a: Store, s: Step, r: Tuple)
    requires WF(a) && Enabled(a, s)
    ensures Visible(Apply(a, s), r) <==> r in Published(a, s) || (Visible(a, r) && !Removes(s, r))
  {}

  // ── Vocabulary shared by the two providers ──────────────────────────────────

  ghost function SetOf(rs: seq<Tuple>): set<Tuple> {
    set r | r in rs
  }

  /** The leases backing a set of tuples. */
  ghost function Leases(ts: set<Tuple>): set<Id> {
    set r | r in ts :: r.lease
  }

  ghost predicate DistinctIds(rs: seq<Tuple>) {
    forall i, j :: 0 <= i < j < |rs| ==> rs[i].id != rs[j].id
  }

  /** The two stores differ at most at one tuple. */
  ghost predicate SameBut(a: Store, a': Store, id: Id) {
    forall j :: j != id ==> (j in a' <==> j in a) && (j in a ==> a'[j] == a[j])
  }

  /** The step a successful take amounts to. */
  ghost function TakeStep(a: Store, who: Option<Id>, id: Id): Step {
    if who.None? then Take(id)
    else if id in a && a[id].place == Written(who.value) then TakeOwn(who.value, id)
    else TakeUnder(who.value, id)
  }

  /** Nothing this client sees matches. */
  ghost predicate NoneMatch(a: Store, who: Option<Id>, template: Template) {
    forall id :: Sees(a, who, id) ==> !Matches(template, a[id].tuple.attrs)
  }

  ghost predicate NoOwnMatch(a: Store, t: Id, template: Template) {
    forall id :: id in a && a[id].place == Written(t) ==> !Matches(template, a[id].tuple.attrs)
  }

  /** Some row of a table that matches, in no particular order. */
  method Scan<K(==)>(template: Template, tuples: map<K, Tuple>) returns (r: Option<K>)
    ensures r.Some? ==> r.value in tuples && Matches(template, tuples[r.value].attrs)
    ensures r.None? ==> forall k :: k in tuples ==> !Matches(template, tuples[k].attrs)
  {
    var todo := tuples.Keys;
    while todo != {}
      invariant todo <= tuples.Keys
      invariant forall k :: k in tuples && k !in todo ==> !Matches(template, tuples[k].attrs)
      decreases |todo|
    {
      var k :| k in todo;
      if Matches(template, tuples[k].attrs) {
        return Some(k);
      }
      todo := todo - {k};
    }
    return None;
  }

  // ── 2PC participant votes ───────────────────────────────────────────────────

  function Prepare(a: Store, t: Id): Vote {
    if HasTxn(a, t) then VotePrepared else VoteNotChanged
  }

  /** The single-participant shortcut: vote, and commit only if there is something to commit. */
  ghost function PrepareAndCommit(a: Store, t: Id): (Vote, Store) {
    if HasTxn(a, t) then (VotePrepared, CommitTxn(a, t)) else (VoteNotChanged, a)
  }

  lemma NothingHeldNothingToDo(a: Store, t: Id)
    requires !HasTxn(a, t)
    ensures CommitTxn(a, t) == a && AbortTxn(a, t) == a
    ensures Consumed(a, Commit(t)) == {} && Published(a, Commit(t)) == {}
    ensures Consumed(a, Abort(t)) == {} && Published(a, Abort(t)) == {}
  {
    assert forall id :: id in a ==> !Held(a, t, id);
  }

  /** `PrepareAndCommit` votes and acts exactly as Prepare followed by Commit. */
  lemma ShortcutIsPrepareThenCommit(a: Store, t: Id)
    ensures PrepareAndCommit(a, t) == (Prepare(a, t), CommitTxn(a, t))
  {
    if !HasTxn(a, t) { NothingHeldNothingToDo(a, t); }
  }

  lemma OutcomeReleasesEverything(a: Store, t: Id)
    ensures !HasTxn(CommitTxn(a, t), t) && !HasTxn(AbortTxn(a, t), t)
  {}

  /** After either outcome, a second delivery of either message changes nothing,
      cancels nothing and broadcasts nothing. */
  lemma DuplicateOutcomeIsNoop(a: Store, t: Id, first: Step, second: Step)
    requires first in {Commit(t), Abort(t)} && second in {Commit(t), Abort(t)}
    ensures Apply(Apply(a, first), second) == Apply(a, first)
    ensures Published(Apply(a, first), second) == {} && Consumed(Apply(a, first), second) == {}
  {
    OutcomeReleasesEverything(a, t);
    NothingHeldNothingToDo(Apply(a, first), t);
  }
}

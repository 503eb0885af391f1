/** The DynamoDB Space store: three tables, one of which keeps both kinds of taken tuple
    and tells them apart by an `own_write` flag. Commit and abort go item by item; between
    items the tables represent some abstract store, and every operation ends on exactly
    the abstract store the in-memory provider ends on. Within an item, between the put and
    the delete, they represent a store up to the one row that is then in two tables
    (`MidPublish`, `MidRestore`); `SpaceStoreSteps` takes operations apart there. */
module SpaceStoreDynamo {
  import opened Prelude
  import opened Matcher
  import opened SpaceSpec

  /** Primary key of the buffer tables: partition txn_id, sort tuple_id. */
  datatype Key = Key(txn: Id, id: Id)

  datatype Item = Item(tuple: Tuple, ownWrite: bool)

  datatype Tables = Tables(tuples: map<Id, Tuple>, uncommitted: map<Key, Tuple>, taken: map<Key, Item>)

  ghost predicate TuplesOk(tuples: map<Id, Tuple>, a: Store) {
    && (forall id :: id in tuples <==> IsCommitted(a, id))
    && (forall id :: id in tuples ==> tuples[id] == a[id].tuple)
  }

  ghost predicate WritesOk(unc: map<Key, Tuple>, a: Store) {
    && (forall k :: k in unc <==> k.id in a && a[k.id].place == Written(k.txn))
    && (forall k :: k in unc ==> unc[k] == a[k.id].tuple)
  }

  function TakenPlace(t: Id, own: bool): Place {
    if own then SelfTaken(t) else Taken(t)
  }

  ghost predicate TakesOk(taken: map<Key, Item>, a: Store) {
    && (forall k :: k in taken <==> k.id in a && (a[k.id].place == Taken(k.txn) || a[k.id].place == SelfTaken(k.txn)))
    && (forall k :: k in taken ==> a[k.id] == Cell(taken[k].tuple, TakenPlace(k.txn, taken[k].ownWrite)))
  }

  ghost predicate Repr(m: Tables, a: Store) {
    WF(a) && TuplesOk(m.tuples, a) && WritesOk(m.uncommitted, a) && TakesOk(m.taken, a)
  }

  // ── One table at a time: a' is a with something done to one tuple ───────────

  lemma SetTuple(tuples: map<Id, Tuple>, a: Store, a': Store, r: Tuple)
    requires TuplesOk(tuples, a) && SameBut(a, a', r.id) && r.id in a' && a'[r.id] == Cell(r, Public)
    ensures TuplesOk(tuples[r.id := r], a')
  {}

  lemma UnsetTuple(tuples: map<Id, Tuple>, a: Store, a': Store, id: Id)
    requires TuplesOk(tuples, a) && SameBut(a, a', id) && !IsCommitted(a', id)
    ensures TuplesOk(tuples - {id}, a')
    ensures !IsCommitted(a, id) ==> TuplesOk(tuples, a')
  {}

  lemma SetWrite(unc: map<Key, Tuple>, a: Store, a': Store, k: Key, r: Tuple)
    requires WritesOk(unc, a) && SameBut(a, a', k.id) && k.id in a' && a'[k.id] == Cell(r, Written(k.txn))
    requires k.id in a ==> !a[k.id].place.Written?
    ensures WritesOk(unc[k := r], a')
  {}

  lemma UnsetWrite(unc: map<Key, Tuple>, a: Store, a': Store, k: Key)
    requires WritesOk(unc, a) && SameBut(a, a', k.id) && (k.id in a' ==> !a'[k.id].place.Written?)
    requires k.id in a && a[k.id].place.Written? ==> a[k.id].place.txn == k.txn
    ensures WritesOk(unc - {k}, a')
    ensures (k.id in a ==> !a[k.id].place.Written?) ==> WritesOk(unc, a')
  {}

  predicate TakenKind(p: Place) {
    p.Taken? || p.SelfTaken?
  }

  lemma SetTake(taken: map<Key, Item>, a: Store, a': Store, k: Key, x: Item)
    requires TakesOk(taken, a) && SameBut(a, a', k.id)
    requires k.id in a' && a'[k.id] == Cell(x.tuple, TakenPlace(k.txn, x.ownWrite))
    requires k.id in a ==> !TakenKind(a[k.id].place)
    ensures TakesOk(taken[k := x], a')
  {}

  lemma UnsetTake(taken: map<Key, Item>, a: Store, a': Store, k: Key)
    requires TakesOk(taken, a) && SameBut(a, a', k.id) && (k.id in a' ==> !TakenKind(a'[k.id].place))
    requires k.id in a && TakenKind(a[k.id].place) ==> a[k.id].place.txn == k.txn
    ensures TakesOk(taken - {k}, a')
    ensures (k.id in a ==> !TakenKind(a[k.id].place)) ==> TakesOk(taken, a')
  {}

  lemma WriteEntry(m: Tables, a: Store, k: Key)
    requires Repr(m, a) && k in m.uncommitted
    ensures k.id in a && a[k.id] == Cell(m.uncommitted[k], Written(k.txn)) && m.uncommitted[k].id == k.id
  {}

  lemma TakeEntry(m: Tables, a: Store, k: Key)
    requires Repr(m, a) && k in m.taken
    ensures k.id in a && a[k.id] == Cell(m.taken[k].tuple, TakenPlace(k.txn, m.taken[k].ownWrite))
    ensures m.taken[k].tuple.id == k.id
  {}

  lemma DropKeepsWF(a: Store, id: Id)
    requires WF(a)
    ensures WF(Drop(a, id))
  {}

  lemma MoveKeepsWF(a: Store, id: Id, p: Place)
    requires WF(a) && id in a
    ensures WF(Move(a, id, p))
  {}

  // ── One operation on one tuple ──────────────────────────────────────────────

  lemma InsertRepr(m: Tables, a: Store, r: Tuple)
    requires Repr(m, a) && Fresh(a, r)
    ensures Repr(m.(tuples := m.tuples[r.id := r]), Put(a, r, Public))
  {
    hide WF, TuplesOk, WritesOk, TakesOk;
    var a' := Put(a, r, Public);
    ApplyKeepsWF(a, Write(r));
    SetTuple(m.tuples, a, a', r);
    UnsetWrite(m.uncommitted, a, a', Key(0, r.id));
    UnsetTake(m.taken, a, a', Key(0, r.id));
  }

  lemma InsertUncommittedRepr(m: Tables, a: Store, t: Id, r: Tuple)
    requires Repr(m, a) && Fresh(a, r)
    ensures Repr(m.(uncommitted := m.uncommitted[Key(t, r.id) := r]), Put(a, r, Written(t)))
  {
    hide WF, TuplesOk, WritesOk, TakesOk;
    var a' := Put(a, r, Written(t));
    ApplyKeepsWF(a, WriteUnder(t, r));
    UnsetTuple(m.tuples, a, a', r.id);
    SetWrite(m.uncommitted, a, a', Key(t, r.id), r);
    UnsetTake(m.taken, a, a', Key(t, r.id));
  }

  lemma DeleteTupleRepr(m: Tables, a: Store, id: Id)
    requires Repr(m, a) && IsCommitted(a, id)
    ensures Repr(m.(tuples := m.tuples - {id}), Drop(a, id))
  {
    hide WF, TuplesOk, WritesOk, TakesOk;
    var a' := Drop(a, id);
    DropKeepsWF(a, id);
    UnsetTuple(m.tuples, a, a', id);
    UnsetWrite(m.uncommitted, a, a', Key(0, id));
    UnsetTake(m.taken, a, a', Key(0, id));
  }

  lemma DeleteWriteRepr(m: Tables, a: Store, k: Key)
    requires Repr(m, a) && k in m.uncommitted
    ensures k.id in a && a[k.id] == Cell(m.uncommitted[k], Written(k.txn))
    ensures Repr(m.(uncommitted := m.uncommitted - {k}), Drop(a, k.id))
  {
    hide WF, TuplesOk, WritesOk, TakesOk;
    var a' := Drop(a, k.id);
    WriteEntry(m, a, k);
    DropKeepsWF(a, k.id);
    UnsetTuple(m.tuples, a, a', k.id);
    UnsetWrite(m.uncommitted, a, a', k);
    UnsetTake(m.taken, a, a', k);
  }

  lemma DeleteTakeRepr(m: Tables, a: Store, k: Key)
    requires Repr(m, a) && k in m.taken
    ensures k.id in a && a[k.id] == Cell(m.taken[k].tuple, TakenPlace(k.txn, m.taken[k].ownWrite))
    ensures Repr(m.(taken := m.taken - {k}), Drop(a, k.id))
  {
    hide WF, TuplesOk, WritesOk, TakesOk;
    var a' := Drop(a, k.id);
    TakeEntry(m, a, k);
    DropKeepsWF(a, k.id);
    UnsetTuple(m.tuples, a, a', k.id);
    UnsetWrite(m.uncommitted, a, a', k);
    UnsetTake(m.taken, a, a', k);
  }

  lemma PublishWriteRepr(m: Tables, a: Store, k: Key)
    requires Repr(m, a) && k in m.uncommitted
    ensures k.id in a && a[k.id] == Cell(m.uncommitted[k], Written(k.txn))
    ensures Repr(m.(tuples := m.tuples[k.id := m.uncommitted[k]], uncommitted := m.uncommitted - {k}), Move(a, k.id, Public))
  {
    hide WF, TuplesOk, WritesOk, TakesOk;
    WriteEntry(m, a, k);
    var a' := Move(a, k.id, Public);
    MoveKeepsWF(a, k.id, Public);
    SetTuple(m.tuples, a, a', m.uncommitted[k]);
    UnsetWrite(m.uncommitted, a, a', k);
    UnsetTake(m.taken, a, a', k);
  }

  lemma PublishTakeRepr(m: Tables, a: Store, k: Key)
    requires Repr(m, a) && k in m.taken
    ensures k.id in a && a[k.id] == Cell(m.taken[k].tuple, TakenPlace(k.txn, m.taken[k].ownWrite))
    ensures Repr(m.(tuples := m.tuples[k.id := m.taken[k].tuple], taken := m.taken - {k}), Move(a, k.id, Public))
  {
    hide WF, TuplesOk, WritesOk, TakesOk;
    TakeEntry(m, a, k);
    var a' := Move(a, k.id, Public);
    MoveKeepsWF(a, k.id, Public);
    SetTuple(m.tuples, a, a', m.taken[k].tuple);
    UnsetWrite(m.uncommitted, a, a', k);
    UnsetTake(m.taken, a, a', k);
  }

  /** The tables without their leftovers: buffered rows whose tuple has already been put
      into the visible table. */
  ghost function Trim(m: Tables, writes: set<Key>, takes: set<Key>): Tables {
    m.(uncommitted := m.uncommitted - writes, taken := m.taken - takes)
  }

  /** After the put of a commit and before its delete: a store but for the one leftover
      row, and with it no store at all. */
  lemma MidPublish(m: Tables, a: Store, k: Key)
    requires Repr(m, a) && k in m.uncommitted
    ensures var mid := m.(tuples := m.tuples[k.id := m.uncommitted[k]]);
            && k.id in a && Repr(Trim(mid, {k}, {}), Move(a, k.id, Public))
            && forall b :: !Repr(mid, b)
  {
    PublishWriteRepr(m, a, k);
    hide WF, TakesOk;
    assert m.taken - {} == m.taken;
  }

  /** The same for the restore of an abort. */
  lemma MidRestore(m: Tables, a: Store, k: Key)
    requires Repr(m, a) && k in m.taken
    ensures var mid := m.(tuples := m.tuples[k.id := m.taken[k].tuple]);
            && k.id in a && Repr(Trim(mid, {}, {k}), Move(a, k.id, Public))
            && forall b :: !Repr(mid, b)
  {
    PublishTakeRepr(m, a, k);
    hide WF, WritesOk;
    assert m.uncommitted - {} == m.uncommitted;
  }

  lemma StashRepr(m: Tables, a: Store, k: Key, x: Item)
    requires Repr(m, a) && Fresh(a, x.tuple) && x.tuple.id == k.id
    ensures Repr(m.(taken := m.taken[k := x]), Put(a, x.tuple, TakenPlace(k.txn, x.ownWrite)))
  {
    hide TuplesOk, WritesOk, TakesOk;
    var a' := Put(a, x.tuple, TakenPlace(k.txn, x.ownWrite));
    UnsetTuple(m.tuples, a, a', k.id);
    UnsetWrite(m.uncommitted, a, a', k);
    SetTake(m.taken, a, a', k, x);
  }

  lemma TakeOwnRepr(m: Tables, a: Store, k: Key)
    requires Repr(m, a) && k in m.uncommitted
    ensures k.id in a && a[k.id] == Cell(m.uncommitted[k], Written(k.txn))
    ensures Repr(m.(uncommitted := m.uncommitted - {k}, taken := m.taken[k := Item(m.uncommitted[k], true)]),
                 Move(a, k.id, SelfTaken(k.txn)))
  {
    hide WF, TuplesOk, WritesOk, TakesOk;
    WriteEntry(m, a, k);
    var a' := Move(a, k.id, SelfTaken(k.txn));
    MoveKeepsWF(a, k.id, SelfTaken(k.txn));
    UnsetTuple(m.tuples, a, a', k.id);
    UnsetWrite(m.uncommitted, a, a', k);
    SetTake(m.taken, a, a', k, Item(m.uncommitted[k], true));
  }

  lemma TakeUnderRepr(m: Tables, a: Store, t: Id, id: Id)
    requires Repr(m, a) && IsCommitted(a, id)
    ensures Repr(m.(tuples := m.tuples - {id}, taken := m.taken[Key(t, id) := Item(a[id].tuple, false)]),
                 Move(a, id, Taken(t)))
  {
    hide WF, TuplesOk, WritesOk, TakesOk;
    var a' := Move(a, id, Taken(t));
    MoveKeepsWF(a, id, Taken(t));
    UnsetTuple(m.tuples, a, a', id);
    UnsetWrite(m.uncommitted, a, a', Key(t, id));
    SetTake(m.taken, a, a', Key(t, id), Item(a[id].tuple, false));
  }

  // ── Item-by-item commit and abort ───────────────────────────────────────────

  /** What a loop over t's items does with an item. */
  datatype Goal = Leave | Delete | Publish

  datatype Plan = Plan(txn: Id, writes: Goal, takes: Goal, own: Goal)

  function GoalOf(plan: Plan, p: Place): Goal {
    match p
    case Public => Leave
    case Written(t) => if t == plan.txn then plan.writes else Leave
    case Taken(t) => if t == plan.txn then plan.takes else Leave
    case SelfTaken(t) => if t == plan.txn then plan.own else Leave
  }

  /** The item has been processed. */
  ghost predicate Done(before: Store, id: Id, plan: Plan, todo: set<Key>) {
    id in before && GoalOf(plan, before[id].place) != Leave && Key(plan.txn, id) !in todo
  }

  /** Halfway through a loop: processed items have met their goal, all else is as it was. */
  ghost predicate Halfway(before: Store, a: Store, plan: Plan, todo: set<Key>) {
    && (forall id :: id in a ==> id in before)
    && (forall id :: id in before && !Done(before, id, plan, todo) ==> id in a && a[id] == before[id])
    && (forall id :: id in before && Done(before, id, plan, todo) ==>
          if GoalOf(plan, before[id].place) == Delete then id !in a
          else id in a && a[id] == Cell(before[id].tuple, Public))
  }

  /** Exactly the processed tuples of the given places have been handed out, once each. */
  ghost predicate HandedOut(before: Store, rs: seq<Tuple>, ps: set<Place>, plan: Plan, todo: set<Key>) {
    && (forall r :: r in rs ==> Done(before, r.id, plan, todo) && before[r.id].tuple == r && before[r.id].place in ps)
    && (forall id :: Done(before, id, plan, todo) && before[id].place in ps ==> before[id].tuple in rs)
    && DistinctIds(rs)
  }

  /** The processed item k either joins the list or is none of its places. */
  lemma HandOut(before: Store, rs: seq<Tuple>, ps: set<Place>, plan: Plan, todo: set<Key>, k: Key, rs': seq<Tuple>)
    requires HandedOut(before, rs, ps, plan, todo) && k in todo && k.txn == plan.txn
    requires k.id in before && GoalOf(plan, before[k.id].place) != Leave && before[k.id].tuple.id == k.id
    requires rs' == if before[k.id].place in ps then rs + [before[k.id].tuple] else rs
    ensures HandedOut(before, rs', ps, plan, todo - {k})
  {
    var r := before[k.id].tuple;
    assert forall x :: x in rs' <==> x in rs || (x == r && before[k.id].place in ps);
    forall x | x in rs' ensures Done(before, x.id, plan, todo - {k}) && before[x.id].tuple == x && before[x.id].place in ps {}
    forall id | Done(before, id, plan, todo - {k}) && before[id].place in ps ensures before[id].tuple in rs' {
      if Key(plan.txn, id) != k { assert Done(before, id, plan, todo); }
    }
    assert forall x :: x in rs ==> x.id != r.id;
  }

  lemma LoopStart(before: Store, plan: Plan, todo: set<Key>)
    requires forall id :: id in before && GoalOf(plan, before[id].place) != Leave ==> Key(plan.txn, id) in todo
    ensures Halfway(before, before, plan, todo) && forall ps :: HandedOut(before, [], ps, plan, todo)
  {}

  /** One item processed: it was untouched so far, and now is where it should go. */
  lemma LoopStep(before: Store, a: Store, a': Store, plan: Plan, todo: set<Key>, k: Key)
    requires Halfway(before, a, plan, todo) && k in todo && k.txn == plan.txn
    requires k.id in a && GoalOf(plan, a[k.id].place) != Leave
    requires a' == if GoalOf(plan, a[k.id].place) == Delete then Drop(a, k.id) else Move(a, k.id, Public)
    ensures Halfway(before, a', plan, todo - {k})
    ensures k.id in before && before[k.id] == a[k.id]
  {
    assert !Done(before, k.id, plan, todo);
    forall id | id in before ensures Done(before, id, plan, todo - {k}) <==> Done(before, id, plan, todo) || id == k.id {}
  }

  /** A finished loop, in closed form. */
  lemma LoopEnd(before: Store, a: Store, plan: Plan)
    requires Halfway(before, a, plan, {})
    ensures forall id :: id in a <==> id in before && GoalOf(plan, before[id].place) != Delete
    ensures forall id :: id in a ==>
              a[id] == if GoalOf(plan, before[id].place) == Publish then Cell(before[id].tuple, Public) else before[id]
  {
    forall id | id in before ensures Done(before, id, plan, {}) <==> GoalOf(plan, before[id].place) != Leave {}
  }

  lemma AllHandedOut(before: Store, rs: seq<Tuple>, p: Place, q: Place, plan: Plan)
    requires HandedOut(before, rs, {p, q}, plan, {}) && GoalOf(plan, p) != Leave && GoalOf(plan, q) != Leave
    ensures SetOf(rs) == TuplesAt(before, p) + TuplesAt(before, q)
  {
    forall id | id in before && before[id].place in {p, q} ensures before[id].tuple in rs {
      assert Done(before, id, plan, {});
    }
    forall r | r in rs ensures r in TuplesAt(before, p) + TuplesAt(before, q) {
      assert r.id in before && before[r.id].place in {p, q} && before[r.id].tuple == r;
    }
  }

  /** A loop leaves the tuples at a place it does not handle. */
  lemma LoopLeaves(before: Store, a: Store, plan: Plan, p: Place)
    requires Halfway(before, a, plan, {}) && GoalOf(plan, p) == Leave && !p.Public?
    ensures TuplesAt(a, p) == TuplesAt(before, p)
  {
    LoopEnd(before, a, plan);
  }

  /** The keys of one transaction's items (a query by partition key). */
  function Query<T>(table: map<Key, T>, t: Id): set<Key> {
    set k | k in table && k.txn == t
  }

  lemma QueryWrites(m: Tables, a: Store, t: Id)
    requires Repr(m, a)
    ensures forall id :: id in a && a[id].place == Written(t) ==> Key(t, id) in Query(m.uncommitted, t)
    ensures forall k :: k in Query(m.uncommitted, t) ==> k in m.uncommitted && k.txn == t
  {}

  lemma QueryTakes(m: Tables, a: Store, t: Id)
    requires Repr(m, a)
    ensures forall id :: id in a && a[id].place in {Taken(t), SelfTaken(t)} ==> Key(t, id) in Query(m.taken, t)
    ensures forall k :: k in Query(m.taken, t) ==> k in m.taken && k.txn == t
  {}

  lemma CommitLoops(before: Store, mid: Store, after: Store, t: Id)
    requires Halfway(before, mid, Plan(t, Publish, Leave, Leave), {})
    requires Halfway(mid, after, Plan(t, Leave, Delete, Delete), {})
    ensures after == SpaceSpec.CommitTxn(before, t)
  {
    hide Halfway;
    LoopEnd(before, mid, Plan(t, Publish, Leave, Leave));
    LoopEnd(mid, after, Plan(t, Leave, Delete, Delete));
  }

  lemma AbortLoops(before: Store, mid: Store, after: Store, t: Id)
    requires Halfway(before, mid, Plan(t, Delete, Leave, Leave), {})
    requires Halfway(mid, after, Plan(t, Leave, Publish, Delete), {})
    ensures after == SpaceSpec.AbortTxn(before, t)
  {
    hide Halfway;
    LoopEnd(before, mid, Plan(t, Delete, Leave, Leave));
    LoopEnd(mid, after, Plan(t, Leave, Publish, Delete));
  }

  /** Commit is its two loops, one after the other. */
  lemma CommitInTwo(before: Store, mid: Store, after: Store, t: Id, flushed: seq<Tuple>, consumed: seq<Tuple>)
    requires Halfway(before, mid, Plan(t, Publish, Leave, Leave), {})
    requires Halfway(mid, after, Plan(t, Leave, Delete, Delete), {})
    requires HandedOut(before, flushed, {Written(t)}, Plan(t, Publish, Leave, Leave), {})
    requires HandedOut(mid, consumed, {Taken(t), SelfTaken(t)}, Plan(t, Leave, Delete, Delete), {})
    ensures after == SpaceSpec.CommitTxn(before, t)
    ensures DistinctIds(flushed) && SetOf(flushed) == Published(before, Commit(t))
    ensures DistinctIds(consumed) && SetOf(consumed) == Consumed(before, Commit(t))
  {
    assert DistinctIds(flushed) && DistinctIds(consumed);
    hide Halfway, HandedOut, SetOf, TuplesAt;
    CommitLoops(before, mid, after, t);
    assert {Written(t), Written(t)} == {Written(t)};
    AllHandedOut(before, flushed, Written(t), Written(t), Plan(t, Publish, Leave, Leave));
    AllHandedOut(mid, consumed, Taken(t), SelfTaken(t), Plan(t, Leave, Delete, Delete));
    LoopLeaves(before, mid, Plan(t, Publish, Leave, Leave), Taken(t));
    LoopLeaves(before, mid, Plan(t, Publish, Leave, Leave), SelfTaken(t));
  }

  /** What the first loop deletes the second cannot meet. */
  lemma WritesAreNotOwn(before: Store, mid: Store, t: Id, writes: seq<Tuple>, own: seq<Tuple>)
    requires Halfway(before, mid, Plan(t, Delete, Leave, Leave), {})
    requires HandedOut(before, writes, {Written(t)}, Plan(t, Delete, Leave, Leave), {})
    requires HandedOut(mid, own, {SelfTaken(t)}, Plan(t, Leave, Publish, Delete), {})
    ensures DistinctIds(writes + own)
  {
    LoopEnd(before, mid, Plan(t, Delete, Leave, Leave));
    var both := writes + own;
    forall i, j | 0 <= i < j < |both| ensures both[i].id != both[j].id {
      if i < |writes| <= j { assert writes[i] in writes && own[j - |writes|] in own; }
    }
  }

  lemma AbortInTwo(before: Store, mid: Store, after: Store, t: Id, writes: seq<Tuple>, own: seq<Tuple>, restored: seq<Tuple>)
    requires Halfway(before, mid, Plan(t, Delete, Leave, Leave), {})
    requires Halfway(mid, after, Plan(t, Leave, Publish, Delete), {})
    requires HandedOut(before, writes, {Written(t)}, Plan(t, Delete, Leave, Leave), {})
    requires HandedOut(mid, own, {SelfTaken(t)}, Plan(t, Leave, Publish, Delete), {})
    requires HandedOut(mid, restored, {Taken(t)}, Plan(t, Leave, Publish, Delete), {})
    ensures after == SpaceSpec.AbortTxn(before, t)
    ensures DistinctIds(restored) && SetOf(restored) == Published(before, Abort(t))
    ensures DistinctIds(writes + own) && SetOf(writes + own) == Consumed(before, Abort(t))
  {
    WritesAreNotOwn(before, mid, t, writes, own);
    assert DistinctIds(restored);
    hide Halfway, HandedOut, TuplesAt;
    AbortLoops(before, mid, after, t);
    assert {Written(t), Written(t)} == {Written(t)} && {Taken(t), Taken(t)} == {Taken(t)};
    assert {SelfTaken(t), SelfTaken(t)} == {SelfTaken(t)};
    AllHandedOut(before, writes, Written(t), Written(t), Plan(t, Delete, Leave, Leave));
    AllHandedOut(mid, own, SelfTaken(t), SelfTaken(t), Plan(t, Leave, Publish, Delete));
    AllHandedOut(mid, restored, Taken(t), Taken(t), Plan(t, Leave, Publish, Delete));
    LoopLeaves(before, mid, Plan(t, Delete, Leave, Leave), Taken(t));
    LoopLeaves(before, mid, Plan(t, Delete, Leave, Leave), SelfTaken(t));
    assert SetOf(writes + own) == SetOf(writes) + SetOf(own);
  }

  lemma KeyedById(m: Tables, a: Store, id: Id)
    requires Repr(m, a) && id in a
    ensures a[id].tuple.id == id
  {}

  lemma NoRowMatches(m: Tables, a: Store, t: Id, rows: map<Key, Tuple>, template: Template)
    requires Repr(m, a) && rows == (map k | k in m.uncommitted && k.txn == t :: m.uncommitted[k])
    requires forall k :: k in rows ==> !Matches(template, rows[k].attrs)
    ensures NoOwnMatch(a, t, template)
  {
    hide TuplesOk, TakesOk;
    forall id | id in a && a[id].place == Written(t) ensures !Matches(template, a[id].tuple.attrs) {
      assert Key(t, id) in rows;
    }
  }

  lemma NoTupleMatches(m: Tables, a: Store, who: Option<Id>, template: Template)
    requires Repr(m, a) && forall id :: id in m.tuples ==> !Matches(template, m.tuples[id].attrs)
    requires who.Some? ==> NoOwnMatch(a, who.value, template)
    ensures NoneMatch(a, who, template)
  {
    hide WritesOk, TakesOk;
  }

  lemma HoldsLease(m: Tables, a: Store, id: Id, l: Id)
    requires Repr(m, a)
    requires || (id in m.tuples && m.tuples[id].lease == l)
             || (id in a && a[id].tuple.lease == l)
    ensures id in a && a[id].tuple.lease == l && a[id].tuple.id == id
    ensures id in m.tuples ==> IsCommitted(a, id)
    ensures DropLease(a, l) == Drop(a, id)
  {
    hide WritesOk, TakesOk;
  }

  /** A filtered scan for the items backed by a lease. */
  function ByLease<K>(table: map<K, Tuple>, l: Id): set<K> {
    set k | k in table && table[k].lease == l
  }

  function TakenByLease(table: map<Key, Item>, l: Id): set<Key> {
    set k | k in table && table[k].tuple.lease == l
  }

  lemma NoRowHasLease(m: Tables, a: Store, l: Id)
    requires Repr(m, a)
    requires ByLease(m.tuples, l) == {}
    requires ByLease(m.uncommitted, l) == {}
    requires TakenByLease(m.taken, l) == {}
    ensures DropLease(a, l) == a && forall id :: id in a ==> a[id].tuple.lease != l
  {
    forall id | id in a ensures a[id].tuple.lease != l {
      if a[id].place.Public? {
        assert id in ByLease(m.tuples, l) <==> a[id].tuple.lease == l;
      } else {
        var k := Key(a[id].place.txn, id);
        assert k in ByLease(m.uncommitted, l) || k in TakenByLease(m.taken, l) <==> a[id].tuple.lease == l;
      }
    }
  }

  class SpaceStore {
    var tuples: map<Id, Tuple>
    var uncommitted: map<Key, Tuple>
    var taken: map<Key, Item>
    ghost var a: Store

    ghost function State(): Tables
      reads this
    {
      Tables(tuples, uncommitted, taken)
    }

    ghost predicate Valid()
      reads this
    {
      Repr(State(), a)
    }

    constructor ()
      ensures Valid() && a == map[]
    {
      tuples, uncommitted, taken := map[], map[], map[];
      a := map[];
    }

    method Insert(r: Tuple)
      requires Valid() && Fresh(a, r)
      modifies this
      ensures Valid() && a == Put(old(a), r, Public)
    {
      hide WF, TuplesOk, WritesOk, TakesOk;
      InsertRepr(State(), a, r);
      tuples := tuples[r.id := r];
      a := Put(a, r, Public);
    }

    method InsertUncommitted(t: Id, r: Tuple)
      requires Valid() && Fresh(a, r)
      modifies this
      ensures Valid() && a == Put(old(a), r, Written(t))
    {
      hide WF, TuplesOk, WritesOk, TakesOk;
      InsertUncommittedRepr(State(), a, t, r);
      uncommitted := uncommitted[Key(t, r.id) := r];
      a := Put(a, r, Written(t));
    }

    method Remove(id: Id) returns (r: Option<Tuple>)
      requires Valid()
      modifies this
      ensures Valid()
      ensures r == if IsCommitted(old(a), id) then Some(old(a)[id].tuple) else None
      ensures a == if r.Some? then Drop(old(a), id) else old(a)
    {
      hide WF, WritesOk, TakesOk;
      if id !in tuples {
        return None;
      }
      DeleteTupleRepr(State(), a, id);
      r := Some(tuples[id]);
      tuples := tuples - {id};
      a := Drop(a, id);
    }

    /** Read: committed tuples first, then the reader's own uncommitted writes. */
    method FindMatch(template: Template, who: Option<Id>) returns (r: Option<Tuple>)
      requires Valid()
      ensures r.Some? ==> Sees(a, who, r.value.id) && a[r.value.id].tuple == r.value && Matches(template, r.value.attrs)
      ensures r.Some? && !IsCommitted(a, r.value.id) ==> NoneMatch(a, None, template)
      ensures r.None? ==> NoneMatch(a, who, template)
    {
      hide TakesOk, Matches;
      var id := Scan(template, tuples);
      if id.Some? {
        KeyedById(State(), a, id.value);
        return Some(tuples[id.value]);
      }
      if who.Some? {
        var rows := map k | k in uncommitted && k.txn == who.value :: uncommitted[k];
        var k := Scan(template, rows);
        if k.Some? {
          KeyedById(State(), a, k.value.id);
          return Some(rows[k.value]);
        }
        NoRowMatches(State(), a, who.value, rows, template);
      }
      return None;
    }

    /** Delete a scanned tuple if it still exists, and remember it under a transaction. */
    method Claim(id: Id, who: Option<Id>) returns (r: Option<Tuple>)
      requires Valid()
      modifies this
      ensures Valid()
      ensures r == if IsCommitted(old(a), id) then Some(old(a)[id].tuple) else None
      ensures a == if r.None? then old(a)
                   else if who.None? then Drop(old(a), id) else Move(old(a), id, Taken(who.value))
    {
      hide WF, WritesOk, TakesOk;
      if id !in tuples {
        return None;
      }
      r := Some(tuples[id]);
      DeleteTupleRepr(State(), a, id);
      if who.Some? {
        TakeUnderRepr(State(), a, who.value, id);
      }
      tuples := tuples - {id};
      if who.Some? {
        taken := taken[Key(who.value, id) := Item(r.value, false)];
        a := Move(a, id, Taken(who.value));
      } else {
        a := Drop(a, id);
      }
    }

    /** Take: the taker's own uncommitted writes first, then committed tuples. */
    method TakeMatch(template: Template, who: Option<Id>) returns (r: Option<Tuple>)
      requires Valid()
      modifies this
      ensures Valid()
      ensures r.None? ==> a == old(a) && NoneMatch(old(a), who, template)
      ensures r.Some? ==>
                var id, s := r.value.id, TakeStep(old(a), who, r.value.id);
                && Sees(old(a), who, id) && old(a)[id].tuple == r.value && Matches(template, r.value.attrs)
                && Enabled(old(a), s) && a == Apply(old(a), s)
      ensures r.Some? && who.Some? && IsCommitted(old(a), r.value.id) ==> NoOwnMatch(old(a), who.value, template)
    {
      hide WF, WritesOk, TakesOk, Matches, NoOwnMatch;
      if who.Some? {
        var rows := map k | k in uncommitted && k.txn == who.value :: uncommitted[k];
        var k := Scan(template, rows);
        if k.Some? {
          r := Some(rows[k.value]);
          TakeOwnRepr(State(), a, k.value);
          KeyedById(State(), a, k.value.id);
          uncommitted := uncommitted - {k.value};
          taken := taken[k.value := Item(r.value, true)];
          a := Move(a, k.value.id, SelfTaken(who.value));
          return;
        }
        NoRowMatches(State(), a, who.value, rows, template);
      }
      var id := Scan(template, tuples);
      if id.None? {
        NoTupleMatches(State(), a, who, template);
        return None;
      }
      KeyedById(State(), a, id.value);
      r := Claim(id.value, who);
    }

    /** Reclaim by lease: the index query, then the two buffer tables. */
    method RemoveByLease(l: Id) returns (r: Option<Tuple>)
      requires Valid()
      modifies this
      ensures Valid() && a == DropLease(old(a), l)
      ensures r.Some? ==> r.value.lease == l && r.value.id in old(a) && old(a)[r.value.id].tuple == r.value
      ensures r.None? ==> forall id :: id in old(a) ==> old(a)[id].tuple.lease != l
    {
      hide WF, TuplesOk, WritesOk, TakesOk;
      var ids := ByLease(tuples, l);
      if ids != {} {
        var id :| id in ids;
        HoldsLease(State(), a, id, l);
        r := Remove(id);
        if r.Some? {
          return;
        }
      }
      var writes := ByLease(uncommitted, l);
      if writes != {} {
        var k :| k in writes;
        DeleteWriteRepr(State(), a, k);
        HoldsLease(State(), a, k.id, l);
        r := Some(uncommitted[k]);
        uncommitted := uncommitted - {k};
        a := Drop(a, k.id);
        return;
      }
      var takes := TakenByLease(taken, l);
      if takes != {} {
        var k :| k in takes;
        DeleteTakeRepr(State(), a, k);
        HoldsLease(State(), a, k.id, l);
        r := Some(taken[k].tuple);
        taken := taken - {k};
        a := Drop(a, k.id);
        return;
      }
      NoRowHasLease(State(), a, l);
      return None;
    }

    method HasTxn(t: Id) returns (held: bool)
      requires Valid()
      ensures held == SpaceSpec.HasTxn(a, t)
    {
      QueryWrites(State(), a, t);
      QueryTakes(State(), a, t);
      var writes, takes := Query(uncommitted, t), Query(taken, t);
      held := writes != {} || takes != {};
      if k :| k in writes { assert Held(a, t, k.id); }
      if k :| k in takes { assert Held(a, t, k.id); }
    }

    /** Publish every write of t, then delete its taken items. */
    method CommitTxn(t: Id) returns (flushed: seq<Tuple>, consumed: seq<Tuple>)
      requires Valid()
      modifies this
      ensures Valid() && a == SpaceSpec.CommitTxn(old(a), t)
      ensures DistinctIds(flushed) && SetOf(flushed) == Published(old(a), Commit(t))
      ensures DistinctIds(consumed) && SetOf(consumed) == Consumed(old(a), Commit(t))
    {
      hide Repr, Halfway, SetOf, Published, Consumed;
      flushed := PublishWrites(t);
      ghost var mid := a;
      consumed := DeleteTakes(t);
      CommitInTwo(old(a), mid, a, t, flushed, consumed);
    }

    /** Delete every write of t, then restore the tuples it took, except its own writes. */
    method AbortTxn(t: Id) returns (discarded: seq<Tuple>, restored: seq<Tuple>)
      requires Valid()
      modifies this
      ensures Valid() && a == SpaceSpec.AbortTxn(old(a), t)
      ensures DistinctIds(discarded) && SetOf(discarded) == Consumed(old(a), Abort(t))
      ensures DistinctIds(restored) && SetOf(restored) == Published(old(a), Abort(t))
    {
      hide Repr, Halfway, SetOf, Published, Consumed;
      var writes := DeleteWrites(t);
      ghost var mid := a;
      var own;
      own, restored := RestoreTakes(t);
      AbortInTwo(old(a), mid, a, t, writes, own, restored);
      discarded := writes + own;
    }

    /** First loop of commit: insert into the visible table, delete from the buffer. */
    method PublishWrites(t: Id) returns (flushed: seq<Tuple>)
      requires Valid()
      modifies this
      ensures Valid() && Halfway(old(a), a, Plan(t, Publish, Leave, Leave), {})
      ensures HandedOut(old(a), flushed, {Written(t)}, Plan(t, Publish, Leave, Leave), {})
    {
      hide WF, TuplesOk, WritesOk, TakesOk, Halfway, HandedOut, Query;
      ghost var before, plan := a, Plan(t, Publish, Leave, Leave);
      var todo := Query(uncommitted, t);
      flushed := [];
      QueryWrites(State(), a, t);
      LoopStart(before, plan, todo);
      while todo != {}
        invariant Valid() && forall k :: k in todo ==> k in uncommitted && k.txn == t
        invariant Halfway(before, a, plan, todo) && HandedOut(before, flushed, {Written(t)}, plan, todo)
        decreases |todo|
      {
        var k :| k in todo;
        var r := uncommitted[k];
        PublishWriteRepr(State(), a, k);
        MidPublish(State(), a, k);
        KeyedById(State(), a, k.id);
        LoopStep(before, a, Move(a, k.id, Public), plan, todo, k);
        HandOut(before, flushed, {Written(t)}, plan, todo, k, flushed + [r]);
        tuples := tuples[k.id := r];
        assert Repr(Trim(State(), {k}, {}), Move(a, k.id, Public));
        flushed := flushed + [r];
        uncommitted := uncommitted - {k};
        a := Move(a, k.id, Public);
        todo := todo - {k};
      }
    }

    /** First loop of abort. */
    method DeleteWrites(t: Id) returns (discarded: seq<Tuple>)
      requires Valid()
      modifies this
      ensures Valid() && Halfway(old(a), a, Plan(t, Delete, Leave, Leave), {})
      ensures HandedOut(old(a), discarded, {Written(t)}, Plan(t, Delete, Leave, Leave), {})
    {
      hide WF, TuplesOk, WritesOk, TakesOk, Halfway, HandedOut, Query;
      ghost var before, plan := a, Plan(t, Delete, Leave, Leave);
      var todo := Query(uncommitted, t);
      discarded := [];
      QueryWrites(State(), a, t);
      LoopStart(before, plan, todo);
      while todo != {}
        invariant Valid() && forall k :: k in todo ==> k in uncommitted && k.txn == t
        invariant Halfway(before, a, plan, todo) && HandedOut(before, discarded, {Written(t)}, plan, todo)
        decreases |todo|
      {
        var k :| k in todo;
        var r := uncommitted[k];
        DeleteWriteRepr(State(), a, k);
        KeyedById(State(), a, k.id);
        LoopStep(before, a, Drop(a, k.id), plan, todo, k);
        HandOut(before, discarded, {Written(t)}, plan, todo, k, discarded + [r]);
        discarded := discarded + [r];
        uncommitted := uncommitted - {k};
        a := Drop(a, k.id);
        todo := todo - {k};
      }
    }

    /** Second loop of commit: takes stay removed. */
    method DeleteTakes(t: Id) returns (consumed: seq<Tuple>)
      requires Valid()
      modifies this
      ensures Valid() && Halfway(old(a), a, Plan(t, Leave, Delete, Delete), {})
      ensures HandedOut(old(a), consumed, {Taken(t), SelfTaken(t)}, Plan(t, Leave, Delete, Delete), {})
    {
      hide WF, TuplesOk, WritesOk, TakesOk, Halfway, HandedOut, Query;
      ghost var before, plan := a, Plan(t, Leave, Delete, Delete);
      var todo := Query(taken, t);
      consumed := [];
      QueryTakes(State(), a, t);
      LoopStart(before, plan, todo);
      while todo != {}
        invariant Valid() && forall k :: k in todo ==> k in taken && k.txn == t
        invariant Halfway(before, a, plan, todo) && HandedOut(before, consumed, {Taken(t), SelfTaken(t)}, plan, todo)
        decreases |todo|
      {
        var k :| k in todo;
        var r := taken[k].tuple;
        DeleteTakeRepr(State(), a, k);
        KeyedById(State(), a, k.id);
        LoopStep(before, a, Drop(a, k.id), plan, todo, k);
        HandOut(before, consumed, {Taken(t), SelfTaken(t)}, plan, todo, k, consumed + [r]);
        consumed := consumed + [r];
        taken := taken - {k};
        a := Drop(a, k.id);
        todo := todo - {k};
      }
    }

    /** Second loop of abort: the `own_write` flag decides between discarding and restoring. */
    method RestoreTakes(t: Id) returns (own: seq<Tuple>, restored: seq<Tuple>)
      requires Valid()
      modifies this
      ensures Valid() && Halfway(old(a), a, Plan(t, Leave, Publish, Delete), {})
      ensures HandedOut(old(a), own, {SelfTaken(t)}, Plan(t, Leave, Publish, Delete), {})
      ensures HandedOut(old(a), restored, {Taken(t)}, Plan(t, Leave, Publish, Delete), {})
    {
      hide WF, TuplesOk, WritesOk, TakesOk, Halfway, HandedOut, Query;
      ghost var before, plan := a, Plan(t, Leave, Publish, Delete);
      var todo := Query(taken, t);
      own, restored := [], [];
      QueryTakes(State(), a, t);
      LoopStart(before, plan, todo);
      while todo != {}
        invariant Valid() && forall k :: k in todo ==> k in taken && k.txn == t
        invariant Halfway(before, a, plan, todo)
        invariant HandedOut(before, own, {SelfTaken(t)}, plan, todo)
        invariant HandedOut(before, restored, {Taken(t)}, plan, todo)
        decreases |todo|
      {
        var k :| k in todo;
        var item := taken[k];
        DeleteTakeRepr(State(), a, k);
        PublishTakeRepr(State(), a, k);
        MidRestore(State(), a, k);
        KeyedById(State(), a, k.id);
        LoopStep(before, a, if item.ownWrite then Drop(a, k.id) else Move(a, k.id, Public), plan, todo, k);
        HandOut(before, own, {SelfTaken(t)}, plan, todo, k, if item.ownWrite then own + [item.tuple] else own);
        HandOut(before, restored, {Taken(t)}, plan, todo, k, if item.ownWrite then restored else restored + [item.tuple]);
        if item.ownWrite {
          own := own + [item.tuple];
          a := Drop(a, k.id);
        } else {
          tuples := tuples[k.id := item.tuple];
          assert Repr(Trim(State(), {}, {k}), Move(a, k.id, Public));
          restored := restored + [item.tuple];
          a := Move(a, k.id, Public);
        }
        taken := taken - {k};
        todo := todo - {k};
      }
    }
  }
}

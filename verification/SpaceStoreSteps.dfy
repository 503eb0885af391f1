/** The DynamoDB Space store one table access at a time. Any number of operations overlap,
    each works from the list it queried at its start, however old, and may stop for ever
    between two accesses; Commits and Aborts may be run again, and several at once. A take
    under a transaction deletes the row and then stores it in the take buffer; publishing or
    restoring puts the visible row and then deletes the buffered one, which is left over if
    the operation stops in between. Deleting an absent row does nothing. */
module SpaceStoreSteps {
  import opened Prelude
  import opened SpaceSpec
  import opened SpaceStoreDynamo
  import SpaceHistory

  type Actor = nat

  /** What a call does with the buffered rows it has listed. */
  datatype Purpose =
    | Flush        // commit, first loop: put each write into the visible table, delete it
    | Finish       // commit, second loop, or a reclaim: delete takes
    | Discard      // abort, first loop, or a reclaim: delete writes
    | Restore      // abort, second loop: put each take back unless own, delete it
    | PickOwn      // take: pick one of the transaction's own writes

  /** `put`: the row just put, whose delete is next. A carrying call has deleted a row and is
      about to store it in the take buffer. */
  datatype Call = Loop(purpose: Purpose, todo: map<Key, Item>, put: Option<Key>) | Carry(k: Key, item: Item)

  /** `writes` and `takes`: the leftover rows of the two buffer tables, already put. `born`:
      every tuple ever written. */
  datatype World = World(m: Tables, writes: set<Key>, takes: set<Key>, calls: map<Actor, Call>, born: map<Id, Tuple>)

  datatype Step =
    | Insert(r: Tuple)                          // plain write
    | Buffer(txn: Id, r: Tuple)                 // write under txn
    | Remove(id: Id)                            // plain take, cancel or reclaim of a visible tuple
    | Query(a: Actor, purpose: Purpose, keys: set<Key>)   // list buffered rows
    | PutRow(a: Actor, k: Key)                  // put a listed row into the visible table
    | EraseRow(a: Actor, k: Key)                // delete a listed row from its buffer table
    | Grab(a: Actor, txn: Id, id: Id)           // take under txn: delete the visible row
    | GrabOwn(a: Actor, k: Key)                 // take of an own write: delete the listed row
    | Stash(a: Actor)                           // either: store it in the take buffer
    | Stop(a: Actor)

  ghost predicate Init(w: World) {
    w == World(Tables(map[], map[], map[]), {}, {}, map[], map[])
  }

  ghost predicate Unborn(w: World, r: Tuple) {
    r.id !in w.born && forall i :: i in w.born ==> w.born[i].lease != r.lease
  }

  predicate OnTakes(p: Purpose) {
    p == Finish || p == Restore
  }

  function Listed(m: Tables, p: Purpose, keys: set<Key>): map<Key, Item>
    requires keys <= if OnTakes(p) then m.taken.Keys else m.uncommitted.Keys
  {
    if OnTakes(p) then map k | k in keys :: m.taken[k] else map k | k in keys :: Item(m.uncommitted[k], false)
  }

  /** The call has row k still to put. */
  predicate ToPut(c: Call, k: Key) {
    c.Loop? && k in c.todo && c.put != Some(k)
    && (c.purpose == Flush || (c.purpose == Restore && !c.todo[k].ownWrite))
  }

  ghost predicate Enabled(w: World, s: Step) {
    match s
    case Insert(r) => Unborn(w, r)
    case Buffer(_, r) => Unborn(w, r)
    case Remove(id) => id in w.m.tuples
    case Query(a, p, keys) => a !in w.calls && keys <= if OnTakes(p) then w.m.taken.Keys else w.m.uncommitted.Keys
    case PutRow(a, k) => a in w.calls && ToPut(w.calls[a], k) && w.calls[a].put.None?
    case EraseRow(a, k) =>
      && a in w.calls && w.calls[a].Loop? && k in w.calls[a].todo && w.calls[a].purpose != PickOwn
      && (w.calls[a].put == Some(k) || (w.calls[a].put.None? && !ToPut(w.calls[a], k)))
    case Grab(a, _, id) => a !in w.calls && id in w.m.tuples
    case GrabOwn(a, k) => a in w.calls && w.calls[a].Loop? && w.calls[a].purpose == PickOwn && k in w.calls[a].todo
    case Stash(a) => a in w.calls && w.calls[a].Carry?
    case Stop(a) => a in w.calls
  }

  ghost function AfterPut(w: World, a: Actor, k: Key): World
    requires Enabled(w, PutRow(a, k))
  {
    var c := w.calls[a];
    w.(m := w.m.(tuples := w.m.tuples[k.id := c.todo[k].tuple]), calls := w.calls[a := c.(put := Some(k))],
       writes := if c.purpose == Flush && k in w.m.uncommitted then w.writes + {k} else w.writes,
       takes := if c.purpose == Restore && k in w.m.taken && !w.m.taken[k].ownWrite then w.takes + {k} else w.takes)
  }

  ghost function EraseWrite(w: World, k: Key): World {
    w.(m := w.m.(uncommitted := w.m.uncommitted - {k}), writes := w.writes - {k})
  }

  ghost function EraseTake(w: World, k: Key): World {
    w.(m := w.m.(taken := w.m.taken - {k}), takes := w.takes - {k})
  }

  ghost function Next(w: World, s: Step): World
    requires Enabled(w, s)
  {
    var m := w.m;
    match s
    case Insert(r) => w.(m := m.(tuples := m.tuples[r.id := r]), born := w.born[r.id := r])
    case Buffer(t, r) => w.(m := m.(uncommitted := m.uncommitted[Key(t, r.id) := r]), born := w.born[r.id := r])
    case Remove(id) => w.(m := m.(tuples := m.tuples - {id}))
    case Query(a, p, keys) => w.(calls := w.calls[a := Loop(p, Listed(m, p, keys), None)])
    case PutRow(a, k) => AfterPut(w, a, k)
    case EraseRow(a, k) =>
      var c := w.calls[a];
      (if OnTakes(c.purpose) then EraseTake(w, k) else EraseWrite(w, k))
        .(calls := w.calls[a := c.(todo := c.todo - {k}, put := None)])
    case Grab(a, t, id) =>
      w.(m := m.(tuples := m.tuples - {id}), calls := w.calls[a := Carry(Key(t, id), Item(m.tuples[id], false))])
    case GrabOwn(a, k) => EraseWrite(w, k).(calls := w.calls[a := Carry(k, Item(w.calls[a].todo[k].tuple, true))])
    case Stash(a) =>
      var c := w.calls[a];
      w.(m := m.(taken := m.taken[c.k := c.item]), takes := w.takes - {c.k}, calls := w.calls - {a})
    case Stop(a) => w.(calls := w.calls - {a})
  }

  /** The row is in its buffer and its tuple has not been put yet. */
  ghost predicate Current(w: World, p: Purpose, k: Key) {
    if OnTakes(p) then k in w.m.taken && !w.m.taken[k].ownWrite && k !in w.takes
    else k in w.m.uncommitted && k !in w.writes
  }

  /** The list the step works from is not out of date where it matters: a listed row is put
      only while it is current or while its tuple is visible, and an own write is taken only
      while it is current. */
  ghost predicate Clean(w: World, s: Step) {
    match s
    case PutRow(a, k) => k.id in w.m.tuples || (a in w.calls && w.calls[a].Loop? && Current(w, w.calls[a].purpose, k))
    case GrabOwn(_, k) => Current(w, PickOwn, k)
    case _ => true
  }

  /** A delete takes the row out of the table its call works on, and nothing else out of any. */
  lemma EraseErases(w: World, a: Actor, k: Key)
    requires Enabled(w, EraseRow(a, k))
    ensures var m, m' := w.m, Next(w, EraseRow(a, k)).m;
            && m'.tuples == m.tuples
            && (if w.calls[a].purpose in {Finish, Restore}
                then k !in m'.taken && m'.taken == m.taken - {k} && m'.uncommitted == m.uncommitted
                else k !in m'.uncommitted && m'.uncommitted == m.uncommitted - {k} && m'.taken == m.taken)
  {}

  // ── Rows are what was written, in every run ─────────────────────────────────

  ghost predicate LeasesDiffer(born: map<Id, Tuple>) {
    forall i, j :: i in born && j in born && born[i].lease == born[j].lease ==> i == j
  }

  ghost predicate TuplesBorn(tuples: map<Id, Tuple>, born: map<Id, Tuple>) {
    forall id :: id in tuples ==> id in born && born[id] == tuples[id] && tuples[id].id == id
  }

  ghost predicate RowsBorn(rows: map<Key, Tuple>, born: map<Id, Tuple>) {
    forall k :: k in rows ==> k.id in born && born[k.id] == rows[k] && rows[k].id == k.id
  }

  ghost predicate ItemsBorn(items: map<Key, Item>, born: map<Id, Tuple>) {
    forall k :: k in items ==> k.id in born && born[k.id] == items[k].tuple && items[k].tuple.id == k.id
  }

  ghost predicate CallBorn(c: Call, born: map<Id, Tuple>) {
    && ItemsBorn(if c.Loop? then c.todo else map[c.k := c.item], born)
    && (c.Loop? && c.put.Some? ==> c.put.value in c.todo && c.purpose != PickOwn)
  }

  ghost predicate CallsBorn(calls: map<Actor, Call>, born: map<Id, Tuple>) {
    forall a :: a in calls ==> CallBorn(calls[a], born)
  }

  ghost predicate LeftoversOk(w: World) {
    && (forall k :: k in w.writes ==> k in w.m.uncommitted)
    && (forall k :: k in w.takes ==> k in w.m.taken && !w.m.taken[k].ownWrite)
  }

  ghost predicate BornInv(w: World) {
    && LeasesDiffer(w.born)
    && TuplesBorn(w.m.tuples, w.born) && RowsBorn(w.m.uncommitted, w.born) && ItemsBorn(w.m.taken, w.born)
    && CallsBorn(w.calls, w.born) && LeftoversOk(w)
  }

  lemma MoreBorn(w: World, r: Tuple)
    requires BornInv(w) && Unborn(w, r)
    ensures BornInv(w.(born := w.born[r.id := r]))
  {
    forall a | a in w.calls ensures CallBorn(w.calls[a], w.born[r.id := r]) { assert CallBorn(w.calls[a], w.born); }
  }

  lemma CallSet(calls: map<Actor, Call>, born: map<Id, Tuple>, a: Actor, c: Call)
    requires CallsBorn(calls, born) && CallBorn(c, born)
    ensures CallsBorn(calls[a := c], born)
  {
    hide CallBorn;
  }

  lemma CallGone(calls: map<Actor, Call>, born: map<Id, Tuple>, a: Actor)
    requires CallsBorn(calls, born)
    ensures CallsBorn(calls - {a}, born)
  {
    hide CallBorn;
  }

  lemma BirthKeepsBorn(w: World, s: Step)
    requires BornInv(w) && Enabled(w, s) && (s.Insert? || s.Buffer?)
    ensures BornInv(Next(w, s))
  {
    hide CallsBorn, LeasesDiffer, ItemsBorn, TuplesBorn, RowsBorn;
    MoreBorn(w, s.r);
    NewRowBorn(w.m, w.born[s.r.id := s.r], s.r, if s.Buffer? then s.txn else 0);
  }

  lemma NewRowBorn(m: Tables, born: map<Id, Tuple>, r: Tuple, t: Id)
    requires TuplesBorn(m.tuples, born) && RowsBorn(m.uncommitted, born) && r.id in born && born[r.id] == r
    ensures TuplesBorn(m.tuples[r.id := r], born) && RowsBorn(m.uncommitted[Key(t, r.id) := r], born)
  {}

  lemma ListedIsBorn(w: World, p: Purpose, keys: set<Key>)
    requires BornInv(w) && keys <= if OnTakes(p) then w.m.taken.Keys else w.m.uncommitted.Keys
    ensures ItemsBorn(Listed(w.m, p, keys), w.born)
  {
    hide CallsBorn, LeasesDiffer, TuplesBorn;
  }

  lemma QueryKeepsBorn(w: World, a: Actor, p: Purpose, keys: set<Key>)
    requires BornInv(w) && Enabled(w, Query(a, p, keys))
    ensures BornInv(Next(w, Query(a, p, keys)))
  {
    hide CallsBorn, LeasesDiffer, TuplesBorn, RowsBorn, ItemsBorn, Listed;
    ListedIsBorn(w, p, keys);
    CallSet(w.calls, w.born, a, Loop(p, Listed(w.m, p, keys), None));
  }

  lemma TupleGone(tuples: map<Id, Tuple>, born: map<Id, Tuple>, id: Id)
    requires TuplesBorn(tuples, born)
    ensures TuplesBorn(tuples - {id}, born)
  {}

  lemma GrabKeepsBorn(w: World, s: Step)
    requires BornInv(w) && Enabled(w, s) && (s.Remove? || s.Grab?)
    ensures BornInv(Next(w, s))
  {
    var c := Carry(Key(if s.Grab? then s.txn else 0, s.id), Item(w.m.tuples[s.id], false));
    assert CallBorn(c, w.born);
    hide CallsBorn, LeasesDiffer, TuplesBorn, RowsBorn, ItemsBorn;
    TupleGone(w.m.tuples, w.born, s.id);
    if s.Grab? { CallSet(w.calls, w.born, s.a, c); }
  }

  lemma PutKeepsBorn(w: World, a: Actor, k: Key)
    requires BornInv(w) && Enabled(w, PutRow(a, k))
    ensures BornInv(Next(w, PutRow(a, k)))
  {
    var c := w.calls[a];
    assert CallBorn(c, w.born);
    assert CallBorn(c.(put := Some(k)), w.born);
    assert TuplesBorn(w.m.tuples[k.id := c.todo[k].tuple], w.born);
    hide CallsBorn, LeasesDiffer, TuplesBorn, RowsBorn, ItemsBorn, CallBorn;
    CallSet(w.calls, w.born, a, c.(put := Some(k)));
  }

  lemma EraseKeepsBorn(w: World, k: Key)
    requires BornInv(w)
    ensures BornInv(EraseWrite(w, k)) && BornInv(EraseTake(w, k))
  {
    hide CallsBorn, LeasesDiffer, TuplesBorn;
  }

  lemma NewCallKeepsBorn(w: World, a: Actor, c: Call)
    requires BornInv(w) && CallBorn(c, w.born)
    ensures BornInv(w.(calls := w.calls[a := c]))
  {
    hide CallsBorn, LeasesDiffer, TuplesBorn, RowsBorn, ItemsBorn, CallBorn;
    CallSet(w.calls, w.born, a, c);
  }

  lemma EraseRowKeepsBorn(w: World, a: Actor, k: Key)
    requires BornInv(w) && Enabled(w, EraseRow(a, k))
    ensures BornInv(Next(w, EraseRow(a, k)))
  {
    hide BornInv;
    var c := w.calls[a];
    CallIsBorn(w, a);
    EraseKeepsBorn(w, k);
    NewCallKeepsBorn(if OnTakes(c.purpose) then EraseTake(w, k) else EraseWrite(w, k), a, c.(todo := c.todo - {k}, put := None));
  }

  lemma GrabOwnKeepsBorn(w: World, a: Actor, k: Key)
    requires BornInv(w) && Enabled(w, GrabOwn(a, k))
    ensures BornInv(Next(w, GrabOwn(a, k)))
  {
    hide BornInv;
    CallIsBorn(w, a);
    EraseKeepsBorn(w, k);
    NewCallKeepsBorn(EraseWrite(w, k), a, Carry(k, Item(w.calls[a].todo[k].tuple, true)));
  }

  lemma CallIsBorn(w: World, a: Actor)
    requires BornInv(w) && a in w.calls
    ensures CallBorn(w.calls[a], w.born)
  {}

  lemma StashKeepsBorn(w: World, a: Actor)
    requires BornInv(w) && Enabled(w, Stash(a))
    ensures BornInv(Next(w, Stash(a)))
  {
    hide CallsBorn, LeasesDiffer, TuplesBorn, RowsBorn, ItemsBorn, CallBorn;
    CallIsBorn(w, a);
    ItemSet(w.m.taken, w.born, w.calls[a]);
    CallGone(w.calls, w.born, a);
  }

  lemma ItemSet(items: map<Key, Item>, born: map<Id, Tuple>, c: Call)
    requires c.Carry? && ItemsBorn(items, born) && CallBorn(c, born)
    ensures ItemsBorn(items[c.k := c.item], born)
  {
    assert c.k in map[c.k := c.item];
  }

  lemma NextKeepsBorn(w: World, s: Step)
    requires BornInv(w) && Enabled(w, s)
    ensures BornInv(Next(w, s))
  {
    match s
    case Insert(_) => BirthKeepsBorn(w, s);
    case Buffer(_, _) => BirthKeepsBorn(w, s);
    case Remove(_) => GrabKeepsBorn(w, s);
    case Grab(_, _, _) => GrabKeepsBorn(w, s);
    case Query(a, p, keys) => QueryKeepsBorn(w, a, p, keys);
    case PutRow(a, k) => PutKeepsBorn(w, a, k);
    case EraseRow(a, k) => EraseRowKeepsBorn(w, a, k);
    case GrabOwn(a, k) => GrabOwnKeepsBorn(w, a, k);
    case Stash(a) => StashKeepsBorn(w, a);
    case Stop(a) => CallGone(w.calls, w.born, a);
  }

  // ── A store, but for the leftovers ──────────────────────────────────────────

  ghost function Trimmed(w: World): Tables {
    Trim(w.m, w.writes, w.takes)
  }

  ghost predicate Carries(w: World, b: Actor, x: Id) {
    b in w.calls && w.calls[b].Carry? && w.calls[b].k.id == x
  }

  /** Leaving out leftovers, the tables represent the store a; a carried tuple is nowhere in
      it, and in one pair of hands. */
  ghost predicate Represents(w: World, a: Store) {
    && Repr(Trimmed(w), a)
    && (forall b, x :: Carries(w, b, x) ==> x !in a)
    && (forall b, c, x :: Carries(w, b, x) && Carries(w, c, x) ==> b == c)
  }

  ghost predicate IsLive(w: World, a: Store, x: Id) {
    x in a || exists b :: Carries(w, b, x)
  }

  predicate Births(s: Step, x: Id) {
    (s.Insert? || s.Buffer?) && s.r.id == x
  }

  /** After the step the tables represent a', and nothing that was gone is back. */
  ghost predicate Follows(w: World, a: Store, s: Step, a': Store)
    requires Enabled(w, s)
  {
    && Represents(Next(w, s), a')
    && forall x :: IsLive(Next(w, s), a', x) ==> IsLive(w, a, x) || Births(s, x)
  }

  lemma LiveIsBorn(w: World, a: Store, id: Id)
    requires BornInv(w) && Repr(Trimmed(w), a) && id in a
    ensures id in w.born && a[id].tuple == w.born[id]
  {
    hide CallsBorn;
    if a[id].place.Public? {
      assert id in w.m.tuples;
    } else {
      var k := Key(a[id].place.txn, id);
      assert k in Trimmed(w).uncommitted || k in Trimmed(w).taken;
    }
  }

  lemma CarriedIsBorn(w: World, b: Actor, x: Id)
    requires BornInv(w) && Carries(w, b, x)
    ensures x in w.born && w.born[x] == w.calls[b].item.tuple && w.calls[b].item.tuple.id == x
  {
    var c := w.calls[b];
    assert CallBorn(c, w.born) && c.k in map[c.k := c.item];
  }

  lemma UnbornIsFresh(w: World, a: Store, r: Tuple)
    requires BornInv(w) && Repr(Trimmed(w), a) && Unborn(w, r)
    ensures Fresh(a, r) && (forall b :: !Carries(w, b, r.id)) && forall t :: Key(t, r.id) !in w.writes
  {
    hide Repr, CallsBorn;
    forall id | id in a ensures id != r.id && a[id].tuple.lease != r.lease { LiveIsBorn(w, a, id); }
    forall b ensures !Carries(w, b, r.id) { if Carries(w, b, r.id) { CarriedIsBorn(w, b, r.id); } }
  }

  /** Enough for Follows when nobody starts or stops carrying. */
  lemma FollowsBy(w: World, a: Store, s: Step, a': Store)
    requires Enabled(w, s) && Represents(w, a) && Repr(Trimmed(Next(w, s)), a')
    requires forall b, x :: Carries(Next(w, s), b, x) ==> Carries(w, b, x)
    requires forall x :: x in a' ==> x in a || (Births(s, x) && forall b :: !Carries(w, b, x))
    ensures Follows(w, a, s, a')
  {
    hide Repr, Next;
  }

  lemma BirthFollows(w: World, a: Store, s: Step)
    requires BornInv(w) && Represents(w, a) && Enabled(w, s) && (s.Insert? || s.Buffer?)
    ensures Follows(w, a, s, Put(a, s.r, if s.Insert? then Public else Written(s.txn)))
  {
    hide Repr, BornInv, Follows;
    UnbornIsFresh(w, a, s.r);
    if s.Insert? {
      InsertRepr(Trimmed(w), a, s.r);
    } else {
      InsertUncommittedRepr(Trimmed(w), a, s.txn, s.r);
      assert Trimmed(Next(w, s)).uncommitted == Trimmed(w).uncommitted[Key(s.txn, s.r.id) := s.r];
    }
    FollowsBy(w, a, s, Put(a, s.r, if s.Insert? then Public else Written(s.txn)));
  }

  lemma VisibleIsLive(w: World, a: Store, id: Id)
    requires Repr(Trimmed(w), a)
    ensures id in w.m.tuples <==> IsCommitted(a, id)
  {}

  lemma RemoveFollows(w: World, a: Store, id: Id)
    requires Represents(w, a) && Enabled(w, Remove(id))
    ensures Follows(w, a, Remove(id), Drop(a, id))
  {
    hide Repr, Follows;
    VisibleIsLive(w, a, id);
    DeleteTupleRepr(Trimmed(w), a, id);
    FollowsBy(w, a, Remove(id), Drop(a, id));
  }

  /** One call starts to carry what just left the store. */
  lemma FollowsByCarrying(w: World, a: Store, s: Step, x: Id, a': Store)
    requires (s.Grab? || s.GrabOwn?) && Enabled(w, s) && Represents(w, a) && Repr(Trimmed(Next(w, s)), a')
    requires x in a && a' == Drop(a, x) && x == if s.Grab? then s.id else s.k.id
    ensures Follows(w, a, s, a')
  {
    hide Repr;
    var w' := Next(w, s);
    forall b, y ensures Carries(w', b, y) <==> (b == s.a && y == x) || (b != s.a && Carries(w, b, y)) {}
  }

  lemma GrabFollows(w: World, a: Store, s: Step)
    requires s.Grab? && Represents(w, a) && Enabled(w, s)
    ensures Follows(w, a, s, Drop(a, s.id))
  {
    hide Repr, Follows;
    VisibleIsLive(w, a, s.id);
    DeleteTupleRepr(Trimmed(w), a, s.id);
    FollowsByCarrying(w, a, s, s.id, Drop(a, s.id));
  }

  /** Deleting a buffered row: gone from the store, or no change if absent or a leftover. */
  lemma EraseWriteRepr(w: World, a: Store, k: Key)
    requires Repr(Trimmed(w), a) && LeftoversOk(w)
    ensures Current(w, PickOwn, k) ==> k.id in a && Repr(Trimmed(EraseWrite(w, k)), Drop(a, k.id))
    ensures !Current(w, PickOwn, k) ==> Trimmed(EraseWrite(w, k)) == Trimmed(w)
  {
    hide Repr;
    if Current(w, PickOwn, k) {
      DeleteWriteRepr(Trimmed(w), a, k);
      assert Trimmed(EraseWrite(w, k)).uncommitted == Trimmed(w).uncommitted - {k};
    } else {
      assert Trimmed(EraseWrite(w, k)).uncommitted == Trimmed(w).uncommitted;
    }
  }

  lemma EraseTakeRepr(w: World, a: Store, k: Key)
    requires Repr(Trimmed(w), a) && LeftoversOk(w)
    ensures k in w.m.taken && k !in w.takes ==> Repr(Trimmed(EraseTake(w, k)), Drop(a, k.id))
    ensures k !in w.m.taken || k in w.takes ==> Trimmed(EraseTake(w, k)) == Trimmed(w)
  {
    hide Repr;
    if k in w.m.taken && k !in w.takes {
      DeleteTakeRepr(Trimmed(w), a, k);
      assert Trimmed(EraseTake(w, k)).taken == Trimmed(w).taken - {k};
    } else {
      assert Trimmed(EraseTake(w, k)).taken == Trimmed(w).taken;
    }
  }

  lemma EraseFollows(w: World, a: Store, s: Step) returns (a': Store)
    requires s.EraseRow? && BornInv(w) && Represents(w, a) && Enabled(w, s)
    ensures Follows(w, a, s, a')
  {
    hide Repr, Follows, CallsBorn;
    EraseWriteRepr(w, a, s.k);
    EraseTakeRepr(w, a, s.k);
    var gone := if OnTakes(w.calls[s.a].purpose) then s.k in w.m.taken && s.k !in w.takes else Current(w, PickOwn, s.k);
    a' := if gone then Drop(a, s.k.id) else a;
    FollowsBy(w, a, s, a');
  }

  lemma GrabOwnFollows(w: World, a: Store, s: Step)
    requires s.GrabOwn? && BornInv(w) && Represents(w, a) && Enabled(w, s) && Clean(w, s)
    ensures Follows(w, a, s, Drop(a, s.k.id))
  {
    hide Repr, Follows, CallsBorn;
    EraseWriteRepr(w, a, s.k);
    FollowsByCarrying(w, a, s, s.k.id, Drop(a, s.k.id));
  }

  lemma CarriedIsFresh(w: World, a: Store, b: Actor)
    requires BornInv(w) && Represents(w, a) && b in w.calls && w.calls[b].Carry?
    ensures Fresh(a, w.calls[b].item.tuple) && w.calls[b].item.tuple.id == w.calls[b].k.id
  {
    hide Repr, BornInv;
    var x := w.calls[b].k.id;
    assert Carries(w, b, x);
    CarriedIsBorn(w, b, x);
    forall id | id in a ensures a[id].tuple.lease != w.calls[b].item.tuple.lease {
      LiveIsBorn(w, a, id);
      BornLeasesDiffer(w, id, x);
    }
  }

  lemma BornLeasesDiffer(w: World, i: Id, j: Id)
    requires BornInv(w) && i in w.born && j in w.born
    ensures w.born[i].lease == w.born[j].lease ==> i == j
  {
    hide CallsBorn, TuplesBorn, RowsBorn, ItemsBorn;
  }

  lemma StashFollows(w: World, a: Store, b: Actor) returns (a': Store)
    requires BornInv(w) && Represents(w, a) && Enabled(w, Stash(b))
    ensures Follows(w, a, Stash(b), a')
  {
    hide Repr, BornInv;
    CarriedIsFresh(w, a, b);
    var c, w' := w.calls[b], Next(w, Stash(b));
    StashRepr(Trimmed(w), a, c.k, c.item);
    a' := Put(a, c.item.tuple, TakenPlace(c.k.txn, c.item.ownWrite));
    assert Trimmed(w').taken == Trimmed(w).taken[c.k := c.item];
    assert Carries(w, b, c.k.id);
    forall d, y ensures Carries(w', d, y) <==> d != b && Carries(w, d, y) {}
  }

  /** A put while the tuple is visible changes no more than what counts as left over. */
  lemma PutAgainRepr(w: World, a: Store, s: Step)
    requires s.PutRow? && BornInv(w) && Represents(w, a) && Enabled(w, s) && s.k.id in w.m.tuples
    ensures Trimmed(Next(w, s)) == Trimmed(w)
  {
    hide Repr, BornInv;
    VisibleIsLive(w, a, s.k.id);
    ListedIsStored(w, s.a, s.k);
    NoCurrentRow(w, a, s.k);
    var m, m' := Trimmed(w), Trimmed(Next(w, s));
    assert m'.tuples == m.tuples;
    assert m'.uncommitted == m.uncommitted;
    assert m'.taken == m.taken;
  }

  /** A visible tuple has no row that is not left over. */
  lemma NoCurrentRow(w: World, a: Store, k: Key)
    requires Repr(Trimmed(w), a) && IsCommitted(a, k.id)
    ensures k in w.m.uncommitted ==> k in w.writes
    ensures k in w.m.taken ==> k in w.takes
  {
    assert k !in Trimmed(w).uncommitted && k !in Trimmed(w).taken;
  }

  lemma PutCurrentRepr(w: World, a: Store, s: Step)
    requires s.PutRow? && BornInv(w) && Represents(w, a) && Enabled(w, s) && Current(w, w.calls[s.a].purpose, s.k)
    ensures s.k.id in a && Repr(Trimmed(Next(w, s)), Move(a, s.k.id, Public))
  {
    hide Repr, CallsBorn;
    ListedIsStored(w, s.a, s.k);
    var k, m, m' := s.k, Trimmed(w), Trimmed(Next(w, s));
    if w.calls[s.a].purpose == Flush {
      PublishWriteRepr(m, a, k);
      assert m'.uncommitted == m.uncommitted - {k};
    } else {
      PublishTakeRepr(m, a, k);
      assert m'.taken == m.taken - {k};
    }
  }

  /** What a call has listed is what its table has, if it still has it. */
  lemma ListedIsStored(w: World, b: Actor, k: Key)
    requires BornInv(w) && b in w.calls && w.calls[b].Loop? && k in w.calls[b].todo
    ensures k in w.m.uncommitted ==> w.m.uncommitted[k] == w.calls[b].todo[k].tuple
    ensures k in w.m.taken ==> w.m.taken[k].tuple == w.calls[b].todo[k].tuple
    ensures k.id in w.m.tuples ==> w.m.tuples[k.id] == w.calls[b].todo[k].tuple
  {
    assert CallBorn(w.calls[b], w.born);
  }

  lemma PutFollows(w: World, a: Store, s: Step) returns (a': Store)
    requires s.PutRow? && BornInv(w) && Represents(w, a) && Enabled(w, s) && Clean(w, s)
    ensures Follows(w, a, s, a')
  {
    hide Repr, Follows, BornInv, Trimmed;
    if s.k.id in w.m.tuples {
      PutAgainRepr(w, a, s);
      a' := a;
    } else {
      PutCurrentRepr(w, a, s);
      a' := Move(a, s.k.id, Public);
    }
    FollowsBy(w, a, s, a');
  }

  lemma CleanFollows(w: World, a: Store, s: Step) returns (a': Store)
    requires BornInv(w) && Represents(w, a) && Enabled(w, s) && Clean(w, s)
    ensures Follows(w, a, s, a')
  {
    hide Repr, BornInv, Follows;
    match s
    case Insert(r) => BirthFollows(w, a, s); a' := Put(a, r, Public);
    case Buffer(t, r) => BirthFollows(w, a, s); a' := Put(a, r, Written(t));
    case Remove(id) => RemoveFollows(w, a, id); a' := Drop(a, id);
    case Query(_, _, _) => a' := a; FollowsBy(w, a, s, a);
    case PutRow(_, _) => a' := PutFollows(w, a, s);
    case EraseRow(_, _) => a' := EraseFollows(w, a, s);
    case Grab(_, _, id) => GrabFollows(w, a, s); a' := Drop(a, id);
    case GrabOwn(_, k) => GrabOwnFollows(w, a, s); a' := Drop(a, k.id);
    case Stash(b) => a' := StashFollows(w, a, b);
    case Stop(_) => a' := a; FollowsBy(w, a, s, a);
  }

  // ── Clean is exact ──────────────────────────────────────────────────────────

  lemma StalePutFails(w: World, a: Store, s: Step, a': Store)
    requires s.PutRow? && BornInv(w) && Represents(w, a) && Enabled(w, s) && Follows(w, a, s, a')
    ensures Clean(w, s)
  {
    hide Repr, BornInv;
    var w', x := Next(w, s), s.k.id;
    VisibleIsLive(w', a', x);
    VisibleIsLive(w, a, x);
    forall b ensures !Carries(w, b, x) { assert Carries(w', b, x) <==> Carries(w, b, x); }
    assert IsLive(w', a', x);
    if x !in w.m.tuples {
      var k := Key(a[x].place.txn, x);
      NoCurrentRow(w', a', k);
      HasRow(w, a, x);
    }
  }

  /** A live tuple that is not visible has a row that is not left over. */
  lemma HasRow(w: World, a: Store, x: Id)
    requires Repr(Trimmed(w), a) && x in a && !IsCommitted(a, x)
    ensures var k := Key(a[x].place.txn, x);
            (k in w.m.uncommitted && k !in w.writes) || (k in w.m.taken && k !in w.takes)
  {
    var k := Key(a[x].place.txn, x);
    assert k in Trimmed(w).uncommitted || k in Trimmed(w).taken;
  }

  lemma SameKeys(m: Tables, a: Store, b: Store, x: Id)
    requires Repr(m, a) && Repr(m, b) && x in a
    ensures x in b
  {
    if a[x].place.Public? {
      assert x in m.tuples;
    } else {
      var k := Key(a[x].place.txn, x);
      assert k in m.uncommitted || k in m.taken;
      assert k.id in b;
    }
  }

  lemma StaleGrabFails(w: World, a: Store, s: Step, a': Store)
    requires s.GrabOwn? && BornInv(w) && Represents(w, a) && Enabled(w, s) && Follows(w, a, s, a')
    ensures Clean(w, s)
  {
    hide Repr, CallsBorn;
    var w', x := Next(w, s), s.k.id;
    EraseWriteRepr(w, a, s.k);
    OthersCarryOn(w, s);
    assert Carries(w', s.a, x) && IsLive(w', a', x);
    if x in a && !Current(w, PickOwn, s.k) { SameKeys(Trimmed(w), a, a', x); }
  }

  lemma OthersCarryOn(w: World, s: Step)
    requires s.GrabOwn? && Enabled(w, s)
    ensures forall b, x :: Carries(w, b, x) ==> b != s.a && Carries(Next(w, s), b, x)
  {}

  /** A step is clean if and only if the tables go on representing a store and nothing that
      was gone comes back. */
  lemma CleanExactly(w: World, a: Store, s: Step)
    requires BornInv(w) && Represents(w, a) && Enabled(w, s)
    ensures Clean(w, s) <==> exists a' :: Follows(w, a, s, a')
  {
    hide BornInv, Represents, Follows;
    if Clean(w, s) { var a' := CleanFollows(w, a, s); }
    if a' :| Follows(w, a, s, a') {
      if s.PutRow? { StalePutFails(w, a, s, a'); }
      if s.GrabOwn? { StaleGrabFails(w, a, s, a'); }
    }
  }

  // ── Runs ────────────────────────────────────────────────────────────────────

  ghost predicate RunsFrom(w: World, ws: seq<World>, steps: seq<Step>) {
    && |ws| == |steps| + 1 && ws[0] == w
    && forall i :: 0 <= i < |steps| ==> Enabled(ws[i], steps[i]) && ws[i + 1] == Next(ws[i], steps[i])
  }

  ghost predicate IsRun(ws: seq<World>, steps: seq<Step>) {
    |ws| > 0 && Init(ws[0]) && RunsFrom(ws[0], ws, steps)
  }

  lemma {:induction false} RunBorn(ws: seq<World>, steps: seq<Step>, i: nat)
    requires IsRun(ws, steps) && i <= |steps|
    ensures BornInv(ws[i])
  {
    if i > 0 {
      RunBorn(ws, steps, i - 1);
      NextKeepsBorn(ws[i - 1], steps[i - 1]);
    }
  }

  ghost predicate CleanUpTo(ws: seq<World>, steps: seq<Step>, n: nat)
    requires n <= |steps| < |ws|
  {
    forall i :: 0 <= i < n ==> Clean(ws[i], steps[i])
  }

  /** As long as all steps are clean, whatever overlaps, stops and is repeated, the tables
      without their leftovers represent a store. */
  lemma {:induction false} CleanRunRepresents(ws: seq<World>, steps: seq<Step>, n: nat) returns (a: Store)
    requires IsRun(ws, steps) && n <= |steps| && CleanUpTo(ws, steps, n)
    ensures Represents(ws[n], a)
  {
    if n == 0 {
      a := map[];
    } else {
      var b := CleanRunRepresents(ws, steps, n - 1);
      RunBorn(ws, steps, n - 1);
      a := CleanFollows(ws[n - 1], b, steps[n - 1]);
    }
  }

  // ── Exclusive hand-out ──────────────────────────────────────────────────────

  /** The step gives tuple x to somebody. */
  predicate Hands(s: Step, x: Id) {
    ((s.Remove? || s.Grab?) && s.id == x) || (s.GrabOwn? && s.k.id == x)
  }

  /** Tuple x is out of reach: not visible, in no write buffer, and only transaction t (if
      anybody) has it as a take that an abort would restore. */
  ghost predicate Out(w: World, x: Id, t: Option<Id>) {
    && x in w.born && x !in w.m.tuples
    && (forall k :: k in w.m.uncommitted && k.id == x ==> k in w.writes)
    && (forall k :: k in w.m.taken && k.id == x && !w.m.taken[k].ownWrite && k !in w.takes ==> t == Some(k.txn))
    && (forall b :: Carries(w, b, x) && !w.calls[b].item.ownWrite ==> t == Some(w.calls[b].k.txn))
  }

  /** A live tuple is in no other place, and carried by nobody. */
  lemma InOnePlace(w: World, a: Store, x: Id)
    requires BornInv(w) && Represents(w, a) && x in a
    ensures x in w.born && forall b :: !Carries(w, b, x)
    ensures forall k :: k in w.m.uncommitted && k.id == x && k !in w.writes ==> a[x].place == Written(k.txn)
    ensures forall k :: k in w.m.taken && k.id == x && k !in w.takes ==> a[x].place in {Taken(k.txn), SelfTaken(k.txn)}
  {
    LiveIsBorn(w, a, x);
    hide BornInv;
    var m := Trimmed(w);
    assert forall k :: k in w.m.uncommitted && k !in w.writes ==> k in m.uncommitted;
    assert forall k :: k in w.m.taken && k !in w.takes ==> k in m.taken;
  }

  lemma RemovedIsOut(w: World, a: Store, s: Step)
    requires BornInv(w) && Represents(w, a) && Enabled(w, s) && (s.Remove? || s.Grab?)
    ensures Out(Next(w, s), s.id, if s.Grab? then Some(s.txn) else None)
  {
    hide Repr, BornInv;
    VisibleIsLive(w, a, s.id);
    InOnePlace(w, a, s.id);
    forall b ensures Carries(Next(w, s), b, s.id) <==> s.Grab? && b == s.a { assert !Carries(w, b, s.id); }
  }

  lemma OwnIsOut(w: World, a: Store, s: Step)
    requires BornInv(w) && Represents(w, a) && Enabled(w, s) && s.GrabOwn? && Clean(w, s)
    ensures Out(Next(w, s), s.k.id, None)
  {
    hide Repr, BornInv;
    CurrentPlace(w, a, s.k);
    InOnePlace(w, a, s.k.id);
    forall b ensures Carries(Next(w, s), b, s.k.id) <==> b == s.a { assert !Carries(w, b, s.k.id); }
    forall k | k in w.m.uncommitted && k.id == s.k.id && k !in w.writes ensures k == s.k {}
  }

  lemma HandedIsOut(w: World, a: Store, s: Step, x: Id)
    requires BornInv(w) && Represents(w, a) && Enabled(w, s) && Clean(w, s) && Hands(s, x)
    ensures Out(Next(w, s), x, if s.Grab? then Some(s.txn) else None)
  {
    hide BornInv, Represents, Out, Next;
    if s.GrabOwn? { OwnIsOut(w, a, s); } else { RemovedIsOut(w, a, s); }
  }

  lemma CurrentPlace(w: World, a: Store, k: Key)
    requires Repr(Trimmed(w), a) && Current(w, PickOwn, k)
    ensures k.id in a && a[k.id].place == Written(k.txn) && k.id !in w.m.tuples
  {
    assert k in Trimmed(w).uncommitted;
  }

  /** A step of an abort that restores t's take of x. */
  ghost predicate Restores(w: World, s: Step, t: Id, x: Id) {
    s.PutRow? && s.k == Key(t, x) && s.a in w.calls && w.calls[s.a].Loop? && w.calls[s.a].purpose == Restore
  }

  lemma OutStaysOut(w: World, s: Step, x: Id, t: Option<Id>)
    requires Enabled(w, s) && Clean(w, s) && Out(w, x, t)
    requires t.Some? ==> !Restores(w, s, t.value, x)
    ensures Out(Next(w, s), x, t) && !Hands(s, x)
  {
    if s.PutRow? { assert s.k == Key(s.k.txn, s.k.id); }
    forall b | Carries(Next(w, s), b, x)
      ensures (Carries(w, b, x) && Next(w, s).calls[b] == w.calls[b]) || (s.GrabOwn? && s.a == b) {}
  }

  lemma {:induction false} OutThroughout(ws: seq<World>, steps: seq<Step>, i: nat, j: nat, x: Id, t: Option<Id>)
    requires IsRun(ws, steps) && i <= j <= |steps| && CleanUpTo(ws, steps, j) && Out(ws[i], x, t)
    requires forall n :: i <= n < j && t.Some? ==> !Restores(ws[n], steps[n], t.value, x)
    ensures Out(ws[j], x, t)
    decreases j
  {
    hide Out, Clean, Next, Enabled, Init, Restores;
    if i < j {
      OutThroughout(ws, steps, i, j - 1, x, t);
      OutStaysOut(ws[j - 1], steps[j - 1], x, t);
    }
  }

  /** In every clean run, a tuple handed out twice was first taken under a transaction whose
      abort restored it in between. */
  lemma ExclusiveHandOut(ws: seq<World>, steps: seq<Step>, i: nat, j: nat, x: Id)
    requires IsRun(ws, steps) && i < j < |steps| && CleanUpTo(ws, steps, j + 1)
    requires Hands(steps[i], x) && Hands(steps[j], x)
    ensures steps[i].Grab? && exists n :: i < n < j && Restores(ws[n], steps[n], steps[i].txn, x)
  {
    hide Out, Clean, Next, Enabled, Init, BornInv, Represents, Restores;
    var t := if steps[i].Grab? then Some(steps[i].txn) else None;
    var a := CleanRunRepresents(ws, steps, i);
    RunBorn(ws, steps, i);
    HandedIsOut(ws[i], a, steps[i], x);
    if t.None? || forall n :: i < n < j ==> !Restores(ws[n], steps[n], t.value, x) {
      OutThroughout(ws, steps, i + 1, j, x, t);
      OutNotHanded(ws[j], steps[j], x, t);
    }
  }

  lemma OutNotHanded(w: World, s: Step, x: Id, t: Option<Id>)
    requires Enabled(w, s) && Clean(w, s) && Out(w, x, t)
    ensures !Hands(s, x)
  {}

  // ── When a tuple is gone for good, over all continuations ───────────────────

  /** Nothing can bring x back: it is not visible, no write or restorable take of it is in a
      buffer, and no call has it listed to put or to take, or carries it to the take buffer. */
  ghost predicate NoTrace(w: World, x: Id) {
    && x !in w.m.tuples
    && (forall k :: k in w.m.uncommitted ==> k.id != x)
    && (forall k :: k in w.m.taken && !w.m.taken[k].ownWrite ==> k.id != x)
    && (forall b :: b in w.calls ==> CallNoTrace(w.calls[b], x))
  }

  predicate CallNoTrace(c: Call, x: Id) {
    match c
    case Carry(k, item) => !item.ownWrite ==> k.id != x
    case Loop(p, todo, _) => forall k :: k in todo && (ToPut(c, k) || p == PickOwn) ==> k.id != x
  }

  lemma NoTraceStays(w: World, s: Step, x: Id)
    requires Enabled(w, s) && x in w.born && NoTrace(w, x)
    ensures x in Next(w, s).born && NoTrace(Next(w, s), x) && !Hands(s, x)
  {
    var w' := Next(w, s);
    forall b | b in w'.calls ensures CallNoTrace(w'.calls[b], x) {
      if b in w.calls { assert CallNoTrace(w.calls[b], x); }
    }
  }

  lemma {:induction false} NoTraceNeverHands(w: World, ws: seq<World>, steps: seq<Step>, i: nat, x: Id)
    requires RunsFrom(w, ws, steps) && i <= |steps| && x in w.born && NoTrace(w, x)
    ensures x in ws[i].born && NoTrace(ws[i], x) && forall j :: 0 <= j < i ==> !Hands(steps[j], x)
  {
    hide NoTrace, Next, Enabled;
    if i > 0 {
      NoTraceNeverHands(w, ws, steps, i - 1, x);
      NoTraceStays(ws[i - 1], steps[i - 1], x);
    }
  }

  /** A continuation that ends by handing out x. */
  ghost predicate Leads(w: World, ws: seq<World>, steps: seq<Step>, x: Id) {
    RunsFrom(w, ws, steps) && steps != [] && Hands(steps[|steps| - 1], x)
  }

  lemma First(w: World, s: Step, x: Id) returns (ws: seq<World>, steps: seq<Step>)
    requires Enabled(w, s) && Hands(s, x)
    ensures Leads(w, ws, steps, x)
  {
    ws, steps := [w, Next(w, s)], [s];
  }

  lemma Before(w: World, s: Step, vs: seq<World>, rest: seq<Step>, x: Id) returns (ws: seq<World>, steps: seq<Step>)
    requires Enabled(w, s) && Leads(Next(w, s), vs, rest, x)
    ensures Leads(w, ws, steps, x)
  {
    hide Next, Enabled;
    ws, steps := [w] + vs, [s] + rest;
  }

  lemma FromPut(w: World, a: Actor, k: Key) returns (ws: seq<World>, steps: seq<Step>)
    requires Enabled(w, PutRow(a, k))
    ensures Leads(w, ws, steps, k.id)
  {
    ws, steps := First(Next(w, PutRow(a, k)), Remove(k.id), k.id);
    ws, steps := Before(w, PutRow(a, k), ws, steps, k.id);
  }

  /** A call that has k still to put gets there, after the delete it may owe first. */
  lemma FromList(w: World, a: Actor, k: Key) returns (ws: seq<World>, steps: seq<Step>)
    requires BornInv(w) && a in w.calls && ToPut(w.calls[a], k)
    ensures Leads(w, ws, steps, k.id)
  {
    hide Leads;
    var c := w.calls[a];
    assert CallBorn(c, w.born);
    if c.put.None? {
      ws, steps := FromPut(w, a, k);
    } else {
      var s := EraseRow(a, c.put.value);
      ws, steps := FromPut(Next(w, s), a, k);
      ws, steps := Before(w, s, ws, steps, k.id);
    }
  }

  lemma FromRow(w: World, p: Purpose, k: Key) returns (ws: seq<World>, steps: seq<Step>)
    requires (p == Flush && k in w.m.uncommitted) || (p == Restore && k in w.m.taken && !w.m.taken[k].ownWrite)
    ensures Leads(w, ws, steps, k.id)
  {
    hide Leads;
    var a := SpaceHistory.FreshId(w.calls.Keys);
    var s := Query(a, p, {k});
    ws, steps := FromPut(Next(w, s), a, k);
    ws, steps := Before(w, s, ws, steps, k.id);
  }

  lemma FromCall(w: World, a: Actor, x: Id) returns (ws: seq<World>, steps: seq<Step>)
    requires BornInv(w) && a in w.calls && !CallNoTrace(w.calls[a], x)
    ensures Leads(w, ws, steps, x)
  {
    hide Leads, BornInv;
    var c := w.calls[a];
    if c.Carry? {
      ws, steps := FromRow(Next(w, Stash(a)), Restore, c.k);
      ws, steps := Before(w, Stash(a), ws, steps, x);
    } else {
      var k :| k in c.todo && (ToPut(c, k) || c.purpose == PickOwn) && k.id == x;
      if c.purpose == PickOwn {
        ws, steps := First(w, GrabOwn(a, k), x);
      } else {
        ws, steps := FromList(w, a, k);
      }
    }
  }

  lemma TraceLeads(w: World, x: Id) returns (ws: seq<World>, steps: seq<Step>)
    requires BornInv(w) && !NoTrace(w, x)
    ensures Leads(w, ws, steps, x)
  {
    hide Leads, BornInv, CallNoTrace;
    if x in w.m.tuples {
      ws, steps := First(w, Remove(x), x);
    } else if k :| k in w.m.uncommitted && k.id == x {
      ws, steps := FromRow(w, Flush, k);
    } else if k :| k in w.m.taken && !w.m.taken[k].ownWrite && k.id == x {
      ws, steps := FromRow(w, Restore, k);
    } else {
      var b :| b in w.calls && !CallNoTrace(w.calls[b], x);
      ws, steps := FromCall(w, b, x);
    }
  }

  /** A tuple is never handed out again, in any continuation, if and only if it has left no
      trace: in no visible row, no buffered write or restorable take, and no call's list. */
  lemma GoneForeverExactly(w: World, x: Id)
    requires BornInv(w) && x in w.born
    ensures NoTrace(w, x)
       <==> forall ws: seq<World>, steps: seq<Step>, i :: RunsFrom(w, ws, steps) && 0 <= i < |steps| ==> !Hands(steps[i], x)
  {
    hide BornInv, NoTrace, Next, Enabled;
    if NoTrace(w, x) {
      forall ws: seq<World>, steps: seq<Step>, i | RunsFrom(w, ws, steps) && 0 <= i < |steps| ensures !Hands(steps[i], x) {
        NoTraceNeverHands(w, ws, steps, |steps|, x);
      }
    } else {
      var ws, steps := TraceLeads(w, x);
      assert Hands(steps[|steps| - 1], x);
    }
  }

  // ── Runs that are not clean ─────────────────────────────────────────────────

  ghost predicate EndsUnclean(ws: seq<World>, steps: seq<Step>) {
    && IsRun(ws, steps) && steps != [] && CleanUpTo(ws, steps, |steps| - 1)
    && !Clean(ws[|steps| - 1], steps[|steps| - 1])
  }

  lemma Extend(ws: seq<World>, steps: seq<Step>, s: Step) returns (ws': seq<World>, steps': seq<Step>)
    requires IsRun(ws, steps) && CleanUpTo(ws, steps, |steps|) && Enabled(ws[|steps|], s)
    ensures IsRun(ws', steps') && |ws'| == |steps'| + 1 && steps' == steps + [s] && ws'[|steps'|] == Next(ws[|steps|], s)
    ensures Clean(ws[|steps|], s) ==> CleanUpTo(ws', steps', |steps'|)
    ensures !Clean(ws[|steps|], s) ==> EndsUnclean(ws', steps')
  {
    hide Next, Enabled, Clean, Init;
    ws', steps' := ws + [Next(ws[|steps|], s)], steps + [s];
  }

  /** t has written r and nothing else has happened. */
  ghost function Written1(t: Id, r: Tuple): World {
    World(Tables(map[], map[Key(t, r.id) := r], map[]), {}, {}, map[], map[r.id := r])
  }

  lemma WriteRun(t: Id, r: Tuple) returns (ws: seq<World>, steps: seq<Step>)
    ensures IsRun(ws, steps) && |ws| == |steps| + 1 && CleanUpTo(ws, steps, |steps|)
    ensures steps == [Buffer(t, r)] && ws[1] == Written1(t, r)
  {
    var w0 := World(Tables(map[], map[], map[]), {}, {}, map[], map[]);
    ws, steps := [w0, Next(w0, Buffer(t, r))], [Buffer(t, r)];
  }

  /** Calls 0 and 1 have both listed the row. */
  lemma ListTwice(t: Id, r: Tuple, p: Purpose, q: Purpose) returns (ws: seq<World>, steps: seq<Step>)
    requires !OnTakes(p) && !OnTakes(q)
    ensures IsRun(ws, steps) && |ws| == |steps| + 1 && CleanUpTo(ws, steps, |steps|)
    ensures var k := Key(t, r.id); var todo := map[k := Item(r, false)];
            && steps == [Buffer(t, r), Query(0, p, {k}), Query(1, q, {k})]
            && ws[3] == Written1(t, r).(calls := map[0 := Loop(p, todo, None), 1 := Loop(q, todo, None)])
  {
    hide IsRun, CleanUpTo, EndsUnclean;
    var k := Key(t, r.id);
    var todo := map[k := Item(r, false)];
    ws, steps := WriteRun(t, r);
    assert Listed(Written1(t, r).m, p, {k}) == todo && Listed(Written1(t, r).m, q, {k}) == todo;
    ws, steps := Extend(ws, steps, Query(0, p, {k}));
    ws, steps := Extend(ws, steps, Query(1, q, {k}));
  }

  /** Two takes under t list the same own write, and both get it. */
  lemma OverlappingOwnTakes(t: Id, r: Tuple) returns (ws: seq<World>, steps: seq<Step>)
    ensures EndsUnclean(ws, steps)
    ensures var k := Key(t, r.id);
            steps == [Buffer(t, r), Query(0, PickOwn, {k}), Query(1, PickOwn, {k}), GrabOwn(0, k), GrabOwn(1, k)]
  {
    hide IsRun, CleanUpTo, EndsUnclean;
    var k := Key(t, r.id);
    ws, steps := ListTwice(t, r, PickOwn, PickOwn);
    ws, steps := Extend(ws, steps, GrabOwn(0, k));
    ws, steps := Extend(ws, steps, GrabOwn(1, k));
  }

  /** One of two Commits that have listed r's row publishes it and is done. */
  lemma FirstCommitDone(t: Id, r: Tuple) returns (ws: seq<World>, steps: seq<Step>)
    ensures IsRun(ws, steps) && |ws| == |steps| + 1 && CleanUpTo(ws, steps, |steps|)
    ensures ws[|steps|] == World(Tables(map[r.id := r], map[], map[]), {}, {},
              map[0 := Loop(Flush, map[], None), 1 := Loop(Flush, map[Key(t, r.id) := Item(r, false)], None)], map[r.id := r])
  {
    hide IsRun, CleanUpTo, EndsUnclean;
    var k := Key(t, r.id);
    ws, steps := ListTwice(t, r, Flush, Flush);
    ws, steps := Extend(ws, steps, PutRow(0, k));
    ws, steps := Extend(ws, steps, EraseRow(0, k));
    assert map[k := Item(r, false)] - {k} == map[];
  }

  /** Two Commits of t overlap (its endpoint may be enlisted twice): the first publishes the
      tuple, u takes it, the second publishes it again, and the tables represent no store. */
  lemma OverlappingCommits(t: Id, u: Id, r: Tuple) returns (ws: seq<World>, steps: seq<Step>)
    ensures EndsUnclean(ws, steps)
    ensures var w := ws[|steps|];
            && r.id in w.m.tuples && Key(u, r.id) in w.m.taken && w.writes == {} && w.takes == {}
            && forall b :: !Repr(w.m, b)
  {
    hide IsRun, CleanUpTo, EndsUnclean, Repr;
    var k := Key(t, r.id);
    ws, steps := FirstCommitDone(t, r);
    ws, steps := Extend(ws, steps, Grab(2, u, r.id));
    ws, steps := Extend(ws, steps, Stash(2));
    ws, steps := Extend(ws, steps, PutRow(1, k));
    var m := ws[|steps|].m;
    forall b ensures !Repr(m, b) { InTwoTables(m, b, Key(u, r.id)); }
  }

  lemma InTwoTables(m: Tables, b: Store, k: Key)
    requires k.id in m.tuples && k in m.taken
    ensures !Repr(m, b)
  {}

  /** The lease of a buffered write is reclaimed after a Commit has listed it, and the Commit
      publishes the tuple that has been announced as expired. */
  lemma ReclaimedThenPublished(t: Id, r: Tuple) returns (ws: seq<World>, steps: seq<Step>)
    ensures EndsUnclean(ws, steps)
    ensures var k := Key(t, r.id);
            && steps == [Buffer(t, r), Query(0, Flush, {k}), Query(1, Discard, {k}), EraseRow(1, k), PutRow(0, k)]
            && r.id in ws[5].m.tuples
  {
    hide IsRun, CleanUpTo, EndsUnclean;
    var k := Key(t, r.id);
    ws, steps := ListTwice(t, r, Flush, Discard);
    ws, steps := Extend(ws, steps, EraseRow(1, k));
    ws, steps := Extend(ws, steps, PutRow(0, k));
  }

  /** A Commit stops after a put. */
  lemma StoppedCommit(t: Id, r: Tuple) returns (ws: seq<World>, steps: seq<Step>)
    ensures IsRun(ws, steps) && |ws| == |steps| + 1 && CleanUpTo(ws, steps, |steps|)
    ensures var k := Key(t, r.id);
            && steps == [Buffer(t, r), Query(0, Flush, {k}), PutRow(0, k), Stop(0)]
            && ws[4] == World(Tables(map[r.id := r], map[k := r], map[]), {k}, {}, map[], map[r.id := r])
  {
    hide IsRun, CleanUpTo, EndsUnclean;
    var k := Key(t, r.id);
    ws, steps := WriteRun(t, r);
    ws, steps := Extend(ws, steps, Query(0, Flush, {k}));
    ws, steps := Extend(ws, steps, PutRow(0, k));
    ws, steps := Extend(ws, steps, Stop(0));
  }

  /** Then the tuple is taken, the Commit runs again, and the tuple is there to be taken again. */
  lemma RepeatedCommitBringsBack(t: Id, r: Tuple) returns (ws: seq<World>, steps: seq<Step>)
    ensures EndsUnclean(ws, steps)
    ensures var k := Key(t, r.id);
            && steps == [Buffer(t, r), Query(0, Flush, {k}), PutRow(0, k), Stop(0), Remove(r.id), Query(1, Flush, {k}), PutRow(1, k)]
            && r.id in ws[7].m.tuples
  {
    hide IsRun, CleanUpTo, EndsUnclean;
    var k := Key(t, r.id);
    ws, steps := StoppedCommit(t, r);
    ws, steps := Extend(ws, steps, Remove(r.id));
    ws, steps := Extend(ws, steps, Query(1, Flush, {k}));
    ws, steps := Extend(ws, steps, PutRow(1, k));
  }

  /** So a tuple is handed out twice, and nobody aborted. */
  lemma RepeatedCommitHandsOutTwice(t: Id, r: Tuple) returns (ws: seq<World>, steps: seq<Step>)
    ensures IsRun(ws, steps) && |steps| == 8 && Hands(steps[4], r.id) && Hands(steps[7], r.id)
    ensures CleanUpTo(ws, steps, 6) && !Clean(ws[6], steps[6])
    ensures forall i, a, keys :: 0 <= i < 8 ==> steps[i] != Query(a, Restore, keys)
  {
    hide Next, Clean;
    var vs, first := RepeatedCommitBringsBack(t, r);
    ws, steps := vs + [Next(vs[7], Remove(r.id))], first + [Remove(r.id)];
  }
}

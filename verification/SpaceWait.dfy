/** Blocked takes and reads: subscribe, try, and then wait on the broadcast. Any store step
    may happen between any two steps of a waiting client; a take is a scan and then
    claims, each of which may come too late; and the broadcast that announces a newly
    visible tuple is a step of its own, some time after the tuple became visible. */
module SpaceWait {
  import opened Prelude
  import opened Matcher
  import opened SpaceSpec
  import opened Broadcast

  type Actor = nat

  datatype Kind = Takes | Reads

  datatype Stage =
    | Trying
    | Scanned(candidates: set<Id>)     // a take: what its scan saw and it has not tried yet
    | Parked
    | Finished(got: Tuple)

  /** `failed`: the client's last attempt ended in a storage error. */
  datatype Client = Client(
    kind: Kind, template: Template, who: Option<Id>, inbox: Inbox<Tuple>, stage: Stage, failed: bool)

  /** `unsent`: broadcasts the managers still owe. */
  datatype World = World(store: Store, unsent: multiset<Tuple>, clients: map<Actor, Client>, capacity: nat)

  datatype Event =
    | Do(step: Step)                                 // anybody's store step
    | Announce(r: Tuple)                             // an owed broadcast goes out
    | Arrives(a: Actor, kind: Kind, template: Template, who: Option<Id>)   // subscribes
    | Look(a: Actor)                                 // a take scans the store
    | Claim(a: Actor, id: Id)                        // ... and tries to remove a candidate
    | Retry(a: Actor)                                // ... or scans again
    | Find(a: Actor, id: Id)                         // a read finds a tuple
    | Miss(a: Actor)                                 // nothing (left) to try: wait
    | Fault(a: Actor)                                // the store fails: wait all the same
    | Wake(a: Actor)                                 // receives one message, or the lag notice
    | Leave(a: Actor)                                // timeout or disconnect

  ghost predicate Init(w: World) {
    w.store == map[] && w.unsent == multiset{} && w.clients == map[] && w.capacity > 0
  }

  ghost predicate Fits(w: World, k: Client, id: Id) {
    Sees(w.store, k.who, id) && Matches(k.template, w.store[id].tuple.attrs)
  }

  ghost predicate Enabled(w: World, e: Event) {
    match e
    case Do(s) => SpaceSpec.Enabled(w.store, s)
    case Announce(r) => r in w.unsent
    case Arrives(a, _, _, _) => a !in w.clients
    case Look(a) => a in w.clients && w.clients[a].kind == Takes && w.clients[a].stage == Trying
    case Claim(a, id) => a in w.clients && w.clients[a].stage.Scanned? && id in w.clients[a].stage.candidates
    case Retry(a) => a in w.clients && w.clients[a].stage.Scanned?
    case Find(a, id) =>
      a in w.clients && w.clients[a].kind == Reads && w.clients[a].stage == Trying && Fits(w, w.clients[a], id)
    case Miss(a) =>
      a in w.clients
      && (|| w.clients[a].stage == Scanned({})
          || (&& w.clients[a].kind == Reads && w.clients[a].stage == Trying
              && NoneMatch(w.store, w.clients[a].who, w.clients[a].template)))
    case Fault(a) => a in w.clients && (w.clients[a].stage.Trying? || w.clients[a].stage.Scanned?)
    case Wake(a) => a in w.clients && w.clients[a].stage == Parked && Pending(w.clients[a].inbox)
    case Leave(a) => a in w.clients
  }

  /** What a parked client does with the next message. After a lag both ask the store again;
      on a matching tuple a take asks the store, a read returns the message itself. */
  function Woken(k: Client): Client
    requires Pending(k.inbox)
  {
    if k.inbox.lagged then k.(inbox := k.inbox.(lagged := false), stage := Trying)
    else
      var r := k.inbox.queue[0];
      k.(inbox := k.inbox.(queue := k.inbox.queue[1..]),
         stage := if !Matches(k.template, r.attrs) then Parked
                  else if k.kind == Takes then Trying else Finished(r))
  }

  /** The store step an event amounts to, if any. */
  ghost function StepOf(w: World, e: Event): Option<Step>
    requires Enabled(w, e)
  {
    match e
    case Do(s) => Some(s)
    case Claim(a, id) =>
      if Sees(w.store, w.clients[a].who, id) then Some(TakeStep(w.store, w.clients[a].who, id)) else None
    case _ => None
  }

  ghost function Stored(w: World, s: Step): World
    requires SpaceSpec.Enabled(w.store, s)
  {
    w.(store := Apply(w.store, s), unsent := w.unsent + multiset(Published(w.store, s)))
  }

  ghost function With(w: World, a: Actor, k: Client): World {
    w.(clients := w.clients[a := k])
  }

  ghost function Next(w: World, e: Event): World
    requires Enabled(w, e) && w.capacity > 0
  {
    match e
    case Do(s) => Stored(w, s)
    case Announce(r) =>
      w.(unsent := w.unsent - multiset{r},
         clients := map a | a in w.clients :: w.clients[a].(inbox := Arrive(w.clients[a].inbox, r, w.capacity)))
    case Arrives(a, kind, template, who) => With(w, a, Client(kind, template, who, Inbox([], false), Trying, false))
    case Look(a) => With(w, a, w.clients[a].(stage := Scanned(set id | id in w.store && Fits(w, w.clients[a], id))))
    case Claim(a, id) =>
      var k := w.clients[a];
      if Sees(w.store, k.who, id)
      then With(Stored(w, TakeStep(w.store, k.who, id)), a, k.(stage := Finished(w.store[id].tuple)))
      else With(w, a, k.(stage := Scanned(k.stage.candidates - {id})))
    case Retry(a) => With(w, a, w.clients[a].(stage := Trying))
    case Find(a, id) => With(w, a, w.clients[a].(stage := Finished(w.store[id].tuple)))
    case Miss(a) => With(w, a, w.clients[a].(stage := Parked, failed := false))
    case Fault(a) => With(w, a, w.clients[a].(stage := Parked, failed := true))
    case Wake(a) => With(w, a, Woken(w.clients[a]))
    case Leave(a) => w.(clients := w.clients - {a})
  }

  /** A take that looks while a tuple fits, and claims it while it is still there, gets it:
      the client has the tuple and the store does not show it any more. */
  lemma TakeGetsIt(w: World, a: Actor, id: Id, w': World)
    requires w.capacity > 0 && Enabled(w, Look(a)) && Fits(w, w.clients[a], id)
    requires w'.capacity > 0 && w'.store == w.store && a in w'.clients && w'.clients[a] == Next(w, Look(a)).clients[a]
    ensures Enabled(w', Claim(a, id))
    ensures var v := Next(w', Claim(a, id));
            && a in v.clients && v.clients[a].stage == Finished(w.store[id].tuple) && !Sees(v.store, w.clients[a].who, id)
  {}

  /** A read that finds a tuple returns it and leaves the store alone; a client that leaves is
      gone; one that retries is where it began. */
  lemma ReadGetsIt(w: World, e: Event)
    requires w.capacity > 0 && Enabled(w, e) && (e.Find? || e.Leave? || e.Retry?)
    ensures var v := Next(w, e);
            && v.store == w.store && v.unsent == w.unsent
            && (e.Find? ==> e.a in v.clients && v.clients[e.a].stage == Finished(w.store[e.id].tuple))
            && (e.Leave? ==> e.a !in v.clients)
            && (e.Retry? ==> e.a in v.clients && v.clients[e.a] == w.clients[e.a].(stage := Trying))
  {}

  // ── No lost wakeup ──────────────────────────────────────────────────────────

  /** The client will hear about tuple x: it is owed, queued, or covered by a lag. */
  ghost predicate WillHear(w: World, k: Client, x: Tuple) {
    x in w.unsent || Signals(k.inbox, x)
  }

  /** Past an attempt that did not fail (or with only some candidates left), a client will
      hear about every committed match it will not try. */
  ghost predicate ClientInv(w: World, k: Client) {
    (k.stage.Parked? && !k.failed) || k.stage.Scanned? ==>
      forall id :: IsCommitted(w.store, id) && Matches(k.template, w.store[id].tuple.attrs) ==>
        (k.stage.Scanned? && id in k.stage.candidates) || WillHear(w, k, w.store[id].tuple)
  }

  ghost predicate Inv(w: World) {
    WF(w.store) && w.capacity > 0 && forall a :: a in w.clients ==> ClientInv(w, w.clients[a])
  }

  lemma StoredKeepsInv(w: World, s: Step)
    requires Inv(w) && SpaceSpec.Enabled(w.store, s)
    ensures Inv(Stored(w, s))
  {
    ApplyKeepsWF(w.store, s);
    var w' := Stored(w, s);
    forall a, id | a in w.clients && ((w.clients[a].stage.Parked? && !w.clients[a].failed) || w.clients[a].stage.Scanned?)
                   && IsCommitted(w'.store, id) && Matches(w.clients[a].template, w'.store[id].tuple.attrs)
      ensures (w.clients[a].stage.Scanned? && id in w.clients[a].stage.candidates)
              || WillHear(w', w.clients[a], w'.store[id].tuple)
    {
      assert ClientInv(w, w.clients[a]);
      ApplyKeepsTuples(w.store, s, id);
      if !IsCommitted(w.store, id) { NewlyVisibleIsPublished(w.store, s, id); }
    }
  }

  lemma AnnounceKeepsInv(w: World, r: Tuple)
    requires Inv(w) && Enabled(w, Announce(r))
    ensures Inv(Next(w, Announce(r)))
  {
    var w' := Next(w, Announce(r));
    forall a | a in w'.clients ensures ClientInv(w', w'.clients[a]) {
      var k := w.clients[a];
      assert ClientInv(w, k);
      forall id | id in w.store && WillHear(w, k, w.store[id].tuple)
        ensures WillHear(w', w'.clients[a], w.store[id].tuple)
      {
        ArriveSignals(k.inbox, r, w.store[id].tuple, w.capacity);
      }
    }
  }

  /** Only the client at a changes, and not for the worse. */
  lemma OneChanges(w: World, a: Actor, k: Client)
    requires Inv(w) && ClientInv(w, k)
    ensures Inv(With(w, a, k))
  {
    var w' := With(w, a, k);
    forall b | b in w'.clients ensures ClientInv(w', w'.clients[b]) {
      if b != a { assert ClientInv(w, w.clients[b]); }
    }
  }

  lemma WakeKeepsInv(w: World, a: Actor)
    requires Inv(w) && Enabled(w, Wake(a))
    ensures Inv(Next(w, Wake(a)))
  {
    var k := w.clients[a];
    assert ClientInv(w, k);
    if Woken(k).stage == Parked {
      assert forall x :: x in k.inbox.queue ==> x == k.inbox.queue[0] || x in k.inbox.queue[1..];
    }
    OneChanges(w, a, Woken(k));
  }

  lemma ClaimKeepsInv(w: World, a: Actor, id: Id)
    requires Inv(w) && Enabled(w, Claim(a, id))
    ensures Inv(Next(w, Claim(a, id)))
  {
    var k := w.clients[a];
    assert ClientInv(w, k);
    if Sees(w.store, k.who, id) {
      StoredKeepsInv(w, TakeStep(w.store, k.who, id));
      OneChanges(Stored(w, TakeStep(w.store, k.who, id)), a, k.(stage := Finished(w.store[id].tuple)));
    } else {
      OneChanges(w, a, k.(stage := Scanned(k.stage.candidates - {id})));
    }
  }

  lemma NextKeepsInv(w: World, e: Event)
    requires Inv(w) && Enabled(w, e)
    ensures Inv(Next(w, e))
  {
    match e
    case Do(s) => StoredKeepsInv(w, s);
    case Announce(r) => AnnounceKeepsInv(w, r);
    case Claim(a, id) => ClaimKeepsInv(w, a, id);
    case Wake(a) => WakeKeepsInv(w, a);
    case Leave(_) =>
      forall b | b in Next(w, e).clients ensures ClientInv(Next(w, e), w.clients[b]) { assert ClientInv(w, w.clients[b]); }
    case Arrives(a, kind, template, who) => OneChanges(w, a, Client(kind, template, who, Inbox([], false), Trying, false));
    case Look(a) => OneChanges(w, a, Next(w, e).clients[a]);
    case Retry(a) => OneChanges(w, a, Next(w, e).clients[a]);
    case Find(a, _) => OneChanges(w, a, Next(w, e).clients[a]);
    case Miss(a) =>
      assert ClientInv(w, w.clients[a]);
      OneChanges(w, a, Next(w, e).clients[a]);
    case Fault(a) => OneChanges(w, a, Next(w, e).clients[a]);
  }

  ghost predicate IsRun(ws: seq<World>, es: seq<Event>) {
    && |ws| == |es| + 1 && Init(ws[0])
    && forall i :: 0 <= i < |es| ==> ws[i].capacity > 0 && Enabled(ws[i], es[i]) && ws[i + 1] == Next(ws[i], es[i])
  }

  lemma {:induction false} RunInv(ws: seq<World>, es: seq<Event>, i: nat)
    requires IsRun(ws, es) && i <= |es|
    ensures Inv(ws[i])
  {
    if i > 0 {
      RunInv(ws, es, i - 1);
      NextKeepsInv(ws[i - 1], es[i - 1]);
    }
  }

  /** No lost wakeup: a parked client with nothing to receive, whose last attempt did not
      fail, has no committed match, except tuples whose broadcast has not gone out yet, also
      when the scan its attempt worked from was long out of date. */
  lemma NoLostWakeup(ws: seq<World>, es: seq<Event>, n: nat, a: Actor, id: Id)
    requires IsRun(ws, es) && n <= |es| && a in ws[n].clients
    requires ws[n].clients[a].stage == Parked && !ws[n].clients[a].failed && !Pending(ws[n].clients[a].inbox)
    requires IsCommitted(ws[n].store, id) && Matches(ws[n].clients[a].template, ws[n].store[id].tuple.attrs)
    ensures ws[n].store[id].tuple in ws[n].unsent
  {
    RunInv(ws, es, n);
    assert ClientInv(ws[n], ws[n].clients[a]);
  }

  /** With every broadcast out, what a parked client can still see and has missed is
      exactly a write of its own transaction, which nobody announces. */
  lemma ParkedMissesOnlyOwnWrites(ws: seq<World>, es: seq<Event>, n: nat, a: Actor, id: Id)
    requires IsRun(ws, es) && n <= |es| && a in ws[n].clients && ws[n].unsent == multiset{}
    requires ws[n].clients[a].stage == Parked && !ws[n].clients[a].failed && !Pending(ws[n].clients[a].inbox)
    requires id in ws[n].store && Matches(ws[n].clients[a].template, ws[n].store[id].tuple.attrs)
    ensures Sees(ws[n].store, ws[n].clients[a].who, id) <==>
              ws[n].clients[a].who.Some? && ws[n].store[id].place == Written(ws[n].clients[a].who.value)
  {
    if IsCommitted(ws[n].store, id) { NoLostWakeup(ws, es, n, a, id); }
  }

  /** And it does happen: t waits for a tuple, t writes it, and t keeps waiting. */
  lemma OwnWriteIsMissed(t: Id, r: Tuple, capacity: nat) returns (ws: seq<World>, es: seq<Event>)
    requires capacity > 0
    ensures IsRun(ws, es) && |es| == 4
    ensures var w := ws[4];
            && 0 in w.clients && w.clients[0] == Client(Takes, map[], Some(t), Inbox([], false), Parked, false)
            && w.unsent == multiset{} && Sees(w.store, Some(t), r.id) && Matches(map[], w.store[r.id].tuple.attrs)
  {
    var w0 := World(map[], multiset{}, map[], capacity);
    var w1 := Next(w0, Arrives(0, Takes, map[], Some(t)));
    var w2 := Next(w1, Look(0));
    assert w2.clients[0].stage.candidates == {};
    var w3 := Next(w2, Miss(0));
    var w4 := Next(w3, Do(WriteUnder(t, r)));
    ws, es := [w0, w1, w2, w3, w4], [Arrives(0, Takes, map[], Some(t)), Look(0), Miss(0), Do(WriteUnder(t, r))];
    assert w4.unsent == multiset{};
  }

  // ── What a waiting read returns ─────────────────────────────────────────────

  ghost predicate Publishes(w: World, e: Event, r: Tuple) {
    Enabled(w, e) && StepOf(w, e).Some? && r in Published(w.store, StepOf(w, e).value)
  }

  ghost predicate Withdraws(w: World, e: Event, r: Tuple) {
    Enabled(w, e) && StepOf(w, e).Some? && Removes(StepOf(w, e).value, r)
  }

  /** The tuple was published at i and nobody removed it until n. */
  ghost predicate StandsSince(ws: seq<World>, es: seq<Event>, i: nat, n: nat, r: Tuple)
    requires n <= |es| < |ws|
  {
    i < n && Publishes(ws[i], es[i], r) && forall j :: i < j < n ==> !Withdraws(ws[j], es[j], r)
  }

  lemma StoreStep(w: World, e: Event)
    requires Enabled(w, e) && w.capacity > 0
    ensures StepOf(w, e).None? ==> Next(w, e).store == w.store
    ensures StepOf(w, e).Some? ==>
              SpaceSpec.Enabled(w.store, StepOf(w, e).value) && Next(w, e).store == Apply(w.store, StepOf(w, e).value)
  {
    hide Apply, Fits;
  }

  lemma VisibleStep(w: World, e: Event, r: Tuple)
    requires Inv(w) && Enabled(w, e)
    ensures Visible(Next(w, e).store, r) <==> Publishes(w, e, r) || (Visible(w.store, r) && !Withdraws(w, e, r))
  {
    hide Apply, Next, Enabled, StepOf, Published, Removes, Visible;
    StoreStep(w, e);
    if StepOf(w, e).Some? { VisibleAfter(w.store, StepOf(w, e).value, r); }
  }

  lemma {:induction false} StandingIsVisible(ws: seq<World>, es: seq<Event>, i: nat, n: nat, r: Tuple)
    requires IsRun(ws, es) && n <= |es| && StandsSince(ws, es, i, n, r)
    ensures Visible(ws[n].store, r)
    decreases n
  {
    hide Next, Enabled, Publishes, Withdraws, Visible, Inv;
    RunInv(ws, es, n - 1);
    assert Enabled(ws[n - 1], es[n - 1]);
    VisibleStep(ws[n - 1], es[n - 1], r) by { assert Inv(ws[n - 1]); }
    if i < n - 1 { StandingIsVisible(ws, es, i, n - 1, r); }
  }

  lemma {:induction false} VisibleStands(ws: seq<World>, es: seq<Event>, n: nat, r: Tuple) returns (i: nat)
    requires IsRun(ws, es) && n <= |es| && Visible(ws[n].store, r)
    ensures StandsSince(ws, es, i, n, r)
    decreases n
  {
    hide Next, Enabled, Publishes, Withdraws, Inv;
    RunInv(ws, es, n - 1);
    VisibleStep(ws[n - 1], es[n - 1], r);
    if Publishes(ws[n - 1], es[n - 1], r) {
      i := n - 1;
    } else {
      i := VisibleStands(ws, es, n - 1, r);
    }
  }

  /** In every run, a tuple is visible if and only if it was published and not removed since. */
  lemma VisibleExactly(ws: seq<World>, es: seq<Event>, n: nat, r: Tuple)
    requires IsRun(ws, es) && n <= |es|
    ensures Visible(ws[n].store, r) <==> exists i :: StandsSince(ws, es, i, n, r)
  {
    hide Init, Enabled, Next, StandsSince, Visible;
    if Visible(ws[n].store, r) {
      var i := VisibleStands(ws, es, n, r);
    } else {
      forall i: nat | StandsSince(ws, es, i, n, r) ensures false { StandingIsVisible(ws, es, i, n, r); }
    }
  }

  ghost predicate WasPublished(ws: seq<World>, es: seq<Event>, n: nat, r: Tuple)
    requires n <= |es| < |ws|
  {
    exists i :: 0 <= i < n && Publishes(ws[i], es[i], r)
  }

  ghost predicate InTransit(w: World, r: Tuple) {
    r in w.unsent || exists a :: a in w.clients && r in w.clients[a].inbox.queue
  }

  /** What is owed after an event was owed before, or is published by it. */
  lemma UnsentStep(w: World, e: Event, r: Tuple)
    requires Enabled(w, e) && w.capacity > 0 && r in Next(w, e).unsent
    ensures r in w.unsent || Publishes(w, e, r)
  {
    hide Apply, Fits, Matches, Published, TakeStep, Sees;
  }

  /** What is queued after an event was queued before, or owed. */
  lemma QueuedStep(w: World, e: Event, r: Tuple, a: Actor)
    requires Enabled(w, e) && w.capacity > 0 && a in Next(w, e).clients && r in Next(w, e).clients[a].inbox.queue
    ensures (a in w.clients && r in w.clients[a].inbox.queue) || r in w.unsent
  {
    hide Apply, Fits, Matches, Published, TakeStep, Sees, NoneMatch;
  }

  lemma TransitStep(w: World, e: Event, r: Tuple)
    requires Enabled(w, e) && w.capacity > 0 && InTransit(Next(w, e), r)
    ensures InTransit(w, r) || Publishes(w, e, r)
  {
    hide Enabled, Next, Publishes;
    if r in Next(w, e).unsent {
      UnsentStep(w, e, r);
    } else {
      var a :| a in Next(w, e).clients && r in Next(w, e).clients[a].inbox.queue;
      QueuedStep(w, e, r, a);
    }
  }

  /** Every broadcast, owed, queued or received, is of a tuple some step made visible. */
  lemma {:induction false} TransitIsPublished(ws: seq<World>, es: seq<Event>, n: nat, r: Tuple)
    requires IsRun(ws, es) && n <= |es| && InTransit(ws[n], r)
    ensures WasPublished(ws, es, n, r)
  {
    if n > 0 {
      TransitStep(ws[n - 1], es[n - 1], r);
      if !Publishes(ws[n - 1], es[n - 1], r) {
        TransitIsPublished(ws, es, n - 1, r);
        var i :| 0 <= i < n - 1 && Publishes(ws[i], es[i], r);
        assert 0 <= i < n && Publishes(ws[i], es[i], r);
      }
    }
  }

  /** A read that wakes on a message returns a tuple that was public once, and that is
      still visible if and only if no take, cancel or reclaim of it came after it was
      last published. */
  lemma WokenReadExactly(ws: seq<World>, es: seq<Event>, n: nat, a: Actor)
    requires IsRun(ws, es) && n < |es| && es[n] == Wake(a) && a in ws[n + 1].clients
    requires ws[n + 1].clients[a].stage.Finished?
    ensures var r := ws[n + 1].clients[a].stage.got;
            && WasPublished(ws, es, n, r)
            && (Visible(ws[n + 1].store, r) <==> exists i :: StandsSince(ws, es, i, n, r))
  {
    var r := ws[n + 1].clients[a].stage.got;
    assert r == ws[n].clients[a].inbox.queue[0];
    assert InTransit(ws[n], r);
    TransitIsPublished(ws, es, n, r);
    VisibleExactly(ws, es, n, r);
  }

  lemma Extend(ws: seq<World>, es: seq<Event>, e: Event, w: World) returns (ws': seq<World>, es': seq<Event>)
    requires IsRun(ws, es) && ws[|es|].capacity > 0 && Enabled(ws[|es|], e) && Next(ws[|es|], e) == w
    ensures IsRun(ws', es') && |ws'| == |es'| + 1 && ws'[|es'|] == w
  {
    hide Init, Enabled, Next;
    ws', es' := ws + [w], es + [e];
  }

  /** A read that found nothing and waits. */
  lemma ParkedReader(k: Client, capacity: nat) returns (ws: seq<World>, es: seq<Event>)
    requires capacity > 0 && k == Client(Reads, k.template, None, Inbox([], false), Parked, false)
    ensures IsRun(ws, es) && |ws| == |es| + 1 && ws[|es|] == World(map[], multiset{}, map[0 := k], capacity)
  {
    hide Matches;
    var w0 := World(map[], multiset{}, map[], capacity);
    var w1 := w0.(clients := map[0 := k.(stage := Trying)]);
    var w2 := w0.(clients := map[0 := k]);
    ws, es := [w0, w1, w2], [Arrives(0, Reads, k.template, None), Miss(0)];
  }

  /** A take that found nothing and waits. */
  lemma ParkedTaker(k: Client, capacity: nat) returns (ws: seq<World>, es: seq<Event>)
    requires capacity > 0 && k == Client(Takes, k.template, None, Inbox([], false), Parked, false)
    ensures IsRun(ws, es) && |ws| == |es| + 1 && ws[|es|] == World(map[], multiset{}, map[0 := k], capacity)
  {
    hide IsRun, Matches;
    var w := World(map[], multiset{}, map[], capacity);
    ws, es := [w], [];
    assert IsRun(ws, es) by { EmptyRun(w); }
    w := w.(clients := map[0 := k.(stage := Trying)]);
    ws, es := Extend(ws, es, Arrives(0, Takes, k.template, None), w);
    var j := k.(stage := Trying);
    assert (set id | id in w.store && Fits(w, j, id)) == {};
    w := w.(clients := map[0 := k.(stage := Scanned({}))]);
    ws, es := Extend(ws, es, Look(0), w);
    ws, es := Extend(ws, es, Miss(0), w.(clients := map[0 := k]));
  }

  lemma EmptyRun(w: World)
    requires Init(w)
    ensures IsRun([w], [])
  {}

  lemma AnnounceToOne(w: World, k: Client, r: Tuple)
    requires w.capacity > 0 && w.unsent == multiset{r} && w.clients == map[0 := k] && k.inbox == Inbox([], false)
    ensures Next(w, Announce(r)) == w.(unsent := multiset{}, clients := map[0 := k.(inbox := Inbox([r], false))])
  {
    assert Arrive(k.inbox, r, w.capacity) == Inbox([r], false);
    assert Next(w, Announce(r)).clients == map[0 := k.(inbox := Inbox([r], false))];
  }

  /** The tuple a lone client waits for is written and announced. */
  lemma Announced(ws0: seq<World>, es0: seq<Event>, k: Client, r: Tuple, capacity: nat) returns (ws: seq<World>, es: seq<Event>)
    requires IsRun(ws0, es0) && |ws0| == |es0| + 1 && ws0[|es0|] == World(map[], multiset{}, map[0 := k], capacity)
    requires capacity > 0 && k.inbox == Inbox([], false)
    ensures IsRun(ws, es) && |ws| == |es| + 1
    ensures ws[|es|] == World(map[r.id := Cell(r, Public)], multiset{}, map[0 := k.(inbox := Inbox([r], false))], capacity)
  {
    hide IsRun, Fits, NoneMatch;
    var w := World(map[r.id := Cell(r, Public)], multiset{r}, map[0 := k], capacity);
    assert multiset(Published(map[], Write(r))) == multiset{r};
    ws, es := Extend(ws0, es0, Do(Write(r)), w);
    AnnounceToOne(w, k, r);
    w := World(map[r.id := Cell(r, Public)], multiset{}, map[0 := k.(inbox := Inbox([r], false))], capacity);
    ws, es := Extend(ws, es, Announce(r), w);
  }

  /** And it need not be: a read returns a tuple that somebody has taken meanwhile. */
  lemma ReadOfTheTaken(r: Tuple, capacity: nat) returns (ws: seq<World>, es: seq<Event>)
    requires capacity > 0
    ensures IsRun(ws, es)
    ensures ws[|es|].store == map[] && 0 in ws[|es|].clients && ws[|es|].clients[0].stage == Finished(r)
  {
    hide IsRun, Fits, NoneMatch;
    var k := Client(Reads, map[], None, Inbox([], false), Parked, false);
    ws, es := ParkedReader(k, capacity);
    ws, es := Announced(ws, es, k, r, capacity);
    k := k.(inbox := Inbox([r], false));
    var w := World(map[], multiset{}, map[0 := k], capacity);
    ws, es := Extend(ws, es, Do(Take(r.id)), w);
    w := w.(clients := map[0 := Woken(k)]);
    ws, es := Extend(ws, es, Wake(0), w);
    assert ws[|es|] == w;
  }

  // ── Storage errors ──────────────────────────────────────────────────────────

  /** A client waits with nothing to receive, while a tuple it wants is visible and announced. */
  ghost predicate Missed(w: World, a: Actor, template: Template, r: Tuple, failed: bool) {
    && a in w.clients && w.clients[a].template == template && w.clients[a].stage == Parked
    && w.clients[a].failed == failed && !Pending(w.clients[a].inbox)
    && Visible(w.store, r) && Matches(template, r.attrs) && r !in w.unsent
  }

  /** Woken for r, a take meets a storage error and waits again. */
  lemma FaultLosesWakeup(template: Template, r: Tuple, capacity: nat) returns (ws: seq<World>, es: seq<Event>)
    requires capacity > 0 && Matches(template, r.attrs)
    ensures IsRun(ws, es) && |ws| == |es| + 1 && Missed(ws[|es|], 0, template, r, true)
  {
    hide IsRun, Fits, NoneMatch, Matches;
    var k := Client(Takes, template, None, Inbox([], false), Parked, false);
    ws, es := ParkedTaker(k, capacity);
    ws, es := Announced(ws, es, k, r, capacity);
    var w := ws[|es|].(clients := map[0 := k.(stage := Trying)]);
    assert Woken(k.(inbox := Inbox([r], false))) == k.(stage := Trying) by { assert [r][1..] == []; }
    ws, es := Extend(ws, es, Wake(0), w);
    w := w.(clients := map[0 := k.(failed := true)]);
    ws, es := Extend(ws, es, Fault(0), w);
    assert ws[|es|] == w;
  }

  /** A wakeup for a committed tuple can be lost if and only if the client's last attempt
      ended in a storage error. */
  lemma LostWakeupExactly(template: Template, r: Tuple, failed: bool)
    requires Matches(template, r.attrs)
    ensures failed <==> exists ws, es, a :: IsRun(ws, es) && Missed(ws[|es|], a, template, r, failed)
  {
    hide Init, Enabled, Next, Matches;
    if failed { var ws, es := FaultLosesWakeup(template, r, 1); }
    if !failed {
      forall ws, es, a | IsRun(ws, es) ensures !Missed(ws[|es|], a, template, r, failed) {
        if Missed(ws[|es|], a, template, r, failed) { NoLostWakeup(ws, es, |es|, a, r.id); }
      }
    }
  }
}

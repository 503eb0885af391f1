/** The Registry under concurrency: any number of registrations, modifications and reclaim
    cascades, interleaved at every store access. A store write and the event about it are
    two steps, and a call may stop in between, so that its event never goes out. */
module RegistryRaces {
  import opened Prelude
  import opened Registry

  type Actor = nat

  /** `loaded`: modifications that have read their entry, not yet written. `owed`: calls
      past their store write, with the event still to send. History: `caps` and `leases`
      ever used, `writes` what really changed the store, in order, `events` what went out. */
  datatype World = World(
    entries: map<Id, Entry>, caps: set<Id>, leases: set<Id>,
    loaded: map<Actor, Entry>, owed: map<Actor, Change>, writes: seq<Change>, events: seq<Change>)

  datatype Step =
    | Add(a: Actor, e: Entry)          // register: insert the new entry
    | Load(a: Actor, cap: Id)          // re-register or modify: read the entry
    | Store(a: Actor, e: Entry)        // ... and write it back, if it is still there
    | Reclaim(a: Actor, lease: Id)     // the cascade removes what the lease backs
    | Send(a: Actor)                   // the event of an earlier write goes out
    | Stop(a: Actor)                   // storage error, crash

  ghost predicate Init(w: World) {
    w == World(map[], {}, {}, map[], map[], [], [])
  }

  ghost predicate Idle(w: World, a: Actor) {
    a !in w.loaded && a !in w.owed
  }

  /** Capability ids and leases are fresh; a write-back keeps the identity it read. */
  ghost predicate Enabled(w: World, s: Step) {
    match s
    case Add(a, e) => Idle(w, a) && e.cap !in w.caps && e.lease !in w.leases
    case Load(a, c) => Idle(w, a) && c in w.entries
    case Store(a, e) => a in w.loaded && a !in w.owed && e.cap == w.loaded[a].cap && e.lease == w.loaded[a].lease
    case Reclaim(a, _) => Idle(w, a)
    case Send(a) => a in w.owed
    case Stop(_) => true
  }

  ghost predicate Backs(entries: map<Id, Entry>, lease: Id, c: Id) {
    c in entries && entries[c].lease == lease
  }

  /** The event goes out regardless of whether the write-back found its entry. */
  ghost function AfterStore(w: World, a: Actor, e: Entry): World {
    w.(entries := Rewritten(w.entries, e), loaded := w.loaded - {a}, owed := w.owed[a := Modified(e)],
       writes := if e.cap in w.entries then w.writes + [Modified(e)] else w.writes)
  }

  ghost function AfterReclaim(w: World, a: Actor, lease: Id): World {
    if exists c :: Backs(w.entries, lease, c)
    then
      var c :| Backs(w.entries, lease, c);
      w.(entries := w.entries - {c}, owed := w.owed[a := Expired(w.entries[c])],
         writes := w.writes + [Expired(w.entries[c])])
    else w
  }

  ghost function Next(w: World, s: Step): World
    requires Enabled(w, s)
  {
    match s
    case Add(a, e) =>
      w.(entries := w.entries[e.cap := e], caps := w.caps + {e.cap}, leases := w.leases + {e.lease},
         owed := w.owed[a := Registered(e)], writes := w.writes + [Registered(e)])
    case Load(a, c) => w.(loaded := w.loaded[a := w.entries[c]])
    case Store(a, e) => AfterStore(w, a, e)
    case Reclaim(a, l) => AfterReclaim(w, a, l)
    case Send(a) => w.(owed := w.owed - {a}, events := w.events + [w.owed[a]])
    case Stop(a) => w.(owed := w.owed - {a}, loaded := w.loaded - {a})
  }

  /** A call that stops owes nothing any more and has nothing in hand; the store keeps its write. */
  lemma StopForgets(w: World, a: Actor)
    ensures var w' := Next(w, Stop(a));
            Idle(w', a) && w'.entries == w.entries && w'.events == w.events
            && forall b :: b != a ==> (b in w'.owed <==> b in w.owed) && (b in w'.loaded <==> b in w.loaded)
  {}

  // ── The last word about a capability ────────────────────────────────────────

  ghost function LastFor(cs: seq<Change>, c: Id): Option<Change> {
    if cs == [] then None
    else if cs[|cs| - 1].e.cap == c then Some(cs[|cs| - 1])
    else LastFor(cs[..|cs| - 1], c)
  }

  /** The entry a change leaves behind. */
  function Says(x: Option<Change>): Option<Entry> {
    if x.None? || x.value.Expired? then None else Some(x.value.e)
  }

  function At(m: map<Id, Entry>, c: Id): Option<Entry> {
    if c in m then Some(m[c]) else None
  }

  lemma LastForSnoc(cs: seq<Change>, x: Change, c: Id)
    ensures LastFor(cs + [x], c) == if x.e.cap == c then Some(x) else LastFor(cs, c)
  {
    assert (cs + [x])[..|cs|] == cs;
  }

  /** What a watcher has of a capability is what the last event about it said. */
  lemma {:induction false} ReplayIsLastEvent(cs: seq<Change>, c: Id)
    ensures At(Replay(cs), c) == Says(LastFor(cs, c))
  {
    if cs != [] { ReplayIsLastEvent(cs[..|cs| - 1], c); }
  }

  ghost predicate InStep(w: World, c: Id) {
    At(Replay(w.events), c) == At(w.entries, c)
  }

  // ── Invariant ───────────────────────────────────────────────────────────────

  /** Entries sit under their own id, no lease backs two, and nothing is older than it says. */
  ghost predicate EntriesOk(w: World) {
    && (forall c :: c in w.entries ==> w.entries[c].cap == c && c in w.caps && w.entries[c].lease in w.leases)
    && (forall c, d :: c in w.entries && d in w.entries && w.entries[c].lease == w.entries[d].lease ==> c == d)
  }

  /** A pending modification has the lease of its entry, which never changes and is nobody else's. */
  ghost predicate LoadedOk(w: World) {
    forall a :: a in w.loaded ==>
      && w.loaded[a].cap in w.caps && w.loaded[a].lease in w.leases
      && (forall c :: c in w.entries ==> (w.entries[c].lease == w.loaded[a].lease <==> c == w.loaded[a].cap))
  }

  /** The store holds what the last write to each capability left. */
  ghost predicate WritesOk(w: World) {
    && (forall c :: At(w.entries, c) == Says(LastFor(w.writes, c)))
    && (forall c :: LastFor(w.writes, c).Some? ==> c in w.caps)
  }

  ghost predicate SentOk(w: World) {
    && (forall a :: a in w.owed ==> w.owed[a].e.cap in w.caps)
    && (forall c :: LastFor(w.events, c).Some? ==> c in w.caps)
  }

  ghost predicate Inv(w: World) {
    EntriesOk(w) && LoadedOk(w) && WritesOk(w) && SentOk(w)
  }

  lemma WriteKeepsWritesOk(w: World, x: Change, entries': map<Id, Entry>, caps': set<Id>)
    requires WritesOk(w) && w.caps <= caps' && x.e.cap in caps'
    requires forall c :: At(entries', c) == if c == x.e.cap then Says(Some(x)) else At(w.entries, c)
    ensures WritesOk(w.(entries := entries', caps := caps', writes := w.writes + [x]))
  {
    forall c ensures LastFor(w.writes + [x], c) == if x.e.cap == c then Some(x) else LastFor(w.writes, c) {
      LastForSnoc(w.writes, x, c);
    }
  }

  lemma ReclaimKeepsInv(w: World, a: Actor, l: Id)
    requires Inv(w) && Enabled(w, Reclaim(a, l))
    ensures Inv(Next(w, Reclaim(a, l)))
  {
    hide LastFor, WritesOk;
    if exists c :: Backs(w.entries, l, c) {
      var c :| Backs(w.entries, l, c) && Next(w, Reclaim(a, l)).entries == w.entries - {c};
      WriteKeepsWritesOk(w, Expired(w.entries[c]), w.entries - {c}, w.caps);
      WritesFrame(w.(entries := w.entries - {c}, caps := w.caps, writes := w.writes + [Expired(w.entries[c])]), AfterReclaim(w, a, l));
    }
  }

  lemma WritesFrame(w: World, w': World)
    requires WritesOk(w) && w'.entries == w.entries && w'.caps == w.caps && w'.writes == w.writes
    ensures WritesOk(w')
  {}

  lemma AddKeepsInv(w: World, a: Actor, e: Entry)
    requires Inv(w) && Enabled(w, Add(a, e))
    ensures Inv(Next(w, Add(a, e)))
  {
    hide LastFor, WritesOk;
    var w' := Next(w, Add(a, e));
    WriteKeepsWritesOk(w, Registered(e), w'.entries, w'.caps);
    WritesFrame(w.(entries := w'.entries, caps := w'.caps, writes := w'.writes), w');
  }

  lemma StoreKeepsInv(w: World, a: Actor, e: Entry)
    requires Inv(w) && Enabled(w, Store(a, e))
    ensures Inv(Next(w, Store(a, e)))
  {
    hide LastFor, WritesOk;
    var w' := Next(w, Store(a, e));
    if e.cap in w.entries { WriteKeepsWritesOk(w, Modified(e), w'.entries, w.caps); }
    WritesFrame(w.(entries := w'.entries, caps := w'.caps, writes := w'.writes), w');
  }

  lemma NextKeepsInv(w: World, s: Step)
    requires Inv(w) && Enabled(w, s)
    ensures Inv(Next(w, s))
  {
    hide LastFor;
    match s
    case Add(a, e) => AddKeepsInv(w, a, e);
    case Store(a, e) => StoreKeepsInv(w, a, e);
    case Reclaim(a, l) => ReclaimKeepsInv(w, a, l);
    case Send(a) =>
      forall c ensures LastFor(Next(w, s).events, c).Some? ==> c in w.caps { LastForSnoc(w.events, w.owed[a], c); }
    case _ =>
  }

  // ── Runs ────────────────────────────────────────────────────────────────────

  ghost predicate IsRun(ws: seq<World>, steps: seq<Step>) {
    && |ws| == |steps| + 1 && Init(ws[0])
    && forall i :: 0 <= i < |steps| ==> Enabled(ws[i], steps[i]) && ws[i + 1] == Next(ws[i], steps[i])
  }

  lemma {:induction false} RunInv(ws: seq<World>, steps: seq<Step>, i: nat)
    requires IsRun(ws, steps) && i <= |steps|
    ensures Inv(ws[i])
  {
    if i > 0 {
      RunInv(ws, steps, i - 1);
      NextKeepsInv(ws[i - 1], steps[i - 1]);
    }
  }

  /** At every moment of every run, a watcher is in step on a capability if and only if the
      last event sent about it says what the last store write to it left; on one that has
      been reclaimed, if and only if that event is the EXPIRED (or nothing was sent yet). */
  lemma InStepExactly(ws: seq<World>, steps: seq<Step>, n: nat, c: Id)
    requires IsRun(ws, steps) && n <= |steps|
    ensures var w := ws[n];
            && (InStep(w, c) <==> Says(LastFor(w.events, c)) == Says(LastFor(w.writes, c)))
            && (c !in w.entries ==>
                  (InStep(w, c) <==> LastFor(w.events, c).None? || LastFor(w.events, c).value.Expired?))
  {
    RunInv(ws, steps, n);
    ReplayIsLastEvent(ws[n].events, c);
  }

  // ── Orderly schedules ───────────────────────────────────────────────────────

  /** The capability a step writes, or tries to. */
  ghost predicate Touches(w: World, s: Step, c: Id) {
    match s
    case Add(_, e) => e.cap == c
    case Store(_, e) => e.cap == c
    case Reclaim(_, l) => Backs(w.entries, l, c)
    case _ => false
  }

  ghost predicate Owes(w: World, a: Actor, c: Id) {
    a in w.owed && w.owed[a].e.cap == c
  }

  /** Nobody writes c while an event about c is still to be sent, no write-back finds c
      gone, and no event about c is lost. */
  ghost predicate Orderly(w: World, s: Step, c: Id) {
    && (Touches(w, s, c) ==> forall a :: !Owes(w, a, c))
    && (s.Store? && s.e.cap == c ==> c in w.entries)
    && (s.Stop? ==> !Owes(w, s.a, c))
  }

  /** All events about c are out, or one call owes exactly the last write. */
  ghost predicate Caught(w: World, c: Id) {
    if forall a :: !Owes(w, a, c) then LastFor(w.events, c) == LastFor(w.writes, c)
    else
      && (forall a :: Owes(w, a, c) ==> Some(w.owed[a]) == LastFor(w.writes, c))
      && (forall a, b :: Owes(w, a, c) && Owes(w, b, c) ==> a == b)
  }

  /** A write of c makes its call owe exactly that write. */
  lemma TouchingStep(w: World, s: Step, c: Id)
    requires Inv(w) && Enabled(w, s) && Orderly(w, s, c) && Touches(w, s, c)
    ensures s.a in Next(w, s).owed && Some(Next(w, s).owed[s.a]) == LastFor(Next(w, s).writes, c)
    ensures forall b :: Owes(Next(w, s), b, c) <==> b == s.a
  {
    hide LastFor, WritesOk, LoadedOk, SentOk;
    var w' := Next(w, s);
    forall b ensures Owes(w', b, c) <==> b == s.a { assert !Owes(w, b, c); }
    LastForSnoc(w.writes, w'.owed[s.a], c);
  }

  lemma OtherStep(w: World, s: Step, c: Id)
    requires Inv(w) && Enabled(w, s) && !Touches(w, s, c) && !s.Send? && (s.Stop? ==> !Owes(w, s.a, c))
    ensures var w' := Next(w, s);
            && LastFor(w'.writes, c) == LastFor(w.writes, c) && w'.events == w.events
            && forall b :: (Owes(w', b, c) <==> Owes(w, b, c)) && (Owes(w, b, c) ==> w'.owed[b] == w.owed[b])
  {
    hide LastFor, WritesOk, LoadedOk, SentOk;
    var w' := Next(w, s);
    if w'.writes != w.writes {
      var x := w'.writes[|w.writes|];
      assert w'.writes == w.writes + [x];
      LastForSnoc(w.writes, x, c);
    }
    forall b ensures (Owes(w', b, c) <==> Owes(w, b, c)) && (Owes(w, b, c) ==> w'.owed[b] == w.owed[b]) {}
  }

  lemma SendStep(w: World, a: Actor, c: Id)
    requires Enabled(w, Send(a)) && Caught(w, c)
    ensures Caught(Next(w, Send(a)), c)
  {
    hide LastFor;
    var w' := Next(w, Send(a));
    LastForSnoc(w.events, w.owed[a], c);
    forall b ensures Owes(w', b, c) <==> Owes(w, b, c) && b != a {}
    if Owes(w, a, c) { assert forall b :: !Owes(w', b, c); }
  }

  lemma OrderlyStepKeepsCaught(w: World, s: Step, c: Id)
    requires Inv(w) && Enabled(w, s) && Orderly(w, s, c) && Caught(w, c)
    ensures Caught(Next(w, s), c)
  {
    hide LastFor, Inv, Next, Owes, Touches;
    if s.Send? { SendStep(w, s.a, c); }
    else if Touches(w, s, c) { TouchingStep(w, s, c); assert Owes(Next(w, s), s.a, c); }
    else { OtherStep(w, s, c); }
  }

  lemma {:induction false} OrderlyRunIsCaught(ws: seq<World>, steps: seq<Step>, n: nat, c: Id)
    requires IsRun(ws, steps) && n <= |steps| && forall i :: 0 <= i < n ==> Orderly(ws[i], steps[i], c)
    ensures Caught(ws[n], c)
  {
    if n > 0 {
      OrderlyRunIsCaught(ws, steps, n - 1, c);
      RunInv(ws, steps, n - 1);
      OrderlyStepKeepsCaught(ws[n - 1], steps[n - 1], c);
    }
  }

  /** If each event about c goes out before the next write of c, a watcher is in step on c
      whenever no event about it is owed. */
  lemma OrderlyStaysInStep(ws: seq<World>, steps: seq<Step>, n: nat, c: Id)
    requires IsRun(ws, steps) && n <= |steps| && forall i :: 0 <= i < n ==> Orderly(ws[i], steps[i], c)
    requires forall a :: !Owes(ws[n], a, c)
    ensures InStep(ws[n], c)
  {
    OrderlyRunIsCaught(ws, steps, n, c);
    InStepExactly(ws, steps, n, c);
  }

  // ── Disorderly ones ─────────────────────────────────────────────────────────

  /** Nothing more can be said about c: it is gone and no call has it in hand. */
  ghost predicate Over(w: World, c: Id) {
    c in w.caps && c !in w.entries
    && (forall a :: a in w.loaded ==> w.loaded[a].cap != c) && (forall a :: !Owes(w, a, c))
  }

  /** A watcher that is out of step by then stays so for ever (and one in step stays in step). */
  lemma {:induction false} OverIsForEver(ws: seq<World>, steps: seq<Step>, i: nat, j: nat, c: Id)
    requires IsRun(ws, steps) && i <= j <= |steps| && Over(ws[i], c)
    ensures Over(ws[j], c) && LastFor(ws[j].events, c) == LastFor(ws[i].events, c)
    ensures InStep(ws[j], c) <==> InStep(ws[i], c)
    decreases j
  {
    if i < j {
      OverIsForEver(ws, steps, i, j - 1, c);
      RunInv(ws, steps, j - 1);
      OverStep(ws[j - 1], steps[j - 1], c);
    }
    InStepExactly(ws, steps, i, c);
    InStepExactly(ws, steps, j, c);
  }

  lemma OverStep(w: World, s: Step, c: Id)
    requires Inv(w) && Enabled(w, s) && Over(w, c)
    ensures Over(Next(w, s), c) && LastFor(Next(w, s).events, c) == LastFor(w.events, c)
  {
    hide LastFor, WritesOk;
    var w' := Next(w, s);
    if s.Send? {
      assert !Owes(w, s.a, c);
      LastForSnoc(w.events, w.owed[s.a], c);
    }
    forall a ensures !Owes(w', a, c) { assert !Owes(w, a, c); }
  }

  /** Registered and announced. */
  ghost function Settled(e: Entry): World {
    World(map[e.cap := e], {e.cap}, {e.lease}, map[], map[], [Registered(e)], [Registered(e)])
  }

  lemma Settle(e: Entry) returns (ws: seq<World>, steps: seq<Step>)
    ensures IsRun(ws, steps) && ws[|steps|] == Settled(e)
  {
    var w0 := World(map[], {}, {}, map[], map[], [], []);
    var w1 := World(map[e.cap := e], {e.cap}, {e.lease}, map[], map[0 := Registered(e)], [Registered(e)], []);
    ws, steps := [w0, w1, Settled(e)], [Add(0, e), Send(0)];
    assert w1.owed - {0} == map[];
  }

  lemma Extend(ws: seq<World>, steps: seq<Step>, s: Step, w: World) returns (ws': seq<World>, steps': seq<Step>)
    requires IsRun(ws, steps) && Enabled(ws[|steps|], s) && Next(ws[|steps|], s) == w
    ensures IsRun(ws', steps') && ws'[|steps'|] == w
  {
    hide Init, Enabled, Next;
    ws', steps' := ws + [w], steps + [s];
  }

  /** EXPIRED overtakes MODIFIED: the update finds its entry, the cascade removes it and
      sends, then the update sends. The watcher keeps a capability that is gone. */
  lemma ExpiredOvertaken(e: Entry, e': Entry) returns (ws: seq<World>, steps: seq<Step>)
    requires e'.cap == e.cap && e'.lease == e.lease
    ensures IsRun(ws, steps)
    ensures var w := ws[|steps|];
            && Over(w, e.cap) && w.entries == map[]
            && w.events == [Registered(e), Expired(e'), Modified(e')] && At(Replay(w.events), e.cap) == Some(e')
  {
    hide IsRun, Replay, LastFor;
    ws, steps := Settle(e);
    var w := Settled(e).(loaded := map[1 := e]);
    ws, steps := Extend(ws, steps, Load(1, e.cap), w);
    w := w.(entries := map[e.cap := e'], loaded := map[], owed := map[1 := Modified(e')], writes := [Registered(e), Modified(e')]);
    ws, steps := Extend(ws, steps, Store(1, e'), w);
    assert Backs(w.entries, e.lease, e.cap);
    w := w.(entries := map[], owed := map[1 := Modified(e'), 2 := Expired(e')], writes := [Registered(e), Modified(e'), Expired(e')]);
    ws, steps := Extend(ws, steps, Reclaim(2, e.lease), w);
    w := w.(owed := map[1 := Modified(e')], events := [Registered(e), Expired(e')]);
    ws, steps := Extend(ws, steps, Send(2), w);
    w := w.(owed := map[], events := [Registered(e), Expired(e'), Modified(e')]);
    ws, steps := Extend(ws, steps, Send(1), w);
    LastForSnoc([Registered(e), Expired(e')], Modified(e'), e.cap);
    ReplayIsLastEvent(w.events, e.cap);
  }

  lemma LoadTwice(e: Entry) returns (ws: seq<World>, steps: seq<Step>)
    ensures IsRun(ws, steps) && ws[|steps|] == Settled(e).(loaded := map[1 := e, 2 := e])
  {
    hide IsRun;
    ws, steps := Settle(e);
    var w := Settled(e).(loaded := map[1 := e]);
    ws, steps := Extend(ws, steps, Load(1, e.cap), w);
    ws, steps := Extend(ws, steps, Load(2, e.cap), w.(loaded := map[1 := e, 2 := e]));
  }

  /** Both have written, x first, and nothing has been sent. */
  ghost function BothWritten(e: Entry, x: Entry, y: Entry): World {
    Settled(e).(entries := map[e.cap := y], owed := map[1 := Modified(x), 2 := Modified(y)],
                writes := [Registered(e), Modified(x), Modified(y)])
  }

  lemma WriteBoth(e: Entry, x: Entry, y: Entry) returns (ws: seq<World>, steps: seq<Step>)
    requires x.cap == y.cap == e.cap && x.lease == y.lease == e.lease
    ensures IsRun(ws, steps) && ws[|steps|] == BothWritten(e, x, y)
  {
    hide IsRun, Replay, LastFor;
    ws, steps := LoadTwice(e);
    var w := Settled(e).(loaded := map[2 := e], entries := map[e.cap := x], owed := map[1 := Modified(x)],
                         writes := [Registered(e), Modified(x)]);
    ws, steps := Extend(ws, steps, Store(1, x), w);
    ws, steps := Extend(ws, steps, Store(2, y), BothWritten(e, x, y));
  }

  /** Two writers send in the opposite order of their writes: the watcher keeps the older entry. */
  lemma WritersSwapped(e: Entry, x: Entry, y: Entry) returns (ws: seq<World>, steps: seq<Step>)
    requires x.cap == y.cap == e.cap && x.lease == y.lease == e.lease
    ensures IsRun(ws, steps)
    ensures var w := ws[|steps|];
            w.owed == map[] && w.loaded == map[] && w.entries == map[e.cap := y] && At(Replay(w.events), e.cap) == Some(x)
  {
    hide IsRun, Replay, LastFor;
    ws, steps := WriteBoth(e, x, y);
    var w := BothWritten(e, x, y);
    w := w.(owed := map[1 := Modified(x)], events := [Registered(e), Modified(y)]);
    ws, steps := Extend(ws, steps, Send(2), w);
    w := w.(owed := map[], events := [Registered(e), Modified(y), Modified(x)]);
    ws, steps := Extend(ws, steps, Send(1), w);
    LastForSnoc([Registered(e), Modified(y)], Modified(x), e.cap);
    ReplayIsLastEvent(w.events, e.cap);
  }
}

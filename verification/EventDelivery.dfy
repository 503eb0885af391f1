/** Durable delivery for one subscription: any number of emits and of Receive streams,
    interleaved step by step, with a disconnect possible at every step. */
module EventDelivery {
  import opened Prelude
  import opened EventStore
  import opened Broadcast

  type Actor = nat

  /** What a broadcast means to a durable receiver: something of its source, or not. */
  datatype Signal = Relevant | Other

  datatype Stage =
    | Reading                          // about to read a page
    | Sending(page: seq<Numbered>)     // about to send the head of the page
    | Awaiting(page: seq<Numbered>)    // sent it, waiting for room in the channel
    | Parked                           // mailbox was empty, waiting for a broadcast

  /** `slot` is the one-place channel to the transport. */
  datatype Receiver = Receiver(stage: Stage, cursor: nat, slot: Option<Numbered>, inbox: Inbox<Signal>)

  /** History: `log` all events ever enqueued (number n at index n - 1), `pulled` what the
      transport took off some stream. `owed`: numbers enqueued whose emit has not
      broadcast yet. */
  datatype World = World(
    box: Option<Mailbox>, log: seq<Event>, pulled: set<Numbered>, owed: set<nat>,
    receivers: map<Actor, Receiver>, capacity: nat, limit: nat)

  datatype Step =
    | Put(e: Event)
    | Announce(n: nat)                 // the emit that enqueued n broadcasts
    | Noise                            // somebody else's event is broadcast
    | Open(a: Actor)                   // subscribe to the broadcast, before reading
    | Read(a: Actor, page: seq<Numbered>)
    | Send(a: Actor)
    | Pull(a: Actor)                   // the transport takes the event
    | Ack(a: Actor)
    | Wake(a: Actor)
    | Drop(a: Actor)                   // disconnect, storage error, shutdown
    | Remove                           // the subscription is cancelled or its lease reclaimed

  ghost predicate Init(w: World) {
    && w.box == Some(Mailbox(0, map[])) && w.log == [] && w.pulled == {} && w.owed == {}
    && w.receivers == map[] && w.capacity > 0 && w.limit > 0
  }

  ghost function Entries(w: World): map<nat, Event> {
    if w.box.Some? then w.box.value.entries else map[]
  }

  ghost predicate Enabled(w: World, s: Step) {
    match s
    case Put(_) => w.box.Some?
    case Announce(n) => n in w.owed
    case Noise => true
    case Open(a) => w.box.Some? && a !in w.receivers
    case Read(a, page) =>
      a in w.receivers && w.receivers[a].stage == Reading && IsPage(page, Entries(w), w.receivers[a].cursor, w.limit)
    case Send(a) => a in w.receivers && w.receivers[a].stage.Sending? && w.receivers[a].stage.page != [] && w.receivers[a].slot.None?
    case Pull(a) => a in w.receivers && w.receivers[a].slot.Some?
    case Ack(a) => a in w.receivers && w.receivers[a].stage.Awaiting? && w.receivers[a].stage.page != [] && w.receivers[a].slot.None?
    case Wake(a) => a in w.receivers && w.receivers[a].stage == Parked && Pending(w.receivers[a].inbox)
    case Drop(a) => a in w.receivers
    case Remove => w.box.Some?
  }

  ghost function Heard(w: World, x: Signal): map<Actor, Receiver>
    requires w.capacity > 0
  {
    map a | a in w.receivers :: w.receivers[a].(inbox := Arrive(w.receivers[a].inbox, x, w.capacity))
  }

  ghost function With(w: World, a: Actor, r: Receiver): World {
    w.(receivers := w.receivers[a := r])
  }

  /** A lag notice or a broadcast of the source makes the receiver read again. */
  ghost function Woken(r: Receiver): Receiver
    requires Pending(r.inbox)
  {
    if r.inbox.lagged then r.(inbox := r.inbox.(lagged := false), stage := Reading)
    else
      r.(inbox := r.inbox.(queue := r.inbox.queue[1..]),
         stage := if r.inbox.queue[0] == Relevant then Reading else Parked)
  }

  ghost function Next(w: World, s: Step): World
    requires Enabled(w, s) && w.capacity > 0
  {
    match s
    case Put(e) =>
      w.(box := Some(Enqueued(w.box.value, e)), log := w.log + [e], owed := w.owed + {w.box.value.lastSeq + 1})
    case Announce(n) => w.(owed := w.owed - {n}, receivers := Heard(w, Relevant))
    case Noise => w.(receivers := Heard(w, Other))
    case Open(a) => With(w, a, Receiver(Reading, 0, None, Inbox([], false)))
    case Read(a, page) =>
      With(w, a, w.receivers[a].(stage := if page == [] then Parked else Sending(page)))
    case Send(a) =>
      var r := w.receivers[a];
      With(w, a, r.(slot := Some(r.stage.page[0]), stage := Awaiting(r.stage.page)))
    case Pull(a) =>
      With(w, a, w.receivers[a].(slot := None)).(pulled := w.pulled + {w.receivers[a].slot.value})
    case Ack(a) =>
      var r := w.receivers[a];
      var n := r.stage.page[0].n;
      With(w, a, r.(cursor := n, stage := if |r.stage.page| == 1 then Reading else Sending(r.stage.page[1..])))
        .(box := if w.box.Some? then Some(Acked(w.box.value, n)) else None)
    case Wake(a) => With(w, a, Woken(w.receivers[a]))
    case Drop(a) => w.(receivers := w.receivers - {a})
    case Remove => w.(box := None)
  }

  // ── Invariant ───────────────────────────────────────────────────────────────

  /** The numbered event is the one the log holds under that number. */
  ghost predicate Genuine(w: World, x: Numbered) {
    1 <= x.n <= |w.log| && w.log[x.n - 1] == x.event
  }

  ghost predicate Pulled(w: World, n: nat) {
    1 <= n <= |w.log| && Numbered(n, w.log[n - 1]) in w.pulled
  }

  /** The mailbox numbers 1, 2, 3, ... without reuse, and every number is still there or
      was pulled off a stream. */
  ghost predicate BoxInv(w: World) {
    w.box.Some? ==>
      && w.box.value.lastSeq == |w.log|
      && (forall n :: n in w.box.value.entries ==> Genuine(w, Numbered(n, w.box.value.entries[n])))
      && (forall n :: 1 <= n <= |w.log| ==> n in w.box.value.entries || Pulled(w, n))
  }

  /** A page in hand: genuine, ascending, beyond the cursor, and no entry left behind it. */
  ghost predicate PageInv(w: World, cursor: nat, page: seq<Numbered>) {
    && page != []
    && (forall i :: 0 <= i < |page| ==> page[i].n > cursor && Genuine(w, page[i]))
    && (forall i, j :: 0 <= i < j < |page| ==> page[i].n < page[j].n)
    && (forall n :: n in Entries(w) && cursor < n <= page[|page| - 1].n ==> InPage(page, n))
  }

  ghost predicate ReceiverInv(w: World, r: Receiver) {
    && r.cursor <= |w.log|
    && (forall n :: n in Entries(w) ==> n > r.cursor)
    && (r.slot.Some? ==> r.stage.Awaiting? && r.stage.page != [] && r.slot.value == r.stage.page[0])
    && match r.stage
       case Reading => true
       case Sending(page) => PageInv(w, r.cursor, page)
       case Awaiting(page) =>
         PageInv(w, r.cursor, page) && (r.slot.None? ==> page[0] in w.pulled)
       case Parked =>
         forall n :: n in Entries(w) && n > r.cursor ==> n in w.owed || Signals(r.inbox, Relevant)
  }

  ghost predicate Inv(w: World) {
    && w.capacity > 0 && w.limit > 0 && BoxInv(w)
    && (forall x :: x in w.pulled ==> Genuine(w, x))
    && (forall a :: a in w.receivers ==> ReceiverInv(w, w.receivers[a]))
  }

  /** The log only grows and entries only disappear, apart from the next number. */
  lemma ReceiverFrame(w: World, w': World, r: Receiver)
    requires ReceiverInv(w, r) && w.log <= w'.log && w.pulled <= w'.pulled
    requires forall n :: n in Entries(w') ==> n in Entries(w) || n > |w.log|
    requires forall n :: n in Entries(w') ==> n in w'.owed || (n in Entries(w) && n !in w.owed)
    ensures ReceiverInv(w', r)
  {}

  lemma EmitKeepsInv(w: World, e: Event)
    requires Inv(w) && Enabled(w, Put(e))
    ensures Inv(Next(w, Put(e)))
  {
    var w' := Next(w, Put(e));
    forall a | a in w.receivers ensures ReceiverInv(w', w.receivers[a]) { ReceiverFrame(w, w', w.receivers[a]); }
    forall n | 1 <= n <= |w'.log| ensures n in w'.box.value.entries || Pulled(w', n) {
      if n <= |w.log| { assert n in w.box.value.entries || Pulled(w, n); }
    }
  }

  lemma BroadcastKeepsInv(w: World, s: Step)
    requires Inv(w) && Enabled(w, s) && (s.Announce? || s.Noise?)
    ensures Inv(Next(w, s))
  {
    var w' := Next(w, s);
    forall a | a in w'.receivers ensures ReceiverInv(w', w'.receivers[a]) {
      ArriveSignals(w.receivers[a].inbox, if s.Noise? then Other else Relevant, Relevant, w.capacity);
      assert ReceiverInv(w, w.receivers[a]) && Entries(w') == Entries(w);
    }
    forall n | 1 <= n <= |w.log| && w.box.Some? ensures n in w'.box.value.entries || Pulled(w', n) {
      assert n in w.box.value.entries || Pulled(w, n);
    }
  }

  lemma ReadKeepsInv(w: World, a: Actor, page: seq<Numbered>)
    requires Inv(w) && Enabled(w, Read(a, page))
    ensures Inv(Next(w, Read(a, page)))
  {
    var w' := Next(w, Read(a, page));
    if page != [] {
      forall i | 0 <= i < |page| ensures Genuine(w, page[i]) {
        assert page[i].n in Entries(w) && Numbered(page[i].n, Entries(w)[page[i].n]) == page[i];
      }
      assert PageInv(w', w.receivers[a].cursor, page);
    }
    OthersKeepInv(w, w', a);
  }

  lemma OthersKeepInv(w: World, w': World, a: Actor)
    requires Inv(w) && w'.receivers.Keys == w.receivers.Keys
    requires forall b :: b in w.receivers && b != a ==> w'.receivers[b] == w.receivers[b]
    requires w'.log == w.log && w'.owed == w.owed && w.pulled <= w'.pulled
    requires forall n :: n in Entries(w') ==> n in Entries(w)
    ensures forall b :: b in w'.receivers && b != a ==> ReceiverInv(w', w'.receivers[b])
  {
    forall b | b in w'.receivers && b != a ensures ReceiverInv(w', w'.receivers[b]) {
      ReceiverFrame(w, w', w.receivers[b]);
    }
  }

  /** What one receiver does to itself, while the mailbox and the log stay as they are. */
  lemma OwnStepKeepsInv(w: World, a: Actor, r: Receiver, pulled: set<Numbered>)
    requires Inv(w) && a in w.receivers && w.pulled <= pulled && forall x :: x in pulled ==> Genuine(w, x)
    requires ReceiverInv(With(w, a, r).(pulled := pulled), r)
    ensures Inv(With(w, a, r).(pulled := pulled))
  {
    hide ReceiverInv;
    var w' := With(w, a, r).(pulled := pulled);
    assert w'.receivers.Keys == w.receivers.Keys;
    OthersKeepInv(w, w', a);
    forall n | 1 <= n <= |w.log| && w.box.Some? ensures n in w'.box.value.entries || Pulled(w', n) {
      assert n in w.box.value.entries || Pulled(w, n);
    }
  }

  lemma SendPullKeepsInv(w: World, s: Step)
    requires Inv(w) && Enabled(w, s) && (s.Send? || s.Pull?)
    ensures Inv(Next(w, s))
  {
    var w', r := Next(w, s), w.receivers[s.a];
    assert ReceiverInv(w, r);
    assert w' == With(w, s.a, w'.receivers[s.a]).(pulled := w'.pulled);
    assert Entries(w') == Entries(w);
    ReceiverFrame(w, w', r);
    OwnStepKeepsInv(w, s.a, w'.receivers[s.a], w'.pulled);
  }

  lemma WakeKeepsInv(w: World, a: Actor)
    requires Inv(w) && Enabled(w, Wake(a))
    ensures Inv(Next(w, Wake(a)))
  {
    hide InPage, PageInv;
    var r := w.receivers[a];
    assert ReceiverInv(w, r);
    if Woken(r).stage == Parked {
      assert forall x :: x in r.inbox.queue ==> x == r.inbox.queue[0] || x in r.inbox.queue[1..];
    }
    var w' := With(w, a, Woken(r)).(pulled := w.pulled);
    assert Entries(w') == Entries(w);
    ReceiverFrame(w, w', r);
    OwnStepKeepsInv(w, a, Woken(r), w.pulled);
  }

  /** On an ascending page the head is least, and what is greater is in the rest. */
  lemma HeadIsLeast(page: seq<Numbered>, n: nat)
    requires InPage(page, n) && forall i, j :: 0 <= i < j < |page| ==> page[i].n < page[j].n
    ensures page[0].n <= n && (page[0].n < n ==> InPage(page[1..], n))
  {
    var i :| 0 <= i < |page| && page[i].n == n;
    if i > 0 { assert page[1..][i - 1].n == n; }
  }

  /** Without its head, and with the head gone from the mailbox, a page is still a page
      (unless it is empty), and nothing is left behind it. */
  lemma RestIsPage(w: World, w': World, cursor: nat, page: seq<Numbered>)
    requires PageInv(w, cursor, page) && w'.log == w.log
    requires forall n :: n in Entries(w') ==> n in Entries(w) && n > cursor && n != page[0].n
    ensures forall n :: n in Entries(w') ==> n > page[0].n
    ensures |page| > 1 ==> PageInv(w', page[0].n, page[1..])
  {
    forall n | n in Entries(w')
      ensures n > page[0].n && (n <= page[|page| - 1].n ==> InPage(page[1..], n))
    {
      if n <= page[|page| - 1].n {
        assert n in Entries(w) && InPage(page, n);
        HeadIsLeast(page, n);
      }
    }
  }

  lemma AckKeepsOwn(w: World, a: Actor)
    requires Inv(w) && Enabled(w, Ack(a))
    ensures ReceiverInv(Next(w, Ack(a)), Next(w, Ack(a)).receivers[a])
  {
    hide InPage;
    var r, w' := w.receivers[a], Next(w, Ack(a));
    assert ReceiverInv(w, r);
    assert Entries(w') == Entries(w) - {r.stage.page[0].n} by {
      if w.box.None? { assert Entries(w') == map[]; }
    }
    forall n | n in Entries(w') ensures n in Entries(w) && n > r.cursor && n != r.stage.page[0].n {}
    RestIsPage(w, w', r.cursor, r.stage.page);
  }

  lemma AckKeepsInv(w: World, a: Actor)
    requires Inv(w) && Enabled(w, Ack(a))
    ensures Inv(Next(w, Ack(a)))
  {
    var w', x := Next(w, Ack(a)), w.receivers[a].stage.page[0];
    AckKeepsOwn(w, a);
    OthersKeepInv(w, w', a);
    assert ReceiverInv(w, w.receivers[a]);
    assert Genuine(w, x) && x == Numbered(x.n, w.log[x.n - 1]);
    forall n | 1 <= n <= |w.log| && w.box.Some? ensures n in w'.box.value.entries || Pulled(w', n) {
      assert n in w.box.value.entries || Pulled(w, n);
    }
  }

  lemma OpenCloseKeepsInv(w: World, s: Step)
    requires Inv(w) && Enabled(w, s) && (s.Open? || s.Drop? || s.Remove?)
    ensures Inv(Next(w, s))
  {
    var w' := Next(w, s);
    forall a | a in w'.receivers ensures ReceiverInv(w', w'.receivers[a]) {
      if a in w.receivers { ReceiverFrame(w, w', w.receivers[a]); }
    }
    forall n | 1 <= n <= |w.log| && w'.box.Some? ensures n in w'.box.value.entries || Pulled(w', n) {
      assert n in w.box.value.entries || Pulled(w, n);
    }
  }

  lemma NextKeepsInv(w: World, s: Step)
    requires Inv(w) && Enabled(w, s)
    ensures Inv(Next(w, s))
  {
    match s
    case Put(e) => EmitKeepsInv(w, e);
    case Announce(_) => BroadcastKeepsInv(w, s);
    case Noise => BroadcastKeepsInv(w, s);
    case Read(a, page) => ReadKeepsInv(w, a, page);
    case Send(_) => SendPullKeepsInv(w, s);
    case Pull(_) => SendPullKeepsInv(w, s);
    case Wake(a) => WakeKeepsInv(w, a);
    case Ack(a) => AckKeepsInv(w, a);
    case Open(_) => OpenCloseKeepsInv(w, s);
    case Drop(_) => OpenCloseKeepsInv(w, s);
    case Remove => OpenCloseKeepsInv(w, s);
  }

  // ── Runs ────────────────────────────────────────────────────────────────────

  ghost predicate IsRun(ws: seq<World>, steps: seq<Step>) {
    && |ws| == |steps| + 1 && Init(ws[0])
    && forall i :: 0 <= i < |steps| ==>
         ws[i].capacity > 0 && Enabled(ws[i], steps[i]) && ws[i + 1] == Next(ws[i], steps[i])
  }

  lemma {:induction false} RunInv(ws: seq<World>, steps: seq<Step>, i: nat)
    requires IsRun(ws, steps) && i <= |steps|
    ensures Inv(ws[i])
  {
    if i > 0 {
      RunInv(ws, steps, i - 1);
      NextKeepsInv(ws[i - 1], steps[i - 1]);
    }
  }

  /** At least once: while the subscription lives, each number up to the last one given
      out is still in the mailbox with its event, or that event was pulled off a stream. */
  lemma AtLeastOnce(ws: seq<World>, steps: seq<Step>, i: nat, n: nat)
    requires IsRun(ws, steps) && i <= |steps| && ws[i].box.Some? && 1 <= n <= ws[i].box.value.lastSeq
    ensures n <= |ws[i].log|
    ensures var e := ws[i].log[n - 1];
            (n in ws[i].box.value.entries && ws[i].box.value.entries[n] == e) || Numbered(n, e) in ws[i].pulled
  {
    RunInv(ws, steps, i);
    assert n in ws[i].box.value.entries || Pulled(ws[i], n);
  }

  /** Numbers are never reused and events never change: whatever two streams pull under
      one number, at any two moments, is one event. */
  lemma NumbersIdentifyEvents(ws: seq<World>, steps: seq<Step>, i: nat, j: nat, x: Numbered, y: Numbered)
    requires IsRun(ws, steps) && i <= j <= |steps| && x in ws[i].pulled && y in ws[j].pulled && x.n == y.n
    ensures x == y
  {
    RunInv(ws, steps, i);
    RunInv(ws, steps, j);
    LogGrows(ws, steps, i, j);
  }

  lemma {:induction false} LogGrows(ws: seq<World>, steps: seq<Step>, i: nat, j: nat)
    requires IsRun(ws, steps) && i <= j <= |steps|
    ensures ws[i].log <= ws[j].log
    decreases j
  {
    if i < j { LogGrows(ws, steps, i, j - 1); }
  }

  /** In order: when a stream is about to send, or has sent, number n, every smaller number
      has already been pulled off some stream. */
  lemma InOrder(ws: seq<World>, steps: seq<Step>, i: nat, a: Actor, n: nat)
    requires IsRun(ws, steps) && i <= |steps| && ws[i].box.Some? && a in ws[i].receivers
    requires ws[i].receivers[a].stage.Sending? || ws[i].receivers[a].stage.Awaiting?
    requires ws[i].receivers[a].stage.page != [] && 1 <= n < ws[i].receivers[a].stage.page[0].n
    ensures Pulled(ws[i], n)
  {
    RunInv(ws, steps, i);
    var w, r := ws[i], ws[i].receivers[a];
    assert ReceiverInv(w, r) && PageInv(w, r.cursor, r.stage.page);
    assert Genuine(w, r.stage.page[0]);
    assert n in Entries(w) || Pulled(w, n);
  }

  // ── Ends ────────────────────────────────────────────────────────────────────

  /** A removed subscription has no mailbox any more, for good. */
  lemma {:induction false} RemovedIsFinal(ws: seq<World>, steps: seq<Step>, i: nat, j: nat)
    requires IsRun(ws, steps) && i < j <= |steps| && steps[i] == Remove
    ensures ws[j].box.None? && Entries(ws[j]) == map[]
    decreases j
  {
    assert Enabled(ws[j - 1], steps[j - 1]);
    if j > i + 1 { RemovedIsFinal(ws, steps, i, j - 1); }
  }

  /** A parked receiver reads again on a broadcast of its source or a lag notice, and on
      nothing else; an ack goes on with the rest of the page in hand. */
  lemma StreamGoesOn(w: World, a: Actor)
    requires w.capacity > 0
    ensures Enabled(w, Wake(a)) ==>
              var inbox := w.receivers[a].inbox;
              Next(w, Wake(a)).receivers[a].stage == if inbox.lagged || inbox.queue[0] == Relevant then Reading else Parked
    ensures Enabled(w, Ack(a)) ==>
              var page := w.receivers[a].stage.page;
              Next(w, Ack(a)).receivers[a].stage == if |page| > 1 then Sending(page[1..]) else Reading
    ensures a in w.receivers ==>
              Next(w, Noise).receivers[a] == w.receivers[a].(inbox := Arrive(w.receivers[a].inbox, Other, w.capacity))
  {}

  /** A stream that drops is gone, and takes nothing from the mailbox with it. */
  lemma DropLosesNothing(ws: seq<World>, steps: seq<Step>, i: nat, a: Actor)
    requires IsRun(ws, steps) && i < |steps| && steps[i] == Drop(a)
    ensures a !in ws[i + 1].receivers && Entries(ws[i + 1]) == Entries(ws[i])
  {
    assert Enabled(ws[i], steps[i]);
  }

  /** A new stream starts before every entry: its first page is the head of the mailbox. */
  lemma ReopenedReadsFromTheStart(ws: seq<World>, steps: seq<Step>, i: nat, a: Actor, page: seq<Numbered>)
    requires IsRun(ws, steps) && i + 1 < |steps| && steps[i] == Open(a) && steps[i + 1] == Read(a, page)
    ensures forall n :: n in Entries(ws[i + 1]) ==> InPage(page, n) || (|page| == ws[i].limit && Beyond(page, n))
  {
    assert Enabled(ws[i], steps[i]) && Enabled(ws[i + 1], steps[i + 1]);
    RunInv(ws, steps, i + 1);
    assert ReceiverInv(ws[i + 1], ws[i + 1].receivers[a]);
  }

  // ── Acknowledgements ────────────────────────────────────────────────────────

  /** A number that was given out and is not in the mailbox does not come back. */
  lemma {:induction false} GoneNumberStaysGone(ws: seq<World>, steps: seq<Step>, i: nat, j: nat, n: nat)
    requires IsRun(ws, steps) && i <= j <= |steps| && 1 <= n <= |ws[i].log| && n !in Entries(ws[i])
    ensures n !in Entries(ws[j])
    decreases j
  {
    if i < j {
      GoneNumberStaysGone(ws, steps, i, j - 1, n);
      LogGrows(ws, steps, i, j - 1);
      RunInv(ws, steps, j - 1);
      GoneStep(ws[j - 1], steps[j - 1], n);
    }
  }

  lemma GoneStep(w: World, s: Step, n: nat)
    requires Inv(w) && Enabled(w, s) && 1 <= n <= |w.log| && n !in Entries(w)
    ensures n !in Entries(Next(w, s))
  {
    hide ReceiverInv, IsPage;
  }

  /** An ack is final: the acknowledged number is out of the mailbox from then on, no page
      read later on any stream holds it, and the stream's cursor is past it. */
  lemma AckedIsGone(ws: seq<World>, steps: seq<Step>, i: nat, j: nat, a: Actor)
    requires IsRun(ws, steps) && i < j <= |steps| && steps[i] == Ack(a)
    ensures a in ws[i].receivers && ws[i].receivers[a].stage.Awaiting? && ws[i].receivers[a].stage.page != []
    ensures var n := ws[i].receivers[a].stage.page[0].n;
            && n !in Entries(ws[j])
            && (j < |steps| && steps[j].Read? ==> !InPage(steps[j].page, n))
            && a in ws[i + 1].receivers && ws[i + 1].receivers[a].cursor == n
  {
    var w := ws[i];
    assert Enabled(w, steps[i]) && ws[i + 1] == Next(w, steps[i]);
    RunInv(ws, steps, i);
    assert ReceiverInv(w, w.receivers[a]);
    var n := w.receivers[a].stage.page[0].n;
    assert Genuine(w, w.receivers[a].stage.page[0]);
    AckRemoves(w, a);
    GoneNumberStaysGone(ws, steps, i + 1, j, n);
    if j < |steps| { assert Enabled(ws[j], steps[j]); }
  }

  lemma AckRemoves(w: World, a: Actor)
    requires Enabled(w, Ack(a)) && w.capacity > 0
    ensures w.receivers[a].stage.page[0].n !in Entries(Next(w, Ack(a)))
    ensures Next(w, Ack(a)).log == w.log
  {}

  /** A number leaves the mailbox only by an ack after its event was pulled off a stream, or
      with the subscription. */
  lemma LeavesOnlyAcked(ws: seq<World>, steps: seq<Step>, i: nat, n: nat)
    requires IsRun(ws, steps) && i < |steps| && n in Entries(ws[i]) && n !in Entries(ws[i + 1])
    ensures || steps[i] == Remove
            || (&& steps[i].Ack? && steps[i].a in ws[i].receivers && ws[i].receivers[steps[i].a].stage.Awaiting?
                && ws[i].receivers[steps[i].a].stage.page != [] && ws[i].receivers[steps[i].a].stage.page[0].n == n
                && Pulled(ws[i], n))
  {
    var w, s := ws[i], steps[i];
    assert Enabled(w, s) && ws[i + 1] == Next(w, s);
    RunInv(ws, steps, i);
    if s.Ack? {
      var r := w.receivers[s.a];
      assert ReceiverInv(w, r) && PageInv(w, r.cursor, r.stage.page);
      assert Genuine(w, r.stage.page[0]) && r.stage.page[0] == Numbered(r.stage.page[0].n, w.log[r.stage.page[0].n - 1]);
    }
  }

  /** The stream has sent n or got past it. */
  ghost predicate Past(w: World, a: Actor, n: nat) {
    && a in w.receivers
    && (w.receivers[a].cursor >= n
        || (w.receivers[a].stage.Awaiting? && w.receivers[a].stage.page != [] && w.receivers[a].stage.page[0].n == n))
  }

  lemma PastStep(w: World, s: Step, a: Actor, n: nat)
    requires Inv(w) && Enabled(w, s) && s != Drop(a) && Past(w, a, n)
    ensures Past(Next(w, s), a, n)
  {
    hide IsPage, BoxInv;
    assert ReceiverInv(w, w.receivers[a]);
  }

  lemma {:induction false} PastThroughout(ws: seq<World>, steps: seq<Step>, i: nat, j: nat, a: Actor, n: nat)
    requires IsRun(ws, steps) && i <= j <= |steps| && Past(ws[i], a, n)
    requires forall k :: i <= k < j ==> steps[k] != Drop(a)
    ensures Past(ws[j], a, n)
    decreases j
  {
    hide Past, Inv, Enabled, Next, Init;
    if i < j {
      PastThroughout(ws, steps, i, j - 1, a, n);
      RunInv(ws, steps, j - 1);
      PastStep(ws[j - 1], steps[j - 1], a, n);
    }
  }

  /** The numbers one stream sends are strictly ascending. */
  lemma SendsAscend(ws: seq<World>, steps: seq<Step>, i: nat, j: nat, a: Actor)
    requires IsRun(ws, steps) && i < j < |steps| && steps[i] == Send(a) && steps[j] == Send(a)
    requires forall k :: i < k < j ==> steps[k] != Drop(a)
    ensures Enabled(ws[i], steps[i]) && Enabled(ws[j], steps[j])
    ensures ws[i].receivers[a].stage.page[0].n < ws[j].receivers[a].stage.page[0].n
  {
    var n := ws[i].receivers[a].stage.page[0].n;
    assert Enabled(ws[i], steps[i]) && ws[i + 1] == Next(ws[i], steps[i]);
    assert Enabled(ws[j], steps[j]);
    assert Past(ws[i + 1], a, n);
    PastThroughout(ws, steps, i + 1, j, a, n);
    RunInv(ws, steps, j);
    var r := ws[j].receivers[a];
    assert ReceiverInv(ws[j], r) && PageInv(ws[j], r.cursor, r.stage.page);
  }

  /** No lost wakeup: a parked receiver with nothing to receive has an empty mailbox, but
      for entries whose emit has not broadcast yet. */
  lemma NoLostWakeup(ws: seq<World>, steps: seq<Step>, i: nat, a: Actor, n: nat)
    requires IsRun(ws, steps) && i <= |steps| && a in ws[i].receivers
    requires ws[i].receivers[a].stage == Parked && !Pending(ws[i].receivers[a].inbox)
    requires n in Entries(ws[i])
    ensures n in ws[i].owed
  {
    RunInv(ws, steps, i);
    assert ReceiverInv(ws[i], ws[i].receivers[a]);
  }
}

/** The coordinator and the Spaces it drives, together: one transaction spanning any
    number of Spaces is published by all of them or by none. */
module GlobalAtomicity {
  import opened Prelude
  import opened Txn
  import P = TwoPhase
  import S = SpaceSpec
  import A = SpaceAtomicity

  /** A vote a Space gave in answer to a delivered message, and how many store operations
      it had run by then. */
  datatype Answer = Answer(msg: P.Msg, vote: Vote, at: nat)

  /** `start` is what each Space held when the transaction began, `trace` every store
      operation it has run since. Participants that are no Spaces are not in the maps
      and may answer anything. */
  datatype World = World(
    txn: Id, c: P.State, start: map<Id, S.Store>, spaces: map<Id, S.Store>,
    trace: map<Id, seq<S.Step>>, answers: set<Answer>)

  datatype Event =
    | Coordinate(step: P.Step)
    | Operate(ep: Id, op: S.Step)
    | Deliver(msg: P.Msg)

  ghost predicate Init(w: World) {
    && P.Init(w.c) && w.spaces == w.start && w.trace.Keys == w.start.Keys && w.answers == {}
    && forall ep :: ep in w.start ==> w.trace[ep] == [] && !S.HasTxn(w.start[ep], w.txn)
  }

  ghost predicate IsSent(c: P.State, m: P.Msg) {
    exists x :: x in c.sent && x.msg == m
  }

  /** A Space's vote reaches the coordinator only if the Space gave it; an answer can
      always be lost. */
  ghost predicate Truthful(w: World, step: P.Step)
    requires P.Enabled(w.c, step)
  {
    step.Return? && step.ballot.Voted? && (w.c.calls[step.a].AskOne? || w.c.calls[step.a].Asking?) ==>
      var m := P.MsgOf(w.c.calls[step.a], step.i);
      m.endpoint in w.spaces ==> exists k :: Answer(m, step.ballot.vote, k) in w.answers
  }

  /** A Space runs a client's operation under the transaction only after it has enlisted;
      the operation may land at any later time, also after the vote or the outcome. */
  ghost predicate MayOperate(w: World, ep: Id, op: S.Step) {
    && ep in w.spaces && S.Enabled(w.spaces[ep], op)
    && op != S.Commit(w.txn) && op != S.Abort(w.txn)
    && (S.By(op, w.txn) ==> Enlisted(w, ep))
  }

  ghost predicate Enlisted(w: World, ep: Id) {
    w.c.rec.Some? && P.Lists(w.c.rec.value.participants, ep)
  }

  ghost predicate Enabled(w: World, e: Event) {
    match e
    case Coordinate(step) => P.Enabled(w.c, step) && Truthful(w, step)
    case Operate(ep, op) => MayOperate(w, ep, op)
    case Deliver(m) => IsSent(w.c, m) && m.endpoint in w.spaces
  }

  ghost function Act(w: World, ep: Id, op: S.Step): World
    requires ep in w.spaces && ep in w.trace && S.Enabled(w.spaces[ep], op)
  {
    w.(spaces := w.spaces[ep := S.Apply(w.spaces[ep], op)],
       trace := w.trace[ep := w.trace[ep] + [op]])
  }

  ghost function Receive(w: World, m: P.Msg): World
    requires m.endpoint in w.spaces && m.endpoint in w.trace
  {
    var a, k := w.spaces[m.endpoint], |w.trace[m.endpoint]|;
    match m.kind
    case AskPrepare => w.(answers := w.answers + {Answer(m, S.Prepare(a, w.txn), k)})
    case TellCommit => Act(w, m.endpoint, S.Commit(w.txn))
    case TellAbort => Act(w, m.endpoint, S.Abort(w.txn))
    case AskPrepareAndCommit =>
      var w' := if S.HasTxn(a, w.txn) then Act(w, m.endpoint, S.Commit(w.txn)) else w;
      w'.(answers := w.answers + {Answer(m, S.PrepareAndCommit(a, w.txn).0, k)})
  }

  ghost function Next(w: World, e: Event): World
    requires Enabled(w, e) && w.trace.Keys == w.spaces.Keys
  {
    match e
    case Coordinate(step) => w.(c := P.Next(w.c, step))
    case Operate(ep, op) => Act(w, ep, op)
    case Deliver(m) => Receive(w, m)
  }

  // ── Invariant ───────────────────────────────────────────────────────────────

  predicate IsOutcome(op: S.Step, t: Id) {
    op == S.Commit(t) || op == S.Abort(t)
  }

  /** The Space's part: its store is the run of its trace, outcomes were really sent to it,
      and it holds something of t only if it enlisted. */
  ghost predicate SpaceInv(w: World, ep: Id)
    requires ep in w.start && ep in w.spaces && ep in w.trace
  {
    var ops := w.trace[ep];
    && !S.HasTxn(w.start[ep], w.txn)
    && A.Legal(w.start[ep], ops) && A.Run(w.start[ep], ops) == w.spaces[ep]
    && (S.Commit(w.txn) in ops ==>
          IsSent(w.c, P.Msg(P.TellCommit, ep)) || IsSent(w.c, P.Msg(P.AskPrepareAndCommit, ep)))
    && (S.Abort(w.txn) in ops ==> IsSent(w.c, P.Msg(P.TellAbort, ep)))
    && (S.HasTxn(w.spaces[ep], w.txn) ==> Enlisted(w, ep))
  }

  /** A vote was true of the store at the moment it was given. */
  ghost predicate AnswerInv(w: World, x: Answer) {
    && IsSent(w.c, x.msg)
    && x.msg.endpoint in w.trace && x.msg.endpoint in w.start && x.at <= |w.trace[x.msg.endpoint]|
    && x.vote == S.Prepare(A.After(w.start[x.msg.endpoint], w.trace[x.msg.endpoint], x.at), w.txn)
  }

  /** Every ballot the coordinator holds from a Space is one the Space gave. */
  ghost predicate BallotInv(w: World, i: nat) {
    i in w.c.ballots && w.c.ballots[i].Voted? ==>
      && w.c.rec.Some? && i < |w.c.rec.value.participants|
      && var ep := w.c.rec.value.participants[i].endpoint;
         ep in w.spaces ==> exists x :: x in w.answers && x.msg.endpoint == ep && x.vote == w.c.ballots[i].vote
  }

  ghost predicate Inv(w: World) {
    && P.Inv(w.c)
    && w.spaces.Keys == w.start.Keys == w.trace.Keys
    && (forall ep :: ep in w.spaces ==> SpaceInv(w, ep))
    && (forall x :: x in w.answers ==> AnswerInv(w, x))
    && (forall i: nat :: BallotInv(w, i))
  }

  lemma InitInv(w: World)
    requires Init(w)
    ensures Inv(w)
  {
    P.InitInv(w.c);
  }

  /** Something was sent only after the transaction left Active. */
  lemma SentMeansClosed(w: World, m: P.Msg)
    requires P.Inv(w.c) && IsSent(w.c, m)
    ensures w.c.rec.Some? && !P.Holds(w.c, Active) && P.Lists(w.c.rec.value.participants, m.endpoint)
  {}

  lemma CoordinateKeepsBallots(w: World, step: P.Step, i: nat)
    requires Inv(w) && Enabled(w, Coordinate(step))
    ensures BallotInv(Next(w, Coordinate(step)), i)
  {
    P.NextIsForward(w.c, step);
    assert BallotInv(w, i);
    if i in P.Next(w.c, step).ballots { P.BallotOrigin(w.c, step, i); }
  }

  lemma CoordinateKeepsInv(w: World, step: P.Step)
    requires Inv(w) && Enabled(w, Coordinate(step))
    ensures Inv(Next(w, Coordinate(step)))
  {
    var w' := Next(w, Coordinate(step));
    P.NextKeepsInv(w.c, step);
    P.NextIsForward(w.c, step);
    forall m | IsSent(w.c, m) ensures IsSent(w'.c, m) {}
    forall ep | ep in w.spaces ensures SpaceInv(w', ep) {
      assert SpaceInv(w, ep);
      if S.HasTxn(w.spaces[ep], w.txn) {
        var i :| 0 <= i < |w.c.rec.value.participants| && w.c.rec.value.participants[i].endpoint == ep;
        assert w'.c.rec.value.participants[i].endpoint == ep;
      }
    }
    forall x | x in w.answers ensures AnswerInv(w', x) { assert AnswerInv(w, x); }
    forall i: nat ensures BallotInv(w', i) { CoordinateKeepsBallots(w, step, i); }
  }

  /** An outcome was really sent; anything else under t needs the Space enlisted. */
  ghost predicate Lawful(w: World, ep: Id, op: S.Step) {
    && (op == S.Commit(w.txn) ==>
          IsSent(w.c, P.Msg(P.TellCommit, ep)) || IsSent(w.c, P.Msg(P.AskPrepareAndCommit, ep)))
    && (op == S.Abort(w.txn) ==> IsSent(w.c, P.Msg(P.TellAbort, ep)))
    && (S.By(op, w.txn) && !IsOutcome(op, w.txn) ==> Enlisted(w, ep))
  }

  lemma ActKeepsSpaceInv(w: World, ep: Id, op: S.Step)
    requires Inv(w) && ep in w.spaces && S.Enabled(w.spaces[ep], op) && Lawful(w, ep, op)
    ensures SpaceInv(Act(w, ep, op), ep)
  {
    var w', ops := Act(w, ep, op), w.trace[ep];
    assert SpaceInv(w, ep);
    A.RunSnoc(w.start[ep], ops, op);
    hide P.Inv, A.Run, A.Legal;
    if S.HasTxn(w'.spaces[ep], w.txn) && !S.HasTxn(w.spaces[ep], w.txn) {
      OnlyOwnStepsHold(w.spaces[ep], op, w.txn);
    }
  }

  lemma ActKeepsAnswer(w: World, ep: Id, op: S.Step, x: Answer)
    requires Inv(w) && ep in w.spaces && S.Enabled(w.spaces[ep], op) && Lawful(w, ep, op) && x in w.answers
    ensures AnswerInv(Act(w, ep, op), x)
  {
    assert AnswerInv(w, x);
    if x.msg.endpoint == ep {
      assert (w.trace[ep] + [op])[..x.at] == w.trace[ep][..x.at];
    }
  }

  lemma ActKeepsInv(w: World, ep: Id, op: S.Step)
    requires Inv(w) && ep in w.spaces && S.Enabled(w.spaces[ep], op) && Lawful(w, ep, op)
    ensures Inv(Act(w, ep, op))
  {
    hide P.Inv;
    var w' := Act(w, ep, op);
    ActKeepsSpaceInv(w, ep, op);
    forall q | q in w'.spaces && q != ep ensures SpaceInv(w', q) { assert SpaceInv(w, q); }
    forall x | x in w.answers ensures AnswerInv(w', x) { ActKeepsAnswer(w, ep, op, x); }
    forall i: nat ensures BallotInv(w', i) { assert BallotInv(w, i); }
  }

  /** Only t's own writes and takes put anything into t's buffers. */
  lemma OnlyOwnStepsHold(a: S.Store, op: S.Step, t: Id)
    requires S.Enabled(a, op) && !S.HasTxn(a, t) && S.HasTxn(S.Apply(a, op), t)
    ensures S.By(op, t) && !IsOutcome(op, t)
  {
    assert forall id :: id in a ==> !S.Held(a, t, id);
  }

  lemma AnswerKeepsInv(w: World, x: Answer)
    requires Inv(w) && AnswerInv(w, x)
    ensures Inv(w.(answers := w.answers + {x}))
  {
    var w' := w.(answers := w.answers + {x});
    forall ep | ep in w.spaces ensures SpaceInv(w', ep) { assert SpaceInv(w, ep); }
    forall y | y in w'.answers ensures AnswerInv(w', y) { assert AnswerInv(w, y); }
    forall i: nat ensures BallotInv(w', i) { assert BallotInv(w, i); }
  }

  lemma DeliverKeepsInv(w: World, m: P.Msg)
    requires Inv(w) && Enabled(w, Deliver(m))
    ensures Inv(Next(w, Deliver(m)))
  {
    var a, k := w.spaces[m.endpoint], |w.trace[m.endpoint]|;
    assert SpaceInv(w, m.endpoint);
    assert w.trace[m.endpoint][..k] == w.trace[m.endpoint];
    match m.kind
    case AskPrepare => AnswerKeepsInv(w, Answer(m, S.Prepare(a, w.txn), k));
    case TellCommit => ActKeepsInv(w, m.endpoint, S.Commit(w.txn));
    case TellAbort => ActKeepsInv(w, m.endpoint, S.Abort(w.txn));
    case AskPrepareAndCommit =>
      var x := Answer(m, S.PrepareAndCommit(a, w.txn).0, k);
      if S.HasTxn(a, w.txn) {
        ActKeepsInv(w, m.endpoint, S.Commit(w.txn));
        assert (w.trace[m.endpoint] + [S.Commit(w.txn)])[..k] == w.trace[m.endpoint];
        AnswerKeepsInv(Act(w, m.endpoint, S.Commit(w.txn)), x);
      } else {
        AnswerKeepsInv(w, x);
      }
  }

  lemma NextKeepsInv(w: World, e: Event)
    requires Inv(w) && Enabled(w, e)
    ensures Inv(Next(w, e))
  {
    match e
    case Coordinate(step) => CoordinateKeepsInv(w, step);
    case Operate(ep, op) => ActKeepsInv(w, ep, op);
    case Deliver(m) => DeliverKeepsInv(w, m);
  }

  // ── Runs ────────────────────────────────────────────────────────────────────

  ghost predicate IsRun(ws: seq<World>, es: seq<Event>) {
    && |ws| == |es| + 1 && Init(ws[0])
    && forall i :: 0 <= i < |es| ==>
         && ws[i].trace.Keys == ws[i].spaces.Keys
         && Enabled(ws[i], es[i]) && ws[i + 1] == Next(ws[i], es[i])
  }

  lemma {:induction false} RunInv(ws: seq<World>, es: seq<Event>, i: nat)
    requires IsRun(ws, es) && i <= |es|
    ensures Inv(ws[i])
  {
    if i == 0 {
      InitInv(ws[0]);
    } else {
      RunInv(ws, es, i - 1);
      NextKeepsInv(ws[i - 1], es[i - 1]);
    }
  }

  /** No Space publishes the transaction while another (or the same) undoes it, at any
      point of any run, whatever is lost, repeated, delayed or crashes. */
  lemma NoSplitOutcome(ws: seq<World>, es: seq<Event>, i: nat, ep: Id, q: Id)
    requires IsRun(ws, es) && i <= |es| && ep in ws[i].trace && q in ws[i].trace
    ensures !(S.Commit(ws[i].txn) in ws[i].trace[ep] && S.Abort(ws[i].txn) in ws[i].trace[q])
  {
    RunInv(ws, es, i);
    assert SpaceInv(ws[i], ep) && SpaceInv(ws[i], q);
  }

  /** What a delivered message does to its Space. Commit: everything t wrote there is public,
      everything it took is gone. Abort: the other way round. Either way nothing of t is left
      and nothing of anybody else is touched. A vote request changes nothing and is answered
      by whether the Space holds anything. */
  lemma DeliveryTakesEffect(ws: seq<World>, es: seq<Event>, i: nat, m: P.Msg, x: Id)
    requires IsRun(ws, es) && i < |es| && es[i] == Deliver(m)
    ensures m.endpoint in ws[i].spaces && m.endpoint in ws[i + 1].spaces && m.endpoint in ws[i].trace
    ensures var t, a, b := ws[i].txn, ws[i].spaces[m.endpoint], ws[i + 1].spaces[m.endpoint];
            && (m.kind != P.AskPrepare ==> !S.HasTxn(b, t))
            && (m.kind == P.TellCommit || m.kind == P.AskPrepareAndCommit ==> Settles(a, b, x, S.Written(t), S.Taken(t), S.SelfTaken(t)))
            && (m.kind == P.TellAbort ==> Settles(a, b, x, S.Taken(t), S.Written(t), S.SelfTaken(t)))
            && (m.kind == P.AskPrepare ==> b == a)
            && (m.kind == P.AskPrepare || m.kind == P.AskPrepareAndCommit ==>
                  Answer(m, if S.HasTxn(a, t) then VotePrepared else VoteNotChanged, |ws[i].trace[m.endpoint]|) in ws[i + 1].answers)
  {
    var w := ws[i];
    assert Enabled(w, es[i]) && ws[i + 1] == Next(w, es[i]) && w.trace.Keys == w.spaces.Keys;
    var t, a := w.txn, w.spaces[m.endpoint];
    S.OutcomeReleasesEverything(a, t);
    if m.kind == P.AskPrepareAndCommit && !S.HasTxn(a, t) {
      S.NothingHeldNothingToDo(a, t);
    }
  }

  /** Tuple x at place `out` became public, at `gone` or `own` is gone, elsewhere is as it was. */
  ghost predicate Settles(a: S.Store, b: S.Store, x: Id, out: S.Place, gone: S.Place, own: S.Place) {
    if x in a && a[x].place == out then x in b && b[x] == S.Cell(a[x].tuple, S.Public)
    else if x in a && a[x].place in {gone, own} then x !in b
    else (x in b <==> x in a) && (x in a ==> b[x] == a[x])
  }

  /** A stored Aborted is an abort everywhere: no Space ever published, and releasing
      what it still holds leaves each Space as if the transaction had never run. */
  lemma AbortedEverywhere(ws: seq<World>, es: seq<Event>, n: nat, ep: Id)
    requires IsRun(ws, es) && n <= |es| && P.Holds(ws[n].c, Aborted) && ep in ws[n].spaces && ep in ws[n].trace && ep in ws[n].start
    ensures var w := ws[n];
            && S.Commit(w.txn) !in w.trace[ep]
            && A.Legal(w.start[ep], A.Without(w.trace[ep], w.txn))
            && S.AbortTxn(w.spaces[ep], w.txn) == A.Run(w.start[ep], A.Without(w.trace[ep], w.txn))
            && (!S.HasTxn(w.spaces[ep], w.txn) ==>
                  w.spaces[ep] == A.Run(w.start[ep], A.Without(w.trace[ep], w.txn)))
    ensures ws[n].c.released && S.HasTxn(ws[n].spaces[ep], ws[n].txn) ==>
              IsSent(ws[n].c, P.Msg(P.TellAbort, ep))
  {
    var w := ws[n];
    RunInv(ws, es, n);
    assert SpaceInv(w, ep) && BallotInv(w, 0);
    assert S.Commit(w.txn) !in w.trace[ep] by {
      if IsSent(w.c, P.Msg(P.AskPrepareAndCommit, ep)) {
        SentMeansClosed(w, P.Msg(P.AskPrepareAndCommit, ep));
      }
    }
    A.AbortedLeavesNoTrace(w.start[ep], w.trace[ep], w.txn);
    if !S.HasTxn(w.spaces[ep], w.txn) { S.NothingHeldNothingToDo(w.spaces[ep], w.txn); }
  }

  /** By its p-th operation the Space was done with the transaction: it had just run an
      outcome, or it voted NOTCHANGED. */
  ghost predicate DoneBy(w: World, ep: Id, p: nat)
    requires ep in w.trace
  {
    p <= |w.trace[ep]|
    && ((p > 0 && IsOutcome(w.trace[ep][p - 1], w.txn)) || VotedNotChanged(w, ep, p))
  }

  ghost predicate VotedNotChanged(w: World, ep: Id, p: nat) {
    exists m: P.Msg :: m.endpoint == ep && Answer(m, VoteNotChanged, p) in w.answers
  }

  /** An operation of t landed on the Space after its p-th and what it put into t's buffers
      is still there. */
  ghost predicate Stranded(w: World, ep: Id, p: nat)
    requires ep in w.start && ep in w.trace
  {
    exists i, x :: p <= i && A.HeldSince(w.start[ep], w.trace[ep], i, w.txn, x)
  }

  lemma DoneHoldsNothing(w: World, ep: Id, p: nat)
    requires Inv(w) && ep in w.spaces && ep in w.trace && ep in w.start && DoneBy(w, ep, p)
    ensures A.Legal(w.start[ep], w.trace[ep]) && A.Run(w.start[ep], w.trace[ep]) == w.spaces[ep]
    ensures p <= |w.trace[ep]| && !S.HasTxn(A.After(w.start[ep], w.trace[ep], p), w.txn)
  {
    hide P.Inv, A.Legal, A.Run, S.HasTxn, S.CommitTxn, S.AbortTxn;
    assert SpaceInv(w, ep);
    var a, ops := w.start[ep], w.trace[ep];
    if VotedNotChanged(w, ep, p) {
      var m: P.Msg :| m.endpoint == ep && Answer(m, VoteNotChanged, p) in w.answers;
      assert AnswerInv(w, Answer(m, VoteNotChanged, p));
    } else {
      A.LegalPrefix(a, ops, p - 1);
      A.RunSnoc(a, ops[..p - 1], ops[p - 1]);
      assert ops[..p] == ops[..p - 1] + [ops[p - 1]];
      S.OutcomeReleasesEverything(A.Run(a, ops[..p - 1]), w.txn);
    }
  }

  /** A Space that is done with the transaction is left holding something of it if and only
      if an operation of the transaction landed there afterwards (and what it put into the
      buffers has not been reclaimed with its lease, nor released by a repeated outcome). */
  lemma LeftHoldingExactly(ws: seq<World>, es: seq<Event>, n: nat, ep: Id, p: nat)
    requires IsRun(ws, es) && n <= |es| && ep in ws[n].spaces && ep in ws[n].trace && ep in ws[n].start
    requires DoneBy(ws[n], ep, p)
    ensures S.HasTxn(ws[n].spaces[ep], ws[n].txn) <==> Stranded(ws[n], ep, p)
  {
    hide Init, Enabled, Next, Inv, DoneBy, A.Legal, A.Run, A.After, A.HeldSince, S.HasTxn;
    RunInv(ws, es, n);
    DoneHoldsNothing(ws[n], ep, p);
    A.HoldsExactly(ws[n].start[ep], ws[n].trace[ep], p, ws[n].txn);
  }

  /** A stored Committed is a commit everywhere: no Space ever undid it, and a Space that
      still holds anything of it has been told to commit, or holds it because an operation
      landed after its NOTCHANGED vote. */
  lemma CommittedEverywhere(ws: seq<World>, es: seq<Event>, n: nat, ep: Id)
    requires IsRun(ws, es) && n <= |es| && P.Holds(ws[n].c, Committed)
    requires ep in ws[n].spaces && ep in ws[n].trace && ep in ws[n].start
    ensures S.Abort(ws[n].txn) !in ws[n].trace[ep]
    ensures S.HasTxn(ws[n].spaces[ep], ws[n].txn) ==>
              P.Told(ws[n].c, ep) || exists p :: VotedNotChanged(ws[n], ep, p) && Stranded(ws[n], ep, p)
  {
    var w := ws[n];
    RunInv(ws, es, n);
    assert SpaceInv(w, ep);
    if S.HasTxn(w.spaces[ep], w.txn) && !P.Told(w.c, ep) {
      var p := UntoldVotedNotChanged(w, ep);
      LeftHoldingExactly(ws, es, n, ep, p);
    }
  }

  /** An enlisted Space that a committed coordinator did not tell voted NOTCHANGED. */
  lemma UntoldVotedNotChanged(w: World, ep: Id) returns (p: nat)
    requires Inv(w) && P.Holds(w.c, Committed) && ep in w.spaces && ep in w.trace && Enlisted(w, ep) && !P.Told(w.c, ep)
    ensures VotedNotChanged(w, ep, p) && DoneBy(w, ep, p)
  {
    var parts := w.c.rec.value.participants;
    var i :| 0 <= i < |parts| && parts[i].endpoint == ep;
    assert BallotInv(w, i) && i in w.c.ballots && Yes(w.c.ballots[i]);
    var x :| x in w.answers && x.msg.endpoint == ep && x.vote == w.c.ballots[i].vote;
    assert AnswerInv(w, x) && x == Answer(x.msg, VoteNotChanged, x.at);
    p := x.at;
  }

  /** Where a Space published, it did so in one instant: up to there it behaved as the
      same schedule without the transaction minus its takes, then its takes and writes
      took effect at once. Afterwards there is something of the transaction to publish
      again exactly if an operation of it landed late. */
  lemma PublishedInOneInstant(ws: seq<World>, es: seq<Event>, n: nat, ep: Id) returns (k: nat)
    requires IsRun(ws, es) && n <= |es| && ep in ws[n].spaces && ep in ws[n].start && ep in ws[n].trace
    requires S.Commit(ws[n].txn) in ws[n].trace[ep]
    ensures var w := ws[n]; var t, a, ops := w.txn, w.start[ep], w.trace[ep];
            && k < |ops| && ops[k] == S.Commit(t) && S.Commit(t) !in ops[..k] && S.Abort(t) !in ops
            && A.Legal(a, ops[..k]) && A.Legal(a, A.Without(ops[..k], t))
            && var now, others := A.Run(a, ops[..k]), A.Run(a, A.Without(ops[..k], t));
               && S.CommitTxn(now, t) == A.Install(others, A.TakenIds(now, t), A.WrittenMap(now, t))
               && (S.HasTxn(w.spaces[ep], t) <==> Stranded(w, ep, k + 1))
  {
    var w := ws[n];
    RunInv(ws, es, n);
    assert SpaceInv(w, ep);
    NoSplitOutcome(ws, es, n, ep, ep);
    var ops := w.trace[ep];
    k := FirstIndex(ops, S.Commit(w.txn));
    A.LegalPrefix(w.start[ep], ops, k);
    A.CommittedIsOneInstant(w.start[ep], ops[..k], w.txn);
    LeftHoldingExactly(ws, es, n, ep, k + 1);
  }

  lemma {:induction false} FirstIndex(ops: seq<S.Step>, op: S.Step) returns (k: nat)
    requires op in ops
    ensures k < |ops| && ops[k] == op && op !in ops[..k]
  {
    if ops[0] == op {
      k := 0;
    } else {
      var j := FirstIndex(ops[1..], op);
      k := j + 1;
      assert ops[..k] == [ops[0]] + ops[1..][..j];
    }
  }

  // ── A stranded take ─────────────────────────────────────────────────────────

  lemma Extend(ws: seq<World>, es: seq<Event>, e: Event, w: World) returns (ws': seq<World>, es': seq<Event>)
    requires IsRun(ws, es) && ws[|es|].trace.Keys == ws[|es|].spaces.Keys
    requires Enabled(ws[|es|], e) && Next(ws[|es|], e) == w
    ensures IsRun(ws', es') && |ws'| == |es'| + 1 && ws'[|es'|] == w
  {
    hide Init, Enabled, Next;
    ws', es' := ws + [w], es + [e];
  }

  /** One Space with one visible tuple, before the transaction. */
  ghost function Opening(t: Id, ep: Id, r: S.Tuple): World {
    var a: S.Store := map[r.id := S.Cell(r, S.Public)];
    World(t, P.State(None, map[], {}, {}, None, None, map[], false), map[ep := a], map[ep := a], map[ep := []], {})
  }

  lemma OpeningIsInit(t: Id, ep: Id, r: S.Tuple)
    ensures Init(Opening(t, ep, r)) && IsRun([Opening(t, ep, r)], [])
  {}

  /** The Space enlisted in an Active transaction. */
  ghost function AfterEnlist(q: Participant): P.State {
    P.State(Some(Record(Active, [q])), map[0 := P.Done(P.EnlistOk(q))], {0}, {}, None, None, map[], false)
  }

  lemma EnlistRun(t: Id, q: Participant, r: S.Tuple) returns (ws: seq<World>, es: seq<Event>)
    ensures IsRun(ws, es) && |ws| == |es| + 1 && ws[|es|] == Opening(t, q.endpoint, r).(c := AfterEnlist(q))
  {
    hide IsRun, S.HasTxn;
    var w := Opening(t, q.endpoint, r);
    ws, es := [w], [];
    assert IsRun(ws, es) by { OpeningIsInit(t, q.endpoint, r); }
    w := w.(c := w.c.(rec := Some(Record(Active, []))));
    ws, es := Extend(ws, es, Coordinate(P.Begin), w);
    w := w.(c := w.c.(calls := map[0 := P.EnlistCall(q)], used := {0}));
    ws, es := Extend(ws, es, Coordinate(P.Start(0, P.EnlistCall(q))), w);
    assert [] + [q] == [q] && w.c.calls[0 := P.Done(P.EnlistOk(q))] == map[0 := P.Done(P.EnlistOk(q))];
    ws, es := Extend(ws, es, Coordinate(P.Access(0)), w.(c := AfterEnlist(q)));
  }

  /** The expiry has claimed the abort; where its one message stands. */
  ghost function Expiring(q: Participant, call: P.Call, sent: set<P.Send>, released: bool): P.State {
    P.State(Some(Record(Aborted, [q])), map[0 := P.Done(P.EnlistOk(q)), 1 := call], {0, 1}, sent, None, Some(1), map[], released)
  }

  ghost function Tell(q: Participant): P.Send {
    P.Send(1, P.Msg(P.TellAbort, q.endpoint))
  }

  lemma ExpireSteps(q: Participant)
    ensures var c := AfterEnlist(q);
            P.Enabled(c, P.Start(1, P.ExpireCall))
            && P.Next(c, P.Start(1, P.ExpireCall)) == c.(calls := map[0 := P.Done(P.EnlistOk(q)), 1 := P.ExpireCall], used := {0, 1})
    ensures var c := AfterEnlist(q).(calls := map[0 := P.Done(P.EnlistOk(q)), 1 := P.ExpireCall], used := {0, 1});
            P.Enabled(c, P.Access(1)) && P.Next(c, P.Access(1)) == Expiring(q, P.ExpireWon, {}, false)
    ensures var c := Expiring(q, P.ExpireWon, {}, false);
            P.Enabled(c, P.Access(1)) && P.Next(c, P.Access(1)) == Expiring(q, P.Releasing([q], [P.Unsent], P.ExpireOk), {}, false)
  {
    assert P.Fresh(1) == [P.Unsent];
    assert forall x: P.Call, y: P.Call :: map[0 := P.Done(P.EnlistOk(q)), 1 := x][1 := y] == map[0 := P.Done(P.EnlistOk(q)), 1 := y];
    assert {0} + {1} == {0, 1};
  }

  lemma TellStep(q: Participant)
    ensures var c := Expiring(q, P.Releasing([q], [P.Unsent], P.ExpireOk), {}, false);
            P.Enabled(c, P.Transmit(1, 0))
            && P.Next(c, P.Transmit(1, 0)) == Expiring(q, P.Releasing([q], [P.InFlight], P.ExpireOk), {Tell(q)}, false)
  {
    assert [P.Unsent][0 := P.InFlight] == [P.InFlight];
    assert forall x: P.Call, y: P.Call :: map[0 := P.Done(P.EnlistOk(q)), 1 := x][1 := y] == map[0 := P.Done(P.EnlistOk(q)), 1 := y];
    assert {} + {Tell(q)} == {Tell(q)};
  }

  lemma ReturnSteps(q: Participant, b: Ballot)
    ensures var c := Expiring(q, P.Releasing([q], [P.InFlight], P.ExpireOk), {Tell(q)}, false);
            P.Enabled(c, P.Return(1, 0, b))
            && P.Next(c, P.Return(1, 0, b)) == Expiring(q, P.Releasing([q], [P.Returned(b)], P.ExpireOk), {Tell(q)}, false)
    ensures var c := Expiring(q, P.Releasing([q], [P.Returned(b)], P.ExpireOk), {Tell(q)}, false);
            P.Enabled(c, P.Access(1)) && P.Next(c, P.Access(1)) == Expiring(q, P.Done(P.ExpireOk), {Tell(q)}, true)
  {
    assert [P.InFlight][0 := P.Returned(b)] == [P.Returned(b)];
    assert forall x: P.Call, y: P.Call :: map[0 := P.Done(P.EnlistOk(q)), 1 := x][1 := y] == map[0 := P.Done(P.EnlistOk(q)), 1 := y];
  }

  /** The lease expires: the transaction is aborted and the Space told. */
  lemma ExpireRun(t: Id, q: Participant, r: S.Tuple) returns (ws: seq<World>, es: seq<Event>)
    ensures IsRun(ws, es) && |ws| == |es| + 1
    ensures ws[|es|] == Opening(t, q.endpoint, r).(c := Expiring(q, P.Releasing([q], [P.InFlight], P.ExpireOk), {Tell(q)}, false))
  {
    hide IsRun, P.Enabled, P.Next, AfterEnlist, Expiring;
    ws, es := EnlistRun(t, q, r);
    ExpireSteps(q);
    TellStep(q);
    var w := ws[|es|];
    w := w.(c := P.Next(w.c, P.Start(1, P.ExpireCall)));
    ws, es := Extend(ws, es, Coordinate(P.Start(1, P.ExpireCall)), w);
    w := w.(c := P.Next(w.c, P.Access(1)));
    ws, es := Extend(ws, es, Coordinate(P.Access(1)), w);
    w := w.(c := P.Next(w.c, P.Access(1)));
    ws, es := Extend(ws, es, Coordinate(P.Access(1)), w);
    w := w.(c := P.Next(w.c, P.Transmit(1, 0)));
    ws, es := Extend(ws, es, Coordinate(P.Transmit(1, 0)), w);
  }

  lemma SpaceSteps(t: Id, r: S.Tuple)
    ensures var a: S.Store := map[r.id := S.Cell(r, S.Public)];
            && S.AbortTxn(a, t) == a && S.Enabled(a, S.TakeUnder(t, r.id))
            && S.Apply(a, S.TakeUnder(t, r.id)) == map[r.id := S.Cell(r, S.Taken(t))]
  {}

  /** A take whose enlistment came before a lease expiry and whose store step comes after
      the Abort: every call has returned, every message sent has been delivered, and the
      tuple is in a buffer that no further message will release. */
  lemma TakeIsStranded(t: Id, q: Participant, r: S.Tuple) returns (ws: seq<World>, es: seq<Event>)
    ensures IsRun(ws, es) && |ws| == |es| + 1
    ensures var w, ep := ws[|es|], q.endpoint;
            && P.Holds(w.c, Aborted) && w.c.released && (forall a :: a in w.c.calls ==> w.c.calls[a].Done?)
            && ep in w.trace && w.trace[ep] == [S.Abort(t), S.TakeUnder(t, r.id)]
            && ep in w.spaces && w.spaces[ep] == map[r.id := S.Cell(r, S.Taken(t))]
  {
    hide IsRun, P.Enabled, P.Next, S.Enabled, S.Apply, S.AbortTxn;
    var ep, b := q.endpoint, Failed;
    SpaceSteps(t, r);
    ReturnSteps(q, b);
    ws, es := ExpireRun(t, q, r);
    var w := ws[|es|];
    assert IsSent(w.c, P.Msg(P.TellAbort, ep)) by { assert Tell(q) in w.c.sent; }
    var m := P.Msg(P.TellAbort, ep);
    assert S.Enabled(w.spaces[ep], S.Abort(t)) && S.Apply(w.spaces[ep], S.Abort(t)) == w.spaces[ep] by { AbortApplies(w.spaces[ep], t); }
    w := Next(w, Deliver(m));
    ws, es := Extend(ws, es, Deliver(m), w);
    w := w.(c := P.Next(w.c, P.Return(1, 0, b)));
    ws, es := Extend(ws, es, Coordinate(P.Return(1, 0, b)), w);
    w := w.(c := P.Next(w.c, P.Access(1)));
    ws, es := Extend(ws, es, Coordinate(P.Access(1)), w);
    assert w.c.rec.value.participants[0].endpoint == ep;
    var w' := Next(w, Operate(ep, S.TakeUnder(t, r.id)));
    ws, es := Extend(ws, es, Operate(ep, S.TakeUnder(t, r.id)), w');
  }

  lemma AbortApplies(a: S.Store, t: Id)
    ensures S.Enabled(a, S.Abort(t)) && S.Apply(a, S.Abort(t)) == S.AbortTxn(a, t)
  {}
}

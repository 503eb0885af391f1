/** Every outcome the votes call for is reached: for any list of participants and any
    answers there is a run in which a commit ends as it must, and so does an abort. */
module TwoPhaseRuns {
  import opened Prelude
  import opened Txn
  import opened TwoPhase

  /** The state is at the end of some run. */
  ghost predicate Reachable(s: State) {
    exists ss, steps :: IsRun(ss, steps) && ss[|steps|] == s
  }

  lemma Start0(s: State)
    requires Init(s)
    ensures Reachable(s)
  {
    var ss, steps := [s], [];
    assert IsRun(ss, steps) && ss[|steps|] == s;
  }

  lemma OneMore(s: State, step: Step)
    requires Reachable(s) && Enabled(s, step)
    ensures Reachable(Next(s, step))
  {
    hide Init, Enabled, Next;
    var ss, steps :| IsRun(ss, steps) && ss[|steps|] == s;
    var ss', steps' := ss + [Next(s, step)], steps + [step];
    assert IsRun(ss', steps') && ss'[|steps'|] == Next(s, step);
  }

  /** The first n participants have enlisted, each by a call of its own. */
  lemma {:induction false} Enlisted(parts: seq<Participant>, n: nat) returns (s: State)
    requires n <= |parts|
    ensures Reachable(s) && s.rec == Some(Record(Active, parts[..n])) && forall b :: b in s.used ==> b < n
  {
    hide Reachable;
    if n == 0 {
      var s0 := State(None, map[], {}, {}, None, None, map[], false);
      Start0(s0);
      OneMore(s0, Begin);
      s := Next(s0, Begin);
      assert parts[..0] == [];
    } else {
      var s1 := Enlisted(parts, n - 1);
      var start, access := Start(n - 1, EnlistCall(parts[n - 1])), Access(n - 1);
      OneMore(s1, start);
      var s2 := Next(s1, start);
      OneMore(s2, access);
      s := Next(s2, access);
      assert parts[..n - 1] + [parts[n - 1]] == parts[..n];
    }
  }

  // ── Rounds ──────────────────────────────────────────────────────────────────

  /** The first i messages have been answered, the others not sent. */
  function Progress(bs: seq<Ballot>, i: nat): (r: seq<Rpc>)
    requires i <= |bs|
    ensures |r| == |bs| && forall j :: 0 <= j < |bs| ==> r[j] == if j < i then Returned(bs[j]) else Unsent
  {
    seq(|bs|, j requires 0 <= j < |bs| => if j < i then Returned(bs[j]) else Unsent)
  }

  predicate Many(c: Call) {
    c.Asking? || c.Telling? || c.Releasing?
  }

  /** A round runs to its end with the given answers; the record stays as it is. */
  lemma {:induction false} RunRound(s: State, a: Actor, c: Call, bs: seq<Ballot>, i: nat) returns (s': State)
    requires Reachable(s) && a in s.calls && Many(c) && i <= |bs| && |bs| == if c.Telling? then |c.eps| else |c.parts|
    requires s.calls[a] == c.(rpcs := Progress(bs, i))
    ensures Reachable(s') && a in s'.calls && s'.rec == s.rec && s'.calls[a] == c.(rpcs := Progress(bs, |bs|))
    decreases |bs| - i
  {
    hide Reachable, Proceed;
    if i == |bs| {
      s' := s;
    } else {
      OneMore(s, Transmit(a, i));
      var s1 := Next(s, Transmit(a, i));
      OneMore(s1, Return(a, i, bs[i]));
      var s2 := Next(s1, Return(a, i, bs[i]));
      assert Progress(bs, i)[i := InFlight][i := Returned(bs[i])] == Progress(bs, i + 1);
      s' := RunRound(s2, a, c, bs, i + 1);
    }
  }

  lemma FreshIsProgress(bs: seq<Ballot>)
    ensures Fresh(|bs|) == Progress(bs, 0)
  {}

  // ── Commits ─────────────────────────────────────────────────────────────────

  /** The answers as the coordinator records them. */
  ghost function Votes(bs: seq<Ballot>): map<nat, Ballot> {
    map i: nat | i < |bs| :: bs[i]
  }

  /** A commit has claimed the transaction and read the list. */
  lemma Polling(parts: seq<Participant>, a: Actor) returns (s: State)
    requires a == |parts|
    ensures Reachable(s) && a in s.calls && s.calls[a] == Poll(parts) && s.rec == Some(Record(Voting, parts))
  {
    hide Reachable;
    var s0 := Enlisted(parts, |parts|);
    assert parts[..|parts|] == parts;
    OneMore(s0, Start(a, CommitCall));
    var s1 := Next(s0, Start(a, CommitCall));
    OneMore(s1, Access(a));
    var s2 := Next(s1, Access(a));
    OneMore(s2, Access(a));
    s := Next(s2, Access(a));
  }

  ghost predicate Ended(s: State, a: Actor, parts: seq<Participant>, r: Result) {
    && Reachable(s) && a in s.calls && s.calls[a] == Done(r)
    && s.rec == Some(Record(if r == CommitOk then Committed else if r == ErrAborted then Aborted else Voting, parts))
  }

  lemma EmptyCommit(parts: seq<Participant>) returns (s: State)
    requires parts == []
    ensures Ended(s, 0, parts, CommitOk)
  {
    hide Reachable;
    var s0 := Polling(parts, 0);
    OneMore(s0, Access(0));
    s := Next(s0, Access(0));
  }

  lemma SoleCommit(parts: seq<Participant>, b: Ballot) returns (s: State)
    requires |parts| == 1
    ensures Ended(s, 1, parts, if Yes(b) then CommitOk else if b == Failed then ErrOutcomeUnknown else ErrAborted)
  {
    hide Reachable;
    var s0 := Polling(parts, 1);
    OneMore(s0, Transmit(1, 0));
    var s1 := Next(s0, Transmit(1, 0));
    OneMore(s1, Return(1, 0, b));
    var s2 := Next(s1, Return(1, 0, b));
    assert s2.calls[1] == AskOne(parts, Returned(b));
    OneMore(s2, Access(1));
    s := Next(s2, Access(1));
    NoOrFailed(b);
  }

  /** Everybody has answered. */
  lemma Polled(parts: seq<Participant>, bs: seq<Ballot>, a: Actor) returns (s: State)
    requires |bs| == |parts| >= 2 && a == |parts|
    ensures Reachable(s) && a in s.calls && s.calls[a] == Asking(parts, Progress(bs, |bs|)) && s.rec == Some(Record(Voting, parts))
  {
    hide Reachable;
    var s0 := Polling(parts, a);
    FreshIsProgress(bs);
    s := RunRound(s0, a, Asking(parts, Progress(bs, 0)), bs, 0);
  }

  lemma ManyCommit(parts: seq<Participant>, bs: seq<Ballot>) returns (s: State)
    requires |bs| == |parts| >= 2 && forall i :: 0 <= i < |bs| ==> Yes(bs[i])
    ensures Ended(s, |parts|, parts, CommitOk)
  {
    hide Reachable, PreparedEndpoints;
    var a := |parts|;
    var s0 := Polled(parts, bs, a);
    OneMore(s0, Access(a));
    var s1 := Next(s0, Access(a));
    var eps := PreparedEndpoints(parts, Ballots(Progress(bs, |bs|)));
    var lost := seq(|eps|, _ => Failed);
    FreshIsProgress(lost);
    var s2 := RunRound(s1, a, Telling(parts, eps, Progress(lost, 0)), lost, 0);
    OneMore(s2, Access(a));
    s := Next(s2, Access(a));
  }

  lemma ManyAbort(parts: seq<Participant>, bs: seq<Ballot>) returns (s: State)
    requires |bs| == |parts| >= 2 && exists i :: 0 <= i < |bs| && !Yes(bs[i])
    ensures Ended(s, |parts|, parts, ErrAborted)
  {
    hide Reachable;
    var a := |parts|;
    var s0 := Polled(parts, bs, a);
    var i :| 0 <= i < |bs| && !Yes(bs[i]);
    assert Progress(bs, |bs|)[i].ballot == bs[i];
    OneMore(s0, Access(a));
    var s1 := Next(s0, Access(a));
    FreshIsProgress(bs);
    var s2 := RunRound(s1, a, Releasing(parts, Progress(bs, 0), ErrAborted), bs, 0);
    OneMore(s2, Access(a));
    s := Next(s2, Access(a));
  }

  /** For every list of participants and every way they answer, there is a run in which a
      commit of exactly that list ends with exactly the result and stored state the answers
      call for; with all answers yes, with stored Committed and CommitOk. */
  lemma CommitCanEnd(parts: seq<Participant>, bs: seq<Ballot>) returns (s: State)
    requires |bs| == |parts|
    ensures Ended(s, |parts|, parts, VoteResult(parts, Votes(bs)))
    ensures (forall i :: 0 <= i < |bs| ==> Yes(bs[i])) ==> Ended(s, |parts|, parts, CommitOk)
  {
    hide Ended;
    var votes := Votes(bs);
    assert forall i :: 0 <= i < |bs| ==> i in votes && votes[i] == bs[i];
    if AllYes(parts, votes) {
      forall i | 0 <= i < |bs| ensures Yes(bs[i]) { assert i in votes && Yes(votes[i]); }
    }
    if |parts| == 0 {
      s := EmptyCommit(parts);
    } else if |parts| == 1 {
      SoleBallot(parts, votes);
      s := SoleCommit(parts, bs[0]);
    } else if AllYes(parts, votes) {
      s := ManyCommit(parts, bs);
    } else {
      s := ManyAbort(parts, bs);
    }
  }

  // ── Aborts ──────────────────────────────────────────────────────────────────

  /** The same for an abort on request and on lease expiry, whatever the participants answer. */
  lemma AbortCanEnd(parts: seq<Participant>, bs: seq<Ballot>, expiry: bool) returns (s: State)
    requires |bs| == |parts|
    ensures Reachable(s) && |parts| in s.calls && s.calls[|parts|] == Done(if expiry then ExpireOk else AbortOk)
    ensures s.rec == Some(Record(Aborted, parts)) && s.released
  {
    hide Reachable;
    var a, call, after := |parts|, if expiry then ExpireCall else AbortCall, if expiry then ExpireOk else AbortOk;
    var s0 := Enlisted(parts, |parts|);
    assert parts[..|parts|] == parts;
    OneMore(s0, Start(a, call));
    var s1 := Next(s0, Start(a, call));
    OneMore(s1, Access(a));
    var s2 := Next(s1, Access(a));
    OneMore(s2, Access(a));
    var s3 := Next(s2, Access(a));
    FreshIsProgress(bs);
    var s4 := RunRound(s3, a, Releasing(parts, Progress(bs, 0), after), bs, 0);
    OneMore(s4, Access(a));
    s := Next(s4, Access(a));
  }
}

/** The two-phase commit coordinator as a step machine over one transaction record.

    Any number of `commit`, `abort`, `abort_expired` and `enlist` calls run at once.
    Each store access is one step, each outbound call is a step that sends and a
    step that returns with any outcome, and any call can stop for ever between two
    steps (client gone, storage error, coordinator crash). A sent message may reach
    its participant at any later time, once, many times or never. */
module TwoPhase {
  import opened Prelude
  import opened Txn

  /** One call in flight. */
  type Actor = nat

  datatype Kind = AskPrepare | TellCommit | TellAbort | AskPrepareAndCommit

  datatype Msg = Msg(kind: Kind, endpoint: Id)

  datatype Send = Send(from: Actor, msg: Msg)

  /** An outbound call. For Commit and Abort only success against failure matters,
      and the coordinator ignores even that. */
  datatype Rpc = Unsent | InFlight | Returned(ballot: Ballot)

  datatype Result =
    | CommitOk | AbortOk | ExpireOk | ErrAborted | ErrTerminal | ErrInProgress | ErrOutcomeUnknown | ErrNotFound
    | ErrUnexpectedState
    | EnlistOk(p: Participant)

  /** Where a call stands. `parts` is the participant list it read from the store. */
  datatype Call =
    | CommitCall | AbortCall | ExpireCall | EnlistCall(p: Participant)
    | CommitLost | AbortLost                       // the claim failed: read the state and report
    | CommitWon | AbortWon | ExpireWon             // the claim succeeded: re-read the record
    | CommitEmpty(parts: seq<Participant>)         // nobody enlisted
    | AskOne(parts: seq<Participant>, rpc: Rpc)    // PrepareAndCommit shortcut
    | Asking(parts: seq<Participant>, rpcs: seq<Rpc>)
    | Telling(parts: seq<Participant>, eps: seq<Id>, rpcs: seq<Rpc>)
    | Releasing(parts: seq<Participant>, rpcs: seq<Rpc>, after: Result)
    | Done(result: Result)

  /** `used`, `sent`, `owner`, `releaser`, `ballots` and `released` are history: calls
      ever made, messages ever sent, who claimed the commit, who decided the abort,
      what each participant answered, whether an abort round ran to its end. */
  datatype State = State(
    rec: Option<Record>, calls: map<Actor, Call>, used: set<Actor>, sent: set<Send>,
    owner: Option<Actor>, releaser: Option<Actor>, ballots: map<nat, Ballot>, released: bool)

  datatype Step =
    | Begin
    | Start(a: Actor, call: Call)
    | Access(a: Actor)                              // the call's next store access
    | Transmit(a: Actor, i: nat)                    // send the i-th message of the round
    | Return(a: Actor, i: nat, ballot: Ballot)      // its outcome
    | Stop(a: Actor)

  ghost predicate Init(s: State) {
    s == State(None, map[], {}, {}, None, None, map[], false)
  }

  predicate IsRequest(c: Call) {
    c.CommitCall? || c.AbortCall? || c.ExpireCall? || c.EnlistCall?
  }

  // ── Rounds of messages ──────────────────────────────────────────────────────

  function Fresh(n: nat): (r: seq<Rpc>)
    ensures |r| == n && forall i :: 0 <= i < n ==> r[i] == Unsent
  {
    seq(n, _ => Unsent)
  }

  predicate InRound(c: Call) {
    c.AskOne? || c.Asking? || c.Telling? || c.Releasing?
  }

  function Rpcs(c: Call): seq<Rpc>
    requires InRound(c)
  {
    if c.AskOne? then [c.rpc] else c.rpcs
  }

  function SetRpc(c: Call, i: nat, r: Rpc): Call
    requires InRound(c) && i < |Rpcs(c)|
  {
    if c.AskOne? then c.(rpc := r) else c.(rpcs := c.rpcs[i := r])
  }

  predicate AllReturned(rs: seq<Rpc>) {
    forall i :: 0 <= i < |rs| ==> rs[i].Returned?
  }

  function Ballots(rs: seq<Rpc>): (r: seq<Ballot>)
    requires AllReturned(rs)
    ensures |r| == |rs| && forall i :: 0 <= i < |rs| ==> r[i] == rs[i].ballot
  {
    seq(|rs|, i requires 0 <= i < |rs| => rs[i].ballot)
  }

  /** The i-th message of a round. */
  predicate Addressed(c: Call, i: nat) {
    InRound(c) && i < |Rpcs(c)| && (if c.Telling? then i < |c.eps| else i < |c.parts|)
  }

  function MsgOf(c: Call, i: nat): Msg
    requires Addressed(c, i)
  {
    match c
    case AskOne(parts, _) => Msg(AskPrepareAndCommit, parts[i].endpoint)
    case Asking(parts, _) => Msg(AskPrepare, parts[i].endpoint)
    case Telling(_, eps, _) => Msg(TellCommit, eps[i])
    case Releasing(parts, _, _) => Msg(TellAbort, parts[i].endpoint)
  }

  // ── Store accesses ──────────────────────────────────────────────────────────

  /** A state change owned by the commit in flight; failing is an invariant violation. */
  function Transition(rec: Option<Record>, from: TxnState, to: TxnState, ok: Call): (Call, Option<Record>) {
    var (r, rec') := Cas(rec, from, to);
    match r
    case Swapped => (ok, rec')
    case Kept => (Done(ErrUnexpectedState), rec')
    case NoRecord => (Done(ErrNotFound), rec')
  }

  function Claim(rec: Option<Record>, to: TxnState, won: Call, lost: Call, missing: Result): (Call, Option<Record>) {
    var (r, rec') := Cas(rec, Active, to);
    match r
    case Swapped => (won, rec')
    case Kept => (lost, rec')
    case NoRecord => (Done(missing), rec')
  }

  /** A commit that has just read its final participant list. */
  function Poll(parts: seq<Participant>): Call {
    if |parts| == 0 then CommitEmpty(parts)
    else if |parts| == 1 then AskOne(parts, Unsent)
    else Asking(parts, Fresh(|parts|))
  }

  /** A call can make a store access: it is not finished and awaits no answer. */
  predicate Ready(c: Call) {
    !c.Done?
    && (InRound(c) ==> AllReturned(Rpcs(c)))
    && (c.Asking? ==> |c.rpcs| == |c.parts|)
  }

  /** The next store access of a call: its new position and the new record. */
  function Proceed(rec: Option<Record>, c: Call): (Call, Option<Record>)
    requires Ready(c)
  {
    match c
    case CommitCall => Claim(rec, Voting, CommitWon, CommitLost, ErrNotFound)
    case AbortCall => Claim(rec, Aborted, AbortWon, AbortLost, ErrNotFound)
    case ExpireCall => Claim(rec, Aborted, ExpireWon, Done(ExpireOk), ExpireOk)
    case EnlistCall(p) =>
      var (r, rec') := Enlist(rec, p);
      (Done(match r case Enlisted => EnlistOk(p) case Terminal => ErrTerminal case NotFound => ErrNotFound), rec')
    case CommitLost =>
      (Done(if rec.None? then ErrNotFound
            else if rec.value.state == Committed then CommitOk
            else if rec.value.state == Aborted then ErrAborted
            else ErrInProgress), rec)
    case AbortLost =>
      (Done(if rec.None? then ErrNotFound
            else if rec.value.state == Committed then ErrTerminal
            else if rec.value.state == Aborted then AbortOk
            else ErrInProgress), rec)
    case CommitWon =>
      (if rec.None? then Done(ErrNotFound) else Poll(rec.value.participants), rec)
    case AbortWon =>
      (if rec.None? then Done(ErrNotFound)
       else Releasing(rec.value.participants, Fresh(|rec.value.participants|), AbortOk), rec)
    case ExpireWon =>
      (if rec.None? then Done(ExpireOk)
       else Releasing(rec.value.participants, Fresh(|rec.value.participants|), ExpireOk), rec)
    case CommitEmpty(_) => Transition(rec, Voting, Committed, Done(CommitOk))
    case AskOne(_, rpc) =>
      if Yes(Rpcs(c)[0].ballot) then Transition(rec, Voting, Committed, Done(CommitOk))
      else if Rpcs(c)[0].ballot == Voted(VoteAborted) then Transition(rec, Voting, Aborted, Done(ErrAborted))
      else (Done(ErrOutcomeUnknown), rec)
    case Asking(parts, rpcs) =>
      if forall i :: 0 <= i < |rpcs| ==> Yes(rpcs[i].ballot) then
        var eps := PreparedEndpoints(parts, Ballots(rpcs));
        Transition(rec, Voting, Prepared, Telling(parts, eps, Fresh(|eps|)))
      else
        Transition(rec, Voting, Aborted, Releasing(parts, Fresh(|parts|), ErrAborted))
    case Telling(_, _, _) => Transition(rec, Prepared, Committed, Done(CommitOk))
    case Releasing(_, _, after) => (Done(after), rec)
  }

  // ── Steps ───────────────────────────────────────────────────────────────────

  ghost predicate Enabled(s: State, step: Step) {
    match step
    case Begin => s.rec.None?
    case Start(a, c) => a !in s.used && IsRequest(c)
    case Access(a) => a in s.calls && Ready(s.calls[a])
    case Transmit(a, i) => a in s.calls && Addressed(s.calls[a], i) && Rpcs(s.calls[a])[i] == Unsent
    case Return(a, i, _) => a in s.calls && Addressed(s.calls[a], i) && Rpcs(s.calls[a])[i] == InFlight
    case Stop(a) => a in s.calls
  }

  ghost function StateOf(rec: Option<Record>): Option<TxnState> {
    if rec.None? then None else Some(rec.value.state)
  }

  ghost function AfterAccess(s: State, a: Actor): State
    requires a in s.calls && Ready(s.calls[a])
  {
    var (c', rec') := Proceed(s.rec, s.calls[a]);
    s.(rec := rec',
       calls := s.calls[a := c'],
       owner := if StateOf(s.rec) == Some(Active) && StateOf(rec') == Some(Voting) then Some(a) else s.owner,
       releaser := if StateOf(s.rec) != StateOf(rec') && StateOf(rec') == Some(Aborted) then Some(a) else s.releaser,
       released := s.released || s.calls[a].Releasing?)
  }

  ghost function Next(s: State, step: Step): State
    requires Enabled(s, step)
  {
    match step
    case Begin => s.(rec := Some(Record(Active, [])))
    case Start(a, c) => s.(calls := s.calls[a := c], used := s.used + {a})
    case Access(a) => AfterAccess(s, a)
    case Transmit(a, i) =>
      s.(calls := s.calls[a := SetRpc(s.calls[a], i, InFlight)],
         sent := s.sent + {Send(a, MsgOf(s.calls[a], i))})
    case Return(a, i, b) =>
      s.(calls := s.calls[a := SetRpc(s.calls[a], i, Returned(b))],
         ballots := if s.calls[a].AskOne? || s.calls[a].Asking? then s.ballots[i := b] else s.ballots)
    case Stop(a) => s.(calls := map b | b in s.calls && b != a :: s.calls[b])
  }

  // ── Invariant ───────────────────────────────────────────────────────────────

  ghost predicate SentOnly(s: State, from: Actor, kinds: set<Kind>) {
    forall m :: m in s.sent ==> m.from == from && m.msg.kind in kinds
  }

  /** Everyone in the list answered yes. */
  ghost predicate AllYes(parts: seq<Participant>, ballots: map<nat, Ballot>) {
    forall i :: 0 <= i < |parts| ==> i in ballots && Yes(ballots[i])
  }

  /** Somebody in the list did not answer yes. */
  ghost predicate Refused(parts: seq<Participant>, ballots: map<nat, Ballot>) {
    exists i :: 0 <= i < |parts| && i in ballots && !Yes(ballots[i])
  }

  /** The endpoint voted PREPARED. */
  ghost predicate VotedPrepared(parts: seq<Participant>, ballots: map<nat, Ballot>, ep: Id) {
    exists i :: 0 <= i < |parts| && parts[i].endpoint == ep && i in ballots && ballots[i] == Voted(VotePrepared)
  }

  /** Commit went to PREPARED voters only. */
  ghost predicate CommitToPrepared(s: State, parts: seq<Participant>) {
    forall m :: m in s.sent && m.msg.kind == TellCommit ==> VotedPrepared(parts, s.ballots, m.msg.endpoint)
  }

  ghost predicate AllAnswered(parts: seq<Participant>, ballots: map<nat, Ballot>) {
    forall i :: 0 <= i < |parts| ==> i in ballots
  }

  /** What the call that ran the vote must report, from the answers alone. */
  ghost function VoteResult(parts: seq<Participant>, ballots: map<nat, Ballot>): Result {
    if AllYes(parts, ballots) then CommitOk
    else if |parts| == 1 && 0 in ballots && ballots[0] == Failed then ErrOutcomeUnknown
    else ErrAborted
  }

  ghost predicate Told(s: State, ep: Id) {
    exists m :: m in s.sent && m.msg.endpoint == ep && m.msg.kind in {TellCommit, AskPrepareAndCommit}
  }

  /** Every PREPARED voter was told to commit. */
  ghost predicate PreparedTold(s: State, parts: seq<Participant>) {
    forall i :: 0 <= i < |parts| && i in s.ballots && s.ballots[i] == Voted(VotePrepared) ==>
      Told(s, parts[i].endpoint)
  }

  ghost predicate Quiet(s: State) {
    s.sent == {} && s.ballots == map[]
  }

  ghost predicate RecordInv(s: State) {
    if s.rec.None? then Quiet(s) && s.owner.None? && s.releaser.None? && !s.released
    else
      var n := |s.rec.value.participants|;
      match s.rec.value.state
      case Active => Quiet(s) && s.owner.None? && s.releaser.None? && !s.released
      case Voting =>
        && s.owner.Some? && s.releaser.None? && !s.released
        && SentOnly(s, s.owner.value, if n == 1 then {AskPrepareAndCommit} else {AskPrepare})
      case Prepared =>
        && s.owner.Some? && s.releaser.None? && !s.released && n >= 2
        && SentOnly(s, s.owner.value, {AskPrepare, TellCommit})
        && AllYes(s.rec.value.participants, s.ballots) && CommitToPrepared(s, s.rec.value.participants)
      case Committed =>
        && s.owner.Some? && s.releaser.None? && !s.released
        && SentOnly(s, s.owner.value, if n == 1 then {AskPrepareAndCommit} else {AskPrepare, TellCommit})
        && AllYes(s.rec.value.participants, s.ballots) && CommitToPrepared(s, s.rec.value.participants)
        && PreparedTold(s, s.rec.value.participants)
      case Aborted =>
        && s.releaser.Some? && (s.owner.Some? ==> s.owner == s.releaser && Refused(s.rec.value.participants, s.ballots))
        && (|| SentOnly(s, s.releaser.value, {AskPrepare, TellAbort})
            || (&& n == 1 && SentOnly(s, s.releaser.value, {AskPrepareAndCommit}) && !s.released
                && 0 in s.ballots && s.ballots[0] == Voted(VoteAborted)))
        && (s.released ==> forall i :: 0 <= i < n ==>
              Send(s.releaser.value, Msg(TellAbort, s.rec.value.participants[i].endpoint)) in s.sent)
  }

  /** The recorded ballots are exactly those this round has received. */
  ghost predicate BallotsMatch(ballots: map<nat, Ballot>, rpcs: seq<Rpc>) {
    && (forall i :: i in ballots ==> i < |rpcs|)
    && (forall i :: 0 <= i < |rpcs| ==>
          (rpcs[i].Returned? <==> i in ballots) && (i in ballots ==> rpcs[i] == Returned(ballots[i])))
  }

  /** Whatever left the round is on record as sent. */
  ghost predicate SentMatch(s: State, a: Actor, c: Call) {
    forall i :: 0 <= i && Addressed(c, i) && Rpcs(c)[i] != Unsent ==> Send(a, MsgOf(c, i)) in s.sent
  }

  /** The call holds the transaction in the given state, with the stored list. */
  ghost predicate Holds(s: State, st: TxnState) {
    s.rec.Some? && s.rec.value.state == st
  }

  ghost predicate CallInv(s: State, a: Actor) 
    requires a in s.calls
  {
    var c := s.calls[a];
    match c
    case CommitCall => Uninvolved(s, a)
    case AbortCall => Uninvolved(s, a)
    case ExpireCall => Uninvolved(s, a)
    case EnlistCall(_) => Uninvolved(s, a)
    case CommitLost => s.rec.Some? && !Holds(s, Active) && Uninvolved(s, a)
    case AbortLost => s.rec.Some? && !Holds(s, Active) && Uninvolved(s, a)
    case CommitWon => Holds(s, Voting) && s.owner == Some(a) && Quiet(s)
    case AbortWon => Holds(s, Aborted) && s.releaser == Some(a) && s.owner.None? && Quiet(s) && !s.released
    case ExpireWon => Holds(s, Aborted) && s.releaser == Some(a) && s.owner.None? && Quiet(s) && !s.released
    case CommitEmpty(parts) =>
      Holds(s, Voting) && s.owner == Some(a) && Quiet(s) && parts == s.rec.value.participants && parts == []
    case AskOne(parts, rpc) =>
      && Holds(s, Voting) && s.owner == Some(a) && parts == s.rec.value.participants && |parts| == 1
      && BallotsMatch(s.ballots, [rpc]) && SentMatch(s, a, c)
    case Asking(parts, rpcs) =>
      && Holds(s, Voting) && s.owner == Some(a) && parts == s.rec.value.participants && |parts| >= 2
      && |rpcs| == |parts| && BallotsMatch(s.ballots, rpcs) && SentMatch(s, a, c)
    case Telling(parts, eps, rpcs) =>
      && Holds(s, Prepared) && s.owner == Some(a) && parts == s.rec.value.participants
      && |rpcs| == |eps| && SentMatch(s, a, c)
      && (forall i :: 0 <= i < |parts| && i in s.ballots && s.ballots[i] == Voted(VotePrepared) ==>
            parts[i].endpoint in eps)
      && forall e :: e in eps ==> VotedPrepared(parts, s.ballots, e)
    case Releasing(parts, rpcs, after) =>
      && Holds(s, Aborted) && s.releaser == Some(a) && parts == s.rec.value.participants
      && |rpcs| == |parts| && SentMatch(s, a, c)
      && SentOnly(s, a, {AskPrepare, TellAbort})
      && (if s.owner == Some(a)
          then after == ErrAborted && |parts| >= 2 && AllAnswered(parts, s.ballots)
          else after in {AbortOk, ExpireOk})
    case Done(r) =>
      && r != ErrUnexpectedState
      && (r == CommitOk ==> Holds(s, Committed))
      && (r in {AbortOk, ErrAborted} ==> Holds(s, Aborted))
      && (r.EnlistOk? ==> s.rec.Some? && r.p in s.rec.value.participants)
      && (s.owner == Some(a) ==> OwnerDone(s, r))
      && (s.releaser == Some(a) ==> ReleaserDone(s, a, r))
  }

  /** The call has claimed nothing. */
  ghost predicate Uninvolved(s: State, a: Actor) {
    s.owner != Some(a) && s.releaser != Some(a)
  }

  /** The vote is over: everybody answered, and the result says what they answered. */
  ghost predicate OwnerDone(s: State, r: Result) {
    s.rec.Some? && AllAnswered(s.rec.value.participants, s.ballots)
    && r == VoteResult(s.rec.value.participants, s.ballots)
    && (r == ErrOutcomeUnknown ==> Holds(s, Voting))
  }

  /** The abort is over: the round was run, unless the sole participant said it itself. */
  ghost predicate ReleaserDone(s: State, a: Actor, r: Result) {
    && s.rec.Some? && (s.released || (s.owner == Some(a) && |s.rec.value.participants| == 1))
    && (s.owner != Some(a) ==> r in {AbortOk, ExpireOk})
  }

  predicate Lists(parts: seq<Participant>, ep: Id) {
    exists i :: 0 <= i < |parts| && parts[i].endpoint == ep
  }

  /** Only enlisted participants are ever contacted. */
  ghost predicate SentToListed(s: State) {
    forall m :: m in s.sent ==> s.rec.Some? && Lists(s.rec.value.participants, m.msg.endpoint)
  }

  ghost predicate Inv(s: State) {
    && s.calls.Keys <= s.used
    && (s.owner.Some? ==> s.owner.value in s.used) && (s.releaser.Some? ==> s.releaser.value in s.used)
    && SentToListed(s)
    && RecordInv(s)
    && forall a :: a in s.calls ==> CallInv(s, a)
  }

  lemma InitInv(s: State)
    requires Init(s)
    ensures Inv(s)
  {}

  lemma BeginKeepsInv(s: State)
    requires Inv(s) && Enabled(s, Begin)
    requires SentToListed(Next(s, Begin))
    ensures Inv(Next(s, Begin))
  {
    forall a | a in s.calls ensures CallInv(Next(s, Begin), a) {
      assert CallInv(s, a);
    }
  }

  /** A call's invariant reads the shared state, not the other calls. */
  lemma CallInvFrame(s: State, s': State, a: Actor)
    requires a in s.calls && a in s'.calls && s'.calls[a] == s.calls[a] && CallInv(s, a)
    requires s' == s.(calls := s'.calls, used := s'.used)
    ensures CallInv(s', a)
  {}

  lemma StartStopKeepsInv(s: State, step: Step)
    requires Inv(s) && Enabled(s, step) && (step.Start? || step.Stop?)
    requires SentToListed(Next(s, step))
    ensures Inv(Next(s, step))
  {
    var s' := Next(s, step);
    forall a | a in s'.calls ensures CallInv(s', a) {
      if a in s.calls { CallInvFrame(s, s', a); }
    }
  }

  /** The record moves at most one state at a time, and only along the protocol's edges. */
  predicate Edge(from: TxnState, to: TxnState) {
    || from == to
    || (from == Active && to in {Voting, Aborted})
    || (from == Voting && to in {Prepared, Committed, Aborted})
    || (from == Prepared && to == Committed)
  }

  /** The call has the transaction to itself. */
  predicate Holding(c: Call) {
    c.CommitWon? || c.AbortWon? || c.ExpireWon? || c.CommitEmpty? || InRound(c)
  }

  /** Nobody holds an Active transaction, and nobody shares a held one. */
  lemma HeldByOne(s: State, a: Actor, b: Actor)
    requires Inv(s) && a in s.calls && b in s.calls && Holding(s.calls[b])
    ensures !Holds(s, Active) && s.rec.Some?
    ensures Holding(s.calls[a]) ==> a == b
  {
    assert CallInv(s, a) && CallInv(s, b);
  }

  lemma TransmitKeepsRecordInv(s: State, a: Actor, i: nat)
    requires Inv(s) && Enabled(s, Transmit(a, i))
    ensures RecordInv(Next(s, Transmit(a, i)))
  {
    hide Proceed, AllYes, Refused, VotedPrepared, BallotsMatch, Lists;
    assert CallInv(s, a);
    if s.calls[a].Telling? { assert s.calls[a].eps[i] in s.calls[a].eps; }
  }

  lemma ReturnKeepsRecordInv(s: State, a: Actor, i: nat, b: Ballot)
    requires Inv(s) && Enabled(s, Return(a, i, b))
    ensures RecordInv(Next(s, Return(a, i, b)))
  {
    hide Proceed, SentMatch, BallotsMatch, Lists;
    assert CallInv(s, a);
  }

  /** Marking message i of a round leaves the other messages and their addresses alone. */
  lemma SetRpcFacts(c: Call, i: nat, r: Rpc)
    requires Addressed(c, i)
    ensures var c' := SetRpc(c, i, r);
            && InRound(c') && |Rpcs(c')| == |Rpcs(c)| && Rpcs(c')[i] == r
            && (forall j: nat :: Addressed(c', j) <==> Addressed(c, j))
            && (forall j: nat :: Addressed(c, j) ==> MsgOf(c', j) == MsgOf(c, j))
            && (forall j: nat :: Addressed(c, j) && j != i ==> Rpcs(c')[j] == Rpcs(c)[j])
  {}

  lemma TransmitKeepsSentMatch(s: State, a: Actor, i: nat)
    requires a in s.calls && Enabled(s, Transmit(a, i)) && SentMatch(s, a, s.calls[a])
    ensures SentMatch(Next(s, Transmit(a, i)), a, Next(s, Transmit(a, i)).calls[a])
  {
    hide Proceed;
    SetRpcFacts(s.calls[a], i, InFlight);
  }

  lemma ReturnKeepsSentMatch(s: State, a: Actor, i: nat, b: Ballot)
    requires a in s.calls && Enabled(s, Return(a, i, b)) && SentMatch(s, a, s.calls[a])
    ensures SentMatch(Next(s, Return(a, i, b)), a, Next(s, Return(a, i, b)).calls[a])
  {
    hide Proceed;
    SetRpcFacts(s.calls[a], i, Returned(b));
  }

  lemma TransmitKeepsOwnInv(s: State, a: Actor, i: nat)
    requires Inv(s) && Enabled(s, Transmit(a, i))
    ensures CallInv(Next(s, Transmit(a, i)), a)
  {
    hide Proceed, RecordInv, SentMatch;
    assert CallInv(s, a);
    TransmitKeepsSentMatch(s, a, i);
  }

  lemma ReturnKeepsOwnInv(s: State, a: Actor, i: nat, b: Ballot)
    requires Inv(s) && Enabled(s, Return(a, i, b))
    ensures CallInv(Next(s, Return(a, i, b)), a)
  {
    hide Proceed, RecordInv, SentMatch, MsgOf;
    assert CallInv(s, a);
    ReturnKeepsSentMatch(s, a, i, b);
  }

  lemma RoundKeepsOtherInv(s: State, step: Step, b: Actor)
    requires Inv(s) && Enabled(s, step) && (step.Transmit? || step.Return?) && b in s.calls && b != step.a
    ensures CallInv(Next(s, step), b)
  {
    assert CallInv(s, b);
    if Holding(s.calls[b]) { HeldByOne(s, step.a, b); }
  }

  lemma RoundKeepsInv(s: State, step: Step)
    requires Inv(s) && Enabled(s, step) && (step.Transmit? || step.Return?)
    requires SentToListed(Next(s, step))
    ensures Inv(Next(s, step))
  {
    if step.Transmit? {
      TransmitKeepsRecordInv(s, step.a, step.i);
      TransmitKeepsOwnInv(s, step.a, step.i);
    } else {
      ReturnKeepsRecordInv(s, step.a, step.i, step.ballot);
      ReturnKeepsOwnInv(s, step.a, step.i, step.ballot);
    }
    forall b | b in s.calls && b != step.a ensures CallInv(Next(s, step), b) {
      RoundKeepsOtherInv(s, step, b);
    }
  }

  /** Without a hold, an access to a transaction that left Active changes nothing shared. */
  lemma IdleAccessIsHarmless(s: State, a: Actor)
    requires Inv(s) && Enabled(s, Access(a)) && !Holding(s.calls[a]) && s.rec.Some? && !Holds(s, Active)
    ensures Next(s, Access(a)) == s.(calls := Next(s, Access(a)).calls)
  {
    hide RecordInv;
  }

  /** A call without a hold cares only about what never moves back. */
  lemma IdleCallIsStable(s: State, s': State, b: Actor)
    requires Inv(s) && b in s.calls && !Holding(s.calls[b]) && Forward(s, s')
    requires b in s'.calls && s'.calls[b] == s.calls[b]
    requires s'.ballots == s.ballots && (s.released ==> s'.released)
    requires (s'.owner == Some(b) ==> s.owner == Some(b)) && (s'.releaser == Some(b) ==> s.releaser == Some(b))
    requires s.calls[b] == Done(ErrOutcomeUnknown) && s.owner == Some(b) ==> s'.rec == s.rec
    ensures CallInv(s', b)
  {
    hide RecordInv;
    assert CallInv(s, b);
  }

  /** A commit of unknown outcome leaves the transaction in Voting and in nobody's hands. */
  lemma UnknownIsUnheld(s: State, a: Actor, b: Actor)
    requires Inv(s) && a in s.calls && b in s.calls && a != b
    requires s.calls[b] == Done(ErrOutcomeUnknown) && s.owner == Some(b)
    ensures Holds(s, Voting) && !Holding(s.calls[a])
  {
    assert CallInv(s, a) && CallInv(s, b);
  }

  lemma AccessKeepsOtherInv(s: State, a: Actor, b: Actor)
    requires Inv(s) && Enabled(s, Access(a)) && b in s.calls && b != a
    ensures CallInv(Next(s, Access(a)), b)
  {
    hide RecordInv, CallInv, Proceed;
    if Holding(s.calls[b]) {
      HeldByOne(s, a, b);
      IdleAccessIsHarmless(s, a);
      CallInvFrame(s, Next(s, Access(a)), b);
    } else {
      NextIsForward(s, Access(a));
      if s.calls[b] == Done(ErrOutcomeUnknown) && s.owner == Some(b) {
        UnknownIsUnheld(s, a, b);
        IdleAccessIsHarmless(s, a);
      }
      IdleCallIsStable(s, Next(s, Access(a)), b);
    }
  }

  lemma ClaimKeepsInv(s: State, a: Actor)
    requires Inv(s) && Enabled(s, Access(a))
    requires s.calls[a].CommitCall? || s.calls[a].AbortCall? || s.calls[a].ExpireCall?
    ensures RecordInv(Next(s, Access(a))) && CallInv(Next(s, Access(a)), a)
  {}

  lemma ReportKeepsInv(s: State, a: Actor)
    requires Inv(s) && Enabled(s, Access(a))
    requires s.calls[a].EnlistCall? || s.calls[a].CommitLost? || s.calls[a].AbortLost?
    ensures RecordInv(Next(s, Access(a))) && CallInv(Next(s, Access(a)), a)
  {
    assert CallInv(s, a);
  }

  lemma RereadKeepsInv(s: State, a: Actor)
    requires Inv(s) && Enabled(s, Access(a))
    requires Holding(s.calls[a]) && !InRound(s.calls[a])
    ensures RecordInv(Next(s, Access(a))) && CallInv(Next(s, Access(a)), a)
  {
    assert CallInv(s, a);
  }

  lemma NoOrFailed(b: Ballot)
    ensures !Yes(b) <==> b == Voted(VoteAborted) || b == Failed
  {
    match b
    case Failed =>
    case Voted(v) => match v case VotePrepared => case VoteNotChanged => case VoteAborted =>
  }

  lemma SoleBallot(parts: seq<Participant>, ballots: map<nat, Ballot>)
    requires |parts| == 1 && 0 in ballots
    ensures AllAnswered(parts, ballots)
    ensures AllYes(parts, ballots) <==> Yes(ballots[0])
    ensures Refused(parts, ballots) <==> !Yes(ballots[0])
    ensures VoteResult(parts, ballots) ==
            if Yes(ballots[0]) then CommitOk else if ballots[0] == Failed then ErrOutcomeUnknown else ErrAborted
  {}

  lemma SoleVoteKeepsInv(s: State, a: Actor)
    requires Inv(s) && Enabled(s, Access(a)) && s.calls[a].AskOne?
    ensures RecordInv(Next(s, Access(a))) && CallInv(Next(s, Access(a)), a)
  {
    hide AllAnswered, AllYes, Refused, VoteResult, Lists;
    assert CallInv(s, a);
    var c := s.calls[a];
    assert Rpcs(c)[0].Returned?;
    assert Addressed(c, 0) && Send(a, MsgOf(c, 0)) in s.sent;
    assert [c.rpc][0] == c.rpc && 0 in s.ballots && s.ballots[0] == c.rpc.ballot;
    SoleBallot(c.parts, s.ballots);
    var s' := Next(s, Access(a));
    assert s'.rec.value.participants == c.parts && s'.ballots == s.ballots && s'.owner == Some(a);
    assert Rpcs(c)[0].ballot == s.ballots[0];
    NoOrFailed(s.ballots[0]);
    assert s'.calls[a] == Done(VoteResult(c.parts, s.ballots));
    assert OwnerDone(s', s'.calls[a].result);
    assert s'.releaser == Some(a) ==> ReleaserDone(s', a, s'.calls[a].result);
  }

  /** The commit round addresses exactly the PREPARED voters. */
  lemma CommitRoundIsRight(parts: seq<Participant>, rpcs: seq<Rpc>, ballots: map<nat, Ballot>)
    requires AllReturned(rpcs) && |rpcs| == |parts| && BallotsMatch(ballots, rpcs)
    ensures var eps := PreparedEndpoints(parts, Ballots(rpcs));
            && (forall i :: 0 <= i < |parts| && i in ballots && ballots[i] == Voted(VotePrepared) ==>
                  parts[i].endpoint in eps)
            && forall e :: e in eps ==> VotedPrepared(parts, ballots, e)
  {
    var eps := PreparedEndpoints(parts, Ballots(rpcs));
    forall i | 0 <= i < |parts| && i in ballots && ballots[i] == Voted(VotePrepared)
      ensures parts[i].endpoint in eps
    {
      assert Ballots(rpcs)[i] == ballots[i];
      PreparedEndpointsExact(parts, Ballots(rpcs), parts[i].endpoint);
    }
    forall e | e in eps ensures VotedPrepared(parts, ballots, e) {
      PreparedEndpointsExact(parts, Ballots(rpcs), e);
      var i :| 0 <= i < |parts| && parts[i].endpoint == e && Ballots(rpcs)[i] == Voted(VotePrepared);
      assert rpcs[i].Returned? && i in ballots;
    }
  }

  lemma ManyBallots(parts: seq<Participant>, rpcs: seq<Rpc>, ballots: map<nat, Ballot>)
    requires AllReturned(rpcs) && |rpcs| == |parts| >= 2 && BallotsMatch(ballots, rpcs)
    ensures AllAnswered(parts, ballots)
    ensures AllYes(parts, ballots) <==> forall i :: 0 <= i < |rpcs| ==> Yes(rpcs[i].ballot)
    ensures Refused(parts, ballots) <==> !AllYes(parts, ballots)
  {
    if !AllYes(parts, ballots) {
      var i :| 0 <= i < |parts| && !(i in ballots && Yes(ballots[i]));
      assert rpcs[i].Returned? && i in ballots;
    }
  }

  lemma VoteKeepsInv(s: State, a: Actor)
    requires Inv(s) && Enabled(s, Access(a)) && s.calls[a].Asking?
    ensures RecordInv(Next(s, Access(a))) && CallInv(Next(s, Access(a)), a)
  {
    hide PreparedEndpoints, Lists, AllAnswered, AllYes, Refused, VotedPrepared, BallotsMatch;
    assert CallInv(s, a);
    var c := s.calls[a];
    assert Rpcs(c) == c.rpcs;
    ManyBallots(c.parts, c.rpcs, s.ballots);
    CommitRoundIsRight(c.parts, c.rpcs, s.ballots);
  }

  lemma CommitRoundEndKeepsInv(s: State, a: Actor)
    requires Inv(s) && Enabled(s, Access(a)) && s.calls[a].Telling?
    ensures RecordInv(Next(s, Access(a))) && CallInv(Next(s, Access(a)), a)
  {
    assert CallInv(s, a);
    var c := s.calls[a];
    assert Rpcs(c) == c.rpcs;
    forall i | 0 <= i < |c.eps| ensures Told(s, c.eps[i]) {
      assert Addressed(c, i) && Send(a, MsgOf(c, i)) in s.sent;
    }
    assert PreparedTold(s, c.parts);
  }

  lemma AbortRoundEndKeepsInv(s: State, a: Actor)
    requires Inv(s) && Enabled(s, Access(a)) && s.calls[a].Releasing?
    ensures RecordInv(Next(s, Access(a))) && CallInv(Next(s, Access(a)), a)
  {
    assert CallInv(s, a);
    var c := s.calls[a];
    assert Rpcs(c) == c.rpcs;
    forall i | 0 <= i < |c.parts| ensures Send(a, Msg(TellAbort, c.parts[i].endpoint)) in s.sent {
      assert Addressed(c, i) && Send(a, MsgOf(c, i)) in s.sent;
    }
  }

  lemma AccessKeepsInv(s: State, a: Actor)
    requires Inv(s) && Enabled(s, Access(a))
    requires SentToListed(Next(s, Access(a)))
    ensures Inv(Next(s, Access(a)))
  {
    var c := s.calls[a];
    if c.AskOne? { SoleVoteKeepsInv(s, a); }
    else if c.Asking? { VoteKeepsInv(s, a); }
    else if c.Telling? { CommitRoundEndKeepsInv(s, a); }
    else if c.Releasing? { AbortRoundEndKeepsInv(s, a); }
    else if Holding(c) { RereadKeepsInv(s, a); }
    else if c.EnlistCall? || c.CommitLost? || c.AbortLost? { ReportKeepsInv(s, a); }
    else { ClaimKeepsInv(s, a); }
    forall b | b in s.calls && b != a ensures CallInv(Next(s, Access(a)), b) {
      AccessKeepsOtherInv(s, a, b);
    }
  }

  lemma NextKeepsSentToListed(s: State, step: Step)
    requires Inv(s) && Enabled(s, step)
    ensures SentToListed(Next(s, step))
  {
    NextIsForward(s, step);
    if step.Transmit? {
      var c := s.calls[step.a];
      assert CallInv(s, step.a);
      if c.Telling? {
        assert VotedPrepared(c.parts, s.ballots, c.eps[step.i]);
      } else {
        assert c.parts[step.i].endpoint == MsgOf(c, step.i).endpoint;
      }
    }
  }

  lemma NextKeepsInv(s: State, step: Step)
    requires Inv(s) && Enabled(s, step)
    ensures Inv(Next(s, step))
  {
    NextKeepsSentToListed(s, step);
    match step
    case Access(a) => AccessKeepsInv(s, a);
    case Begin => BeginKeepsInv(s);
    case Transmit(_, _) => RoundKeepsInv(s, step);
    case Return(_, _, _) => RoundKeepsInv(s, step);
    case _ => StartStopKeepsInv(s, step);
  }

  /** One step of the history of the record: it moves along an edge, its list grows
      only while Active, and what was sent or decided stays. */
  ghost predicate Forward(s: State, s': State) {
    && (s.rec.Some? ==>
          && s'.rec.Some? && Edge(s.rec.value.state, s'.rec.value.state)
          && s.rec.value.participants <= s'.rec.value.participants
          && (s.rec.value.state != Active ==> s'.rec.value.participants == s.rec.value.participants))
    && s.sent <= s'.sent
    && (s.owner.Some? ==> s'.owner == s.owner)
    && (s.releaser.Some? ==> s'.releaser == s.releaser)
  }

  lemma NextIsForward(s: State, step: Step)
    requires Inv(s) && Enabled(s, step)
    ensures Forward(s, Next(s, step))
  {
    hide SentMatch, BallotsMatch, PreparedTold, AllYes;
    if step.Access? { assert CallInv(s, step.a); }
  }

  /** A ballot is recorded only when a participant's answer to a vote request returns. */
  lemma BallotOrigin(s: State, step: Step, i: nat)
    requires Inv(s) && Enabled(s, step) && i in Next(s, step).ballots
    ensures || (i in s.ballots && s.ballots[i] == Next(s, step).ballots[i])
            || (&& step.Return? && step.i == i && step.ballot == Next(s, step).ballots[i]
                && (s.calls[step.a].AskOne? || s.calls[step.a].Asking?)
                && s.rec.Some? && i < |s.rec.value.participants|
                && MsgOf(s.calls[step.a], i).endpoint == s.rec.value.participants[i].endpoint)
  {
    if step.Return? { assert CallInv(s, step.a); }
  }

  /** A call may stop anywhere; what it has done so far stays as it is, and nobody takes over. */
  lemma StopForgets(s: State, a: Actor)
    requires Enabled(s, Stop(a))
    ensures var s' := Next(s, Stop(a));
            && a !in s'.calls && (forall b :: b in s.calls && b != a ==> b in s'.calls && s'.calls[b] == s.calls[b])
            && s' == s.(calls := s'.calls)
  {}

  // ── Runs ────────────────────────────────────────────────────────────────────

  ghost predicate IsRun(ss: seq<State>, steps: seq<Step>) {
    && |ss| == |steps| + 1 && Init(ss[0])
    && forall i :: 0 <= i < |steps| ==> Enabled(ss[i], steps[i]) && ss[i + 1] == Next(ss[i], steps[i])
  }

  lemma {:induction false} RunInv(ss: seq<State>, steps: seq<Step>, i: nat)
    requires IsRun(ss, steps) && i <= |steps|
    ensures Inv(ss[i])
  {
    if i == 0 {
      InitInv(ss[0]);
    } else {
      RunInv(ss, steps, i - 1);
      NextKeepsInv(ss[i - 1], steps[i - 1]);
    }
  }

  ghost predicate Sent(s: State, kind: Kind) {
    exists m :: m in s.sent && m.msg.kind == kind
  }

  /** Agreement, on the messages themselves: in every run the coordinator never sends
      an Abort together with a Commit or PrepareAndCommit, to the same participant or
      to two different ones, and never both commit messages. */
  lemma Agreement(ss: seq<State>, steps: seq<Step>, i: nat)
    requires IsRun(ss, steps) && i <= |steps|
    ensures Sent(ss[i], TellAbort) ==> !Sent(ss[i], TellCommit) && !Sent(ss[i], AskPrepareAndCommit)
    ensures Sent(ss[i], TellCommit) ==> !Sent(ss[i], AskPrepareAndCommit)
  {
    RunInv(ss, steps, i);
  }

  /** A stored outcome tells the truth. Committed: the whole final list voted yes, every
      PREPARED voter was told to commit, and no Abort was sent. Aborted: no Commit was
      sent, and PrepareAndCommit only to a sole participant. */
  lemma StoredOutcomeIsTrue(ss: seq<State>, steps: seq<Step>, i: nat)
    requires IsRun(ss, steps) && i <= |steps| && ss[i].rec.Some?
    ensures var rec := ss[i].rec.value;
            && (rec.state == Committed ==>
                  && AllYes(rec.participants, ss[i].ballots) && PreparedTold(ss[i], rec.participants)
                  && !Sent(ss[i], TellAbort))
            && (rec.state == Aborted ==>
                  && !Sent(ss[i], TellCommit)
                  && (Sent(ss[i], AskPrepareAndCommit) ==> |rec.participants| == 1 && !Sent(ss[i], TellAbort)))
  {
    RunInv(ss, steps, i);
  }

  /** A commit that ends in a stored Aborted had a refusal: some recorded vote is no yes. */
  lemma AbortNeedsRefusal(ss: seq<State>, steps: seq<Step>, i: nat)
    requires IsRun(ss, steps) && i <= |steps| && Holds(ss[i], Aborted) && ss[i].owner.Some?
    ensures Refused(ss[i].rec.value.participants, ss[i].ballots)
  {
    RunInv(ss, steps, i);
  }

  /** The call that ran the vote reports exactly what the votes say, and only such a result:
      CommitOk if everybody said yes, ErrOutcomeUnknown if the sole participant could not be
      reached, ErrAborted otherwise; and the record agrees. */
  lemma CommitResultExactly(ss: seq<State>, steps: seq<Step>, i: nat, a: Actor)
    requires IsRun(ss, steps) && i <= |steps| && a in ss[i].calls && ss[i].calls[a].Done? && ss[i].owner == Some(a)
    ensures ss[i].rec.Some?
    ensures var r, rec, votes := ss[i].calls[a].result, ss[i].rec.value, ss[i].ballots;
            && AllAnswered(rec.participants, votes)
            && (r == CommitOk <==> AllYes(rec.participants, votes))
            && (r == ErrOutcomeUnknown <==> |rec.participants| == 1 && votes[0] == Failed)
            && (r == ErrAborted <==>
                  Refused(rec.participants, votes) && !(|rec.participants| == 1 && votes[0] == Failed))
            && r in {CommitOk, ErrOutcomeUnknown, ErrAborted}
            && rec.state == (if r == CommitOk then Committed else if r == ErrAborted then Aborted else Voting)
  {
    RunInv(ss, steps, i);
    assert CallInv(ss[i], a);
    RefusedOrYes(ss[i].rec.value.participants, ss[i].ballots);
  }

  lemma RefusedOrYes(parts: seq<Participant>, votes: map<nat, Ballot>)
    requires AllAnswered(parts, votes)
    ensures Refused(parts, votes) <==> !AllYes(parts, votes)
  {
    if !AllYes(parts, votes) {
      var i :| 0 <= i < |parts| && !(i in votes && Yes(votes[i]));
      assert i in votes;
    }
  }

  /** Commit goes to PREPARED voters only. */
  lemma CommitOnlyToPrepared(ss: seq<State>, steps: seq<Step>, i: nat, m: Send)
    requires IsRun(ss, steps) && i <= |steps| && m in ss[i].sent && m.msg.kind == TellCommit
    ensures ss[i].rec.Some? && VotedPrepared(ss[i].rec.value.participants, ss[i].ballots, m.msg.endpoint)
  {
    RunInv(ss, steps, i);
  }

  /** A call that decided an abort and has returned sent an Abort to every participant,
      except after the sole participant's own no. */
  lemma AbortTellsEveryone(ss: seq<State>, steps: seq<Step>, i: nat, a: Actor, k: nat)
    requires IsRun(ss, steps) && i <= |steps| && a in ss[i].calls && ss[i].calls[a].Done? && ss[i].releaser == Some(a)
    requires ss[i].rec.Some? && k < |ss[i].rec.value.participants|
    requires !(ss[i].owner == Some(a) && |ss[i].rec.value.participants| == 1)
    ensures Send(a, Msg(TellAbort, ss[i].rec.value.participants[k].endpoint)) in ss[i].sent
  {
    RunInv(ss, steps, i);
    assert CallInv(ss[i], a);
  }

  /** A call that owns neither the vote nor the abort reports the record as it finds it. */
  lemma LostCallsReport(ss: seq<State>, steps: seq<Step>, i: nat, a: Actor)
    requires IsRun(ss, steps) && i < |steps| && steps[i] == Access(a)
    ensures var s, s' := ss[i], ss[i + 1];
            && a in s.calls && a in s'.calls
            && (s.calls[a].CommitLost? ==>
                  && Uninvolved(s', a)
                  && s'.calls[a] == Done(if Holds(s, Committed) then CommitOk else if Holds(s, Aborted) then ErrAborted else ErrInProgress))
            && (s.calls[a].AbortLost? ==>
                  && Uninvolved(s', a)
                  && s'.calls[a] == Done(if Holds(s, Committed) then ErrTerminal else if Holds(s, Aborted) then AbortOk else ErrInProgress))
            && (s.calls[a].EnlistCall? ==>
                  s'.calls[a] == Done(if s.rec.None? then ErrNotFound else if Holds(s, Active) then EnlistOk(s.calls[a].p) else ErrTerminal))
  {
    RunInv(ss, steps, i);
    assert Enabled(ss[i], steps[i]) && CallInv(ss[i], a);
  }

  /** A claim succeeds exactly on an Active transaction. */
  lemma ClaimExactly(ss: seq<State>, steps: seq<Step>, i: nat, a: Actor)
    requires IsRun(ss, steps) && i < |steps| && steps[i] == Access(a)
    ensures var s, s' := ss[i], ss[i + 1];
            && a in s.calls && a in s'.calls
            && (s.calls[a].CommitCall? ==>
                  && (Holds(s, Active) <==> s'.owner == Some(a) && Holds(s', Voting))
                  && (!Holds(s, Active) ==> s'.rec == s.rec && s'.calls[a] == if s.rec.None? then Done(ErrNotFound) else CommitLost))
            && (s.calls[a].AbortCall? ==>
                  && (Holds(s, Active) <==> s'.releaser == Some(a) && Holds(s', Aborted))
                  && (!Holds(s, Active) ==> s'.rec == s.rec && s'.calls[a] == if s.rec.None? then Done(ErrNotFound) else AbortLost))
            && (s.calls[a].ExpireCall? ==>
                  && (Holds(s, Active) <==> s'.releaser == Some(a) && Holds(s', Aborted))
                  && (!Holds(s, Active) ==> s'.rec == s.rec && s'.calls[a] == Done(ExpireOk)))
  {
    RunInv(ss, steps, i);
    assert Enabled(ss[i], steps[i]) && CallInv(ss[i], a);
  }

  /** At most one call ever sends Aborts and at most one ever runs the vote; when a
      running vote is what decides the abort, it is the same call. */
  lemma OneVoterOneReleaser(ss: seq<State>, steps: seq<Step>, i: nat, m: Send, n: Send)
    requires IsRun(ss, steps) && i <= |steps| && m in ss[i].sent && n in ss[i].sent
    ensures m.from == n.from
  {
    RunInv(ss, steps, i);
  }

  /** No enlistment is lost: a participant whose enlist ever returned Ok is in the stored
      list from then on, and the list in the hands of any later commit or abort is exactly
      the stored one. */
  lemma NoEnlistmentLost(ss: seq<State>, steps: seq<Step>, i: nat, j: nat, a: Actor, p: Participant, b: Actor)
    requires IsRun(ss, steps) && i <= j <= |steps|
    requires a in ss[i].calls && ss[i].calls[a] == Done(EnlistOk(p))
    requires b in ss[j].calls && (InRound(ss[j].calls[b]) || ss[j].calls[b].CommitEmpty?)
    ensures ss[j].rec.Some? && p in ss[j].calls[b].parts && ss[j].calls[b].parts == ss[j].rec.value.participants
  {
    RunInv(ss, steps, i);
    RunInv(ss, steps, j);
    assert CallInv(ss[i], a) && CallInv(ss[j], b);
    NeverBackwards(ss, steps, i, j);
    assert p in ss[j].rec.value.participants;
  }

  /** The "unexpected state" branch of a transition is dead in every interleaving. */
  lemma UnexpectedStateUnreachable(ss: seq<State>, steps: seq<Step>, i: nat, a: Actor)
    requires IsRun(ss, steps) && i <= |steps| && a in ss[i].calls
    ensures ss[i].calls[a] != Done(ErrUnexpectedState)
  {
    RunInv(ss, steps, i);
    assert CallInv(ss[i], a);
  }

  /** Callers are told the truth, and one truth: no two calls of the same transaction
      report a commit and an abort, now or later. */
  lemma ReportsAgree(ss: seq<State>, steps: seq<Step>, i: nat, j: nat, a: Actor, b: Actor)
    requires IsRun(ss, steps) && i <= j <= |steps| && a in ss[i].calls && b in ss[j].calls
    requires ss[i].calls[a] in {Done(CommitOk), Done(AbortOk), Done(ErrAborted)}
    requires ss[j].calls[b] in {Done(CommitOk), Done(AbortOk), Done(ErrAborted)}
    ensures ss[i].calls[a] == Done(CommitOk) <==> ss[j].calls[b] == Done(CommitOk)
  {
    RunInv(ss, steps, i);
    RunInv(ss, steps, j);
    assert CallInv(ss[i], a) && CallInv(ss[j], b);
    NeverBackwards(ss, steps, i, j);
  }

  /** How far along the protocol a record is. */
  function Rank(st: TxnState): nat {
    match st case Active => 0 case Voting => 1 case Prepared => 2 case Committed => 3 case Aborted => 3
  }

  /** States only move forward, Committed and Aborted are final, and once a transaction
      leaves Active its participant list is frozen. */
  lemma {:induction false} NeverBackwards(ss: seq<State>, steps: seq<Step>, i: nat, j: nat)
    requires IsRun(ss, steps) && i <= j <= |steps| && ss[i].rec.Some?
    ensures ss[j].rec.Some?
    ensures var r, r' := ss[i].rec.value, ss[j].rec.value;
            && (r'.state == r.state || Rank(r.state) < Rank(r'.state))
            && (r.state in {Committed, Aborted} ==> r' == r)
            && (r.state != Active ==> r'.participants == r.participants)
            && r.participants <= r'.participants
    decreases j
  {
    hide Inv, Init, Next, Enabled;
    if i < j {
      NeverBackwards(ss, steps, i, j - 1);
      RunInv(ss, steps, j - 1);
      NextIsForward(ss[j - 1], steps[j - 1]);
    }
  }
}

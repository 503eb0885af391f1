/** Transaction records and the two atomic store operations two-phase commit rests on. */
module Txn {
  import opened Prelude

  datatype TxnState = Active | Voting | Prepared | Committed | Aborted

  datatype Vote = VotePrepared | VoteNotChanged | VoteAborted

  datatype Participant = Participant(endpoint: Id, crashCount: nat)

  datatype Record = Record(state: TxnState, participants: seq<Participant>)

  /** The vote carried by an i32 on the wire. */
  function VoteFromWire(v: int): (r: Vote)
    ensures (r == VotePrepared <==> v == 0) && (r == VoteNotChanged <==> v == 1)
  {
    if v == 0 then VotePrepared else if v == 1 then VoteNotChanged else VoteAborted
  }

  // ── Store operations, as functions of one transaction's record ──────────────

  datatype CasResult = Swapped | Kept | NoRecord

  function Cas(rec: Option<Record>, expected: TxnState, target: TxnState): (r: (CasResult, Option<Record>))
  {
    match rec
    case None => (NoRecord, None)
    case Some(c) =>
      if c.state == expected then (Swapped, Some(c.(state := target))) else (Kept, rec)
  }

  datatype EnlistResult = Enlisted | Terminal | NotFound

  function Enlist(rec: Option<Record>, p: Participant): (r: (EnlistResult, Option<Record>))
  {
    match rec
    case None => (NotFound, None)
    case Some(c) =>
      if c.state == Active then (Enlisted, Some(c.(participants := c.participants + [p])))
      else (Terminal, rec)
  }

  /** The in-memory transaction store. */
  class TxnStore {
    var records: map<Id, Record>

    constructor ()
      ensures records == map[]
    {
      records := map[];
    }

    ghost function Find(txn: Id): Option<Record>
      reads this
    {
      if txn in records then Some(records[txn]) else None
    }

    /** No record but txn's differs between the two tables. */
    ghost predicate OnlyTouches(before: map<Id, Record>, txn: Id)
      reads this
    {
      forall u :: u != txn ==> (u in records <==> u in before) && (u in before ==> records[u] == before[u])
    }

    method Create(txn: Id, record: Record)
      modifies this
      ensures Find(txn) == Some(record) && OnlyTouches(old(records), txn)
    {
      records := records[txn := record];
    }

    method UpdateStateIf(txn: Id, expected: TxnState, target: TxnState) returns (r: CasResult)
      modifies this
      ensures (r, Find(txn)) == Cas(old(Find(txn)), expected, target)
      ensures r == NoRecord <==> txn !in old(records)
      ensures r == Swapped <==> txn in old(records) && old(records)[txn].state == expected
      ensures txn in old(records) ==>
                && txn in records && records[txn].participants == old(records)[txn].participants
                && records[txn].state == if r == Swapped then target else old(records)[txn].state
      ensures OnlyTouches(old(records), txn)
    {
      if txn !in records {
        return NoRecord;
      }
      if records[txn].state != expected {
        return Kept;
      }
      records := records[txn := records[txn].(state := target)];
      return Swapped;
    }

    method AddParticipant(txn: Id, p: Participant) returns (r: EnlistResult)
      modifies this
      ensures (r, Find(txn)) == Enlist(old(Find(txn)), p)
      ensures r == NotFound <==> txn !in old(records)
      ensures r == Enlisted <==> txn in old(records) && old(records)[txn].state == Active
      ensures txn in old(records) ==>
                && txn in records && records[txn].state == old(records)[txn].state
                && records[txn].participants == old(records)[txn].participants + (if r == Enlisted then [p] else [])
      ensures OnlyTouches(old(records), txn)
    {
      if txn !in records {
        return NotFound;
      }
      if records[txn].state != Active {
        return Terminal;
      }
      records := records[txn := records[txn].(participants := records[txn].participants + [p])];
      return Enlisted;
    }
  }

  // ── Counting the votes ──────────────────────────────────────────────────────

  /** What came back from one Prepare call. */
  datatype Ballot = Voted(vote: Vote) | Failed

  predicate Yes(b: Ballot) {
    b == Voted(VotePrepared) || b == Voted(VoteNotChanged)
  }

  /** Endpoints whose ballot is PREPARED, in enlistment order. */
  function PreparedEndpoints(parts: seq<Participant>, ballots: seq<Ballot>): seq<Id>
    requires |parts| == |ballots|
  {
    if parts == [] then []
    else
      (if ballots[0] == Voted(VotePrepared) then [parts[0].endpoint] else [])
      + PreparedEndpoints(parts[1..], ballots[1..])
  }

  lemma {:induction false} PreparedEndpointsSnoc(parts: seq<Participant>, ballots: seq<Ballot>, p: Participant, b: Ballot)
    requires |parts| == |ballots|
    ensures PreparedEndpoints(parts + [p], ballots + [b]) ==
            PreparedEndpoints(parts, ballots) + (if b == Voted(VotePrepared) then [p.endpoint] else [])
  {
    if parts != [] {
      PreparedEndpointsSnoc(parts[1..], ballots[1..], p, b);
      assert (parts + [p])[1..] == parts[1..] + [p] && (ballots + [b])[1..] == ballots[1..] + [b];
    }
  }

  lemma {:induction false} PreparedEndpointsExact(parts: seq<Participant>, ballots: seq<Ballot>, ep: Id)
    requires |parts| == |ballots|
    ensures ep in PreparedEndpoints(parts, ballots) <==>
            exists i :: 0 <= i < |parts| && parts[i].endpoint == ep && ballots[i] == Voted(VotePrepared)
  {
    if parts != [] {
      PreparedEndpointsExact(parts[1..], ballots[1..], ep);
      if i :| 0 <= i < |parts| && parts[i].endpoint == ep && ballots[i] == Voted(VotePrepared) {
        if i > 0 { assert parts[1..][i - 1] == parts[i] && ballots[1..][i - 1] == ballots[i]; }
      }
    }
  }

  /** The prepare tally: stops at the first ballot that is not a yes and names it. */
  method Tally(parts: seq<Participant>, ballots: seq<Ballot>)
    returns (prepared: seq<Id>, refusal: Option<nat>)
    requires |parts| == |ballots|
    ensures refusal.None? <==> forall i :: 0 <= i < |ballots| ==> Yes(ballots[i])
    ensures refusal.None? ==> prepared == PreparedEndpoints(parts, ballots)
    ensures refusal.Some? ==>
              && refusal.value < |ballots| && !Yes(ballots[refusal.value])
              && forall i :: 0 <= i < refusal.value ==> Yes(ballots[i])
  {
    prepared, refusal := [], None;
    var i := 0;
    while i < |parts|
      invariant 0 <= i <= |parts| && refusal.None?
      invariant forall k :: 0 <= k < i ==> Yes(ballots[k])
      invariant prepared == PreparedEndpoints(parts[..i], ballots[..i])
    {
      PreparedEndpointsSnoc(parts[..i], ballots[..i], parts[i], ballots[i]);
      assert parts[..i + 1] == parts[..i] + [parts[i]] && ballots[..i + 1] == ballots[..i] + [ballots[i]];
      match ballots[i] {
        case Voted(VotePrepared) => prepared := prepared + [parts[i].endpoint];
        case Voted(VoteNotChanged) =>
        case _ =>
          refusal := Some(i);
          return;
      }
      i := i + 1;
    }
    assert parts[..i] == parts && ballots[..i] == ballots;
  }
}

/** The orphan sweep: reclaim what has been seen without a lease on two passes running. */
module Sweep {
  import opened Prelude

  datatype Held = Held(lease: Id, id: Id, kind: string)

  /** A lease lookup during a pass. An error counts as present. */
  datatype Lookup = Present | Absent | Failed

  class OrphanTracker {
    var suspects: set<Held>

    constructor ()
      ensures suspects == {}
    {
      suspects := {};
    }

    /** Report the leaseless resources that were suspects; the rest become the suspects. */
    method Pass(leaseless: set<Held>) returns (confirmed: set<Held>)
      modifies this
      ensures confirmed == leaseless * old(suspects) && suspects == leaseless - old(suspects)
    {
      confirmed := {};
      var first, todo := {}, leaseless;
      while todo != {}
        invariant todo <= leaseless && suspects == old(suspects)
        invariant confirmed == (leaseless - todo) * suspects && first == (leaseless - todo) - suspects
        decreases |todo|
      {
        var h :| h in todo;
        if h in suspects {
          confirmed := confirmed + {h};
        } else {
          first := first + {h};
        }
        todo := todo - {h};
      }
      suspects := first;
    }
  }

  /** One sweep: what is listed and whose lease lookup says it is gone. */
  method Leaseless(held: seq<Held>, lookup: map<Id, Lookup>) returns (r: set<Held>)
    requires forall i :: 0 <= i < |held| ==> held[i].lease in lookup
    ensures forall h :: h in r <==> h in held && lookup[h.lease] == Absent
  {
    r := {};
    for i := 0 to |held|
      invariant forall h :: h in r <==> h in held[..i] && lookup[h.lease] == Absent
    {
      if lookup[held[i].lease] == Absent {
        r := r + {held[i]};
      }
    }
  }

  // ── Histories of passes ─────────────────────────────────────────────────────

  /** The tracker's suspects after a history of passes. */
  ghost function Suspects(passes: seq<set<Held>>): set<Held> {
    if passes == [] then {} else
      var k := |passes| - 1; passes[k] - Suspects(passes[..k])
  }

  /** What the last pass of a history reports. */
  ghost function Reported(passes: seq<set<Held>>): set<Held>
    requires passes != []
  {
    var k := |passes| - 1; passes[k] * Suspects(passes[..k])
  }

  /** How many passes in a row, up to and including the last, saw h without a lease. */
  ghost function Streak(passes: seq<set<Held>>, h: Held): nat {
    if passes == [] || h !in passes[|passes| - 1] then 0 else 1 + Streak(passes[..|passes| - 1], h)
  }

  lemma {:induction false} SuspectIffOddStreak(passes: seq<set<Held>>, h: Held)
    ensures h in Suspects(passes) <==> Streak(passes, h) % 2 == 1
  {
    if passes != [] { SuspectIffOddStreak(passes[..|passes| - 1], h); }
  }

  /** Closed form: a resource is reported exactly when its unbroken run of leaseless passes,
      ending now, has positive even length. */
  lemma ReportedIffEvenStreak(passes: seq<set<Held>>, h: Held)
    requires passes != []
    ensures h in Reported(passes) <==> Streak(passes, h) > 0 && Streak(passes, h) % 2 == 0
  {
    SuspectIffOddStreak(passes[..|passes| - 1], h);
  }

  /** Seen with a lease on either of the last two passes: not reclaimed. */
  lemma LeaseOnEitherPassProtects(passes: seq<set<Held>>, h: Held)
    requires |passes| >= 2 && (h !in passes[|passes| - 1] || h !in passes[|passes| - 2])
    ensures h !in Reported(passes)
  {
    ReportedIffEvenStreak(passes, h);
    assert passes[..|passes| - 1][|passes| - 2] == passes[|passes| - 2];
  }

  /** Running the tracker over a history of passes reports exactly that. */
  method Run(passes: seq<set<Held>>) returns (reports: seq<set<Held>>)
    ensures |reports| == |passes|
    ensures forall k :: 0 <= k < |passes| ==> reports[k] == Reported(passes[..k + 1])
  {
    var tracker := new OrphanTracker();
    reports := [];
    for i := 0 to |passes|
      invariant |reports| == i && tracker.suspects == Suspects(passes[..i])
      invariant forall k :: 0 <= k < i ==> reports[k] == Reported(passes[..k + 1])
    {
      assert passes[..i + 1][..i] == passes[..i];
      var confirmed := tracker.Pass(passes[i]);
      reports := reports + [confirmed];
    }
  }
}

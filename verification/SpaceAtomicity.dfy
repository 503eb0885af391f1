/** What a transaction amounts to once it has ended, in any interleaving with
    other transactions, plain clients and lease expiry. */
module SpaceAtomicity {
  import opened Prelude
  import opened SpaceSpec

  ghost predicate Legal(a: Store, steps: seq<Step>)
    decreases |steps|
  {
    steps == [] || (Enabled(a, steps[0]) && Legal(Apply(a, steps[0]), steps[1..]))
  }

  ghost function Run(a: Store, steps: seq<Step>): Store
    requires Legal(a, steps)
    decreases |steps|
  {
    if steps == [] then a else Run(Apply(a, steps[0]), steps[1..])
  }

  /** The same schedule with every step of t struck out. */
  function Without(steps: seq<Step>, t: Id): seq<Step> {
    if steps == [] then []
    else if By(steps[0], t) then Without(steps[1..], t)
    else [steps[0]] + Without(steps[1..], t)
  }

  // ── View conservation ───────────────────────────────────────────────────────

  /** Nothing t does before it ends changes `committed + taken by t`. */
  lemma OwnStepKeepsView(a: Store, s: Step, t: Id)
    requires WF(a) && Enabled(a, s) && By(s, t) && !s.Commit?
    ensures View(Apply(a, s), t) == View(a, t)
  {}

  /** Abort makes the committed map equal to that view and touches no other transaction. */
  lemma AbortRestoresView(a: Store, t: Id)
    ensures CommittedMap(AbortTxn(a, t)) == View(a, t)
    ensures forall u, id :: u != t ==> (Held(AbortTxn(a, t), u, id) <==> Held(a, u, id))
  {}

  // ── Abort erases ────────────────────────────────────────────────────────────

  lemma AbortAbsorbsOwnStep(a: Store, s: Step, t: Id)
    requires Enabled(a, s) && By(s, t) && !s.Commit?
    ensures AbortTxn(Apply(a, s), t) == AbortTxn(a, t)
  {}

  lemma AbortCommutesWithOthers(a: Store, s: Step, t: Id)
    requires Enabled(a, s) && !By(s, t)
    ensures Enabled(AbortTxn(a, t), s)
    ensures AbortTxn(Apply(a, s), t) == Apply(AbortTxn(a, t), s)
  {
    if s.Commit? || s.Abort? { OutcomesCommute(a, s, t); }
  }

  lemma OutcomesCommute(a: Store, s: Step, t: Id)
    requires (s.Commit? || s.Abort?) && s.txn != t
    ensures AbortTxn(Apply(a, s), t) == Apply(AbortTxn(a, t), s)
  {}

  lemma {:induction false} AbortErasesFrom(a: Store, steps: seq<Step>, t: Id)
    requires Legal(a, steps) && Commit(t) !in steps
    ensures Legal(AbortTxn(a, t), Without(steps, t))
    ensures AbortTxn(Run(a, steps), t) == Run(AbortTxn(a, t), Without(steps, t))
    decreases |steps|
  {
    if steps != [] {
      var s, rest := steps[0], steps[1..];
      AbortErasesFrom(Apply(a, s), rest, t);
      if By(s, t) {
        AbortAbsorbsOwnStep(a, s, t);
      } else {
        AbortCommutesWithOthers(a, s, t);
        assert Without(steps, t)[1..] == Without(rest, t);
      }
    }
  }

  /** An aborted transaction leaves no trace: whatever everybody else did in the
      meantime, the store ends up as if the same schedule had run without t. */
  lemma AbortedLeavesNoTrace(a: Store, steps: seq<Step>, t: Id)
    requires Legal(a, steps) && Commit(t) !in steps && !HasTxn(a, t)
    ensures Legal(a, Without(steps, t))
    ensures AbortTxn(Run(a, steps), t) == Run(a, Without(steps, t))
  {
    NothingHeldNothingToDo(a, t);
    AbortErasesFrom(a, steps, t);
  }

  // ── Commit is one instant ───────────────────────────────────────────────────

  /** Remove `gone` and publish `added`, all at once. */
  ghost function Install(a: Store, gone: set<Id>, added: map<Id, Tuple>): Store {
    map id | id in a.Keys - gone + added.Keys ::
      if id in added then Cell(added[id], Public) else a[id]
  }

  ghost function TakenIds(a: Store, t: Id): set<Id> {
    set id | id in a && a[id].place == Taken(t)
  }

  ghost function WrittenMap(a: Store, t: Id): map<Id, Tuple> {
    map id | id in a && a[id].place == Written(t) :: a[id].tuple
  }

  /** A committed transaction takes effect in one instant, at its commit: the result
      is the store the others were building without it, with its surviving takes
      removed and its surviving writes added. Until then the others see that same
      store minus the takes, and nothing of the writes. */
  lemma CommittedIsOneInstant(a: Store, steps: seq<Step>, t: Id)
    requires Legal(a, steps) && Commit(t) !in steps && !HasTxn(a, t)
    ensures Legal(a, Without(steps, t))
    ensures var now, others := Run(a, steps), Run(a, Without(steps, t));
            && CommitTxn(now, t) == Install(others, TakenIds(now, t), WrittenMap(now, t))
            && CommittedMap(now) == CommittedMap(others) - TakenIds(now, t)
            && TakenIds(now, t) <= CommittedMap(others).Keys
            && WrittenMap(now, t).Keys !! others.Keys
  {
    hide Legal, Run, Without;
    AbortedLeavesNoTrace(a, steps, t);
    CommitIsInstall(Run(a, steps), t);
  }

  /** Committing is installing on what an abort would leave. */
  lemma CommitIsInstall(a: Store, t: Id)
    ensures CommitTxn(a, t) == Install(AbortTxn(a, t), TakenIds(a, t), WrittenMap(a, t))
    ensures CommittedMap(a) == CommittedMap(AbortTxn(a, t)) - TakenIds(a, t)
    ensures TakenIds(a, t) <= CommittedMap(AbortTxn(a, t)).Keys && WrittenMap(a, t).Keys !! AbortTxn(a, t).Keys
  {}

  // ── Schedules grow at the end ───────────────────────────────────────────────

  lemma {:induction false} RunSnoc(a: Store, steps: seq<Step>, s: Step)
    requires Legal(a, steps) && Enabled(Run(a, steps), s)
    ensures Legal(a, steps + [s]) && Run(a, steps + [s]) == Apply(Run(a, steps), s)
    decreases |steps|
  {
    if steps == [] {
      assert (steps + [s])[1..] == [];
    } else {
      RunSnoc(Apply(a, steps[0]), steps[1..], s);
      assert (steps + [s])[1..] == steps[1..] + [s];
    }
  }

  lemma {:induction false} LegalPrefix(a: Store, steps: seq<Step>, k: nat)
    requires Legal(a, steps) && k < |steps|
    ensures Legal(a, steps[..k]) && Enabled(Run(a, steps[..k]), steps[k])
    decreases |steps|
  {
    if k > 0 {
      LegalPrefix(Apply(a, steps[0]), steps[1..], k - 1);
      assert steps[..k][1..] == steps[1..][..k - 1];
    }
  }

  // ── Who holds what, exactly ─────────────────────────────────────────────────

  /** The store after the first j steps of a schedule. */
  ghost function After(a: Store, steps: seq<Step>, j: nat): Store
    requires j <= |steps|
  {
    if Legal(a, steps[..j]) then Run(a, steps[..j]) else map[]
  }

  /** The step puts tuple x into one of t's buffers. */
  predicate Lands(s: Step, t: Id, x: Id) {
    (s.WriteUnder? && s.txn == t && s.r.id == x) || (s.TakeUnder? && s.txn == t && s.id == x)
  }

  /** An outcome of t, or the reclaim of the tuple's lease. */
  ghost predicate Releases(a: Store, s: Step, t: Id, x: Id) {
    s == Commit(t) || s == Abort(t) || (s.Reclaim? && x in a && a[x].tuple.lease == s.lease)
  }

  lemma HeldAfter(a: Store, s: Step, t: Id, x: Id)
    requires Enabled(a, s)
    ensures Held(Apply(a, s), t, x) <==> Lands(s, t, x) || (Held(a, t, x) && !Releases(a, s, t, x))
  {}

  /** Step i put x into t's buffers and nothing has released it since. */
  ghost predicate HeldSince(a: Store, steps: seq<Step>, i: nat, t: Id, x: Id) {
    i < |steps| && Lands(steps[i], t, x)
    && forall j :: i < j < |steps| ==> !Releases(After(a, steps, j), steps[j], t, x)
  }

  lemma SplitLast(a: Store, steps: seq<Step>)
    requires Legal(a, steps) && steps != []
    ensures var k := |steps| - 1;
            && Legal(a, steps[..k]) && After(a, steps, k) == Run(a, steps[..k])
            && Enabled(After(a, steps, k), steps[k]) && Run(a, steps) == Apply(After(a, steps, k), steps[k])
  {
    var k := |steps| - 1;
    LegalPrefix(a, steps, k);
    RunSnoc(a, steps[..k], steps[k]);
    assert steps == steps[..k] + [steps[k]];
  }

  /** Cutting off the last step changes HeldSince by what that step does. */
  lemma HeldSinceSnoc(a: Store, steps: seq<Step>, i: nat, t: Id, x: Id)
    requires steps != []
    ensures var k := |steps| - 1;
            HeldSince(a, steps, i, t, x) <==>
              || (i == k && Lands(steps[k], t, x))
              || (HeldSince(a, steps[..k], i, t, x) && !Releases(After(a, steps, k), steps[k], t, x))
  {
    hide After, Releases, Lands;
    var k := |steps| - 1;
    forall j: nat | j <= k ensures After(a, steps[..k], j) == After(a, steps, j) { AfterPrefix(a, steps, k, j); }
  }

  lemma AfterPrefix(a: Store, steps: seq<Step>, k: nat, j: nat)
    requires j <= k <= |steps|
    ensures After(a, steps[..k], j) == After(a, steps, j)
  {
    assert steps[..k][..j] == steps[..j];
  }

  /** From a moment p at which t holds nothing, it holds exactly what landed later and was
      not released since. */
  lemma {:induction false} HeldExactly(a: Store, steps: seq<Step>, p: nat, t: Id, x: Id)
    requires Legal(a, steps) && p <= |steps| && !HasTxn(After(a, steps, p), t)
    ensures Held(Run(a, steps), t, x) <==> exists i :: p <= i && HeldSince(a, steps, i, t, x)
    decreases |steps|
  {
    hide HeldSince, Legal, Run, Releases, Lands;
    if p == |steps| {
      assert steps[..p] == steps;
      NothingSinceEnd(a, steps, t, x);
      assert !Held(Run(a, steps), t, x);
    } else {
      var k := |steps| - 1;
      SplitLast(a, steps);
      AfterPrefix(a, steps, k, p);
      HeldExactly(a, steps[..k], p, t, x);
      HeldAfter(After(a, steps, k), steps[k], t, x);
      forall i: nat ensures HeldSince(a, steps, i, t, x) <==>
              || (i == k && Lands(steps[k], t, x))
              || (HeldSince(a, steps[..k], i, t, x) && !Releases(After(a, steps, k), steps[k], t, x))
      {
        HeldSinceSnoc(a, steps, i, t, x);
      }
      if Lands(steps[k], t, x) { assert HeldSince(a, steps, k, t, x); }
    }
  }

  lemma NothingSinceEnd(a: Store, steps: seq<Step>, t: Id, x: Id)
    ensures forall i: nat :: HeldSince(a, steps, i, t, x) ==> i < |steps|
  {}

  /** The same for holding anything at all. */
  lemma HoldsExactly(a: Store, steps: seq<Step>, p: nat, t: Id)
    requires Legal(a, steps) && p <= |steps| && !HasTxn(After(a, steps, p), t)
    ensures HasTxn(Run(a, steps), t) <==> exists i, x :: p <= i && HeldSince(a, steps, i, t, x)
  {
    hide HeldSince, Legal, Run, After;
    forall x ensures Held(Run(a, steps), t, x) <==> exists i :: p <= i && HeldSince(a, steps, i, t, x) {
      HeldExactly(a, steps, p, t, x);
    }
    if HasTxn(Run(a, steps), t) {
      var x :| x in Run(a, steps) && Held(Run(a, steps), t, x);
      var i :| p <= i && HeldSince(a, steps, i, t, x);
    }
    if i: nat, x :| p <= i && HeldSince(a, steps, i, t, x) {
      assert Held(Run(a, steps), t, x);
    }
  }
}

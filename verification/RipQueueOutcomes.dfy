/** Which step of a run decided what an item that never started is told, and who hears positions. */
module RipQueueOutcomes {
  import opened Sequences
  import opened RipQueue
  import opened RipQueueSystem
  import opened RipQueueRuns

  // ----- Prefixes of runs -----

  lemma {:induction false} LastStep(s: System, steps: seq<Step>)
    requires ValidRun(s, steps) && steps != []
    ensures var n := |steps| - 1;
      && ValidRun(s, steps[..n]) && Enabled(Run(s, steps[..n]), steps[n])
      && Run(s, steps) == Apply(Run(s, steps[..n]), steps[n])
    decreases |steps|
  {
    hide Enabled, Apply;
    var n := |steps| - 1;
    if n == 0 {
      assert steps[..0] == [] && steps[1..] == [];
    } else {
      var rest := steps[1..];
      LastStep(Apply(s, steps[0]), rest);
      assert steps[..n][0] == steps[0] && steps[..n][1..] == rest[..n - 1] && rest[n - 1] == steps[n];
    }
  }

  lemma {:induction false} PrefixIsRun(s: System, steps: seq<Step>, k: nat)
    requires ValidRun(s, steps) && k <= |steps|
    ensures ValidRun(s, steps[..k])
    decreases |steps|
  {
    if k == |steps| {
      assert steps[..k] == steps;
    } else {
      LastStep(s, steps);
      var n := |steps| - 1;
      PrefixIsRun(s, steps[..n], k);
      assert steps[..n][..k] == steps[..k];
    }
  }

  // ----- Aborted and cleared -----

  /** The item is told this outcome, or will be: its completion is sent or waits to be sent. */
  predicate Settled(s: System, id: nat, outcome: Outcome) {
    (id in s.detached && s.detached[id] == outcome) || Completion(id, outcome) in s.completions
  }

  /** An abort of a pending item decides for Aborted, a clear while it is pending for Cleared. */
  predicate Decides(s: System, step: Step, id: nat, outcome: Outcome) {
    && (exists item :: item in s.queue.pending && item.id == id)
    && ((step == Fire(id) && outcome == Aborted) || (step == Clear && outcome == Cleared))
  }

  /** Some step of the run decided the outcome of the item. */
  ghost predicate Decided(steps: seq<Step>, id: nat, outcome: Outcome) {
    exists k :: 0 <= k < |steps| && ValidRun(START, steps[..k]) &&
      Decides(Run(START, steps[..k]), steps[k], id, outcome)
  }

  lemma PendingIff(s: System, id: nat)
    ensures (exists item :: item in s.queue.pending && item.id == id) <==> id in Ids(s.queue.pending)
    ensures id in Ids(s.queue.pending) <==> IndexOf(s.queue.pending, id) < |s.queue.pending|
  {
    PendingIdsMember(s, id);
  }

  lemma FireSettles(s: System, fired: nat, id: nat, outcome: Outcome)
    requires PlacesInv(s) && Enabled(s, Fire(fired)) && !outcome.Ran?
    ensures Settled(Apply(s, Fire(fired)), id, outcome)
      <==> Settled(s, id, outcome) || Decides(s, Fire(fired), id, outcome)
  {
    hide Ids, IndexOf, AfterAbort, AbortNotices, Done, Held;
    PendingIff(s, fired);
    assert Places(s, fired) == One(Issued(s, fired));
    CompletedIsDone(s, id, outcome);
  }

  lemma ClearSettles(s: System, id: nat, outcome: Outcome)
    requires PlacesInv(s) && !outcome.Ran?
    ensures Settled(Apply(s, Clear), id, outcome) <==> Settled(s, id, outcome) || Decides(s, Clear, id, outcome)
  {
    hide Ids, IndexOf, Done, Held;
    PendingIff(s, id);
    assert Places(s, id) == One(Issued(s, id));
    CompletedIsDone(s, id, outcome);
  }

  lemma CompletedIsDone(s: System, id: nat, outcome: Outcome)
    ensures Completion(id, outcome) in s.completions ==> id in Done(s)
  {
    if Completion(id, outcome) in s.completions {
      assert Completion(id, outcome).id == id;
    }
  }

  /** Step by step: exactly the deciding steps settle an outcome, and nothing unsettles it. */
  lemma StepSettlesIff(s: System, step: Step, id: nat, outcome: Outcome)
    requires PlacesInv(s) && Enabled(s, step) && !outcome.Ran?
    ensures Settled(Apply(s, step), id, outcome) <==> Settled(s, id, outcome) || Decides(s, step, id, outcome)
  {
    hide PlacesInv;
    match step
    case Fire(fired) => FireSettles(s, fired, id, outcome);
    case Clear => ClearSettles(s, id, outcome);
    case Settle(settled) =>
    case Report(_) =>
    case _ =>
  }

  lemma DecidedSnoc(steps: seq<Step>, id: nat, outcome: Outcome)
    requires ValidRun(START, steps) && steps != []
    ensures var n := |steps| - 1;
      && ValidRun(START, steps[..n])
      && (Decided(steps, id, outcome) <==>
            Decided(steps[..n], id, outcome) || Decides(Run(START, steps[..n]), steps[n], id, outcome))
  {
    hide Run, ValidRun, Decides;
    var n := |steps| - 1;
    PrefixIsRun(START, steps, n);
    if Decided(steps, id, outcome) {
      var k :| 0 <= k < |steps| && ValidRun(START, steps[..k]) &&
        Decides(Run(START, steps[..k]), steps[k], id, outcome);
      if k < n {
        assert steps[..n][..k] == steps[..k] && steps[..n][k] == steps[k];
      }
    }
    if Decided(steps[..n], id, outcome) {
      var k :| 0 <= k < n && ValidRun(START, steps[..n][..k]) &&
        Decides(Run(START, steps[..n][..k]), steps[..n][k], id, outcome);
      assert steps[..n][..k] == steps[..k] && steps[..n][k] == steps[k];
    }
  }

  /** Over every run from the start: an item is settled as aborted or cleared exactly when a step decided so. */
  lemma {:induction false} SettledIff(steps: seq<Step>, id: nat, outcome: Outcome)
    requires ValidRun(START, steps) && !outcome.Ran?
    ensures Settled(Run(START, steps), id, outcome) <==> Decided(steps, id, outcome)
    decreases |steps|
  {
    if steps == [] {
      assert !Settled(START, id, outcome);
    } else {
      hide Run, ValidRun, Settled, Decides, Decided, Apply, Enabled;
      var n := |steps| - 1;
      LastStep(START, steps);
      SettledIff(steps[..n], id, outcome);
      DecidedSnoc(steps, id, outcome);
      Reachable(steps[..n]);
      StepSettlesIff(Run(START, steps[..n]), steps[n], id, outcome);
    }
  }

  /**
    What a completion says was decided by the step that says so: Aborted by an abort of the pending item,
    Cleared by a clear while it was pending. For an item whose completion is sent this is an equivalence.
  */
  lemma OutcomesAreDecided(steps: seq<Step>, id: nat)
    requires ValidRun(START, steps)
    ensures var completions := Run(START, steps).completions;
      && (Completion(id, Aborted) in completions ==> Decided(steps, id, Aborted))
      && (Completion(id, Cleared) in completions ==> Decided(steps, id, Cleared))
      && ((exists c :: c in completions && c.id == id) ==>
            && (Decided(steps, id, Aborted) ==> Completion(id, Aborted) in completions)
            && (Decided(steps, id, Cleared) ==> Completion(id, Cleared) in completions))
  {
    hide Run, ValidRun, Decided, WorkerInv, OrderInv, OutcomeInv, NoticeInv, AbortInv, Held, Ids;
    SettledIff(steps, id, Aborted);
    SettledIff(steps, id, Cleared);
    Reachable(steps);
    var s := Run(START, steps);
    assert Places(s, id) == One(Issued(s, id));
  }

  /** Without a clear nobody is told Cleared, and without its own abort nobody is told Aborted. */
  lemma NoCauseNoOutcome(steps: seq<Step>, id: nat)
    requires ValidRun(START, steps)
    ensures Clear !in steps ==> Completion(id, Cleared) !in Run(START, steps).completions
    ensures Fire(id) !in steps ==> Completion(id, Aborted) !in Run(START, steps).completions
  {
    hide Run, ValidRun;
    OutcomesAreDecided(steps, id);
    assert forall k :: 0 <= k < |steps| ==> steps[k] in steps;
  }

  // ----- Child tokens -----

  /** Whoever is told Aborted or Cleared has a cancelled child token; otherwise only an abort cancels one. */
  ghost predicate TokenInv(s: System) {
    && (forall c :: c in s.completions && !c.outcome.Ran? ==> c.id in s.cancelled)
    && (forall id :: id in s.cancelled ==>
          id in s.fired || Completion(id, Cleared) in s.completions || Completion(id, Aborted) in s.completions)
    && (forall id :: id in s.checking ==> id in s.fired)
    && (forall id :: id in s.detached ==> s.detached[id] == Aborted || s.detached[id] == Cleared)
  }

  lemma StepKeepsTokens(s: System, step: Step)
    requires TokenInv(s) && Enabled(s, step)
    ensures TokenInv(Apply(s, step))
  {
    hide AfterSubmit, AfterAbort, AfterTake, AfterRelease, SubmitNotices, TakeNotices, AbortNotices, IndexOf, Exit;
    var t := Apply(s, step);
    match step {
      case Settle(id) =>
        assert forall c :: c in t.completions <==> c in s.completions || c == Completion(id, s.detached[id]);
      case Report(w) =>
        assert forall c :: c in t.completions <==>
          c in s.completions || c == Completion(s.workers[w].item.id, Ran(s.workers[w].result));
      case _ =>
    }
  }

  lemma {:induction false} TokensFollowOutcomes(steps: seq<Step>)
    requires ValidRun(START, steps)
    ensures TokenInv(Run(START, steps))
    decreases |steps|
  {
    if steps != [] {
      hide TokenInv, Run, ValidRun, Apply, Enabled;
      LastStep(START, steps);
      TokensFollowOutcomes(steps[..|steps| - 1]);
      StepKeepsTokens(Run(START, steps[..|steps| - 1]), steps[|steps| - 1]);
    }
  }

  // ----- Who hears positions -----

  /** A listener that finds a worker hears its rank at once; one that wakes the worker hears nothing. */
  lemma SubmitterHears(steps: seq<Step>, notifies: bool, watched: bool)
    requires ValidRun(START, steps)
    ensures var s := Run(START, steps);
      Positions(Apply(s, Submit(notifies, watched)).notices, s.queue.nextId)
        == if notifies && s.queue.processing then [|s.queue.pending| + 1] else []
  {
    hide Run, ValidRun, WorkerInv, OrderInv, PlacesInv, OutcomeInv, AbortInv, Positions, SubmitNotices;
    Reachable(steps);
    var s := Run(START, steps);
    SubmitTells(s, notifies, s.queue.nextId);
  }

  /** The item never had anybody in front of it. */
  predicate AtFront(s: System, id: nat) {
    id < s.queue.nextId && (IndexOf(s.queue.pending, id) == 0 || IndexOf(s.queue.pending, id) == |s.queue.pending|)
  }

  lemma FrontOrAbsent(pending: seq<Item>, id: nat)
    ensures IndexOf(pending, id) == |pending| <==> forall k :: 0 <= k < |pending| ==> pending[k].id != id
    ensures pending != [] && IndexOf(pending, id) == 0 ==> pending[0].id == id
  {
  }

  lemma SubmitKeepsFront(s: System, notifies: bool, watched: bool, id: nat)
    requires AtFront(s, id) && Positions(s.notices, id) == []
    ensures var t := Apply(s, Submit(notifies, watched)); AtFront(t, id) && Positions(t.notices, id) == []
  {
    hide Positions, SubmitNotices;
    var t := Apply(s, Submit(notifies, watched));
    SubmitTells(s, notifies, id);
    FrontOrAbsent(s.queue.pending, id);
    FrontOrAbsent(t.queue.pending, id);
  }

  lemma RemovalKeepsFront(s: System, t: System, i: nat, id: nat)
    requires OrderInv(s) && OrderInv(t) && AtFront(s, id) && Positions(s.notices, id) == []
    requires i < |s.queue.pending| && t.queue.pending == Without(s.queue.pending, i)
    requires t.queue.nextId == s.queue.nextId && t.notices == s.notices + Ranks(t.queue.pending, i)
    ensures AtFront(t, id) && Positions(t.notices, id) == []
  {
    hide Positions, Ranks, OrderInv;
    DistinctPending(s);
    FrontOrAbsent(s.queue.pending, id);
    FrontOrAbsent(t.queue.pending, id);
    RanksHeard(t, s.notices, i, id);
    var pending, left := s.queue.pending, t.queue.pending;
    forall k | 0 <= k < |left| && k > 0 ensures left[k].id != id {
      assert left[k] == pending[if k < i then k else k + 1];
    }
    if i == 0 && left != [] {
      assert left[0] == pending[1];
    }
  }

  lemma StepKeepsFront(s: System, step: Step, id: nat)
    requires WorkerInv(s) && OrderInv(s) && Enabled(s, step) && AtFront(s, id) && Positions(s.notices, id) == []
    ensures AtFront(Apply(s, step), id) && Positions(Apply(s, step).notices, id) == []
  {
    hide WorkerInv, OrderInv, Positions, IndexOf, SubmitNotices;
    var t := Apply(s, step);
    OrderPreserved(s, step);
    match step {
      case Submit(notifies, watched) => SubmitKeepsFront(s, notifies, watched, id);
      case Fire(fired) =>
        if IndexOf(s.queue.pending, fired) < |s.queue.pending| {
          RemovalKeepsFront(s, t, IndexOf(s.queue.pending, fired), id);
        }
      case Take(_) =>
        if s.queue.pending != [] {
          assert t.queue.pending == Without(s.queue.pending, 0);
          RemovalKeepsFront(s, t, 0, id);
        } else {
          assert t.notices == s.notices;
        }
      case Clear => FrontOrAbsent([], id);
      case _ =>
    }
  }

  /** The item whose submission wakes a worker is never told a position, however the run goes on. */
  lemma {:induction false} WakerHearsNothing(steps: seq<Step>, k: nat)
    requires ValidRun(START, steps) && k < |steps| && ValidRun(START, steps[..k])
    requires steps[k].Submit? && !Run(START, steps[..k]).queue.processing
    ensures var id := Run(START, steps[..k]).queue.nextId;
      AtFront(Run(START, steps), id) && Positions(Run(START, steps).notices, id) == []
    decreases |steps|
  {
    var n := |steps| - 1;
    LastStep(START, steps);
    Reachable(steps[..n]);
    if k == n {
      WakerIsAtFront(Run(START, steps[..n]), steps[n]);
    } else {
      assert steps[..n][..k] == steps[..k] && steps[..n][k] == steps[k];
      WakerHearsNothing(steps[..n], k);
      hide Run, ValidRun, Apply, Enabled, AtFront, Positions;
      StepKeepsFront(Run(START, steps[..n]), steps[n], Run(START, steps[..k]).queue.nextId);
    }
  }

  lemma WakerIsAtFront(s: System, step: Step)
    requires Inv(s) && step.Submit? && !s.queue.processing
    ensures AtFront(Apply(s, step), s.queue.nextId) && Positions(Apply(s, step).notices, s.queue.nextId) == []
  {
    hide Positions, SubmitNotices;
    SubmitTells(s, step.notifies, s.queue.nextId);
  }
}

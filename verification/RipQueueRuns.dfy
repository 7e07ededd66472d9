/** What holds in every run of the queue: ranks told to listeners, aborts, completions, draining. */
module RipQueueRuns {
  import opened Sequences
  import opened RipQueue
  import opened RipQueueSystem

  // ----- Positions told to one listener -----

  function Positions(notices: seq<Notice>, id: nat): seq<nat> {
    if notices == [] then []
    else if notices[0].id == id then [notices[0].position] + Positions(notices[1..], id)
    else Positions(notices[1..], id)
  }

  predicate Decreasing(s: seq<nat>) {
    forall i, j :: 0 <= i < j < |s| ==> s[i] > s[j]
  }

  /** Item `i` listens and has heard exactly its current rank last; the item that woke the worker heard nothing. */
  predicate UpToDate(heard: seq<nat>, i: nat, notifies: bool) {
    if notifies then (if heard == [] then i == 0 else heard[|heard| - 1] == i + 1) else heard == []
  }

  ghost predicate NoticeInv(s: System) {
    && (forall id :: Decreasing(Positions(s.notices, id)))
    && (forall i :: 0 <= i < |s.queue.pending| ==>
          var item := s.queue.pending[i]; UpToDate(Positions(s.notices, item.id), i, item.notifies))
    && (forall id :: id >= s.queue.nextId ==> Positions(s.notices, id) == [])
  }

  lemma {:induction false} PositionsConcat(a: seq<Notice>, b: seq<Notice>, id: nat)
    ensures Positions(a + b, id) == Positions(a, id) + Positions(b, id)
  {
    if a == [] {
      assert a + b == b;
    } else {
      assert (a + b)[1..] == a[1..] + b;
      PositionsConcat(a[1..], b, id);
    }
  }

  /** A batch of ranks tells a listener its rank once, and nothing to anybody else. */
  lemma {:induction false} RanksTellOnce(pending: seq<Item>, from: nat, id: nat)
    requires forall i, j :: 0 <= i < j < |pending| ==> pending[i].id != pending[j].id
    ensures var i := IndexOf(pending, id);
      Positions(Ranks(pending, from), id)
        == if from <= i < |pending| && pending[i].notifies then [i + 1] else []
    decreases |pending| - from
  {
    if from < |pending| {
      RanksTellOnce(pending, from + 1, id);
      var first := if pending[from].notifies then [Notice(pending[from].id, from + 1)] else [];
      PositionsConcat(first, Ranks(pending, from + 1), id);
      assert Positions(first, id) == if first != [] && first[0].id == id then [from + 1] else [] by {
        if first != [] {
          assert first[1..] == [];
        }
      }
    }
  }

  lemma DistinctPending(s: System)
    requires OrderInv(s)
    ensures forall i, j :: 0 <= i < j < |s.queue.pending| ==> s.queue.pending[i].id != s.queue.pending[j].id
    ensures forall i :: 0 <= i < |s.queue.pending| ==> s.queue.pending[i].id < s.queue.nextId
    ensures forall i :: 0 <= i < |s.queue.pending| ==> IndexOf(s.queue.pending, s.queue.pending[i].id) == i
  {
    forall i, j | 0 <= i < j < |s.queue.pending| ensures s.queue.pending[i].id != s.queue.pending[j].id {
      PendingAscends(s, i, j);
    }
    var line := Line(s);
    var base := |[0] + s.started + AboutToStart(s)|;
    forall i | 0 <= i < |s.queue.pending| ensures s.queue.pending[i].id < s.queue.nextId {
      assert line[base + i] == PendingIds(s)[i];
      assert line[|line| - 1] == s.queue.nextId;
    }
  }

  lemma RanksHeard(s: System, notices: seq<Notice>, from: nat, id: nat)
    requires OrderInv(s) && s.notices == notices + Ranks(s.queue.pending, from)
    ensures var i := IndexOf(s.queue.pending, id);
      && Positions(s.notices, id) == Positions(notices, id)
          + (if from <= i < |s.queue.pending| && s.queue.pending[i].notifies then [i + 1] else [])
      && (i < |s.queue.pending| ==> id < s.queue.nextId)
  {
    DistinctPending(s);
    RanksTellOnce(s.queue.pending, from, id);
    PositionsConcat(notices, Ranks(s.queue.pending, from), id);
  }

  /** A listener that moves from rank j' + 1 to rank j + 1, and is told so when it really moves. */
  lemma HearsNext(heard: seq<nat>, i: nat, j: nat, notifies: bool)
    requires Decreasing(heard) && UpToDate(heard, if j < i then j else j + 1, notifies)
    ensures var heard' := heard + if i <= j && notifies then [j + 1] else [];
      Decreasing(heard') && UpToDate(heard', j, notifies)
  {
  }

  /** What listener `id` hears when item `i` is taken out and the ones behind it are told. */
  lemma RemovalTells(s: System, s': System, i: nat, id: nat)
    requires OrderInv(s') && NoticeInv(s)
    requires i < |s.queue.pending| && s'.queue.pending == Without(s.queue.pending, i)
    requires s'.queue.nextId == s.queue.nextId
    requires s'.notices == s.notices + Ranks(s'.queue.pending, i)
    ensures Decreasing(Positions(s'.notices, id))
    ensures id >= s.queue.nextId ==> Positions(s'.notices, id) == []
    ensures var j := IndexOf(s'.queue.pending, id);
      j < |s'.queue.pending| ==> UpToDate(Positions(s'.notices, id), j, s'.queue.pending[j].notifies)
  {
    hide OrderInv, Ranks, Positions;
    RanksHeard(s', s.notices, i, id);
    var heard := Positions(s.notices, id);
    assert Decreasing(heard);
    var j := IndexOf(s'.queue.pending, id);
    if j < |s'.queue.pending| {
      var j' := if j < i then j else j + 1;
      var item := s'.queue.pending[j];
      assert item == s.queue.pending[j'];
      assert UpToDate(heard, j', item.notifies);
      HearsNext(heard, i, j, item.notifies);
    }
  }

  /** Taking out item `i` and telling the ones behind it keeps every listener up to date. */
  lemma RemovalKeepsNotices(s: System, s': System, i: nat)
    requires OrderInv(s) && OrderInv(s') && NoticeInv(s)
    requires i < |s.queue.pending| && s'.queue.pending == Without(s.queue.pending, i)
    requires s'.queue.nextId == s.queue.nextId
    requires s'.notices == s.notices + Ranks(s'.queue.pending, i)
    ensures NoticeInv(s')
  {
    forall id: nat
      ensures Decreasing(Positions(s'.notices, id))
      ensures id >= s'.queue.nextId ==> Positions(s'.notices, id) == []
    {
      RemovalTells(s, s', i, id);
    }
    DistinctPending(s');
    forall j | 0 <= j < |s'.queue.pending|
      ensures var item := s'.queue.pending[j]; UpToDate(Positions(s'.notices, item.id), j, item.notifies)
    {
      RemovalTells(s, s', i, s'.queue.pending[j].id);
    }
  }

  lemma SubmitTells(s: System, notifies: bool, id: nat)
    ensures Positions(s.notices + SubmitNotices(s.queue, notifies), id)
         == Positions(s.notices, id)
          + if notifies && s.queue.processing && id == s.queue.nextId then [|s.queue.pending| + 1] else []
  {
    var batch := SubmitNotices(s.queue, notifies);
    PositionsConcat(s.notices, batch, id);
    if batch != [] {
      assert batch[1..] == [];
    }
  }

  lemma SubmitKeepsNotices(s: System, notifies: bool, watched: bool)
    requires WorkerInv(s) && OrderInv(s) && NoticeInv(s)
    ensures NoticeInv(Apply(s, Submit(notifies, watched)))
  {
    var s' := Apply(s, Submit(notifies, watched));
    var pending' := s'.queue.pending;
    DistinctPending(s);
    forall id: nat
      ensures Decreasing(Positions(s'.notices, id))
      ensures id >= s'.queue.nextId ==> Positions(s'.notices, id) == []
    {
      SubmitTells(s, notifies, id);
      assert Decreasing(Positions(s.notices, id));
    }
    forall i | 0 <= i < |pending'|
      ensures UpToDate(Positions(s'.notices, pending'[i].id), i, pending'[i].notifies)
    {
      SubmitTells(s, notifies, pending'[i].id);
      if i < |s.queue.pending| {
        assert pending'[i] == s.queue.pending[i];
      }
    }
  }

  lemma NoticePreserved(s: System, step: Step)
    requires WorkerInv(s) && OrderInv(s) && NoticeInv(s) && Enabled(s, step)
    ensures NoticeInv(Apply(s, step))
  {
    var s' := Apply(s, step);
    OrderPreserved(s, step);
    match step {
      case Submit(notifies, watched) => SubmitKeepsNotices(s, notifies, watched);
      case Fire(id) =>
        var i := IndexOf(s.queue.pending, id);
        if i < |s.queue.pending| {
          RemovalKeepsNotices(s, s', i);
        }
      case Take(_) =>
        if s.queue.pending != [] {
          assert Without(s.queue.pending, 0) == s.queue.pending[1..];
          RemovalKeepsNotices(s, s', 0);
        } else {
          assert s'.notices == s.notices;
        }
      case _ =>
    }
  }

  predicate TellsRank(n: Notice, pending: seq<Item>) {
    1 <= n.position <= |pending| && pending[n.position - 1] == Item(n.id, true)
  }

  /** Every position computed for a callback is the 1-based rank of its item at that moment. */
  lemma NoticesAreRanks(s: System, step: Step, k: nat)
    requires WorkerInv(s) && Enabled(s, step)
    requires |s.notices| <= k < |Apply(s, step).notices|
    ensures TellsRank(Apply(s, step).notices[k], Apply(s, step).queue.pending)
  {
    var pending := Apply(s, step).queue.pending;
    match step {
      case Submit(_, _) =>
      case Fire(id) => RanksAreRanks(pending, IndexOf(s.queue.pending, id), k - |s.notices|);
      case Take(_) => RanksAreRanks(pending, 0, k - |s.notices|);
    }
  }

  lemma {:induction false} RanksAreRanks(pending: seq<Item>, from: nat, k: nat)
    requires k < |Ranks(pending, from)|
    ensures TellsRank(Ranks(pending, from)[k], pending)
    decreases |pending| - from
  {
    if pending[from].notifies {
      if k > 0 {
        RanksAreRanks(pending, from + 1, k - 1);
      }
    } else {
      RanksAreRanks(pending, from + 1, k);
    }
  }

  // ----- Aborts -----

  /**
    A watcher fires once. Afterwards the item is no longer pending, and once the watcher is
    through, the item's child token is cancelled or its result was decided before.
  */
  ghost predicate AbortInv(s: System) {
    && (forall id :: id in s.watchers || id in s.fired ==> Issued(s, id))
    && s.watchers !! s.fired
    && s.checking <= s.fired
    && (forall id :: id in s.fired ==> id !in Ids(s.queue.pending))
    && (forall id :: id in s.fired ==> id in s.checking || id in s.cancelled || id in s.detached || id in Done(s))
    && (forall id :: id in s.cancelled ==> id in s.fired || Completion(id, Cleared) in s.completions)
    && (forall id :: id in s.detached && s.detached[id] == Aborted ==> id in s.fired)
    && (forall c :: c in s.completions && c.outcome == Aborted ==> c.id in s.fired)
  }

  lemma SubmitKeepsAborts(s: System, notifies: bool, watched: bool)
    requires WorkerInv(s) && OrderInv(s) && AbortInv(s)
    ensures AbortInv(Apply(s, Submit(notifies, watched)))
  {
    PendingIdsAfter(s, Submit(notifies, watched));
    NextIdIsPositive(s);
  }

  lemma FireKeepsAborts(s: System, id: nat)
    requires WorkerInv(s) && OrderInv(s) && AbortInv(s) && Enabled(s, Fire(id))
    ensures AbortInv(Apply(s, Fire(id)))
  {
    PendingIdsAfter(s, Fire(id));
    PendingIdsMember(s, id);
  }

  lemma CheckKeepsAborts(s: System, id: nat)
    requires WorkerInv(s) && PlacesInv(s) && AbortInv(s) && Enabled(s, Check(id))
    ensures AbortInv(Apply(s, Check(id)))
  {
    HeldByTheWorker(s, id);
    assert Places(s, id) == One(Issued(s, id));
  }

  lemma SettleKeepsAborts(s: System, id: nat)
    requires OutcomeInv(s) && AbortInv(s) && Enabled(s, Settle(id))
    ensures AbortInv(Apply(s, Settle(id)))
  {
    DoneAfter(s, Completion(id, s.detached[id]));
  }

  lemma ReportKeepsAborts(s: System, w: nat)
    requires AbortInv(s) && Enabled(s, Report(w))
    ensures AbortInv(Apply(s, Report(w)))
  {
    DoneAfter(s, Completion(s.workers[w].item.id, Ran(s.workers[w].result)));
  }

  lemma TakeKeepsAborts(s: System, w: nat)
    requires WorkerInv(s) && OrderInv(s) && AbortInv(s) && Enabled(s, Take(w))
    ensures AbortInv(Apply(s, Take(w)))
  {
    PendingIdsAfter(s, Take(w));
  }

  lemma AbortPreserved(s: System, step: Step)
    requires WorkerInv(s) && OrderInv(s) && PlacesInv(s) && OutcomeInv(s) && AbortInv(s) && Enabled(s, step)
    ensures AbortInv(Apply(s, step))
  {
    hide PlacesInv, OrderInv, WorkerInv, OutcomeInv, AfterSubmit, AfterAbort, AfterTake, IndexOf;
    match step {
      case Submit(notifies, watched) => SubmitKeepsAborts(s, notifies, watched);
      case Fire(id) => FireKeepsAborts(s, id);
      case Check(id) => CheckKeepsAborts(s, id);
      case Settle(id) => SettleKeepsAborts(s, id);
      case Report(w) => ReportKeepsAborts(s, w);
      case Take(w) => TakeKeepsAborts(s, w);
      case Clear =>
      case Spawn(_) =>
      case Begin(_) =>
      case End(_, _) =>
      case Release(_) =>
    }
  }

  // ----- Runs -----

  ghost predicate Inv(s: System) {
    WorkerInv(s) && OrderInv(s) && PlacesInv(s) && OutcomeInv(s) && NoticeInv(s) && AbortInv(s)
  }

  predicate ValidRun(s: System, steps: seq<Step>)
    decreases |steps|
  {
    steps != [] ==> Enabled(s, steps[0]) && ValidRun(Apply(s, steps[0]), steps[1..])
  }

  function Run(s: System, steps: seq<Step>): System
    requires ValidRun(s, steps)
    decreases |steps|
  {
    if steps == [] then s else Run(Apply(s, steps[0]), steps[1..])
  }

  lemma {:induction false} RunKeepsInv(s: System, steps: seq<Step>)
    requires Inv(s) && ValidRun(s, steps)
    ensures Inv(Run(s, steps))
    decreases |steps|
  {
    if steps != [] {
      var step := steps[0];
      WorkerPreserved(s, step);
      OrderPreserved(s, step);
      PlacesPreserved(s, step);
      OutcomePreserved(s, step);
      NoticePreserved(s, step);
      AbortPreserved(s, step);
      RunKeepsInv(Apply(s, step), steps[1..]);
    }
  }

  lemma StartInv()
    ensures Inv(START)
  {
    assert forall id {:trigger Places(START, id)} :: Places(START, id) == 0;
  }

  lemma Reachable(steps: seq<Step>)
    requires ValidRun(START, steps)
    ensures Inv(Run(START, steps))
  {
    StartInv();
    RunKeepsInv(START, steps);
  }

  // ----- The theorems -----

  /** At most one worker exists, `processing` says exactly that it does, and pending work implies it. */
  lemma SingleWorkerNoLostWakeup(steps: seq<Step>)
    requires ValidRun(START, steps)
    ensures var s := Run(START, steps);
      && |s.workers| <= 1
      && (s.queue.processing <==> |s.workers| == 1)
      && (s.queue.pending != [] ==> |s.workers| == 1)
      && (forall id: nat :: Held(s, id) ==> s.queue.active == Some(id))
  {
    hide Run, ValidRun, OrderInv, PlacesInv, OutcomeInv, NoticeInv, AbortInv;
    Reachable(steps);
  }

  /** Every issued id is in exactly one place, and no completion is sent twice. */
  lemma ExactlyOnePlace(steps: seq<Step>, id: nat)
    requires ValidRun(START, steps)
    ensures var s := Run(START, steps);
      && (Issued(s, id) ==> Places(s, id) == 1)
      && (!Issued(s, id) ==> Places(s, id) == 0)
      && NoDuplicates(Map((c: Completion) => c.id, s.completions))
  {
    hide Run, ValidRun, WorkerInv, OrderInv, OutcomeInv, NoticeInv, AbortInv;
    Reachable(steps);
    assert Places(Run(START, steps), id) == One(Issued(Run(START, steps), id));
  }

  /** An aborted or cleared item never started; an item that started reports its own task's result. */
  lemma CompletionsAreTruthful(steps: seq<Step>, c: Completion)
    requires ValidRun(START, steps) && c in Run(START, steps).completions
    ensures var s := Run(START, steps);
      && (c.outcome.Ran? <==> c.id in s.started)
      && (c.outcome.Ran? ==> c.id in s.produced && c.outcome.result == s.produced[c.id])
      && (c.outcome == Aborted ==> c.id in s.fired)
  {
    hide Run, ValidRun, WorkerInv, OrderInv, PlacesInv, NoticeInv;
    Reachable(steps);
    assert Truthful(Run(START, steps), c);
  }

  lemma IncreasingParts(a: seq<nat>, b: seq<nat>, c: seq<nat>)
    requires Increasing(a + b + c)
    ensures Increasing(a) && Increasing(b) && Increasing(c)
    ensures forall x, y :: x in a && y in c ==> x < y
  {
    var line := a + b + c;
    forall i, j | 0 <= i < j < |a| ensures a[i] < a[j] {
      assert line[i] < line[j];
    }
    forall i, j | 0 <= i < j < |b| ensures b[i] < b[j] {
      assert line[|a| + i] < line[|a| + j];
    }
    forall i, j | 0 <= i < j < |c| ensures c[i] < c[j] {
      assert line[|a + b| + i] < line[|a + b| + j];
    }
    forall i, j | 0 <= i < |a| && 0 <= j < |c| ensures a[i] < c[j] {
      assert line[i] < line[|a + b| + j];
    }
  }

  /** Items start in submission order, and whatever is pending was submitted after everything that started. */
  lemma FirstInFirstOut(steps: seq<Step>)
    requires ValidRun(START, steps)
    ensures var s := Run(START, steps);
      && Increasing(s.started)
      && Increasing(PendingIds(s))
      && (forall a, b :: a in s.started && b in PendingIds(s) ==> a < b)
  {
    hide Run, ValidRun, WorkerInv, PlacesInv, OutcomeInv, NoticeInv, AbortInv;
    Reachable(steps);
    OrderedLine(Run(START, steps));
  }

  lemma OrderedLine(s: System)
    requires OrderInv(s)
    ensures Increasing(s.started) && Increasing(PendingIds(s))
    ensures forall a, b :: a in s.started && b in PendingIds(s) ==> a < b
  {
    hide Increasing, PendingIds;
    var started, next, pending := s.started, AboutToStart(s), PendingIds(s);
    assert [0] + started + next + pending + [s.queue.nextId] == [0] + (started + next + pending) + [s.queue.nextId];
    IncreasingParts([0], started + next + pending, [s.queue.nextId]);
    IncreasingParts(started, next, pending);
  }

  /** One listener hears strictly decreasing ranks, and while pending its current rank is the last one. */
  lemma RanksDecreaseAndStayCurrent(steps: seq<Step>)
    requires ValidRun(START, steps)
    ensures var s := Run(START, steps);
      && (forall id :: Decreasing(Positions(s.notices, id)))
      && (forall i :: 0 <= i < |s.queue.pending| ==>
            var heard := Positions(s.notices, s.queue.pending[i].id);
            && (heard != [] ==> heard[|heard| - 1] == i + 1)
            && (s.queue.pending[i].notifies && i > 0 ==> heard != []))
  {
    hide Run, ValidRun, WorkerInv, OrderInv, PlacesInv, OutcomeInv, AbortInv;
    Reachable(steps);
  }

  /**
    The second look of an abort cancels the token of exactly the item a worker has in hand or has
    just reported; for an item that was drained or completed before it does nothing.
  */
  lemma CheckFindsTheActive(steps: seq<Step>, id: nat)
    requires ValidRun(START, steps) && Enabled(Run(START, steps), Check(id))
    ensures var s := Run(START, steps);
      var found := Held(s, id) || (exists w :: 0 <= w < |s.workers| && s.workers[w] == Reported(id));
      Apply(s, Check(id)) ==
        s.(checking := s.checking - {id}, cancelled := if found then s.cancelled + {id} else s.cancelled)
  {
    hide Run, ValidRun, OrderInv, PlacesInv, OutcomeInv, NoticeInv, AbortInv;
    Reachable(steps);
    var s := Run(START, steps);
    HeldByTheWorker(s, id);
    if s.workers != [] && s.workers[0] == Reported(id) {
      assert s.queue.active == Some(id);
    }
  }

  /** An abort is never lost: it removes the item, or cancels its token, or came after the decision. */
  lemma AbortTakesEffect(steps: seq<Step>, id: nat)
    requires ValidRun(START, steps) && id in Run(START, steps).fired && id !in Run(START, steps).checking
    ensures var s := Run(START, steps);
      && id !in Ids(s.queue.pending)
      && (id in s.cancelled || id in s.detached || id in Done(s))
  {
    hide Run, ValidRun, WorkerInv, OrderInv, PlacesInv, OutcomeInv, NoticeInv;
    Reachable(steps);
  }

  // ----- Draining -----

  function Weight(phase: Phase): nat {
    match phase
    case Promised => 2
    case AtHead => 1
    case Starting(_) => 5
    case Running(_) => 4
    case Ended(_, _) => 3
    case Reported(_) => 2
  }

  /** An upper bound on the worker, watcher and completion steps that are left without new submissions. */
  function Measure(s: System): nat {
    5 * |s.queue.pending| + (if s.workers == [] then 0 else Weight(s.workers[0]))
    + |s.detached| + 2 * |s.watchers| + |s.checking|
  }

  predicate Internal(step: Step) {
    !step.Submit? && !step.Clear?
  }

  lemma {:induction false} IdsCount(items: seq<Item>)
    ensures |Ids(items)| <= |items|
  {
    if items == [] {
      assert Ids(items) == {};
    } else {
      var rest := items[1..];
      IdsCount(rest);
      assert items == [items[0]] + rest;
      assert Ids(items) == {items[0].id} + Ids(rest);
    }
  }

  lemma ClearMeasure(s: System)
    ensures Measure(Apply(s, Clear)) <= Measure(s)
  {
    var extra := map id | id in Ids(s.queue.pending) :: Cleared;
    var detached := s.detached + extra;
    IdsCount(s.queue.pending);
    assert extra.Keys == Ids(s.queue.pending);
    assert detached.Keys == s.detached.Keys + extra.Keys;
    assert |detached.Keys| <= |s.detached.Keys| + |extra.Keys|;
    assert Apply(s, Clear).detached == detached;
  }

  lemma FireMeasure(s: System, id: nat)
    requires Enabled(s, Fire(id))
    ensures Measure(Apply(s, Fire(id))) < Measure(s)
  {
    var s' := Apply(s, Fire(id));
    assert |s'.watchers| == |s.watchers| - 1;
    assert s.detached[id := Aborted].Keys == s.detached.Keys + {id};
    assert |s.detached[id := Aborted]| <= |s.detached| + 1;
    assert |s.checking + {id}| <= |s.checking| + 1;
  }

  lemma SettleMeasure(s: System, id: nat)
    requires Enabled(s, Settle(id))
    ensures Measure(Apply(s, Settle(id))) < Measure(s)
  {
    assert (s.detached - {id}).Keys == s.detached.Keys - {id};
    assert |s.detached - {id}| == |s.detached| - 1;
  }

  lemma MeasureDecreases(s: System, step: Step)
    requires WorkerInv(s) && Enabled(s, step) && !step.Submit?
    ensures Measure(Apply(s, step)) <= Measure(s)
    ensures Internal(step) ==> Measure(Apply(s, step)) < Measure(s)
  {
    match step {
      case Clear => ClearMeasure(s);
      case Fire(id) => FireMeasure(s, id);
      case Settle(id) => SettleMeasure(s, id);
      case _ =>
    }
  }

  /** Nothing is pending, no worker is promised or running, and every issued id is completed. */
  ghost predicate Quiescent(s: System) {
    && s.queue.pending == [] && !s.queue.processing && s.workers == []
    && (forall id :: Issued(s, id) ==> id in Done(s))
  }

  /** The worker's next step. */
  function WorkerStep(phase: Phase, result: TaskResult): Step {
    match phase
    case Promised => Spawn(0)
    case AtHead => Take(0)
    case Starting(_) => Begin(0)
    case Running(_) => End(0, result)
    case Ended(_, _) => Report(0)
    case Reported(_) => Release(0)
  }

  /** When neither a worker nor a detached item can make a step, the queue has drained. */
  lemma StuckMeansDrained(s: System)
    requires Inv(s)
    requires forall step :: Enabled(s, step) ==> step.Submit? || step.Clear? || step.Fire? || step.Check?
    ensures Quiescent(s)
  {
    if s.workers != [] {
      assert Enabled(s, WorkerStep(s.workers[0], Returned(0)));
    }
    forall id | Issued(s, id) ensures id in Done(s) {
      assert Places(s, id) == One(Issued(s, id));
      assert !Enabled(s, Settle(id));
    }
  }

  function InternalSteps(steps: seq<Step>): nat {
    if steps == [] then 0 else One(Internal(steps[0])) + InternalSteps(steps[1..])
  }

  /** Without submissions only boundedly many worker, watcher and completion steps happen. */
  lemma {:induction false} DrainIsBounded(s: System, steps: seq<Step>)
    requires Inv(s) && ValidRun(s, steps) && (forall step :: step in steps ==> !step.Submit?)
    ensures InternalSteps(steps) + Measure(Run(s, steps)) <= Measure(s)
    decreases |steps|
  {
    if steps != [] {
      RunKeepsInv(s, steps[..1]);
      assert Run(s, steps[..1]) == Apply(s, steps[0]) by {
        assert steps[..1][1..] == [];
      }
      MeasureDecreases(s, steps[0]);
      DrainIsBounded(Apply(s, steps[0]), steps[1..]);
    }
  }

  // ----- No item starves -----

  predicate IsWorkerStep(step: Step) {
    step.Spawn? || step.Take? || step.Begin? || step.End? || step.Report? || step.Release?
  }

  predicate Waits(s: System, id: nat) {
    IndexOf(s.queue.pending, id) < |s.queue.pending|
  }

  /** A bound on the worker steps a pending item still sees before it is taken: nobody behind it counts. */
  function Wait(s: System, id: nat): nat {
    5 * IndexOf(s.queue.pending, id) + if s.workers == [] then 0 else Weight(s.workers[0])
  }

  lemma IndexIs(pending: seq<Item>, id: nat, i: nat)
    requires i <= |pending| && (i < |pending| ==> pending[i].id == id)
    requires forall k :: 0 <= k < i ==> pending[k].id != id
    ensures IndexOf(pending, id) == i
  {
  }

  lemma SubmitKeepsWait(s: System, notifies: bool, watched: bool, id: nat)
    requires WorkerInv(s) && Waits(s, id)
    ensures var t := Apply(s, Submit(notifies, watched)); Waits(t, id) && Wait(t, id) == Wait(s, id)
  {
    var t := Apply(s, Submit(notifies, watched));
    var i := IndexOf(s.queue.pending, id);
    assert forall k :: 0 <= k < |s.queue.pending| ==> t.queue.pending[k] == s.queue.pending[k];
    IndexIs(t.queue.pending, id, i);
  }

  lemma FireKeepsWait(s: System, other: nat, id: nat)
    requires Enabled(s, Fire(other)) && Waits(s, id) && other != id
    ensures var t := Apply(s, Fire(other)); Waits(t, id) && Wait(t, id) <= Wait(s, id)
  {
    var pending, t := s.queue.pending, Apply(s, Fire(other));
    var i, j := IndexOf(pending, id), IndexOf(pending, other);
    if j < |pending| {
      IndexIs(t.queue.pending, id, if j < i then i - 1 else i);
    }
  }

  lemma TakeShortensWait(s: System, w: nat, id: nat)
    requires WorkerInv(s) && Enabled(s, Take(w)) && Waits(s, id) && Waits(Apply(s, Take(w)), id)
    requires forall i, j :: 0 <= i < j < |s.queue.pending| ==> s.queue.pending[i].id != s.queue.pending[j].id
    ensures Wait(Apply(s, Take(w)), id) < Wait(s, id)
  {
    var pending, t := s.queue.pending, Apply(s, Take(w));
    var i, j := IndexOf(pending, id), IndexOf(t.queue.pending, id);
    assert t.queue.pending[j] == pending[j + 1];
    assert i == j + 1;
  }

  /** No step of anybody raises the wait of an item that stays pending, and every worker step lowers it. */
  lemma StepShortensWait(s: System, step: Step, id: nat)
    requires WorkerInv(s) && OrderInv(s) && Enabled(s, step)
    requires Waits(s, id) && Waits(Apply(s, step), id)
    ensures Wait(Apply(s, step), id) <= Wait(s, id)
    ensures IsWorkerStep(step) ==> Wait(Apply(s, step), id) < Wait(s, id)
  {
    hide IndexOf, OrderInv;
    match step {
      case Submit(notifies, watched) => SubmitKeepsWait(s, notifies, watched, id);
      case Fire(other) =>
        if other == id {
          FiredItemsWaitNoMore(s, id);
        } else {
          FireKeepsWait(s, other, id);
        }
      case Take(w) =>
        DistinctPending(s);
        TakeShortensWait(s, w, id);
      case _ =>
    }
  }

  lemma FiredItemsWaitNoMore(s: System, id: nat)
    requires OrderInv(s) && Enabled(s, Fire(id)) && Waits(s, id)
    ensures !Waits(Apply(s, Fire(id)), id)
  {
    DistinctPending(s);
    var pending, t := s.queue.pending, Apply(s, Fire(id));
    var i := IndexOf(pending, id);
    forall k | 0 <= k < |t.queue.pending| ensures t.queue.pending[k].id != id {
      assert t.queue.pending[k] == pending[if k < i then k else k + 1];
    }
  }

  /** The item is pending in every state of the run. */
  predicate WaitsThroughout(s: System, steps: seq<Step>, id: nat)
    requires ValidRun(s, steps)
    decreases |steps|
  {
    Waits(s, id) && (steps == [] || WaitsThroughout(Apply(s, steps[0]), steps[1..], id))
  }

  function WorkerSteps(steps: seq<Step>): nat {
    if steps == [] then 0 else One(IsWorkerStep(steps[0])) + WorkerSteps(steps[1..])
  }

  /**
    While an item is pending the worker makes at most `Wait` steps, however many items others submit:
    no item starves.
  */
  lemma {:induction false} WaitIsBounded(s: System, steps: seq<Step>, id: nat)
    requires Inv(s) && ValidRun(s, steps) && WaitsThroughout(s, steps, id)
    ensures WorkerSteps(steps) <= Wait(s, id)
    decreases |steps|
  {
    if steps != [] {
      hide WorkerInv, OrderInv, PlacesInv, OutcomeInv, NoticeInv, AbortInv, Apply, Enabled, Waits, Wait;
      var next := Apply(s, steps[0]);
      OneStep(s, steps[0]);
      RunKeepsInv(s, [steps[0]]);
      NowWaits(next, steps[1..], id);
      StepShortensWait(s, steps[0], id);
      WaitIsBounded(next, steps[1..], id);
    }
  }

  lemma NowWaits(s: System, steps: seq<Step>, id: nat)
    requires ValidRun(s, steps) && WaitsThroughout(s, steps, id)
    ensures Waits(s, id)
  {
  }

  lemma OneStep(s: System, step: Step)
    requires Enabled(s, step)
    ensures ValidRun(s, [step]) && Run(s, [step]) == Apply(s, step)
  {
    assert [step][1..] == [];
    assert ValidRun(Apply(s, step), []);
  }

  /** A pending item always has a worker that can move, so only its turn, an abort or a clear ends the wait. */
  lemma PendingMeansWork(s: System, id: nat)
    requires WorkerInv(s) && Waits(s, id)
    ensures exists step :: IsWorkerStep(step) && Enabled(s, step)
  {
    var step := WorkerStep(s.workers[0], Returned(0));
    assert IsWorkerStep(step) && Enabled(s, step);
  }

  /** From every reachable state the worker and the pending completions alone empty the queue. */
  lemma {:induction false} DrainExists(s: System) returns (steps: seq<Step>)
    requires Inv(s)
    ensures ValidRun(s, steps) && (forall step :: step in steps ==> Internal(step) && !step.Fire? && !step.Check?)
    ensures Quiescent(Run(s, steps))
    decreases Measure(s)
  {
    if step :| Enabled(s, step) && Internal(step) && !step.Fire? && !step.Check? {
      RunKeepsInv(s, [step]);
      assert Run(s, [step]) == Apply(s, step) by {
        assert [step][1..] == [];
      }
      MeasureDecreases(s, step);
      var rest := DrainExists(Apply(s, step));
      steps := [step] + rest;
      assert steps[1..] == rest;
    } else {
      steps := [];
      StuckMeansDrained(s);
    }
  }
}

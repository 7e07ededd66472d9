/**
  Every interleaving of submitters, abort watchers, `clear` and workers: one step per lock
  section, plus the steps between them (a promised worker that is not spawned yet, a drained
  item whose completion is not sent yet, a completion sent before the lock is taken again).
*/
module RipQueueSystem {
  import opened Sequences
  import opened RipQueue

  datatype TaskResult = Returned(value: int) | Panicked(message: string)

  datatype Outcome = Ran(result: TaskResult) | Aborted | Cleared

  datatype Completion = Completion(id: nat, outcome: Outcome)

  datatype Phase =
    | Promised
    | AtHead
    | Starting(item: Item)
    | Running(item: Item)
    | Ended(item: Item, result: TaskResult)
    | Reported(id: nat)

  datatype System = System(
    queue: QueueState,
    workers: seq<Phase>,
    detached: map<nat, Outcome>,
    watchers: set<nat>,
    checking: set<nat>,
    fired: set<nat>,
    cancelled: set<nat>,
    started: seq<nat>,
    produced: map<nat, TaskResult>,
    completions: seq<Completion>,
    notices: seq<Notice>)

  const START := System(INITIAL, [], map[], {}, {}, {}, {}, [], map[], [], [])

  datatype Step =
    | Submit(notifies: bool, watched: bool)
    | Clear
    | Fire(id: nat)
    | Check(id: nat)
    | Settle(id: nat)
    | Spawn(w: nat)
    | Take(w: nat)
    | Begin(w: nat)
    | End(w: nat, result: TaskResult)
    | Report(w: nat)
    | Release(w: nat)

  predicate Enabled(s: System, step: Step) {
    match step
    case Submit(_, _) => true
    case Clear => true
    case Fire(id) => id in s.watchers
    case Check(id) => id in s.checking
    case Settle(id) => id in s.detached
    case Spawn(w) => w < |s.workers| && s.workers[w].Promised?
    case Take(w) => w < |s.workers| && s.workers[w].AtHead?
    case Begin(w) => w < |s.workers| && s.workers[w].Starting?
    case End(w, _) => w < |s.workers| && s.workers[w].Running?
    case Report(w) => w < |s.workers| && s.workers[w].Ended?
    case Release(w) => w < |s.workers| && s.workers[w].Reported?
  }

  function Ids(items: seq<Item>): set<nat> {
    set item | item in items :: item.id
  }

  function Exit(workers: seq<Phase>, w: nat): seq<Phase>
    requires w < |workers|
  {
    workers[..w] + workers[w + 1..]
  }

  function Apply(s: System, step: Step): System
    requires Enabled(s, step)
  {
    match step
    case Submit(notifies, watched) =>
      s.(queue := AfterSubmit(s.queue, notifies),
         notices := s.notices + SubmitNotices(s.queue, notifies),
         watchers := if watched then s.watchers + {s.queue.nextId} else s.watchers,
         workers := if s.queue.processing then s.workers else s.workers + [Promised])
    case Clear =>
      s.(queue := AfterClear(s.queue),
         detached := s.detached + map id | id in Ids(s.queue.pending) :: Cleared)
    case Fire(id) =>
      var i := IndexOf(s.queue.pending, id);
      var fired := s.(watchers := s.watchers - {id}, fired := s.fired + {id});
      if i < |s.queue.pending| then
        fired.(queue := AfterAbort(s.queue, id),
               notices := s.notices + AbortNotices(s.queue, id),
               detached := s.detached[id := Aborted])
      else
        fired.(checking := s.checking + {id})
    case Check(id) =>
      s.(checking := s.checking - {id},
         cancelled := if s.queue.active == Some(id) then s.cancelled + {id} else s.cancelled)
    case Settle(id) =>
      s.(detached := s.detached - {id},
         cancelled := s.cancelled + {id},
         completions := s.completions + [Completion(id, s.detached[id])])
    case Spawn(w) =>
      s.(workers := s.workers[w := AtHead])
    case Take(w) =>
      s.(queue := AfterTake(s.queue),
         notices := s.notices + TakeNotices(s.queue),
         workers := if s.queue.pending == [] then Exit(s.workers, w)
                    else s.workers[w := Starting(s.queue.pending[0])])
    case Begin(w) =>
      var item := s.workers[w].item;
      s.(workers := s.workers[w := Running(item)], started := s.started + [item.id])
    case End(w, result) =>
      var item := s.workers[w].item;
      s.(workers := s.workers[w := Ended(item, result)], produced := s.produced[item.id := result])
    case Report(w) =>
      var Ended(item, result) := s.workers[w];
      s.(workers := s.workers[w := Reported(item.id)],
         completions := s.completions + [Completion(item.id, Ran(result))])
    case Release(w) =>
      s.(queue := AfterRelease(s.queue),
         workers := if s.queue.pending == [] then Exit(s.workers, w) else s.workers[w := AtHead])
  }

  // ----- Invariants -----

  /** `processing` is exactly "one worker is promised or running", and no wakeup is lost. */
  predicate WorkerInv(s: System) {
    && |s.workers| == (if s.queue.processing then 1 else 0)
    && (s.queue.pending != [] ==> s.queue.processing)
    && s.queue.active == (if s.workers == [] then None else ActiveId(s.workers[0]))
  }

  function ActiveId(phase: Phase): Option<nat> {
    match phase
    case Promised => None
    case AtHead => None
    case Starting(item) => Some(item.id)
    case Running(item) => Some(item.id)
    case Ended(item, _) => Some(item.id)
    case Reported(id) => Some(id)
  }

  predicate Increasing(s: seq<nat>) {
    forall i, j :: 0 <= i < j < |s| ==> s[i] < s[j]
  }

  function PendingIds(s: System): seq<nat> {
    Map((item: Item) => item.id, s.queue.pending)
  }

  /** The ids that started, then the one about to start, then the pending ones, then the next to issue. */
  function Line(s: System): seq<nat> {
    [0] + s.started + AboutToStart(s) + PendingIds(s) + [s.queue.nextId]
  }

  /** Submission order is start order. */
  predicate OrderInv(s: System) {
    Increasing(Line(s))
  }

  function AboutToStart(s: System): seq<nat> {
    if s.workers != [] && s.workers[0].Starting? then [s.workers[0].item.id] else []
  }

  function Done(s: System): set<nat> {
    set c | c in s.completions :: c.id
  }

  predicate Holds(phase: Phase, id: nat) {
    (phase.Starting? || phase.Running? || phase.Ended?) && phase.item.id == id
  }

  predicate Held(s: System, id: nat) {
    exists phase :: phase in s.workers && Holds(phase, id)
  }

  function One(b: bool): nat {
    if b then 1 else 0
  }

  /** The number of places an id occupies: pending, in a worker's hands, detached, completed. */
  function Places(s: System, id: nat): nat {
    One(id in Ids(s.queue.pending)) + One(Held(s, id)) + One(id in s.detached) + One(id in Done(s))
  }

  predicate Issued(s: System, id: nat) {
    1 <= id < s.queue.nextId
  }

  ghost predicate PlacesInv(s: System) {
    && (forall id {:trigger Places(s, id)} :: Places(s, id) == One(Issued(s, id)))
    && NoDuplicates(Map((c: Completion) => c.id, s.completions))
  }

  /** What a completion says about its item. */
  predicate Truthful(s: System, c: Completion) {
    match c.outcome
    case Ran(result) => c.id in s.started && c.id in s.produced && s.produced[c.id] == result
    case _ => c.id !in s.started
  }

  predicate OutcomeInv(s: System) {
    && (forall c :: c in s.completions ==> Truthful(s, c))
    && (forall id :: id in s.detached ==> id !in s.started && !s.detached[id].Ran?)
    && (forall id :: id in Ids(s.queue.pending) ==> id !in s.started)
    && (forall phase :: phase in s.workers && phase.Starting? ==> phase.item.id !in s.started)
    && (forall phase :: phase in s.workers && (phase.Running? || phase.Ended?) ==> phase.item.id in s.started)
    && (forall phase :: phase in s.workers && phase.Ended? ==>
          phase.item.id in s.produced && s.produced[phase.item.id] == phase.result)
  }

  // ----- Preservation -----

  lemma WorkerPreserved(s: System, step: Step)
    requires WorkerInv(s) && Enabled(s, step)
    ensures WorkerInv(Apply(s, step))
  {
  }

  lemma {:induction false} PendingIdsMember(s: System, id: nat)
    ensures id in PendingIds(s) <==> id in Ids(s.queue.pending)
    ensures id in Ids(s.queue.pending) <==> IndexOf(s.queue.pending, id) < |s.queue.pending|
  {
    var pending := s.queue.pending;
    if id in PendingIds(s) {
      var i :| 0 <= i < |pending| && PendingIds(s)[i] == id;
      assert pending[i] in pending;
    }
    if id in Ids(pending) {
      var item :| item in pending && item.id == id;
      var i :| 0 <= i < |pending| && pending[i] == item;
      assert PendingIds(s)[i] == id;
    }
    var k := IndexOf(pending, id);
    if k < |pending| {
      assert pending[k] in pending;
    }
  }

  lemma PendingAscends(s: System, i: nat, j: nat)
    requires OrderInv(s) && i < j < |s.queue.pending|
    ensures s.queue.pending[i].id < s.queue.pending[j].id < s.queue.nextId
  {
    var line := Line(s);
    var base := |[0] + s.started + AboutToStart(s)|;
    assert line[base + i] == PendingIds(s)[i];
    assert line[base + j] == PendingIds(s)[j];
    assert line[|line| - 1] == s.queue.nextId;
  }

  lemma StartedBeforeNext(s: System, id: nat)
    requires OrderInv(s) && id in s.started
    ensures id < s.queue.nextId
  {
    var line := Line(s);
    var i :| 0 <= i < |s.started| && s.started[i] == id;
    assert line[i + 1] == id && line[|line| - 1] == s.queue.nextId;
  }

  lemma IncreasingSkip(a: seq<nat>, gone: seq<nat>, b: seq<nat>)
    requires Increasing(a + gone + b)
    ensures Increasing(a + b)
  {
    var long, short := a + gone + b, a + b;
    forall i, j | 0 <= i < j < |short| ensures short[i] < short[j] {
      var i', j' := if i < |a| then i else i + |gone|, if j < |a| then j else j + |gone|;
      assert short[i] == long[i'] && short[j] == long[j'];
    }
  }

  lemma IncreasingSnoc(line: seq<nat>, x: nat, y: nat)
    requires Increasing(line + [x]) && x < y
    ensures Increasing(line + [x] + [y])
  {
    var short, long := line + [x], line + [x] + [y];
    forall i, j | 0 <= i < j < |long| ensures long[i] < long[j] {
      assert i < |line| ==> short[i] < short[|line|];
      assert j < |short| ==> long[i] == short[i] && long[j] == short[j];
    }
  }

  lemma SubmitKeepsOrder(s: System, notifies: bool, watched: bool)
    requires OrderInv(s)
    ensures OrderInv(Apply(s, Submit(notifies, watched)))
  {
    var s' := Apply(s, Submit(notifies, watched));
    var item := Item(s.queue.nextId, notifies);
    MapConcat((item: Item) => item.id, s.queue.pending, [item]);
    assert PendingIds(s') == PendingIds(s) + [item.id];
    var line := [0] + s.started + AboutToStart(s) + PendingIds(s);
    IncreasingSnoc(line, s.queue.nextId, s'.queue.nextId);
    assert AboutToStart(s') == AboutToStart(s);
    assert Line(s') == line + [item.id] + [s'.queue.nextId];
  }

  lemma PendingIdsWithout(s: System, i: nat)
    requires i < |s.queue.pending|
    ensures Map((item: Item) => item.id, Without(s.queue.pending, i)) == PendingIds(s)[..i] + PendingIds(s)[i + 1..]
  {
  }

  lemma IncreasingWithout(head: seq<nat>, mid: seq<nat>, tail: seq<nat>, i: nat)
    requires i < |mid| && Increasing(head + mid + tail)
    ensures Increasing(head + (mid[..i] + mid[i + 1..]) + tail)
  {
    var a, b := head + mid[..i], mid[i + 1..] + tail;
    assert head + mid + tail == a + [mid[i]] + b;
    IncreasingSkip(a, [mid[i]], b);
    assert head + (mid[..i] + mid[i + 1..]) + tail == a + b;
  }

  lemma FireKeepsOrder(s: System, id: nat)
    requires OrderInv(s) && Enabled(s, Fire(id))
    ensures OrderInv(Apply(s, Fire(id)))
  {
    var i := IndexOf(s.queue.pending, id);
    if i < |s.queue.pending| {
      PendingIdsWithout(s, i);
      IncreasingWithout([0] + s.started + AboutToStart(s), PendingIds(s), [s.queue.nextId], i);
    }
  }

  lemma ClearKeepsOrder(s: System)
    requires OrderInv(s)
    ensures OrderInv(Apply(s, Clear))
  {
    IncreasingSkip([0] + s.started + AboutToStart(s), PendingIds(s), [s.queue.nextId]);
    assert Line(Apply(s, Clear)) == [0] + s.started + AboutToStart(s) + [s.queue.nextId];
  }

  lemma TakeShiftsIds(s: System, w: nat)
    requires WorkerInv(s) && Enabled(s, Take(w)) && s.queue.pending != []
    ensures PendingIds(s) == [s.queue.pending[0].id] + PendingIds(Apply(s, Take(w)))
  {
  }

  lemma TakeKeepsOrder(s: System, w: nat)
    requires WorkerInv(s) && OrderInv(s) && Enabled(s, Take(w))
    ensures OrderInv(Apply(s, Take(w)))
  {
    hide Increasing, PendingIds;
    var s' := Apply(s, Take(w));
    if s.queue.pending == [] {
      PendingUnchanged(s, Take(w));
    } else {
      TakeShiftsIds(s, w);
      var head, first, rest := [0] + s.started, [s.queue.pending[0].id], PendingIds(s');
      assert head + [] + (first + rest) + [s.queue.nextId] == head + first + rest + [s.queue.nextId];
    }
  }

  lemma BeginKeepsOrder(s: System, w: nat)
    requires WorkerInv(s) && OrderInv(s) && Enabled(s, Begin(w))
    ensures OrderInv(Apply(s, Begin(w)))
  {
    assert Line(Apply(s, Begin(w))) == Line(s);
  }

  lemma OrderPreserved(s: System, step: Step)
    requires WorkerInv(s) && OrderInv(s) && Enabled(s, step)
    ensures OrderInv(Apply(s, step))
  {
    hide Increasing, PendingIds, AfterSubmit, AfterAbort, AfterTake, IndexOf;
    match step {
      case Submit(notifies, watched) => SubmitKeepsOrder(s, notifies, watched);
      case Fire(id) => FireKeepsOrder(s, id);
      case Clear => ClearKeepsOrder(s);
      case Take(w) => TakeKeepsOrder(s, w);
      case Begin(w) => BeginKeepsOrder(s, w);
      case _ => PendingUnchanged(s, step);
    }
  }

  lemma PendingUnchanged(s: System, step: Step)
    requires WorkerInv(s) && Enabled(s, step)
    requires step.Check? || step.Settle? || step.Spawn? || step.End? || step.Report? || step.Release?
      || (step.Take? && s.queue.pending == [])
    ensures PendingIds(Apply(s, step)) == PendingIds(s) && AboutToStart(Apply(s, step)) == AboutToStart(s)
  {
  }

  lemma HeldByTheWorker(s: System, id: nat)
    requires WorkerInv(s)
    ensures Held(s, id) <==> s.workers != [] && Holds(s.workers[0], id)
  {
  }

  lemma IdsWithout(s: System, i: nat)
    requires OrderInv(s) && i < |s.queue.pending|
    ensures Ids(Without(s.queue.pending, i)) == Ids(s.queue.pending) - {s.queue.pending[i].id}
  {
    var pending := s.queue.pending;
    forall j | 0 <= j < |pending| && j != i ensures pending[j].id != pending[i].id {
      if j < i { PendingAscends(s, j, i); } else { PendingAscends(s, i, j); }
    }
    forall j | 0 <= j < |pending| && j != i ensures pending[j] in Without(pending, i) {
      assert pending[j] == Without(pending, i)[if j < i then j else j - 1];
    }
    assert forall item :: item in Without(pending, i) ==> item in pending && item.id != pending[i].id;
  }

  /** How each step changes the set of pending ids. */
  lemma PendingIdsAfter(s: System, step: Step)
    requires WorkerInv(s) && OrderInv(s) && Enabled(s, step)
    ensures Ids(Apply(s, step).queue.pending) == match step
      case Submit(_, _) => Ids(s.queue.pending) + {s.queue.nextId}
      case Clear => {}
      case Fire(id) => Ids(s.queue.pending) - {id}
      case Take(_) => if s.queue.pending == [] then {} else Ids(s.queue.pending) - {s.queue.pending[0].id}
      case _ => Ids(s.queue.pending)
  {
    var s' := Apply(s, step);
    match step {
      case Submit(notifies, _) =>
        var item := Item(s.queue.nextId, notifies);
        assert forall x :: x in s'.queue.pending <==> x in s.queue.pending || x == item;
      case Fire(id) =>
        PendingIdsMember(s, id);
        var i := IndexOf(s.queue.pending, id);
        if i < |s.queue.pending| {
          IdsWithout(s, i);
        }
      case Take(_) =>
        if s.queue.pending != [] {
          IdsWithout(s, 0);
          assert Without(s.queue.pending, 0) == s.queue.pending[1..];
        }
      case _ =>
    }
  }

  lemma DoneAfter(s: System, c: Completion)
    ensures Done(s.(completions := s.completions + [c])) == Done(s) + {c.id}
  {
    assert forall x :: x in s.completions + [c] <==> x in s.completions || x == c;
  }

  lemma NextIdIsPositive(s: System)
    requires OrderInv(s)
    ensures s.queue.nextId >= 1
  {
    assert Line(s)[0] < Line(s)[|Line(s)| - 1] == s.queue.nextId;
  }

  /** An id is in exactly one place when it was issued, and nowhere otherwise. */
  predicate InPlace(s: System, id: nat) {
    Places(s, id) == One(Issued(s, id))
  }

  lemma PlacesAfterSubmit(s: System, step: Step, id: nat)
    requires WorkerInv(s) && OrderInv(s) && InPlace(s, id) && Enabled(s, step) && step.Submit?
    ensures InPlace(Apply(s, step), id)
  {
    hide OrderInv, IndexOf;
    WorkerPreserved(s, step);
    HeldByTheWorker(s, id);
    HeldByTheWorker(Apply(s, step), id);
    PendingIdsAfter(s, step);
    NextIdIsPositive(s);
  }

  lemma PlacesAfterClear(s: System, id: nat)
    requires WorkerInv(s) && OrderInv(s) && InPlace(s, id)
    ensures InPlace(Apply(s, Clear), id)
  {
    hide OrderInv, IndexOf;
    PendingIdsAfter(s, Clear);
  }

  lemma PlacesAfterFire(s: System, fired: nat, id: nat)
    requires WorkerInv(s) && OrderInv(s) && InPlace(s, id) && Enabled(s, Fire(fired))
    ensures InPlace(Apply(s, Fire(fired)), id)
  {
    hide OrderInv, Without, PendingIds;
    PendingIdsAfter(s, Fire(fired));
    PendingIdsMember(s, fired);
    hide IndexOf;
  }

  lemma PlacesAfterTake(s: System, w: nat, id: nat)
    requires WorkerInv(s) && OrderInv(s) && InPlace(s, id) && Enabled(s, Take(w))
    ensures InPlace(Apply(s, Take(w)), id)
  {
    hide OrderInv, IndexOf;
    WorkerPreserved(s, Take(w));
    HeldByTheWorker(s, id);
    HeldByTheWorker(Apply(s, Take(w)), id);
    PendingIdsAfter(s, Take(w));
    if s.queue.pending != [] {
      assert s.queue.pending[0] in s.queue.pending;
    }
  }

  lemma PlacesAfterReport(s: System, w: nat, id: nat)
    requires WorkerInv(s) && OrderInv(s) && InPlace(s, id) && Enabled(s, Report(w))
    ensures InPlace(Apply(s, Report(w)), id)
  {
    hide OrderInv, IndexOf;
    WorkerPreserved(s, Report(w));
    HeldByTheWorker(s, id);
    HeldByTheWorker(Apply(s, Report(w)), id);
    PendingIdsAfter(s, Report(w));
    DoneAfter(s, Completion(s.workers[w].item.id, Ran(s.workers[w].result)));
    hide Done;
  }

  lemma PlacesAfterSettle(s: System, settled: nat, id: nat)
    requires WorkerInv(s) && OrderInv(s) && InPlace(s, id) && Enabled(s, Settle(settled))
    ensures InPlace(Apply(s, Settle(settled)), id)
  {
    hide OrderInv, IndexOf;
    PendingIdsAfter(s, Settle(settled));
    DoneAfter(s, Completion(settled, s.detached[settled]));
    hide Done;
  }

  lemma PlacesAfterMove(s: System, step: Step, id: nat)
    requires WorkerInv(s) && OrderInv(s) && InPlace(s, id) && Enabled(s, step)
    requires step.Check? || step.Spawn? || step.Begin? || step.End? || step.Release?
    ensures InPlace(Apply(s, step), id)
  {
    hide OrderInv, IndexOf;
    WorkerPreserved(s, step);
    HeldByTheWorker(s, id);
    HeldByTheWorker(Apply(s, step), id);
    PendingIdsAfter(s, step);
  }

  lemma PlacesAfter(s: System, step: Step, id: nat)
    requires WorkerInv(s) && OrderInv(s) && InPlace(s, id) && Enabled(s, step)
    ensures InPlace(Apply(s, step), id)
  {
    hide WorkerInv, OrderInv, InPlace, Apply;
    match step
    case Submit(_, _) => PlacesAfterSubmit(s, step, id);
    case Clear => PlacesAfterClear(s, id);
    case Fire(fired) => PlacesAfterFire(s, fired, id);
    case Take(w) => PlacesAfterTake(s, w, id);
    case Report(w) => PlacesAfterReport(s, w, id);
    case Settle(settled) => PlacesAfterSettle(s, settled, id);
    case _ => PlacesAfterMove(s, step, id);
  }

  lemma SentOnce(s: System, c: Completion)
    requires PlacesInv(s) && c.id !in Done(s)
    ensures NoDuplicates(Map((c: Completion) => c.id, s.completions + [c]))
  {
    var ids := Map((c: Completion) => c.id, s.completions);
    MapConcat((c: Completion) => c.id, s.completions, [c]);
    forall i | 0 <= i < |ids| ensures ids[i] != c.id {
      assert s.completions[i] in s.completions;
    }
  }

  lemma PlacesPreserved(s: System, step: Step)
    requires WorkerInv(s) && OrderInv(s) && PlacesInv(s) && Enabled(s, step)
    ensures PlacesInv(Apply(s, step))
  {
    forall id ensures Places(Apply(s, step), id) == One(Issued(Apply(s, step), id)) {
      assert Places(s, id) == One(Issued(s, id));
      PlacesAfter(s, step, id);
    }
    match step {
      case Settle(id) =>
        assert Places(s, id) == One(Issued(s, id));
        SentOnce(s, Completion(id, s.detached[id]));
      case Report(w) =>
        var Ended(item, result) := s.workers[w];
        HeldByTheWorker(s, item.id);
        assert Places(s, item.id) == One(Issued(s, item.id));
        SentOnce(s, Completion(item.id, Ran(result)));
      case _ =>
    }
  }

  lemma SubmitKeepsOutcomes(s: System, notifies: bool, watched: bool)
    requires WorkerInv(s) && OrderInv(s) && OutcomeInv(s)
    ensures OutcomeInv(Apply(s, Submit(notifies, watched)))
  {
    PendingIdsAfter(s, Submit(notifies, watched));
    if s.queue.nextId in s.started {
      StartedBeforeNext(s, s.queue.nextId);
    }
  }

  lemma FireKeepsOutcomes(s: System, id: nat)
    requires WorkerInv(s) && OrderInv(s) && OutcomeInv(s) && Enabled(s, Fire(id))
    ensures OutcomeInv(Apply(s, Fire(id)))
  {
    PendingIdsAfter(s, Fire(id));
    PendingIdsMember(s, id);
  }

  lemma TakeKeepsOutcomes(s: System, w: nat)
    requires WorkerInv(s) && OrderInv(s) && OutcomeInv(s) && Enabled(s, Take(w))
    ensures OutcomeInv(Apply(s, Take(w)))
  {
    PendingIdsAfter(s, Take(w));
    if s.queue.pending != [] {
      assert s.queue.pending[0].id in Ids(s.queue.pending);
    }
  }

  lemma OutcomePreserved(s: System, step: Step)
    requires WorkerInv(s) && OrderInv(s) && PlacesInv(s) && OutcomeInv(s) && Enabled(s, step)
    ensures OutcomeInv(Apply(s, step))
  {
    hide PlacesInv, OrderInv, WorkerInv, AfterSubmit, AfterAbort, AfterTake, IndexOf;
    match step {
      case Submit(notifies, watched) => SubmitKeepsOutcomes(s, notifies, watched);
      case Fire(id) => FireKeepsOutcomes(s, id);
      case Take(w) => TakeKeepsOutcomes(s, w);
      case Begin(w) => BeginKeepsOutcomes(s, w);
      case End(w, result) => EndKeepsOutcomes(s, w, result);
      case Clear =>
      case Check(_) =>
      case Settle(_) =>
      case Spawn(_) =>
      case Report(_) =>
      case Release(_) =>
    }
  }

  lemma InHand(s: System, id: nat)
    requires WorkerInv(s) && PlacesInv(s) && s.workers != [] && Holds(s.workers[0], id)
    ensures id !in Ids(s.queue.pending) && id !in s.detached && id !in Done(s)
  {
    HeldByTheWorker(s, id);
    assert Places(s, id) == One(Issued(s, id));
  }

  lemma BeginKeepsOutcomes(s: System, w: nat)
    requires WorkerInv(s) && PlacesInv(s) && OutcomeInv(s) && Enabled(s, Begin(w))
    ensures OutcomeInv(Apply(s, Begin(w)))
  {
    var id := s.workers[w].item.id;
    InHand(s, id);
    forall c | c in s.completions ensures c.id != id {
      assert c.id in Done(s);
    }
    assert forall x :: x in s.started + [id] <==> x in s.started || x == id;
  }

  lemma EndKeepsOutcomes(s: System, w: nat, result: TaskResult)
    requires WorkerInv(s) && PlacesInv(s) && OutcomeInv(s) && Enabled(s, End(w, result))
    ensures OutcomeInv(Apply(s, End(w, result)))
  {
    var id := s.workers[w].item.id;
    InHand(s, id);
    forall c | c in s.completions ensures c.id != id {
      assert c.id in Done(s);
    }
  }
}

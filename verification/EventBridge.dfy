/** The bounded channel between engine callbacks and the dashboard consumer, and the registry it feeds. */
module EventBridge {
  import opened Sequences

  datatype Lanes = Lanes(activity: Option<string>, download: Option<string>, upload: Option<string>)

  datatype Change = Created | Started | Progress(of: string, lanes: Lanes) | Completed | Cancelled | Failed

  /** An event with the job snapshot it carries; `stamp` is its place in the order of emission. */
  datatype Event = Event(stamp: nat, job: string, header: string, requester: string, change: Change)

  datatype Context = Context(header: string, requester: string, lanes: Lanes)

  type Contexts = map<string, Context>

  const CAPACITY: nat := 256

  const NO_LANES := Lanes(None, None, None)

  predicate IsTerminal(e: Event) {
    e.change.Completed? || e.change.Cancelled? || e.change.Failed?
  }

  function Remembered(contexts: Contexts, e: Event): Contexts {
    contexts[e.job := Context(e.header, e.requester, if e.job in contexts then contexts[e.job].lanes else NO_LANES)]
  }

  function Reported(contexts: Contexts, job: string, lanes: Lanes): Contexts {
    if job in contexts then contexts[job := contexts[job].(lanes := lanes)] else contexts
  }

  /** The registry after the consumer's turn for one event. */
  function AfterHandling(contexts: Contexts, e: Event): Contexts {
    if IsTerminal(e) then contexts - {e.job}
    else if e.change.Progress? then Reported(Remembered(contexts, e), e.change.of, e.change.lanes)
    else Remembered(contexts, e)
  }

  /** `waiting` holds the events that spawned tasks are still trying to send. */
  datatype Channel = Channel(queue: seq<Event>, waiting: multiset<Event>)

  /** A direct send needs a free place that no waiting sender was promised. */
  predicate CanAccept(c: Channel) {
    |c.queue| < CAPACITY
  }

  predicate CanRefuse(c: Channel) {
    |c.queue| + |c.waiting| >= CAPACITY
  }

  function AfterEmit(c: Channel, e: Event, room: bool): Channel {
    if room then c.(queue := c.queue + [e])
    else if IsTerminal(e) then c.(waiting := c.waiting + multiset{e})
    else c
  }

  function AfterEnter(c: Channel, e: Event): Channel {
    Channel(c.queue + [e], c.waiting - multiset{e})
  }

  class JobContexts {
    var jobs: Contexts

    constructor ()
      ensures jobs == map[]
    {
      jobs := map[];
    }

    method Remember(e: Event)
      modifies this
      ensures jobs == Remembered(old(jobs), e)
    {
      var lanes := NO_LANES;
      if e.job in jobs {
        lanes := jobs[e.job].lanes;
      }
      jobs := jobs[e.job := Context(e.header, e.requester, lanes)];
    }

    method RememberProgress(job: string, lanes: Lanes)
      modifies this
      ensures jobs == Reported(old(jobs), job, lanes)
    {
      if job in jobs {
        jobs := jobs[job := jobs[job].(lanes := lanes)];
      }
    }

    method Forget(job: string)
      modifies this
      ensures jobs == old(jobs) - {job}
    {
      jobs := jobs - {job};
    }
  }

  class Bridge {
    var queue: seq<Event>
    var waiting: multiset<Event>
    const registry: JobContexts

    function State(): Channel
      reads this
    {
      Channel(queue, waiting)
    }

    constructor ()
      ensures State() == Channel([], multiset{}) && registry.jobs == map[] && fresh(registry)
    {
      queue, waiting := [], multiset{};
      registry := new JobContexts();
    }

    /** The subscriber: never waits, and gives up only on events that are not terminal. */
    method Emit(e: Event, room: bool) returns (dropped: bool)
      requires if room then CanAccept(State()) else CanRefuse(State())
      modifies this
      ensures State() == AfterEmit(old(State()), e, room)
      ensures dropped <==> !room && !IsTerminal(e)
    {
      dropped := false;
      if room {
        queue := queue + [e];
      } else if IsTerminal(e) {
        waiting := waiting + multiset{e};
      } else {
        dropped := true;
      }
    }

    /** A spawned task gets its place in the channel. */
    method Enter(e: Event)
      requires e in waiting && |queue| < CAPACITY
      modifies this
      ensures State() == AfterEnter(old(State()), e)
    {
      queue, waiting := queue + [e], waiting - multiset{e};
    }

    /** One turn of the consumer. */
    method Handle() returns (e: Event)
      requires queue != []
      modifies this, registry
      ensures e == old(queue)[0] && State() == old(State()).(queue := old(queue)[1..])
      ensures registry.jobs == AfterHandling(old(registry.jobs), e)
    {
      e := queue[0];
      queue := queue[1..];
      registry.Remember(e);
      if e.change.Progress? {
        registry.RememberProgress(e.change.of, e.change.lanes);
      }
      if IsTerminal(e) {
        registry.Forget(e.job);
      }
    }
  }
}

/** Every interleaving of emitters, spawned senders and the consumer. */
module EventBridgeSystem {
  import opened Sequences
  import opened EventBridge

  datatype System = System(
    channel: Channel, contexts: Contexts, emitted: seq<Event>, handled: seq<Event>, dropped: seq<Event>)

  const START := System(Channel([], multiset{}), map[], [], [], [])

  datatype Step =
    | Emit(job: string, header: string, requester: string, change: Change, room: bool)
    | Enter(e: Event)
    | Handle

  predicate Enabled(s: System, step: Step) {
    match step
    case Emit(_, _, _, _, room) => if room then CanAccept(s.channel) else CanRefuse(s.channel)
    case Enter(e) => e in s.channel.waiting && |s.channel.queue| < CAPACITY
    case Handle => s.channel.queue != []
  }

  function Apply(s: System, step: Step): System
    requires Enabled(s, step)
  {
    match step
    case Emit(job, header, requester, change, room) =>
      var e := Event(|s.emitted|, job, header, requester, change);
      s.(channel := AfterEmit(s.channel, e, room), emitted := s.emitted + [e],
         dropped := if room || IsTerminal(e) then s.dropped else s.dropped + [e])
    case Enter(e) => s.(channel := AfterEnter(s.channel, e))
    case Handle =>
      var e := s.channel.queue[0];
      s.(channel := s.channel.(queue := s.channel.queue[1..]), contexts := AfterHandling(s.contexts, e),
         handled := s.handled + [e])
  }

  predicate Drained(s: System) {
    s.channel == Channel([], multiset{})
  }

  /** What went through the channel, in the order the consumer sees it. */
  function Arrived(s: System): seq<Event> {
    s.handled + s.channel.queue
  }

  function Replay(handled: seq<Event>): Contexts {
    if handled == [] then map[]
    else AfterHandling(Replay(handled[..|handled| - 1]), handled[|handled| - 1])
  }

  // ----- The invariant -----

  /** Every emitted event is in exactly one place. */
  predicate Kept(s: System) {
    multiset(Arrived(s)) + s.channel.waiting + multiset(s.dropped) == multiset(s.emitted)
  }

  predicate Stamped(s: System) {
    forall k :: 0 <= k < |s.emitted| ==> s.emitted[k].stamp == k
  }

  predicate OnlyTerminalsWait(s: System) {
    (forall e :: e in s.channel.waiting ==> IsTerminal(e)) && (forall e :: e in s.dropped ==> !IsTerminal(e))
  }

  /** Only a terminal event can come through later than something emitted after it. */
  predicate InOrder(events: seq<Event>) {
    forall i, j :: 0 <= i < j < |events| && !IsTerminal(events[j]) ==> events[i].stamp < events[j].stamp
  }

  predicate Ordered(s: System) {
    InOrder(Arrived(s))
  }

  predicate Inv(s: System) {
    && Kept(s) && Stamped(s) && OnlyTerminalsWait(s) && Ordered(s)
    && s.contexts == Replay(s.handled)
    && |s.channel.queue| <= CAPACITY
  }

  lemma ArrivedIsStamped(s: System, e: Event)
    requires Kept(s) && Stamped(s)
    requires e in Arrived(s) || e in s.channel.waiting || e in s.dropped
    ensures e.stamp < |s.emitted| && s.emitted[e.stamp] == e
  {
    assert e in multiset(s.emitted);
    var k :| 0 <= k < |s.emitted| && s.emitted[k] == e;
  }

  lemma InOrderSnoc(events: seq<Event>, e: Event)
    requires InOrder(events) && (IsTerminal(e) || forall f :: f in events ==> f.stamp < e.stamp)
    ensures InOrder(events + [e])
  {
    assert forall i :: 0 <= i < |events| ==> events[i] in events;
  }

  lemma SnocKeepsPlaces(s: System, t: System, e: Event)
    requires Kept(s) && t.emitted == s.emitted + [e] && Arrived(t) == Arrived(s) + [e]
    requires t.channel.waiting == s.channel.waiting && t.dropped == s.dropped
    ensures Kept(t)
  {
    hide Arrived;
  }

  lemma AcceptKeepsInv(s: System, t: System, e: Event)
    requires Inv(s) && CanAccept(s.channel) && e.stamp == |s.emitted|
    requires t == s.(channel := AfterEmit(s.channel, e, true), emitted := s.emitted + [e])
    ensures Inv(t)
  {
    hide Replay, IsTerminal, InOrder, Kept;
    assert Arrived(t) == Arrived(s) + [e];
    SnocKeepsPlaces(s, t, e);
    forall f | f in Arrived(s) ensures f.stamp < e.stamp {
      ArrivedIsStamped(s, f);
    }
    InOrderSnoc(Arrived(s), e);
  }

  lemma RefuseKeepsInv(s: System, t: System, e: Event)
    requires Inv(s) && e.stamp == |s.emitted|
    requires t == s.(channel := AfterEmit(s.channel, e, false), emitted := s.emitted + [e],
                     dropped := if IsTerminal(e) then s.dropped else s.dropped + [e])
    ensures Inv(t)
  {
    hide Replay, IsTerminal, InOrder;
    assert Arrived(t) == Arrived(s);
  }

  lemma EnterKeepsInv(s: System, e: Event)
    requires Inv(s) && Enabled(s, Enter(e))
    ensures Inv(Apply(s, Enter(e)))
  {
    hide IsTerminal, AfterHandling, Replay, InOrder;
    var t := Apply(s, Enter(e));
    assert Arrived(t) == Arrived(s) + [e];
    InOrderSnoc(Arrived(s), e);
    assert s.channel.waiting == t.channel.waiting + multiset{e};
  }

  lemma HandleKeepsInv(s: System)
    requires Inv(s) && Enabled(s, Handle)
    ensures Inv(Apply(s, Handle))
  {
    hide IsTerminal, AfterHandling, Kept, Stamped, OnlyTerminalsWait, Ordered;
    var t := Apply(s, Handle);
    assert Arrived(t) == Arrived(s);
    assert t.handled[..|t.handled| - 1] == s.handled;
    SamePlaces(s, t);
  }

  lemma SamePlaces(s: System, t: System)
    requires Kept(s) && Stamped(s) && OnlyTerminalsWait(s) && Ordered(s)
    requires Arrived(t) == Arrived(s) && t.channel.waiting == s.channel.waiting
    requires t.emitted == s.emitted && t.dropped == s.dropped
    ensures Kept(t) && Stamped(t) && OnlyTerminalsWait(t) && Ordered(t)
  {
  }

  lemma EmitKeepsInv(s: System, step: Step)
    requires Inv(s) && step.Emit? && Enabled(s, step)
    ensures Inv(Apply(s, step))
  {
    hide Inv, IsTerminal;
    var t := Apply(s, step);
    var e := Event(|s.emitted|, step.job, step.header, step.requester, step.change);
    if step.room {
      AcceptKeepsInv(s, t, e);
    } else {
      RefuseKeepsInv(s, t, e);
    }
  }

  // ----- Runs -----

  predicate IsRun(s: System, steps: seq<Step>)
    decreases |steps|
  {
    steps == [] || (Enabled(s, steps[0]) && IsRun(Apply(s, steps[0]), steps[1..]))
  }

  function Run(s: System, steps: seq<Step>): System
    requires IsRun(s, steps)
    decreases |steps|
  {
    if steps == [] then s else Run(Apply(s, steps[0]), steps[1..])
  }

  lemma {:induction false} RunKeepsInv(s: System, steps: seq<Step>)
    requires Inv(s) && IsRun(s, steps)
    ensures Inv(Run(s, steps))
    decreases |steps|
  {
    hide Inv, Apply, Enabled;
    if steps != [] {
      match steps[0] {
        case Emit(_, _, _, _, _) => EmitKeepsInv(s, steps[0]);
        case Enter(e) => EnterKeepsInv(s, e);
        case Handle => HandleKeepsInv(s);
      }
      RunKeepsInv(Apply(s, steps[0]), steps[1..]);
    }
  }

  lemma StartIsInv()
    ensures Inv(START)
  {
  }

  lemma {:induction false} OccursOnce(events: seq<Event>, k: nat)
    requires k < |events| && forall i, j :: 0 <= i < j < |events| ==> events[i] != events[j]
    ensures multiset(events)[events[k]] == 1
  {
    var before, after := events[..k], events[k + 1..];
    assert events == before + [events[k]] + after;
    assert events[k] !in before && events[k] !in after;
  }

  /** In a drained bridge every terminal event was handled exactly once, and no event twice. */
  lemma TerminalsAreHandledOnce(steps: seq<Step>, k: nat)
    requires IsRun(START, steps) && k < |Run(START, steps).emitted|
    ensures var s := Run(START, steps);
      var e := s.emitted[k];
      && multiset(s.handled)[e] <= 1
      && (IsTerminal(e) ==> multiset(s.handled)[e] + multiset(s.channel.queue)[e] + s.channel.waiting[e] == 1)
      && (IsTerminal(e) && Drained(s) ==> multiset(s.handled)[e] == 1)
    ensures forall e :: e in Run(START, steps).handled ==> e in Run(START, steps).emitted
  {
    hide Run, IsRun, Ordered, Replay;
    var s := Run(START, steps);
    StartIsInv();
    RunKeepsInv(START, steps);
    EachIsSomewhere(s, k);
    forall e | e in s.handled ensures e in s.emitted {
      assert e in Arrived(s);
      ArrivedIsStamped(s, e);
    }
  }

  lemma EachIsSomewhere(s: System, k: nat)
    requires Kept(s) && Stamped(s) && OnlyTerminalsWait(s) && k < |s.emitted|
    ensures var e := s.emitted[k];
      multiset(s.handled)[e] + multiset(s.channel.queue)[e] + s.channel.waiting[e]
      + (if IsTerminal(e) then 0 else multiset(s.dropped)[e]) == 1
  {
    hide IsTerminal;
    var e := s.emitted[k];
    OccursOnce(s.emitted, k);
    assert multiset(Arrived(s)) == multiset(s.handled) + multiset(s.channel.queue);
    assert multiset(s.emitted)[e] == multiset(Arrived(s))[e] + s.channel.waiting[e] + multiset(s.dropped)[e];
    assert e in s.dropped <==> multiset(s.dropped)[e] > 0;
  }

  /** Only a terminal event that had to wait is handled after something emitted later. */
  lemma OvertakingNeedsATerminal(steps: seq<Step>, i: nat, j: nat)
    requires IsRun(START, steps) && i < j < |Run(START, steps).handled|
    requires Run(START, steps).handled[i].stamp > Run(START, steps).handled[j].stamp
    ensures IsTerminal(Run(START, steps).handled[j])
  {
    hide Run, IsRun, Replay, IsTerminal;
    var s := Run(START, steps);
    StartIsInv();
    RunKeepsInv(START, steps);
    assert Arrived(s)[i] == s.handled[i] && Arrived(s)[j] == s.handled[j];
  }

  // ----- Jobs that end -----

  /** The engine emits a job's terminal event after all its other events. */
  predicate TerminalIsLast(emitted: seq<Event>, job: string) {
    forall i, j :: 0 <= i < j < |emitted| && emitted[i].job == job && emitted[j].job == job ==> !IsTerminal(emitted[i])
  }

  /** Then it is handled after all of them that survived, even when it had to wait. */
  lemma TerminalIsHandledLast(s: System, job: string, i: nat, j: nat)
    requires Inv(s) && TerminalIsLast(s.emitted, job)
    requires i < j < |s.handled| && s.handled[i].job == job && s.handled[j].job == job
    ensures !IsTerminal(s.handled[i])
  {
    hide Replay, IsTerminal;
    var x, y := s.handled[i], s.handled[j];
    assert Arrived(s)[i] == x && Arrived(s)[j] == y;
    ArrivedIsStamped(s, x);
    ArrivedIsStamped(s, y);
    if x == y {
      EachIsSomewhere(s, x.stamp);
      TwiceInSeq(s.handled, i, j);
      assert false;
    }
  }

  lemma TwiceInSeq(events: seq<Event>, i: nat, j: nat)
    requires i < j < |events| && events[i] == events[j]
    ensures multiset(events)[events[i]] >= 2
  {
    assert events == events[..i] + [events[i]] + events[i + 1..j] + [events[j]] + events[j + 1..];
  }

  function LastOf(handled: seq<Event>, job: string): Option<Event> {
    if handled == [] then None
    else if handled[|handled| - 1].job == job then Some(handled[|handled| - 1])
    else LastOf(handled[..|handled| - 1], job)
  }

  /** A job has a context exactly when the last of its events handled so far is not terminal. */
  lemma {:induction false} ContextsFollowLastEvent(handled: seq<Event>, job: string)
    ensures job in Replay(handled) <==> LastOf(handled, job).Some? && !IsTerminal(LastOf(handled, job).value)
    ensures job in Replay(handled) ==>
      && Replay(handled)[job].header == LastOf(handled, job).value.header
      && Replay(handled)[job].requester == LastOf(handled, job).value.requester
  {
    if handled != [] {
      ContextsFollowLastEvent(handled[..|handled| - 1], job);
    }
  }

  /** A job has ended when the last event emitted for it is terminal. */
  predicate Ended(emitted: seq<Event>, job: string) {
    LastOf(emitted, job).Some? && IsTerminal(LastOf(emitted, job).value)
  }

  lemma {:induction false} LastOfIsLast(events: seq<Event>, job: string)
    ensures LastOf(events, job) == None ==> forall i :: 0 <= i < |events| ==> events[i].job != job
    ensures LastOf(events, job).Some? ==>
      exists k :: 0 <= k < |events| && events[k] == LastOf(events, job).value && events[k].job == job
        && forall j :: k < j < |events| ==> events[j].job != job
  {
    if events != [] {
      var n := |events| - 1;
      LastOfIsLast(events[..n], job);
      LastOfStep(events, job);
      hide LastOf;
      assert forall i :: 0 <= i < n ==> events[..n][i] == events[i];
      if events[n].job != job && LastOf(events, job).Some? {
        var k :| 0 <= k < n && events[..n][k] == LastOf(events, job).value && events[..n][k].job == job
          && forall j :: k < j < n ==> events[..n][j].job != job;
        assert events[k] == LastOf(events, job).value;
      }
    }
  }

  lemma LastOfStep(events: seq<Event>, job: string)
    requires events != []
    ensures var last := events[|events| - 1];
      LastOf(events, job) == if last.job == job then Some(last) else LastOf(events[..|events| - 1], job)
  {
  }

  /**
    When the last event of a job among those emitted is terminal, so is the last one handled, in
    every drained state: nothing that is not terminal can overtake it.
  */
  lemma LastHandledIsTerminal(s: System, job: string)
    requires Inv(s) && Drained(s) && Ended(s.emitted, job)
    ensures Ended(s.handled, job)
  {
    hide Replay, IsTerminal, LastOf;
    LastOfIsLast(s.emitted, job);
    var e := LastOf(s.emitted, job).value;
    var k :| 0 <= k < |s.emitted| && s.emitted[k] == e && e.job == job
      && forall j :: k < j < |s.emitted| ==> s.emitted[j].job != job;
    EachIsSomewhere(s, k);
    assert e in s.handled;
    var at :| 0 <= at < |s.handled| && s.handled[at] == e;
    LastOfIsLast(s.handled, job);
    var g := LastOf(s.handled, job).value;
    var i :| 0 <= i < |s.handled| && s.handled[i] == g && g.job == job
      && forall j :: i < j < |s.handled| ==> s.handled[j].job != job;
    assert Arrived(s)[at] == e && Arrived(s)[i] == g;
    ArrivedIsStamped(s, e);
    ArrivedIsStamped(s, g);
    assert g.stamp <= k == e.stamp;
    assert at <= i;
  }

  /** Once drained, the registry holds no context for a job that ended. */
  lemma EndedJobsAreForgotten(steps: seq<Step>, job: string)
    requires IsRun(START, steps) && Drained(Run(START, steps)) && Ended(Run(START, steps).emitted, job)
    ensures job !in Run(START, steps).contexts
  {
    hide Run, IsRun, Replay, IsTerminal, Ordered, Kept, Stamped, OnlyTerminalsWait, LastOf;
    StartIsInv();
    RunKeepsInv(START, steps);
    LastHandledIsTerminal(Run(START, steps), job);
    ContextsFollowLastEvent(Run(START, steps).handled, job);
  }

  // ----- The exact condition -----

  lemma RunAppend(s: System, steps: seq<Step>, step: Step)
    requires IsRun(s, steps) && Enabled(Run(s, steps), step)
    ensures IsRun(s, steps + [step]) && Run(s, steps + [step]) == Apply(Run(s, steps), step)
    decreases |steps|
  {
    hide Enabled, Apply;
    if steps == [] {
      assert steps + [step] == [step] && [step][1..] == [];
      assert IsRun(Apply(s, step), []);
    } else {
      assert (steps + [step])[0] == steps[0] && (steps + [step])[1..] == steps[1..] + [step];
      RunAppend(Apply(s, steps[0]), steps[1..], step);
    }
  }

  function EmitOf(e: Event): Step {
    Emit(e.job, e.header, e.requester, e.change, true)
  }

  /** Every order of emissions has a run in which the consumer keeps up: all events are handled in that order. */
  lemma {:induction false} PromptRun(emitted: seq<Event>) returns (steps: seq<Step>)
    requires forall k :: 0 <= k < |emitted| ==> emitted[k].stamp == k
    ensures IsRun(START, steps) && Drained(Run(START, steps))
    ensures Run(START, steps).emitted == emitted && Run(START, steps).handled == emitted
    decreases |emitted|
  {
    hide IsRun, Run, AfterHandling;
    if emitted == [] {
      steps := [];
      EmptyRun();
    } else {
      var n := |emitted| - 1;
      var e := emitted[n];
      var before := PromptRun(emitted[..n]);
      var s := Run(START, before);
      RunAppend(START, before, EmitOf(e));
      RunAppend(START, before + [EmitOf(e)], Handle);
      steps := before + [EmitOf(e)] + [Handle];
      assert emitted == emitted[..n] + [e];
      assert Apply(s, EmitOf(e)).channel.queue == [e];
    }
  }

  lemma EmptyRun()
    ensures IsRun(START, []) && Run(START, []) == START
  {
  }

  /**
    For every order of emissions: each drained run with that order has forgotten the job exactly when
    the job was never mentioned or the last event emitted for it is terminal.
  */
  lemma ForgottenIff(emitted: seq<Event>, job: string)
    requires forall k :: 0 <= k < |emitted| ==> emitted[k].stamp == k
    ensures (forall steps :: IsRun(START, steps) && Drained(Run(START, steps)) && Run(START, steps).emitted == emitted
              ==> job !in Run(START, steps).contexts)
      <==> (LastOf(emitted, job) == None || Ended(emitted, job))
  {
    hide Run, IsRun, Replay, IsTerminal, Ordered, Kept, Stamped, OnlyTerminalsWait, LastOf;
    if LastOf(emitted, job) == None || Ended(emitted, job) {
      forall steps | IsRun(START, steps) && Drained(Run(START, steps)) && Run(START, steps).emitted == emitted
        ensures job !in Run(START, steps).contexts
      {
        if Ended(emitted, job) {
          EndedJobsAreForgotten(steps, job);
        } else {
          UnknownJobsHaveNoContext(steps, job);
        }
      }
    } else {
      var steps := PromptRun(emitted);
      StartIsInv();
      RunKeepsInv(START, steps);
      ContextsFollowLastEvent(emitted, job);
      assert job in Run(START, steps).contexts;
    }
  }

  lemma UnknownJobsHaveNoContext(steps: seq<Step>, job: string)
    requires IsRun(START, steps) && LastOf(Run(START, steps).emitted, job) == None
    ensures job !in Run(START, steps).contexts
  {
    hide Run, IsRun, Replay, Ordered, LastOf, IsTerminal;
    var s := Run(START, steps);
    StartIsInv();
    RunKeepsInv(START, steps);
    LastOfIsLast(s.emitted, job);
    LastOfIsLast(s.handled, job);
    ContextsFollowLastEvent(s.handled, job);
    if LastOf(s.handled, job).Some? {
      var k :| 0 <= k < |s.handled| && s.handled[k] == LastOf(s.handled, job).value && s.handled[k].job == job;
      assert s.handled[k] in Arrived(s);
      ArrivedIsStamped(s, s.handled[k]);
    }
  }

  /** A job that speaks up again after its end keeps a context for good when the consumer keeps up. */
  lemma LateEventLeaksAContext(ending: Event, late: Event) returns (steps: seq<Step>)
    requires ending.stamp == 0 && late.stamp == 1 && ending.job == late.job
    requires IsTerminal(ending) && !IsTerminal(late)
    ensures IsRun(START, steps) && Drained(Run(START, steps))
    ensures Run(START, steps).emitted == [ending, late] && late.job in Run(START, steps).contexts
  {
    hide Run, IsRun, Replay, IsTerminal, Ordered, Kept, Stamped, OnlyTerminalsWait;
    steps := PromptRun([ending, late]);
    StartIsInv();
    RunKeepsInv(START, steps);
    ContextsFollowLastEvent([ending, late], late.job);
  }

  // ----- Draining -----

  function Work(s: System): nat {
    2 * |s.channel.waiting| + |s.channel.queue|
  }

  /** Without new events the bridge drains after exactly this many moves, and is never stuck before. */
  lemma {:induction false} DrainTakesExactly(s: System, steps: seq<Step>)
    requires IsRun(s, steps) && forall step :: step in steps ==> !step.Emit?
    ensures Work(Run(s, steps)) == Work(s) - |steps|
    ensures |steps| == Work(s) <==> Drained(Run(s, steps))
    ensures !Drained(s) ==> Enabled(s, Handle) || exists e :: Enabled(s, Enter(e))
    decreases |steps|
  {
    if steps == [] {
      if |s.channel.queue| == 0 && |s.channel.waiting| > 0 {
        var e :| e in s.channel.waiting;
        assert Enabled(s, Enter(e));
      }
    } else {
      assert steps[0] in steps;
      var next := Apply(s, steps[0]);
      assert Work(next) == Work(s) - 1;
      DrainTakesExactly(next, steps[1..]);
    }
  }

  // ----- What happens to one event -----

  /**
    While fewer than 256 events are queued or waiting, an emitted event joins the queue; once 256 are queued,
    an ending waits for a place and anything else is dropped. The queue never holds more.
  */
  lemma EmittedEventGoesWhere(s: System, step: Step)
    requires Inv(s) && step.Emit? && Enabled(s, step)
    ensures var t, e := Apply(s, step), Event(|s.emitted|, step.job, step.header, step.requester, step.change);
      && t.emitted == s.emitted + [e] && |t.channel.queue| <= 256
      && (|s.channel.queue| + |s.channel.waiting| < 256 ==>
            t.channel.queue == s.channel.queue + [e] && t.channel.waiting == s.channel.waiting
            && t.dropped == s.dropped)
      && (|s.channel.queue| == 256 ==>
            && t.channel.queue == s.channel.queue
            && (if step.change in {Completed, Cancelled, Failed} then
                  t.channel.waiting == s.channel.waiting + multiset{e} && t.dropped == s.dropped
                else t.channel.waiting == s.channel.waiting && t.dropped == s.dropped + [e]))
  {
    hide Kept, Stamped, OnlyTerminalsWait, Ordered, Replay;
  }

  /** In every run whatever was dropped is no ending, and every ending is handled, queued or waiting. */
  lemma EndingsAreNeverLost(steps: seq<Step>, k: nat)
    requires IsRun(START, steps) && k < |Run(START, steps).emitted|
    requires Run(START, steps).emitted[k].change in {Completed, Cancelled, Failed}
    ensures var s := Run(START, steps);
      var e := s.emitted[k];
      && e !in s.dropped
      && (e in s.handled || e in s.channel.queue || e in s.channel.waiting)
      && (s.channel.queue == [] && s.channel.waiting == multiset{} ==> e in s.handled)
  {
    hide Run, IsRun, Ordered, Replay;
    StartIsInv();
    RunKeepsInv(START, steps);
    TerminalsAreHandledOnce(steps, k);
  }

  // ----- What the registry shows of a job -----

  /** The event reports the job's lanes. */
  predicate Reports(e: Event, job: string) {
    e.change.Progress? && e.change.of == job
  }

  predicate EndsJob(e: Event, job: string) {
    e.job == job && e.change in {Completed, Cancelled, Failed}
  }

  lemma ReplayStep(handled: seq<Event>)
    requires handled != []
    ensures Replay(handled) == AfterHandling(Replay(handled[..|handled| - 1]), handled[|handled| - 1])
  {
  }

  lemma LanesAfterOne(contexts: Contexts, e: Event, job: string)
    ensures EndsJob(e, job) ==> job !in AfterHandling(contexts, e)
    ensures job in AfterHandling(contexts, e) ==> !EndsJob(e, job) && (job in contexts || e.job == job)
    ensures job in contexts && !EndsJob(e, job) ==> job in AfterHandling(contexts, e)
    ensures job in AfterHandling(contexts, e) ==>
      AfterHandling(contexts, e)[job].lanes ==
        if Reports(e, job) then e.change.lanes else if job in contexts then contexts[job].lanes else NO_LANES
  {
  }

  /** A job's own report is what is shown until the next report of that job or the job's end. */
  lemma {:induction false} LatestReportIsShown(handled: seq<Event>, job: string, k: nat)
    requires k < |handled| && handled[k].job == job && Reports(handled[k], job)
    requires forall j :: k < j < |handled| ==> !Reports(handled[j], job) && !EndsJob(handled[j], job)
    ensures job in Replay(handled) && Replay(handled)[job].lanes == handled[k].change.lanes
  {
    hide Replay, AfterHandling;
    var n := |handled| - 1;
    ReplayStep(handled);
    LanesAfterOne(Replay(handled[..n]), handled[n], job);
    if k < n {
      LatestReportIsShown(handled[..n], job, k);
    } else {
      OwnReportIsShown(Replay(handled[..n]), handled[n]);
    }
  }

  lemma OwnReportIsShown(contexts: Contexts, e: Event)
    requires Reports(e, e.job)
    ensures e.job in AfterHandling(contexts, e) && AfterHandling(contexts, e)[e.job].lanes == e.change.lanes
  {
  }

  /** A job without a report since it last ended shows no lanes. */
  lemma {:induction false} NothingReportedNothingShown(handled: seq<Event>, job: string, from: nat)
    requires from <= |handled| && (from > 0 ==> EndsJob(handled[from - 1], job))
    requires forall j :: from <= j < |handled| ==> !Reports(handled[j], job)
    ensures job in Replay(handled) ==>
      Replay(handled)[job].lanes.activity == None && Replay(handled)[job].lanes.download == None
      && Replay(handled)[job].lanes.upload == None
  {
    if handled != [] {
      hide Replay, AfterHandling;
      var n := |handled| - 1;
      ReplayStep(handled);
      LanesAfterOne(Replay(handled[..n]), handled[n], job);
      if from <= n {
        NothingReportedNothingShown(handled[..n], job, from);
      }
    }
  }
}

/**
  The queue object: the state guarded by one mutex, and one method per lock section.
  Each method is tied to a function on `QueueState`; the interleavings of those
  sections are the subject of module `RipQueueSystem`.
*/
module RipQueue {
  import opened Sequences

  /** A queued item: `notifies` says whether the submitter passed a position callback. */
  datatype Item = Item(id: nat, notifies: bool)

  /** A position computed for the callback of item `id`. */
  datatype Notice = Notice(id: nat, position: nat)

  datatype QueueState = QueueState(pending: seq<Item>, active: Option<nat>, processing: bool, nextId: nat)

  const INITIAL := QueueState([], None, false, 1)

  /** The notices for the items from index `from` on: 1-based ranks, only for items that listen. */
  function Ranks(pending: seq<Item>, from: nat): seq<Notice>
    decreases |pending| - from
  {
    if from >= |pending| then []
    else (if pending[from].notifies then [Notice(pending[from].id, from + 1)] else []) + Ranks(pending, from + 1)
  }

  /** The index of item `id`, or the length when it is not there. */
  function IndexOf(pending: seq<Item>, id: nat): (i: nat)
    ensures i <= |pending|
    ensures i < |pending| ==> pending[i].id == id
    ensures forall k :: 0 <= k < i ==> pending[k].id != id
  {
    if pending == [] || pending[0].id == id then 0 else 1 + IndexOf(pending[1..], id)
  }

  function AfterSubmit(q: QueueState, notifies: bool): QueueState {
    QueueState(q.pending + [Item(q.nextId, notifies)], q.active, true, q.nextId + 1)
  }

  /** The submitter hears its rank only when a worker is already there. */
  function SubmitNotices(q: QueueState, notifies: bool): seq<Notice> {
    if q.processing && notifies then [Notice(q.nextId, |q.pending| + 1)] else []
  }

  function AfterClear(q: QueueState): QueueState {
    q.(pending := [])
  }

  function Without(pending: seq<Item>, i: nat): seq<Item>
    requires i < |pending|
  {
    pending[..i] + pending[i + 1..]
  }

  function AfterAbort(q: QueueState, id: nat): QueueState {
    var i := IndexOf(q.pending, id);
    if i < |q.pending| then q.(pending := Without(q.pending, i)) else q
  }

  function AbortNotices(q: QueueState, id: nat): seq<Notice> {
    var i := IndexOf(q.pending, id);
    if i < |q.pending| then Ranks(Without(q.pending, i), i) else []
  }

  function AfterTake(q: QueueState): QueueState {
    if q.pending == [] then q.(active := None, processing := false)
    else q.(pending := q.pending[1..], active := Some(q.pending[0].id))
  }

  function TakeNotices(q: QueueState): seq<Notice> {
    if q.pending == [] then [] else Ranks(q.pending[1..], 0)
  }

  function AfterRelease(q: QueueState): QueueState {
    q.(active := None, processing := q.processing && q.pending != [])
  }

  lemma RanksStep(pending: seq<Item>, from: nat)
    requires from < |pending|
    ensures Ranks(pending, from)
         == (if pending[from].notifies then [Notice(pending[from].id, from + 1)] else []) + Ranks(pending, from + 1)
  {
  }

  lemma RanksEnd(pending: seq<Item>, from: nat)
    requires from >= |pending|
    ensures Ranks(pending, from) == []
  {
  }

  lemma {:induction false} RanksExtend(pending: seq<Item>, from: nat, upTo: nat)
    requires from <= upTo < |pending|
    ensures Ranks(pending[..upTo + 1], from)
         == Ranks(pending[..upTo], from)
          + if pending[upTo].notifies then [Notice(pending[upTo].id, upTo + 1)] else []
    decreases upTo - from
  {
    hide Ranks;
    var shorter, longer := pending[..upTo], pending[..upTo + 1];
    if from < upTo {
      RanksExtend(pending, from + 1, upTo);
      assert shorter[from] == longer[from];
      RanksStep(shorter, from);
      RanksStep(longer, from);
    } else {
      RanksEnd(shorter, from);
      RanksStep(longer, from);
      RanksEnd(longer, from + 1);
    }
  }

  class SequentialRipQueue {
    var pending: seq<Item>
    var active: Option<nat>
    var processing: bool
    var nextId: nat

    function State(): QueueState
      reads this
    {
      QueueState(pending, active, processing, nextId)
    }

    constructor ()
      ensures State() == INITIAL
    {
      pending, active, processing, nextId := [], None, false, 1;
    }

    /** Rejects an already cancelled submission; otherwise appends the item under the lock. */
    method Submit(notifies: bool, alreadyCancelled: bool)
      returns (id: Option<nat>, startWorker: bool, notice: seq<Notice>)
      modifies this
      ensures alreadyCancelled ==> id == None && State() == old(State()) && !startWorker && notice == []
      ensures !alreadyCancelled ==>
        id == Some(old(nextId)) && State() == AfterSubmit(old(State()), notifies) &&
        startWorker == !old(processing) && notice == SubmitNotices(old(State()), notifies)
    {
      if alreadyCancelled {
        return None, false, [];
      }
      id := Some(nextId);
      startWorker := !processing;
      processing := true;
      var position := |pending| + 1;
      pending := pending + [Item(nextId, notifies)];
      notice := if startWorker || !notifies then [] else [Notice(nextId, position)];
      nextId := nextId + 1;
    }

    /** Drains the pending items; the caller fails them one by one after the lock is gone. */
    method Clear() returns (drained: seq<Item>)
      modifies this`pending
      ensures drained == old(pending)
      ensures State() == AfterClear(old(State()))
    {
      drained := pending;
      pending := [];
    }

    /** First lock section of an abort: takes the item out and renumbers the ones behind it. */
    method AbortPending(id: nat) returns (removed: Option<Item>, notices: seq<Notice>)
      modifies this`pending
      ensures State() == AfterAbort(old(State()), id)
      ensures notices == AbortNotices(old(State()), id)
      ensures removed == var i := IndexOf(old(pending), id); if i < |old(pending)| then Some(old(pending)[i]) else None
    {
      var index := 0;
      while index < |pending| && pending[index].id != id
        invariant index <= IndexOf(pending, id)
      {
        index := index + 1;
      }
      if index == |pending| {
        return None, [];
      }
      removed := Some(pending[index]);
      pending := Without(pending, index);
      notices := RanksFrom(pending, index);
    }

    /**
      A whole abort with nobody between its two lock sections: a pending item is taken out, and the
      child token is cancelled for a pending and for the active item, and for no other.
    */
    method AbortItem(id: nat) returns (removed: Option<Item>, notices: seq<Notice>, cancelsChild: bool)
      modifies this`pending
      ensures State() == AfterAbort(old(State()), id)
      ensures notices == AbortNotices(old(State()), id)
      ensures removed.Some? <==> exists item :: item in old(pending) && item.id == id
      ensures cancelsChild <==> removed.Some? || active == Some(id)
    {
      removed, notices := AbortPending(id);
      var i := IndexOf(old(pending), id);
      if i < |old(pending)| {
        assert old(pending)[i] in old(pending);
      }
      cancelsChild := removed.Some?;
      if removed == None {
        cancelsChild := active == Some(id);
      }
    }

    /** The lock section at the head of the worker loop; the worker exits when nothing is pending. */
    method TakeNext() returns (item: Option<Item>, notices: seq<Notice>)
      modifies this
      ensures State() == AfterTake(old(State()))
      ensures item == if old(pending) == [] then None else Some(old(pending)[0])
      ensures notices == TakeNotices(old(State()))
    {
      if pending == [] {
        active := None;
        processing := false;
        return None, [];
      }
      item := Some(pending[0]);
      pending := pending[1..];
      active := Some(item.value.id);
      notices := RanksFrom(pending, 0);
    }

    /** The lock section after a task: the worker exits exactly when nothing is pending. */
    method Release() returns (exits: bool)
      modifies this`active, this`processing
      ensures State() == AfterRelease(old(State()))
      ensures exits == (pending == [])
    {
      active := None;
      exits := pending == [];
      if exits {
        processing := false;
      }
    }
  }

  /** The iterator that pairs callbacks with ranks. */
  method RanksFrom(pending: seq<Item>, from: nat) returns (notices: seq<Notice>)
    requires from <= |pending|
    ensures notices == Ranks(pending, from)
  {
    notices := [];
    assert pending[..|pending|] == pending;
    for i := from to |pending|
      invariant notices == Ranks(pending[..i], from)
    {
      RanksExtend(pending, from, i);
      if pending[i].notifies {
        notices := notices + [Notice(pending[i].id, i + 1)];
      }
    }
  }
}

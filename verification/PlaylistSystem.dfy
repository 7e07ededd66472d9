/**
  Every interleaving of playlist calls. An add is not a transaction: it looks at the positions once
  and then sends one insert per id, and other calls may run between any two of these statements.
  A remove is one statement and a reorder one transaction, so each is one step.
*/
module PlaylistSystem {
  import opened Sequences
  import opened Playlists

  /**
    An add after its look at the positions: the ids still to insert and the position of the next row.
    `stampFails` is what will become of its last statement, which touches no membership row.
  */
  datatype Adding = Adding(playlist: I32, ids: seq<I32>, next: int, inserted: nat, stampFails: bool)

  datatype System = System(db: Db, adds: map<nat, Adding>, answers: map<nat, Result<nat, Error>>)

  datatype Step =
    | Begin(add: nat, user: int, playlist: I32, ids: seq<I32>, stampFails: bool)
    | Insert(add: nat)
    | Fail(add: nat)
    | Whole(call: Call)

  predicate Enabled(s: System, step: Step) {
    match step
    case Begin(add, _, _, _, _) => add !in s.adds && add !in s.answers
    case Insert(add) => add in s.adds && s.adds[add].ids != []
    case Fail(add) => add in s.adds
    case Whole(call) => !call.Add?
  }

  /** The row the next insert of this add is about. */
  function Key(s: System, add: nat): (I32, I32)
    requires Enabled(s, Insert(add))
  {
    (s.adds[add].playlist, s.adds[add].ids[0])
  }

  /** The next insert really writes a row: it does not exist yet, and its track does. */
  predicate Writes(s: System, add: nat)
    requires Enabled(s, Insert(add))
  {
    Key(s, add) !in s.db.rows && Key(s, add).1 in s.db.tracks
  }

  function Answered(s: System, add: nat, answer: Result<nat, Error>): System {
    s.(adds := s.adds - {add}, answers := s.answers[add := answer])
  }

  /** The answer after all inserts: only rows that were written make the time stamp matter. */
  function Stamped(inserted: nat, stampFails: bool): Result<nat, Error> {
    if inserted > 0 && stampFails then Err(Database) else Ok(inserted)
  }

  function AfterInsert(s: System, add: nat): System
    requires Enabled(s, Insert(add))
  {
    var a, key := s.adds[add], Key(s, add);
    if key !in s.db.rows && key.1 !in s.db.tracks then Answered(s, add, Err(Database))
    else
      var one := if Writes(s, add) then 1 else 0;
      var rows := if Writes(s, add) then s.db.rows[key := a.next] else s.db.rows;
      var t := s.(db := s.db.(rows := rows));
      if |a.ids| == 1 then Answered(t, add, Stamped(a.inserted + one, a.stampFails))
      else t.(adds := t.adds[add := Adding(a.playlist, a.ids[1..], a.next + one, a.inserted + one, a.stampFails)])
  }

  ghost function Apply(s: System, step: Step): System
    requires Enabled(s, step)
  {
    match step
    case Begin(add, user, playlist, ids, stampFails) =>
      if ids == [] then Answered(s, add, Ok(0))
      else if !Owned(s.db, user, playlist) then Answered(s, add, Err(NotFound))
      else s.(adds := s.adds[add := Adding(playlist, ids, NextPosition(s.db.rows, playlist), 0, stampFails)])
    case Insert(add) => AfterInsert(s, add)
    case Fail(add) => Answered(s, add, Err(Database))
    case Whole(call) => s.(db := AfterCall(s.db, call))
  }

  // ----- What one insert does to a list -----

  /** No row of the playlist holds the position the add remembers. */
  ghost predicate PositionIsFree(s: System, add: nat)
    requires add in s.adds
  {
    forall t :: (s.adds[add].playlist, t) in s.db.rows ==>
      s.db.rows[(s.adds[add].playlist, t)] != s.adds[add].next
  }

  /** All rows of the playlist come before the position the add remembers. */
  ghost predicate PositionIsLast(s: System, add: nat)
    requires add in s.adds
  {
    forall t :: (s.adds[add].playlist, t) in s.db.rows ==>
      s.db.rows[(s.adds[add].playlist, t)] < s.adds[add].next
  }

  lemma InsertRows(s: System, add: nat)
    requires Enabled(s, Insert(add))
    ensures AfterInsert(s, add).db ==
      if Writes(s, add) then s.db.(rows := s.db.rows[Key(s, add) := s.adds[add].next]) else s.db
  {
  }

  /**
    An insert at a remembered position keeps positions distinct exactly when it writes nothing or
    the position is still free.
  */
  lemma InsertKeepsValidIff(s: System, add: nat)
    requires Valid(s.db) && Enabled(s, Insert(add))
    ensures Valid(AfterInsert(s, add).db) <==> !Writes(s, add) || PositionIsFree(s, add)
  {
    InsertRows(s, add);
    if Writes(s, add) {
      var key, next := Key(s, add), s.adds[add].next;
      var rows' := s.db.rows[key := next];
      if PositionIsFree(s, add) {
        forall b | b in s.db.rows && b.0 == key.0 ensures s.db.rows[b] != next {
          assert (key.0, b.1) == b;
        }
      } else {
        var t :| (key.0, t) in s.db.rows && s.db.rows[(key.0, t)] == next;
        assert (key.0, t) != key && rows'[(key.0, t)] == rows'[key];
      }
    }
  }

  /** The insert appends its id to the list when the list does not have it yet and the track exists. */
  function AppendOne(tracks: set<I32>, list: seq<I32>, id: I32): seq<I32> {
    if id in list || id !in tracks then list else list + [id]
  }

  lemma OthersSeeNoInsert(s: System, add: nat)
    requires Enabled(s, Insert(add))
    ensures OthersKept(s.db.rows, AfterInsert(s, add).db.rows, s.adds[add].playlist)
  {
    InsertRows(s, add);
  }

  lemma WritesIff(s: System, add: nat)
    requires Valid(s.db) && Enabled(s, Insert(add))
    ensures var pl, id := s.adds[add].playlist, s.adds[add].ids[0];
      Writes(s, add) <==> id !in Tracks(s.db, pl) && id in s.db.tracks
  {
    hide Tracks, Valid;
    var pl, id := s.adds[add].playlist, s.adds[add].ids[0];
    TableShowsItsTracks(s.db, pl);
    InListIffInRows(s.db.rows, pl, Tracks(s.db, pl), id);
  }

  /**
    Exactly when it writes nothing or its position comes after all rows does an insert append its
    id to the list and leave every other list alone.
  */
  lemma InsertAppendsIff(s: System, add: nat)
    requires Valid(s.db) && Enabled(s, Insert(add))
    ensures var pl, t := s.adds[add].playlist, AfterInsert(s, add);
      (Valid(t.db) && Tracks(t.db, pl) == AppendOne(s.db.tracks, Tracks(s.db, pl), s.adds[add].ids[0])
        && forall other: I32 :: other != pl ==> Tracks(t.db, other) == Tracks(s.db, other))
      <==> !Writes(s, add) || PositionIsLast(s, add)
  {
    hide Tracks, Valid, OthersKept;
    var pl, id, next := s.adds[add].playlist, s.adds[add].ids[0], s.adds[add].next;
    var list, t := Tracks(s.db, pl), AfterInsert(s, add);
    InsertRows(s, add);
    WritesIff(s, add);
    TableShowsItsTracks(s.db, pl);
    if Writes(s, add) {
      if PositionIsLast(s, add) {
        SnocIncreases(s.db.rows, pl, list, id, next);
        OthersSeeNoInsert(s, add);
        SnocIsTracks(s.db, pl, list, id);
        RewrittenRows(s.db, t.db.rows, pl, list + [id]);
      } else if Valid(t.db) && Tracks(t.db, pl) == list + [id] {
        TableShowsItsTracks(t.db, pl);
        LastIsLast(t.db.rows, pl, list, id);
      }
    }
  }

  lemma SnocIsTracks(db: Db, playlist: I32, list: seq<I32>, id: I32)
    requires Valid(db) && Shows(db.rows, playlist, list) && id in db.tracks
    ensures forall t :: t in list + [id] ==> t in db.tracks
  {
    forall t | t in list ensures t in db.tracks {
      assert (playlist, t).1 == t;
    }
  }

  lemma LastIsLast(rows: Rows, playlist: I32, list: seq<I32>, id: I32)
    requires Shows(rows, playlist, list + [id])
    ensures (playlist, id) in rows
    ensures forall t :: t in list ==> (playlist, t) in rows && rows[(playlist, t)] < rows[(playlist, id)]
  {
    var all := list + [id];
    assert all[|list|] == id && id in all;
    forall t | t in list ensures (playlist, t) in rows && rows[(playlist, t)] < rows[(playlist, id)] {
      var i :| 0 <= i < |list| && list[i] == t;
      assert all[i] == t && t in all;
    }
  }

  // ----- Runs -----

  ghost predicate IsRun(s: System, steps: seq<Step>)
    decreases |steps|
  {
    steps == [] || (Enabled(s, steps[0]) && IsRun(Apply(s, steps[0]), steps[1..]))
  }

  ghost function Run(s: System, steps: seq<Step>): System
    requires IsRun(s, steps)
    decreases |steps|
  {
    if steps == [] then s else Run(Apply(s, steps[0]), steps[1..])
  }

  /** Positions stay distinct all along the run. */
  ghost predicate StaysValid(s: System, steps: seq<Step>)
    requires IsRun(s, steps)
    decreases |steps|
  {
    Valid(s.db) && (steps == [] || StaysValid(Apply(s, steps[0]), steps[1..]))
  }

  /** Every insert of the run that writes a row finds its position free. */
  ghost predicate NeverCollides(s: System, steps: seq<Step>)
    requires IsRun(s, steps)
    decreases |steps|
  {
    steps == [] ||
    (&& (steps[0].Insert? && Writes(s, steps[0].add) ==> PositionIsFree(s, steps[0].add))
     && NeverCollides(Apply(s, steps[0]), steps[1..]))
  }

  lemma StepKeepsValidIff(s: System, step: Step)
    requires Valid(s.db) && Enabled(s, step)
    ensures Valid(Apply(s, step).db)
      <==> (step.Insert? && Writes(s, step.add) ==> PositionIsFree(s, step.add))
  {
    hide Valid, AfterCall, AfterInsert, PositionIsFree, Writes;
    match step
    case Begin(_, _, _, _, _) =>
    case Insert(add) => InsertKeepsValidIff(s, add);
    case Fail(_) =>
    case Whole(call) => CallRefines(s.db, call);
  }

  /** Positions stay distinct all along a run exactly when no insert of it collides. */
  lemma {:induction false} StaysValidIff(s: System, steps: seq<Step>)
    requires Valid(s.db) && IsRun(s, steps)
    ensures StaysValid(s, steps) <==> NeverCollides(s, steps)
    decreases |steps|
  {
    hide Valid, Apply, Enabled, PositionIsFree, Writes;
    if steps != [] {
      StepKeepsValidIff(s, steps[0]);
      if Valid(Apply(s, steps[0]).db) {
        StaysValidIff(Apply(s, steps[0]), steps[1..]);
      } else {
        NotValidNow(Apply(s, steps[0]), steps[1..]);
      }
    }
  }

  lemma NotValidNow(s: System, steps: seq<Step>)
    requires IsRun(s, steps) && !Valid(s.db)
    ensures !StaysValid(s, steps)
  {
  }

  /**
    Two adds to an empty playlist that both looked before either inserted write their rows at one
    position: from then on the table stands for no list.
  */
  lemma TwoAddsCollide(s: System, a: nat, b: nat, user: int, playlist: I32, x: I32, y: I32) returns (steps: seq<Step>)
    requires Valid(s.db) && Owned(s.db, user, playlist) && Members(s.db.rows, playlist) == {}
    requires x != y && x in s.db.tracks && y in s.db.tracks
    requires a != b && {a, b} !! s.adds.Keys + s.answers.Keys
    ensures IsRun(s, steps)
    ensures Run(s, steps).db.rows == s.db.rows[(playlist, x) := 0][(playlist, y) := 0]
    ensures Run(s, steps).answers == s.answers[a := Ok(1)][b := Ok(1)]
    ensures !DistinctPositions(Run(s, steps).db.rows)
  {
    hide Valid, NextPosition;
    assert a !in s.adds && a !in s.answers && b !in s.adds && b !in s.answers;
    NoMembersNoRows(s.db.rows, playlist);
    assert IsNext(s.db.rows, playlist, NextPosition(s.db.rows, playlist));
    var s1 := Apply(s, Begin(a, user, playlist, [x], false));
    var s2 := Apply(s1, Begin(b, user, playlist, [y], false));
    assert s2.adds[a] == Adding(playlist, [x], 0, 0, false) && s2.adds[b] == Adding(playlist, [y], 0, 0, false);
    var s3 := Apply(s2, Insert(a));
    assert s3.db.rows == s.db.rows[(playlist, x) := 0] && s3.adds[b] == Adding(playlist, [y], 0, 0, false);
    var s4 := Apply(s3, Insert(b));
    assert s4.db.rows == s.db.rows[(playlist, x) := 0][(playlist, y) := 0];
    steps := [];
    RunCons(s3, Insert(b), []);
    RunCons(s2, Insert(a), [Insert(b)]);
    RunCons(s1, Begin(b, user, playlist, [y], false), [Insert(a)] + [Insert(b)]);
    var later := [Begin(b, user, playlist, [y], false)] + ([Insert(a)] + [Insert(b)]);
    RunCons(s, Begin(a, user, playlist, [x], false), later);
    steps := [Begin(a, user, playlist, [x], false)] + later;
    assert Insert(b) == ([Insert(b)] + [])[0] && [Insert(b)] + [] == [Insert(b)];
    assert s4.db.rows[(playlist, x)] == s4.db.rows[(playlist, y)];
  }

  lemma NoMembersNoRows(rows: Rows, playlist: I32)
    requires Members(rows, playlist) == {}
    ensures forall t :: (playlist, t) !in rows
  {
    forall t ensures (playlist, t) in rows ==> t in Members(rows, playlist) {
      assert (playlist, t).0 == playlist;
    }
  }

  lemma RunCons(s: System, step: Step, rest: seq<Step>)
    requires Enabled(s, step) && IsRun(Apply(s, step), rest)
    ensures IsRun(s, [step] + rest) && Run(s, [step] + rest) == Run(Apply(s, step), rest)
  {
    hide Enabled, Apply;
    assert ([step] + rest)[0] == step && ([step] + rest)[1..] == rest;
  }

  // ----- Runs that refine lists -----

  /** The adds in flight remember positions that come after all rows of their playlists. */
  ghost predicate Ahead(s: System) {
    forall add :: add in s.adds ==> s.adds[add].ids != [] && PositionIsLast(s, add)
  }

  /**
    No other add of the playlist is in flight when an add inserts, and none at all when the playlist
    is reordered. Removes may come at any time.
  */
  predicate Undisturbed(s: System, step: Step)
    requires Enabled(s, step)
  {
    match step
    case Insert(add) =>
      forall other :: other in s.adds && other != add ==> s.adds[other].playlist != s.adds[add].playlist
    case Whole(call) => call.Reorder? ==> forall other :: other in s.adds ==> s.adds[other].playlist != call.playlist
    case _ => true
  }

  /** The step as one playlist's list sees it. */
  function Seen(s: System, list: seq<I32>, step: Step, playlist: I32): seq<I32>
    requires Enabled(s, step)
  {
    match step
    case Insert(add) =>
      if s.adds[add].playlist == playlist then AppendOne(s.db.tracks, list, s.adds[add].ids[0]) else list
    case Whole(call) => if call.playlist == playlist then Edited(s.db, list, call) else list
    case _ => list
  }

  lemma StepRefines(s: System, step: Step)
    requires Valid(s.db) && Ahead(s) && Enabled(s, step) && Undisturbed(s, step)
    ensures Valid(Apply(s, step).db)
    ensures forall playlist: I32 ::
      Tracks(Apply(s, step).db, playlist) == Seen(s, Tracks(s.db, playlist), step, playlist)
  {
    hide Valid, Tracks, AfterInsert, AfterCall, Edited, AppendOne, Writes, PositionIsLast;
    match step
    case Begin(_, _, _, _, _) =>
    case Insert(add) => InsertAppendsIff(s, add);
    case Fail(_) =>
    case Whole(call) => CallRefines(s.db, call);
  }

  lemma CallKeepsOthers(db: Db, call: Call)
    requires Valid(db) && !call.Add?
    ensures OthersKept(db.rows, RowsAfter(db, call), call.playlist)
  {
    hide Valid, Shows, Inserted, WithoutPlaylist;
    match call
    case Remove(_, pl, track, _, _) => RemoveRefines(db, pl, track);
    case Reorder(_, pl, ids, _) => ReorderRefines(db, pl, ids);
  }

  lemma StaysAhead(s: System, step: Step)
    requires Valid(s.db) && Ahead(s) && Enabled(s, step) && Undisturbed(s, step)
    ensures Ahead(Apply(s, step))
  {
    hide Valid, Inserted, WithoutPlaylist;
    match step
    case Begin(add, user, playlist, ids, stampFails) =>
      hide NextPosition, IsNext;
      forall t | (playlist, t) in s.db.rows ensures s.db.rows[(playlist, t)] < NextPosition(s.db.rows, playlist) {
        NextIsPastAll(s.db.rows, playlist, t);
      }
    case Insert(add) => InsertRows(s, add);
    case Fail(_) =>
    case Whole(call) => CallKeepsOthers(s.db, call);
  }

  /** No step of the run is disturbed. */
  ghost predicate Calm(s: System, steps: seq<Step>)
    requires IsRun(s, steps)
    decreases |steps|
  {
    steps == [] || (Undisturbed(s, steps[0]) && Calm(Apply(s, steps[0]), steps[1..]))
  }

  ghost function SeenRun(s: System, list: seq<I32>, steps: seq<Step>, playlist: I32): seq<I32>
    requires IsRun(s, steps)
    decreases |steps|
  {
    if steps == [] then list
    else SeenRun(Apply(s, steps[0]), Seen(s, list, steps[0], playlist), steps[1..], playlist)
  }

  /**
    Over every calm run the table behaves like one duplicate-free list per playlist, insert by
    insert, however the statements of adds to different playlists and all removes interleave.
  */
  lemma {:induction false} RunsRefineLists(s: System, steps: seq<Step>, playlist: I32)
    requires Valid(s.db) && Ahead(s) && IsRun(s, steps) && Calm(s, steps)
    ensures Valid(Run(s, steps).db)
    ensures Tracks(Run(s, steps).db, playlist) == SeenRun(s, Tracks(s.db, playlist), steps, playlist)
    ensures NoDuplicates(Tracks(Run(s, steps).db, playlist))
    decreases |steps|
  {
    hide Valid, Ahead, Apply, Enabled, Undisturbed, Seen, Tracks;
    if steps == [] {
      TableShowsItsTracks(s.db, playlist);
    } else {
      StepRefines(s, steps[0]);
      StaysAhead(s, steps[0]);
      RunsRefineLists(Apply(s, steps[0]), steps[1..], playlist);
    }
  }

  /** No add or reorder of a playlist starts while an add to it is in flight. */
  predicate Exclusive(s: System, step: Step) {
    match step
    case Begin(_, _, playlist, _, _) => forall other :: other in s.adds ==> s.adds[other].playlist != playlist
    case Whole(call) => call.Reorder? ==> forall other :: other in s.adds ==> s.adds[other].playlist != call.playlist
    case _ => true
  }

  predicate Separate(s: System) {
    forall a, b :: a in s.adds && b in s.adds && a != b ==> s.adds[a].playlist != s.adds[b].playlist
  }

  lemma ExclusiveIsUndisturbed(s: System, step: Step)
    requires Separate(s) && Enabled(s, step) && Exclusive(s, step)
    ensures Undisturbed(s, step) && Separate(Apply(s, step))
  {
    hide AfterCall, NextPosition;
  }

  ghost predicate ExclusiveRun(s: System, steps: seq<Step>)
    requires IsRun(s, steps)
    decreases |steps|
  {
    steps == [] || (Exclusive(s, steps[0]) && ExclusiveRun(Apply(s, steps[0]), steps[1..]))
  }

  /**
    Every run in which no other add or reorder of a playlist falls between an add's look and its
    last insert is calm.
  */
  lemma {:induction false} ExclusiveRunsAreCalm(s: System, steps: seq<Step>)
    requires Separate(s) && IsRun(s, steps) && ExclusiveRun(s, steps)
    ensures Calm(s, steps)
    decreases |steps|
  {
    hide Separate, Apply, Enabled, Exclusive, Undisturbed;
    if steps != [] {
      ExclusiveIsUndisturbed(s, steps[0]);
      ExclusiveRunsAreCalm(Apply(s, steps[0]), steps[1..]);
    }
  }

  // ----- An add nobody interrupts -----

  /** The answer of an add that still has these ids to insert. */
  function Answer(
    tracks: set<I32>, ids: seq<I32>, budget: nat, inserted: int, stampFails: bool): Result<nat, Error>
    requires inserted >= 0
  {
    if Handled(tracks, ids, budget) < |ids| then Err(Database) else Stamped(inserted, stampFails)
  }

  lemma InsertedCons(rows: Rows, playlist: I32, id: I32, rest: seq<I32>, position: int)
    ensures Inserted(rows, playlist, [id] + rest, position, true) ==
      if (playlist, id) in rows then Inserted(rows, playlist, rest, position, true)
      else Inserted(rows[(playlist, id) := position], playlist, rest, position + 1, true)
  {
    assert ([id] + rest)[0] == id && ([id] + rest)[1..] == rest;
  }

  lemma HandledCons(tracks: set<I32>, ids: seq<I32>, budget: nat)
    requires ids != [] && ids[0] in tracks && budget > 0
    ensures Handled(tracks, ids, budget) == 1 + Handled(tracks, ids[1..], budget - 1)
    ensures ids[..Handled(tracks, ids, budget)] == [ids[0]] + ids[1..][..Handled(tracks, ids[1..], budget - 1)]
  {
  }

  /** What is left of an add in flight when it runs to its end with nobody in between. */
  ghost predicate Finishes(s: System, add: nat, budget: nat, t: System)
    requires add in s.adds
  {
    var a := s.adds[add];
    var rows' := Inserted(s.db.rows, a.playlist, a.ids[..Handled(s.db.tracks, a.ids, budget)], a.next, true);
    && |rows'| >= |s.db.rows|
    && t == System(s.db.(rows := rows'), s.adds - {add},
                   s.answers[add :=
                     Answer(s.db.tracks, a.ids, budget, a.inserted + |rows'| - |s.db.rows|, a.stampFails)])
  }

  lemma FailFinishes(s: System, add: nat)
    requires add in s.adds && s.adds[add].ids != []
    ensures Finishes(s, add, 0, Apply(s, Fail(add)))
  {
  }

  lemma UnknownTrackFinishes(s: System, add: nat, budget: nat)
    requires ForeignKeys(s.db) && Enabled(s, Insert(add)) && budget > 0
    requires s.adds[add].ids[0] !in s.db.tracks
    ensures Finishes(s, add, budget, AfterInsert(s, add))
  {
    var key := Key(s, add);
    assert key !in s.db.rows;
  }

  lemma OneLeft(rows: Rows, tracks: set<I32>, playlist: I32, ids: seq<I32>, position: int, budget: nat)
    requires |ids| == 1 && ids[0] in tracks && budget > 0
    ensures Handled(tracks, ids, budget) == 1
    ensures Inserted(rows, playlist, ids[..1], position, true) ==
      if (playlist, ids[0]) in rows then rows else rows[(playlist, ids[0]) := position]
  {
    HandledCons(tracks, ids, budget);
    InsertedCons(rows, playlist, ids[0], [], position);
    assert ids[..1] == [ids[0]] + [];
  }

  lemma LastInsertFinishes(s: System, add: nat, budget: nat)
    requires Enabled(s, Insert(add)) && budget > 0
    requires s.adds[add].ids[0] in s.db.tracks && |s.adds[add].ids| == 1
    ensures Finishes(s, add, budget, AfterInsert(s, add))
  {
    hide Inserted, Handled;
    var a := s.adds[add];
    OneLeft(s.db.rows, s.db.tracks, a.playlist, a.ids, a.next, budget);
  }

  lemma MoreLeft(rows: Rows, tracks: set<I32>, playlist: I32, ids: seq<I32>, position: int, budget: nat)
    requires |ids| > 1 && ids[0] in tracks && budget > 0
    ensures Handled(tracks, ids, budget) == 1 + Handled(tracks, ids[1..], budget - 1)
    ensures var rest := ids[1..][..Handled(tracks, ids[1..], budget - 1)];
      Inserted(rows, playlist, ids[..Handled(tracks, ids, budget)], position, true) ==
      if (playlist, ids[0]) in rows then Inserted(rows, playlist, rest, position, true)
      else Inserted(rows[(playlist, ids[0]) := position], playlist, rest, position + 1, true)
  {
    HandledCons(tracks, ids, budget);
    InsertedCons(rows, playlist, ids[0], ids[1..][..Handled(tracks, ids[1..], budget - 1)], position);
  }

  lemma NextInsert(s: System, add: nat)
    requires Enabled(s, Insert(add)) && s.adds[add].ids[0] in s.db.tracks && |s.adds[add].ids| > 1
    ensures var a, t, one := s.adds[add], AfterInsert(s, add), if Writes(s, add) then 1 else 0;
      && t.db == s.db.(rows := if Writes(s, add) then s.db.rows[Key(s, add) := a.next] else s.db.rows)
      && t.adds == s.adds[add := Adding(a.playlist, a.ids[1..], a.next + one, a.inserted + one, a.stampFails)]
      && t.answers == s.answers && |t.db.rows| == |s.db.rows| + one
  {
  }

  /** Two states that agree on everything an add still depends on finish alike. */
  lemma SameFinish(s: System, n: System, add: nat, budget: nat, t: System)
    requires add in s.adds && add in n.adds && budget > 0
    requires n.db == s.db.(rows := n.db.rows) && n.answers == s.answers && n.adds - {add} == s.adds - {add}
    requires n.adds[add].inserted - |n.db.rows| == s.adds[add].inserted - |s.db.rows| && |n.db.rows| >= |s.db.rows|
    requires var a, b, tracks := s.adds[add], n.adds[add], s.db.tracks;
      var before, after := Handled(tracks, a.ids, budget), Handled(tracks, b.ids, budget - 1);
      && b.playlist == a.playlist && b.stampFails == a.stampFails && (before < |a.ids| <==> after < |b.ids|)
      && Inserted(s.db.rows, a.playlist, a.ids[..before], a.next, true)
      == Inserted(n.db.rows, a.playlist, b.ids[..after], b.next, true)
    requires Finishes(n, add, budget - 1, t)
    ensures Finishes(s, add, budget, t)
  {
    hide Inserted, Handled;
  }

  lemma NextInsertFinishes(s: System, add: nat, budget: nat, t: System)
    requires Enabled(s, Insert(add)) && budget > 0
    requires s.adds[add].ids[0] in s.db.tracks && |s.adds[add].ids| > 1
    requires add in AfterInsert(s, add).adds && Finishes(AfterInsert(s, add), add, budget - 1, t)
    ensures Finishes(s, add, budget, t)
  {
    hide Inserted, Handled, AfterInsert, Finishes;
    var a, n := s.adds[add], AfterInsert(s, add);
    NextInsert(s, add);
    MoreLeft(s.db.rows, s.db.tracks, a.playlist, a.ids, a.next, budget);
    OnlyItsOwn(s.adds, add, n.adds[add]);
    SameFinish(s, n, add, budget, t);
  }

  lemma OnlyItsOwn(adds: map<nat, Adding>, add: nat, a: Adding)
    ensures adds[add := a] - {add} == adds - {add}
  {
  }

  lemma {:induction false} FinishAdd(s: System, add: nat, budget: nat) returns (steps: seq<Step>)
    requires ForeignKeys(s.db) && add in s.adds && s.adds[add].ids != []
    ensures IsRun(s, steps) && Finishes(s, add, budget, Run(s, steps))
    ensures forall step :: step in steps ==> step == Insert(add) || step == Fail(add)
    decreases |s.adds[add].ids|
  {
    hide Finishes, ForeignKeys, IsRun, Run;
    var ids := s.adds[add].ids;
    if budget == 0 {
      steps := [Fail(add)];
      RunOfOne(s, Fail(add));
      FailFinishes(s, add);
    } else if ids[0] !in s.db.tracks {
      steps := [Insert(add)];
      RunOfOne(s, Insert(add));
      UnknownTrackFinishes(s, add, budget);
    } else if |ids| == 1 {
      steps := [Insert(add)];
      RunOfOne(s, Insert(add));
      LastInsertFinishes(s, add, budget);
    } else {
      InsertKeepsForeignKeys(s, add);
      var rest := FinishAdd(AfterInsert(s, add), add, budget - 1);
      steps := [Insert(add)] + rest;
      RunCons(s, Insert(add), rest);
      NextInsertFinishes(s, add, budget, Run(AfterInsert(s, add), rest));
    }
  }

  lemma RunOfOne(s: System, step: Step)
    requires Enabled(s, step)
    ensures IsRun(s, [step]) && Run(s, [step]) == Apply(s, step)
  {
    assert [step][1..] == [];
    assert IsRun(Apply(s, step), []);
  }

  lemma InsertKeepsForeignKeys(s: System, add: nat)
    requires ForeignKeys(s.db) && Enabled(s, Insert(add))
    ensures ForeignKeys(AfterInsert(s, add).db)
  {
  }

  /** How an add answers when it runs by itself. */
  function AddAnswer(db: Db, call: Call, inserted: int): Result<nat, Error>
    requires call.Add? && inserted >= 0
  {
    if call.ids == [] then Ok(0)
    else if !Owned(db, call.user, call.playlist) then Err(NotFound)
    else Answer(db.tracks, call.ids, call.budget, inserted, call.stampFails)
  }

  function BeginOf(add: nat, call: Call): Step
    requires call.Add?
  {
    Begin(add, call.user, call.playlist, call.ids, call.stampFails)
  }

  ghost predicate RanAlone(s: System, add: nat, call: Call, t: System)
    requires call.Add?
  {
    && t.db == AfterCall(s.db, call) && t.adds == s.adds && |t.db.rows| >= |s.db.rows|
    && t.answers == s.answers[add := AddAnswer(s.db, call, |t.db.rows| - |s.db.rows|)]
  }

  lemma RefusedRanAlone(s: System, add: nat, call: Call)
    requires call.Add? && Enabled(s, BeginOf(add, call))
    requires call.ids == [] || !Owned(s.db, call.user, call.playlist)
    ensures RanAlone(s, add, call, Apply(s, BeginOf(add, call)))
  {
    assert call.ids == [] ==> call.ids[..Handled(s.db.tracks, call.ids, call.budget)] == [];
    NothingInserted(s.db.rows, call.playlist, NextPosition(s.db.rows, call.playlist), true);
    hide Inserted, Handled, NextPosition, IsNext;
    assert s.adds - {add} == s.adds;
  }

  lemma StartedRanAlone(s: System, add: nat, call: Call, t: System)
    requires call.Add? && Enabled(s, BeginOf(add, call))
    requires call.ids != [] && Owned(s.db, call.user, call.playlist)
    requires Finishes(Apply(s, BeginOf(add, call)), add, call.budget, t)
    ensures RanAlone(s, add, call, t)
  {
    hide Inserted, Handled, NextPosition, IsNext;
    var begun := Adding(call.playlist, call.ids, NextPosition(s.db.rows, call.playlist), 0, call.stampFails);
    assert s.adds[add := begun] - {add} == s.adds;
  }

  /** Run to its end with nobody in between, an add is the uninterrupted call, and answers what that answers. */
  lemma UninterruptedAdd(s: System, add: nat, call: Call) returns (steps: seq<Step>)
    requires ForeignKeys(s.db) && call.Add? && Enabled(s, BeginOf(add, call))
    ensures IsRun(s, steps) && RanAlone(s, add, call, Run(s, steps))
    ensures forall step :: step in steps ==>
      step == BeginOf(add, call) || step == Insert(add) || step == Fail(add)
  {
    hide IsRun, Run, ForeignKeys, Finishes, RanAlone, NextPosition;
    var begin := BeginOf(add, call);
    if call.ids == [] || !Owned(s.db, call.user, call.playlist) {
      steps := [begin];
      RunOfOne(s, begin);
      RefusedRanAlone(s, add, call);
    } else {
      var s1 := Apply(s, begin);
      var rest := FinishAdd(s1, add, call.budget);
      steps := [begin] + rest;
      RunCons(s, begin, rest);
      StartedRanAlone(s, add, call, Run(s1, rest));
    }
  }
}

/** Playlists: a table from (playlist, track) to position, and the ordered list it stands for. */
module Playlists {
  import opened Sequences

  /** Playlist and track ids are 32-bit numbers. */
  type I32 = x: int | -0x8000_0000 <= x < 0x8000_0000

  /** The primary key is (playlist, track); the value is the position. */
  type Rows = map<(I32, I32), int>

  datatype Error = NotFound | Database

  /** Who owns each playlist, which tracks exist, and the membership rows. */
  datatype Db = Db(owners: map<I32, int>, tracks: set<I32>, rows: Rows)

  predicate Owned(db: Db, user: int, playlist: I32) {
    playlist in db.owners && db.owners[playlist] == user
  }

  /** Every member is a track; the database itself guards this. */
  ghost predicate ForeignKeys(db: Db) {
    forall key :: key in db.rows ==> key.1 in db.tracks
  }

  /** No two rows of a playlist share a position; nothing in the database guards this. */
  ghost predicate DistinctPositions(rows: Rows) {
    forall a, b :: a in rows && b in rows && a.0 == b.0 && rows[a] == rows[b] ==> a == b
  }

  ghost predicate Valid(db: Db) {
    ForeignKeys(db) && DistinctPositions(db.rows)
  }

  // ----- The list a table stands for -----

  function Members(rows: Rows, playlist: I32): set<I32> {
    set key | key in rows && key.0 == playlist :: key.1
  }

  /** These tracks are members, in increasing order of position. */
  ghost predicate Increasing(rows: Rows, playlist: I32, list: seq<I32>) {
    && (forall t :: t in list ==> (playlist, t) in rows)
    && (forall i, j :: 0 <= i < j < |list| ==> rows[(playlist, list[i])] < rows[(playlist, list[j])])
  }

  ghost predicate Shows(rows: Rows, playlist: I32, list: seq<I32>) {
    Increasing(rows, playlist, list) && forall t :: (playlist, t) in rows ==> t in list
  }

  lemma NoElements(list: seq<I32>)
    ensures Elements(list) == {} <==> list == []
  {
    if list != [] {
      assert list[0] in Elements(list);
    }
  }

  lemma {:induction false} SameMembersSameOrder(rows: Rows, playlist: I32, a: seq<I32>, b: seq<I32>)
    requires Increasing(rows, playlist, a) && Increasing(rows, playlist, b)
    requires Elements(a) == Elements(b)
    ensures a == b
  {
    NoElements(a);
    NoElements(b);
    if a != [] && b != [] {
      var x, y := a[0], b[0];
      assert x in Elements(a) && y in Elements(b);
      assert x == y;
      assert Elements(a[1..]) == Elements(a) - {x};
      assert Elements(b[1..]) == Elements(b) - {y};
      SameMembersSameOrder(rows, playlist, a[1..], b[1..]);
    }
  }

  /** At most one list fits a table. */
  lemma ShownOnce(rows: Rows, playlist: I32, a: seq<I32>, b: seq<I32>)
    requires Shows(rows, playlist, a) && Shows(rows, playlist, b)
    ensures a == b
  {
    assert forall t :: t in Elements(a) ==> (playlist, t) in rows;
    assert forall t :: t in Elements(b) ==> (playlist, t) in rows;
    SameMembersSameOrder(rows, playlist, a, b);
  }

  lemma {:induction false} LowestExists(rows: Rows, playlist: I32, todo: set<I32>)
    requires todo != {} && todo <= Members(rows, playlist)
    ensures exists t :: t in todo && forall u :: u in todo ==> rows[(playlist, t)] <= rows[(playlist, u)]
    decreases |todo|
  {
    var t :| t in todo;
    var rest := todo - {t};
    if rest == {} {
      assert todo == {t};
    } else {
      LowestExists(rows, playlist, rest);
      var low :| low in rest && forall u :: u in rest ==> rows[(playlist, low)] <= rows[(playlist, u)];
      var lowest := if rows[(playlist, t)] <= rows[(playlist, low)] then t else low;
      assert forall u :: u in todo ==> rows[(playlist, lowest)] <= rows[(playlist, u)];
    }
  }

  /** What `ORDER BY position` returns. */
  ghost function Ordered(rows: Rows, playlist: I32, todo: set<I32>): seq<I32>
    requires todo <= Members(rows, playlist)
    decreases |todo|
  {
    if todo == {} then []
    else
      LowestExists(rows, playlist, todo);
      var t :| t in todo && forall u :: u in todo ==> rows[(playlist, t)] <= rows[(playlist, u)];
      [t] + Ordered(rows, playlist, todo - {t})
  }

  ghost function Tracks(db: Db, playlist: I32): seq<I32> {
    Ordered(db.rows, playlist, Members(db.rows, playlist))
  }

  lemma {:induction false} OrderedIncreases(db: Db, playlist: I32, todo: set<I32>)
    requires Valid(db) && todo <= Members(db.rows, playlist)
    ensures forall t :: t in Ordered(db.rows, playlist, todo) <==> t in todo
    ensures Increasing(db.rows, playlist, Ordered(db.rows, playlist, todo))
    decreases |todo|
  {
    var list := Ordered(db.rows, playlist, todo);
    if todo != {} {
      var low, rest := list[0], todo - {list[0]};
      OrderedIncreases(db, playlist, rest);
      var later := Ordered(db.rows, playlist, rest);
      assert list == [low] + later;
      forall t | t in later ensures (playlist, t) in db.rows && db.rows[(playlist, low)] < db.rows[(playlist, t)] {
        assert t in rest && (playlist, low) != (playlist, t);
      }
      PrependIncreases(db.rows, playlist, low, later);
    }
  }

  lemma PrependIncreases(rows: Rows, playlist: I32, low: I32, later: seq<I32>)
    requires (playlist, low) in rows && Increasing(rows, playlist, later)
    requires forall t :: t in later ==> rows[(playlist, low)] < rows[(playlist, t)]
    ensures Increasing(rows, playlist, [low] + later)
  {
  }

  /** Every valid table stands for exactly one duplicate-free list per playlist. */
  lemma TableShowsItsTracks(db: Db, playlist: I32)
    requires Valid(db)
    ensures Shows(db.rows, playlist, Tracks(db, playlist))
    ensures NoDuplicates(Tracks(db, playlist))
    ensures forall list :: Shows(db.rows, playlist, list) <==> list == Tracks(db, playlist)
  {
    OrderedIncreases(db, playlist, Members(db.rows, playlist));
    forall t | (playlist, t) in db.rows ensures t in Members(db.rows, playlist) {
      assert (playlist, t).0 == playlist;
    }
    forall list | Shows(db.rows, playlist, list) ensures list == Tracks(db, playlist) {
      ShownOnce(db.rows, playlist, list, Tracks(db, playlist));
    }
  }

  // ----- Writing rows -----

  /**
    `INSERT ... ON CONFLICT DO NOTHING` for these tracks in turn. The position counts the rows that
    were inserted when `dense`, and all of them otherwise.
  */
  function Inserted(rows: Rows, playlist: I32, ids: seq<I32>, position: int, dense: bool): Rows
    decreases |ids|
  {
    if ids == [] then rows
    else if (playlist, ids[0]) in rows then
      Inserted(rows, playlist, ids[1..], if dense then position else position + 1, dense)
    else Inserted(rows[(playlist, ids[0]) := position], playlist, ids[1..], position + 1, dense)
  }

  function WithoutPlaylist(rows: Rows, playlist: I32): Rows {
    map key | key in rows && key.0 != playlist :: rows[key]
  }

  /** How many of these ids can be written before the first one that is no track. */
  function Known(tracks: set<I32>, ids: seq<I32>): (n: nat)
    ensures n <= |ids|
    ensures forall i :: 0 <= i < n ==> ids[i] in tracks
    ensures n < |ids| ==> ids[n] !in tracks
  {
    if ids == [] || ids[0] !in tracks then 0 else 1 + Known(tracks, ids[1..])
  }

  /** How many ids an add works through when the database gives up after `budget` statements. */
  function Handled(tracks: set<I32>, ids: seq<I32>, budget: nat): (n: nat)
    ensures n <= |ids|
  {
    if budget < Known(tracks, ids) then budget else Known(tracks, ids)
  }

  /** A playlist after appending the ids it does not have, and after removing one. */
  function Appended(list: seq<I32>, ids: seq<I32>): seq<I32> {
    list + FirstOccurrences(ids, Elements(list))
  }

  function Removed(list: seq<I32>, track: I32): (r: seq<I32>)
    ensures forall t :: t in r <==> t in list && t != track
  {
    if list == [] then []
    else (if list[0] == track then [] else [list[0]]) + Removed(list[1..], track)
  }

  // ----- Writing rows is editing the list -----

  lemma SnocIncreases(rows: Rows, playlist: I32, list: seq<I32>, id: I32, position: int)
    requires Shows(rows, playlist, list) && (playlist, id) !in rows
    requires forall t :: t in list ==> rows[(playlist, t)] < position
    ensures Shows(rows[(playlist, id) := position], playlist, list + [id])
  {
    var rows' := rows[(playlist, id) := position];
    forall t | t in list ensures (playlist, t) in rows' && rows'[(playlist, t)] == rows[(playlist, t)] {
    }
  }

  lemma AppendedStep(list: seq<I32>, ids: seq<I32>)
    requires ids != []
    ensures Appended(list, ids) ==
      if ids[0] in list then Appended(list, ids[1..]) else Appended(list + [ids[0]], ids[1..])
  {
    if ids[0] !in list {
      assert Elements(list + [ids[0]]) == Elements(list) + {ids[0]};
      assert list + ([ids[0]] + FirstOccurrences(ids[1..], Elements(list) + {ids[0]}))
          == list + [ids[0]] + FirstOccurrences(ids[1..], Elements(list) + {ids[0]});
    }
  }

  lemma {:induction false} InsertingAppends(
    rows: Rows, playlist: I32, ids: seq<I32>, position: int, dense: bool, list: seq<I32>)
    requires Shows(rows, playlist, list)
    requires forall t :: t in list ==> rows[(playlist, t)] < position
    ensures Shows(Inserted(rows, playlist, ids, position, dense), playlist, Appended(list, ids))
    ensures |Inserted(rows, playlist, ids, position, dense)| == |rows| + |Appended(list, ids)| - |list|
    decreases |ids|
  {
    hide Shows, Increasing, Appended, Inserted;
    if ids == [] {
      NothingAppended(list);
      NothingInserted(rows, playlist, position, dense);
    } else {
      var id := ids[0];
      AppendedStep(list, ids);
      InsertedStep(rows, playlist, ids, position, dense);
      InListIffInRows(rows, playlist, list, id);
      if id in list {
        InsertingAppends(rows, playlist, ids[1..], if dense then position else position + 1, dense, list);
      } else {
        SnocIncreases(rows, playlist, list, id, position);
        SnocStaysBelow(rows, playlist, list, id, position);
        InsertingAppends(rows[(playlist, id) := position], playlist, ids[1..], position + 1, dense, list + [id]);
      }
    }
  }

  lemma NothingAppended(list: seq<I32>)
    ensures Appended(list, []) == list
  {
  }

  lemma InsertedStep(rows: Rows, playlist: I32, ids: seq<I32>, position: int, dense: bool)
    requires ids != []
    ensures Inserted(rows, playlist, ids, position, dense) ==
      if (playlist, ids[0]) in rows then
        Inserted(rows, playlist, ids[1..], if dense then position else position + 1, dense)
      else Inserted(rows[(playlist, ids[0]) := position], playlist, ids[1..], position + 1, dense)
  {
  }

  lemma SnocStaysBelow(rows: Rows, playlist: I32, list: seq<I32>, id: I32, position: int)
    requires Shows(rows, playlist, list) && forall t :: t in list ==> rows[(playlist, t)] < position
    ensures var rows' := rows[(playlist, id) := position];
      forall t :: t in list + [id] ==> (playlist, t) in rows' && rows'[(playlist, t)] < position + 1
  {
  }

  lemma InListIffInRows(rows: Rows, playlist: I32, list: seq<I32>, id: I32)
    requires Shows(rows, playlist, list)
    ensures (playlist, id) in rows <==> id in list
  {
  }

  lemma {:induction false} InsertedSnoc(rows: Rows, playlist: I32, ids: seq<I32>, id: I32, position: int, dense: bool)
    ensures var before := Inserted(rows, playlist, ids, position, dense);
      && |before| >= |rows|
      && Inserted(rows, playlist, ids + [id], position, dense)
      == if (playlist, id) in before then before
         else before[(playlist, id) := position + if dense then |before| - |rows| else |ids|]
    decreases |ids|
  {
    if ids == [] {
      assert ids + [id] == [id] && [id][1..] == [];
    } else {
      assert (ids + [id])[0] == ids[0] && (ids + [id])[1..] == ids[1..] + [id];
      if (playlist, ids[0]) in rows {
        InsertedSnoc(rows, playlist, ids[1..], id, if dense then position else position + 1, dense);
      } else {
        InsertedSnoc(rows[(playlist, ids[0]) := position], playlist, ids[1..], id, position + 1, dense);
      }
    }
  }

  lemma {:induction false} InsertingKeepsOthers(
    rows: Rows, playlist: I32, ids: seq<I32>, position: int, dense: bool, key: (I32, I32))
    requires key.0 != playlist
    ensures var rows' := Inserted(rows, playlist, ids, position, dense);
      (key in rows' <==> key in rows) && (key in rows ==> rows'[key] == rows[key])
    decreases |ids|
  {
    if ids != [] {
      if (playlist, ids[0]) in rows {
        InsertingKeepsOthers(rows, playlist, ids[1..], if dense then position else position + 1, dense, key);
      } else {
        InsertingKeepsOthers(rows[(playlist, ids[0]) := position], playlist, ids[1..], position + 1, dense, key);
      }
    }
  }

  ghost predicate OthersKept(rows: Rows, rows': Rows, playlist: I32) {
    forall key: (I32, I32) :: key.0 != playlist ==>
      (key in rows' <==> key in rows) && (key in rows ==> rows'[key] == rows[key])
  }

  /** Rewriting the rows of one playlist rewrites its list and no other one. */
  lemma RewrittenRows(db: Db, rows': Rows, playlist: I32, list: seq<I32>)
    requires Valid(db) && OthersKept(db.rows, rows', playlist)
    requires Shows(rows', playlist, list) && forall t :: t in list ==> t in db.tracks
    ensures Valid(db.(rows := rows')) && Tracks(db.(rows := rows'), playlist) == list
    ensures forall other: I32 :: other != playlist ==> Tracks(db.(rows := rows'), other) == Tracks(db, other)
  {
    var db' := db.(rows := rows');
    forall a, b | a in rows' && b in rows' && a.0 == b.0 && rows'[a] == rows'[b] ensures a == b {
      if a.0 == playlist {
        assert (playlist, a.1) == a && (playlist, b.1) == b;
        assert a.1 in list && b.1 in list;
      }
    }
    forall key | key in rows' ensures key.1 in db.tracks {
      assert key.0 == playlist ==> (playlist, key.1) == key;
    }
    TableShowsItsTracks(db', playlist);
    forall other: I32 | other != playlist ensures Tracks(db', other) == Tracks(db, other) {
      TableShowsItsTracks(db, other);
      TableShowsItsTracks(db', other);
      var was := Tracks(db, other);
      assert forall t :: (other, t) in rows' <==> (other, t) in db.rows;
      assert Shows(rows', other, was);
    }
  }

  // ----- The three operations -----

  /** `max` is the largest position of these members, or nothing when there are none. */
  ghost predicate MaxOver(rows: Rows, playlist: I32, members: set<I32>, max: Option<int>)
    requires members <= Members(rows, playlist)
  {
    match max
    case None => members == {}
    case Some(m) =>
      && (exists t :: t in members && rows[(playlist, t)] == m)
      && (forall t :: t in members ==> rows[(playlist, t)] <= m)
  }

  lemma MaxOverNone(rows: Rows, playlist: I32)
    ensures MaxOver(rows, playlist, {}, None)
  {
  }

  lemma MaxOverOneMore(rows: Rows, playlist: I32, members: set<I32>, max: Option<int>, t: I32)
    requires members <= Members(rows, playlist) && t in Members(rows, playlist)
    requires MaxOver(rows, playlist, members, max)
    ensures (playlist, t) in rows
    ensures var position := rows[(playlist, t)];
      MaxOver(rows, playlist, members + {t}, if max == None || max.value < position then Some(position) else max)
  {
  }

  lemma {:induction false} MaxExists(rows: Rows, playlist: I32, members: set<I32>)
    requires members <= Members(rows, playlist)
    ensures exists max :: MaxOver(rows, playlist, members, max)
    decreases |members|
  {
    hide Members;
    if members == {} {
      assert MaxOver(rows, playlist, members, None);
    } else {
      var t :| t in members;
      MaxExists(rows, playlist, members - {t});
      var max :| MaxOver(rows, playlist, members - {t}, max);
      MaxOverOneMore(rows, playlist, members - {t}, max, t);
      assert members - {t} + {t} == members;
    }
  }

  /** The position an add starts at: past all rows of the playlist, and no further than that. */
  ghost predicate IsNext(rows: Rows, playlist: I32, next: int) {
    var members := Members(rows, playlist);
    && (members == {} ==> next == 0)
    && (members != {} ==> exists t :: t in members && rows[(playlist, t)] == next - 1)
    && (forall t :: t in members ==> rows[(playlist, t)] < next)
  }

  lemma NextFromMax(rows: Rows, playlist: I32, max: Option<int>)
    requires MaxOver(rows, playlist, Members(rows, playlist), max)
    ensures IsNext(rows, playlist, if max.Some? then max.value + 1 else 0)
  {
  }

  lemma NextIsUnique(rows: Rows, playlist: I32, a: int, b: int)
    requires IsNext(rows, playlist, a) && IsNext(rows, playlist, b)
    ensures a == b
  {
  }

  ghost function NextPosition(rows: Rows, playlist: I32): (next: int)
    ensures IsNext(rows, playlist, next)
  {
    MaxExists(rows, playlist, Members(rows, playlist));
    var max :| MaxOver(rows, playlist, Members(rows, playlist), max);
    NextFromMax(rows, playlist, max);
    var next :| IsNext(rows, playlist, next);
    next
  }

  lemma NextIsPastTheMax(rows: Rows, playlist: I32, max: Option<int>)
    requires MaxOver(rows, playlist, Members(rows, playlist), max)
    ensures NextPosition(rows, playlist) == if max.Some? then max.value + 1 else 0
  {
    hide NextPosition, IsNext, MaxOver;
    NextFromMax(rows, playlist, max);
    NextIsUnique(rows, playlist, NextPosition(rows, playlist), if max.Some? then max.value + 1 else 0);
  }

  lemma NextIsPastAll(rows: Rows, playlist: I32, t: I32)
    requires (playlist, t) in rows
    ensures rows[(playlist, t)] < NextPosition(rows, playlist)
  {
    assert (playlist, t).0 == playlist && t in Members(rows, playlist);
  }

  /**
    A whole call that nothing else interrupts. After writing or deleting rows an add and a remove
    still update the playlist's time stamp; when only that fails, the rows are changed all the same.
  */
  datatype Call =
    | Add(user: int, playlist: I32, ids: seq<I32>, budget: nat, stampFails: bool)
    | Remove(user: int, playlist: I32, track: I32, fault: bool, stampFails: bool)
    | Reorder(user: int, playlist: I32, ids: seq<I32>, fault: bool)

  /** An add is no transaction: what was inserted before a failure stays. */
  ghost function RowsAfter(db: Db, call: Call): Rows {
    var pl := call.playlist;
    if !Owned(db, call.user, pl) then db.rows
    else match call
      case Add(_, _, ids, budget, _) =>
        Inserted(db.rows, pl, ids[..Handled(db.tracks, ids, budget)], NextPosition(db.rows, pl), true)
      case Remove(_, _, track, fault, _) => if fault then db.rows else db.rows - {(pl, track)}
      case Reorder(_, _, ids, fault) =>
        if fault || Known(db.tracks, ids) < |ids| then db.rows
        else Inserted(WithoutPlaylist(db.rows, pl), pl, ids, 0, false)
  }

  ghost function AfterCall(db: Db, call: Call): Db {
    db.(rows := RowsAfter(db, call))
  }

  /** The same call on the list alone. */
  function Edited(db: Db, list: seq<I32>, call: Call): seq<I32> {
    if !Owned(db, call.user, call.playlist) then list
    else match call
      case Add(_, _, ids, budget, _) => Appended(list, ids[..Handled(db.tracks, ids, budget)])
      case Remove(_, _, track, fault, _) => if fault then list else Removed(list, track)
      case Reorder(_, _, ids, fault) =>
        if fault || Known(db.tracks, ids) < |ids| then list else FirstOccurrences(ids)
  }

  lemma {:induction false} RemovedIncreases(rows: Rows, playlist: I32, list: seq<I32>, track: I32)
    requires Increasing(rows, playlist, list)
    ensures Increasing(rows, playlist, Removed(list, track))
  {
    if list != [] {
      RemovedIncreases(rows, playlist, list[1..], track);
      var rest := Removed(list[1..], track);
      forall t | t in rest ensures (playlist, list[0]) in rows && rows[(playlist, list[0])] < rows[(playlist, t)] {
        assert t in list[1..];
        var i :| 0 <= i < |list[1..]| && list[1..][i] == t;
        assert list[i + 1] == t && list[0] in list;
      }
      assert list[0] in list;
      PrependIncreases(rows, playlist, list[0], rest);
      assert [] + rest == rest;
    }
  }

  lemma RemoveRefines(db: Db, playlist: I32, track: I32)
    requires Valid(db)
    ensures var rows' := db.rows - {(playlist, track)};
      OthersKept(db.rows, rows', playlist) && Shows(rows', playlist, Removed(Tracks(db, playlist), track))
  {
    hide Valid, Tracks, Removed;
    TableShowsItsTracks(db, playlist);
    RemovedIncreases(db.rows, playlist, Tracks(db, playlist), track);
    FewerRowsIncrease(db.rows, playlist, Removed(Tracks(db, playlist), track), track);
  }

  lemma FewerRowsIncrease(rows: Rows, playlist: I32, list: seq<I32>, track: I32)
    requires Increasing(rows, playlist, list) && track !in list
    ensures Increasing(rows - {(playlist, track)}, playlist, list)
  {
    var rows' := rows - {(playlist, track)};
    forall i | 0 <= i < |list|
      ensures (playlist, list[i]) in rows' && rows'[(playlist, list[i])] == rows[(playlist, list[i])]
    {
      assert list[i] in list;
    }
  }

  lemma AddRefines(db: Db, playlist: I32, ids: seq<I32>)
    requires Valid(db)
    ensures var rows' := Inserted(db.rows, playlist, ids, NextPosition(db.rows, playlist), true);
      && OthersKept(db.rows, rows', playlist) && Shows(rows', playlist, Appended(Tracks(db, playlist), ids))
      && |rows'| == |db.rows| + |Appended(Tracks(db, playlist), ids)| - |Tracks(db, playlist)|
  {
    hide NextPosition, Tracks, Valid, Appended, IsNext;
    var next, list := NextPosition(db.rows, playlist), Tracks(db, playlist);
    TableShowsItsTracks(db, playlist);
    forall t | t in list ensures db.rows[(playlist, t)] < next {
      NextIsPastAll(db.rows, playlist, t);
    }
    InsertingAppends(db.rows, playlist, ids, next, true, list);
    forall key: (I32, I32) | key.0 != playlist ensures var rows' := Inserted(db.rows, playlist, ids, next, true);
      (key in rows' <==> key in db.rows) && (key in db.rows ==> rows'[key] == db.rows[key]) {
      InsertingKeepsOthers(db.rows, playlist, ids, next, true, key);
    }
  }

  lemma ReorderRefines(db: Db, playlist: I32, ids: seq<I32>)
    requires Valid(db)
    ensures var rows' := Inserted(WithoutPlaylist(db.rows, playlist), playlist, ids, 0, false);
      OthersKept(db.rows, rows', playlist) && Shows(rows', playlist, FirstOccurrences(ids))
  {
    var bare := WithoutPlaylist(db.rows, playlist);
    forall t ensures (playlist, t) !in bare {
      assert (playlist, t).0 == playlist;
    }
    assert Shows(bare, playlist, []);
    InsertingAppends(bare, playlist, ids, 0, false, []);
    var none: seq<I32> := [];
    assert Elements(none) == {};
    assert Appended(none, ids) == FirstOccurrences(ids);
    forall key: (I32, I32) | key.0 != playlist ensures var rows' := Inserted(bare, playlist, ids, 0, false);
      (key in rows' <==> key in db.rows) && (key in db.rows ==> rows'[key] == db.rows[key]) {
      InsertingKeepsOthers(bare, playlist, ids, 0, false, key);
    }
  }

  /** One uninterrupted call on the table is one edit of the list, and no other playlist notices. */
  lemma CallRefines(db: Db, call: Call)
    requires Valid(db)
    ensures Valid(AfterCall(db, call))
    ensures Tracks(AfterCall(db, call), call.playlist) == Edited(db, Tracks(db, call.playlist), call)
    ensures forall other: I32 :: other != call.playlist ==> Tracks(AfterCall(db, call), other) == Tracks(db, other)
  {
    hide Shows, OthersKept, Increasing, Inserted, WithoutPlaylist, Removed, NextPosition, Tracks, Valid, IsNext;
    var list, rows' := Edited(db, Tracks(db, call.playlist), call), RowsAfter(db, call);
    MembersAreTracks(db, call);
    if Owned(db, call.user, call.playlist) {
      match call {
        case Add(_, pl, ids, budget, _) =>
          AddRefines(db, pl, ids[..Handled(db.tracks, ids, budget)]);
          RewrittenRows(db, rows', pl, list);
        case Remove(_, pl, track, fault, _) =>
          if !fault {
            RemoveRefines(db, pl, track);
            RewrittenRows(db, rows', pl, list);
          }
        case Reorder(_, pl, ids, fault) =>
          if !fault && Known(db.tracks, ids) == |ids| {
            ReorderRefines(db, pl, ids);
            RewrittenRows(db, rows', pl, list);
          }
      }
    }
  }

  predicate IsOwner(db: Db, call: Call) {
    call.playlist in db.owners && db.owners[call.playlist] == call.user
  }

  predicate AllTracks(db: Db, ids: seq<I32>) {
    forall id :: id in ids ==> id in db.tracks
  }

  /** Nobody but the owner changes a playlist, and a reordering with an id that is no track changes nothing. */
  lemma OnlyTheOwnerEdits(db: Db, call: Call)
    requires Valid(db)
    requires !IsOwner(db, call) || (call.Reorder? && !AllTracks(db, call.ids))
    ensures Tracks(AfterCall(db, call), call.playlist) == Tracks(db, call.playlist)
  {
    CallRefines(db, call);
  }

  lemma KnownIff(tracks: set<I32>, ids: seq<I32>)
    ensures Known(tracks, ids) == |ids| <==> forall id :: id in ids ==> id in tracks
  {
    var n := Known(tracks, ids);
    assert n < |ids| ==> ids[n] in ids;
  }

  /** The owner's add keeps the list and puts the new tracks behind it; distinct new tracks come as they were given. */
  lemma AddPutsNewTracksLast(db: Db, call: Call)
    requires Valid(db) && IsOwner(db, call) && call.Add? && AllTracks(db, call.ids) && |call.ids| <= call.budget
    ensures var list, list' := Tracks(db, call.playlist), Tracks(AfterCall(db, call), call.playlist);
      && list <= list' && NoDuplicates(list')
      && (forall t :: t in list' <==> t in list || t in call.ids)
      && (NoDuplicates(call.ids) && (forall t :: t in call.ids ==> t !in list) ==> list' == list + call.ids)
  {
    hide Tracks, Valid, AfterCall;
    CallRefines(db, call);
    TableShowsItsTracks(AfterCall(db, call), call.playlist);
    KnownIff(db.tracks, call.ids);
    var list := Tracks(db, call.playlist);
    assert call.ids[..|call.ids|] == call.ids;
    if NoDuplicates(call.ids) && forall t :: t in call.ids ==> t !in list {
      FirstOccurrencesOfNew(call.ids, Elements(list));
    }
  }

  lemma {:induction false} RemovedFrom(a: seq<I32>, track: I32, b: seq<I32>)
    requires track !in a && track !in b
    ensures Removed(a + [track] + b, track) == a + b
  {
    var list := a + [track] + b;
    if a == [] {
      assert list[1..] == b && list[0] == track;
      RemovedAbsent(b, track);
      assert [] + b == b;
    } else {
      assert list[0] == a[0] && list[1..] == a[1..] + [track] + b;
      RemovedFrom(a[1..], track, b);
      assert [a[0]] + (a[1..] + b) == a + b;
    }
  }

  lemma {:induction false} RemovedAbsent(list: seq<I32>, track: I32)
    requires track !in list
    ensures Removed(list, track) == list
  {
    if list != [] {
      RemovedAbsent(list[1..], track);
      assert [list[0]] + list[1..] == list;
    }
  }

  /** The owner's removal takes the track out and closes the gap. */
  lemma RemoveClosesTheGap(db: Db, call: Call, a: seq<I32>, b: seq<I32>)
    requires Valid(db) && IsOwner(db, call) && call.Remove? && !call.fault
    ensures Tracks(db, call.playlist) == a + [call.track] + b ==>
      Tracks(AfterCall(db, call), call.playlist) == a + b
    ensures call.track !in Tracks(db, call.playlist) ==>
      Tracks(AfterCall(db, call), call.playlist) == Tracks(db, call.playlist)
  {
    hide Tracks, Valid, AfterCall, Removed;
    CallRefines(db, call);
    var list := Tracks(db, call.playlist);
    TableShowsItsTracks(db, call.playlist);
    if list == a + [call.track] + b {
      assert list[|a|] == call.track;
      assert forall i :: 0 <= i < |a| ==> list[i] == a[i];
      assert forall i :: 0 <= i < |b| ==> list[|a| + 1 + i] == b[i];
      RemovedFrom(a, call.track, b);
    }
    if call.track !in list {
      RemovedAbsent(list, call.track);
    }
  }

  /** The owner's reordering replaces the list: by the ids as given when they are distinct. */
  lemma ReorderReplacesTheList(db: Db, call: Call)
    requires Valid(db) && IsOwner(db, call) && call.Reorder? && !call.fault && AllTracks(db, call.ids)
    ensures var list' := Tracks(AfterCall(db, call), call.playlist);
      && NoDuplicates(list') && (forall t :: t in list' <==> t in call.ids)
      && (NoDuplicates(call.ids) ==> list' == call.ids)
  {
    hide Tracks, Valid, AfterCall;
    CallRefines(db, call);
    TableShowsItsTracks(AfterCall(db, call), call.playlist);
    KnownIff(db.tracks, call.ids);
    if NoDuplicates(call.ids) {
      FirstOccurrencesOfNew(call.ids, {});
    }
  }

  lemma MembersAreTracks(db: Db, call: Call)
    requires Valid(db)
    ensures forall t :: t in Edited(db, Tracks(db, call.playlist), call) ==> t in db.tracks
  {
    TableShowsItsTracks(db, call.playlist);
    forall t | t in Tracks(db, call.playlist) ensures t in db.tracks {
      assert (call.playlist, t).1 == t;
    }
    match call
    case Add(_, _, ids, budget, _) =>
      var done := ids[..Handled(db.tracks, ids, budget)];
      assert forall t :: t in done ==> t in db.tracks;
    case Remove(_, _, _, _, _) =>
    case Reorder(_, _, ids, _) =>
      assert Known(db.tracks, ids) == |ids| ==> forall t :: t in ids ==> t in db.tracks;
  }

  /** What a query ordered by position may return: every member once, no position falling. */
  ghost predicate ByPosition(rows: Rows, playlist: I32, list: seq<I32>) {
    && NoDuplicates(list) && Elements(list) == Members(rows, playlist)
    && (forall t :: t in list ==> (playlist, t) in rows)
    && (forall i, j :: 0 <= i < j < |list| ==> rows[(playlist, list[i])] <= rows[(playlist, list[j])])
  }

  /** With distinct positions that is the one list the table stands for. */
  lemma ByPositionIsUnique(db: Db, playlist: I32, list: seq<I32>)
    requires Valid(db) && ByPosition(db.rows, playlist, list)
    ensures list == Tracks(db, playlist)
  {
    forall i, j | 0 <= i < j < |list| ensures db.rows[(playlist, list[i])] < db.rows[(playlist, list[j])] {
      assert (playlist, list[i]) != (playlist, list[j]);
    }
    forall t | (playlist, t) in db.rows ensures t in list {
      assert (playlist, t).0 == playlist && t in Members(db.rows, playlist);
      assert t in Elements(list);
    }
    hide DistinctPositions, Tracks;
    assert Shows(db.rows, playlist, list);
    TableShowsItsTracks(db, playlist);
    ShownOnce(db.rows, playlist, list, Tracks(db, playlist));
  }

  /** Some members are listed by position, and the others come after all of them. */
  ghost predicate Picked(rows: Rows, playlist: I32, list: seq<I32>, todo: set<I32>) {
    && todo <= Members(rows, playlist) && Elements(list) + todo == Members(rows, playlist)
    && NoDuplicates(list) && Elements(list) !! todo
    && (forall t :: t in list ==> (playlist, t) in rows)
    && (forall i, j :: 0 <= i < j < |list| ==> rows[(playlist, list[i])] <= rows[(playlist, list[j])])
    && (forall t, u :: t in list && u in todo ==> rows[(playlist, t)] <= rows[(playlist, u)])
  }

  lemma PickLowest(rows: Rows, playlist: I32, list: seq<I32>, todo: set<I32>, low: I32)
    requires Picked(rows, playlist, list, todo)
    requires low in todo && forall u :: u in todo ==> rows[(playlist, low)] <= rows[(playlist, u)]
    ensures Picked(rows, playlist, list + [low], todo - {low})
  {
    assert Elements(list + [low]) == Elements(list) + {low};
    forall i | 0 <= i < |list| ensures list[i] != low && rows[(playlist, list[i])] <= rows[(playlist, low)] {
      assert list[i] in list && list[i] in Elements(list);
    }
  }

  class PlaylistStore {
    const owners: map<I32, int>
    const tracks: set<I32>
    var rows: Rows

    function State(): Db
      reads this
    {
      Db(owners, tracks, rows)
    }

    constructor (owners: map<I32, int>, tracks: set<I32>)
      ensures State() == Db(owners, tracks, map[]) && Valid(State())
    {
      this.owners, this.tracks, rows := owners, tracks, map[];
    }

    method MaxPosition(playlist: I32) returns (max: Option<int>)
      ensures MaxOver(rows, playlist, Members(rows, playlist), max)
    {
      hide Members, MaxOver;
      max := None;
      var todo := Members(rows, playlist);
      ghost var done: set<I32> := {};
      MaxOverNone(rows, playlist);
      while todo != {}
        invariant todo + done == Members(rows, playlist)
        invariant MaxOver(rows, playlist, done, max)
        decreases |todo|
      {
        var t :| t in todo;
        MaxOverOneMore(rows, playlist, done, max, t);
        if max == None || max.value < rows[(playlist, t)] {
          max := Some(rows[(playlist, t)]);
        }
        todo, done := todo - {t}, done + {t};
      }
      assert done == Members(rows, playlist);
    }

    /** The members by position; only distinct positions make the order definite. */
    method GetPlaylist(user: int, playlist: I32) returns (r: Result<seq<I32>, Error>)
      ensures r.Ok? <==> Owned(State(), user, playlist)
      ensures r.Err? ==> r.error == NotFound
      ensures r.Ok? ==> ByPosition(rows, playlist, r.value)
      ensures r.Ok? && Valid(State()) ==> r.value == Tracks(State(), playlist)
    {
      hide Valid, Tracks, Picked;
      if !(playlist in owners && owners[playlist] == user) {
        return Err(NotFound);
      }
      var todo := Members(rows, playlist);
      var list: seq<I32> := [];
      NothingPicked(rows, playlist);
      while todo != {}
        invariant todo <= Members(rows, playlist) && Picked(rows, playlist, list, todo)
        decreases |todo|
      {
        LowestExists(rows, playlist, todo);
        var low :| low in todo && forall u :: u in todo ==> rows[(playlist, low)] <= rows[(playlist, u)];
        PickLowest(rows, playlist, list, todo, low);
        todo, list := todo - {low}, list + [low];
      }
      AllPicked(rows, playlist, list);
      if Valid(State()) {
        ByPositionIsUnique(State(), playlist, list);
      }
      return Ok(list);
    }

    /** One insert statement; an existing row is left alone, and a missing track is refused. */
    method InsertRow(playlist: I32, id: I32, position: int) returns (r: Result<bool, Error>)
      requires ForeignKeys(State())
      modifies this`rows
      ensures r == if id in tracks then Ok((playlist, id) !in old(rows)) else Err(Database)
      ensures rows == if r == Ok(true) then old(rows)[(playlist, id) := position] else old(rows)
      ensures ForeignKeys(State())
    {
      if (playlist, id) in rows {
        assert (playlist, id).1 in tracks;
        return Ok(false);
      }
      if id !in tracks {
        return Err(Database);
      }
      rows := rows[(playlist, id) := position];
      r := Ok(true);
    }

    /** The insert loop of an add; it keeps what it wrote before a failure. */
    method InsertEach(playlist: I32, ids: seq<I32>, first: int, budget: nat) returns (r: Result<nat, Error>)
      requires ForeignKeys(State())
      modifies this`rows
      ensures rows == Inserted(old(rows), playlist, ids[..Handled(tracks, ids, budget)], first, true)
      ensures ForeignKeys(State()) && |rows| >= |old(rows)|
      ensures r == if Handled(tracks, ids, budget) < |ids| then Err(Database) else Ok(|rows| - |old(rows)|)
    {
      hide Inserted;
      ghost var before := rows;
      var next, inserted: nat := first, 0;
      NothingInserted(before, playlist, first, true);
      assert ids[..0] == [];
      var i: nat := 0;
      while i < |ids|
        invariant i <= Handled(tracks, ids, budget) && ForeignKeys(State())
        invariant rows == Inserted(before, playlist, ids[..i], first, true)
        invariant inserted == |rows| - |before| && next == first + inserted
      {
        InsertedSnoc(before, playlist, ids[..i], ids[i], first, true);
        assert ids[..i + 1] == ids[..i] + [ids[i]];
        if i == budget {
          return Err(Database);
        }
        var written := InsertRow(playlist, ids[i], next);
        if written.Err? {
          return Err(Database);
        }
        if written.value {
          next, inserted := next + 1, inserted + 1;
        }
        i := i + 1;
      }
      assert ids[..i] == ids;
      r := Ok(inserted);
    }

    /**
      An add with nobody in between: the largest position, then one insert per id. It is not a
      transaction: `budget` is how many inserts the database carries out before it fails.
    */
    method AddTracks(user: int, playlist: I32, ids: seq<I32>, budget: nat, stampFails: bool)
      returns (r: Result<nat, Error>)
      requires ForeignKeys(State())
      modifies this`rows
      ensures State() == AfterCall(old(State()), Add(user, playlist, ids, budget, stampFails)) && ForeignKeys(State())
      ensures ids == [] ==> r == Ok(0)
      ensures ids != [] && !Owned(State(), user, playlist) ==> r == Err(NotFound)
      ensures ids != [] && Owned(State(), user, playlist) ==> |rows| >= |old(rows)|
      ensures ids != [] && Owned(State(), user, playlist) ==>
        r == if Handled(tracks, ids, budget) < |ids| || (stampFails && |rows| > |old(rows)|) then Err(Database)
             else Ok(|rows| - |old(rows)|)
      ensures old(Valid(State())) && r.Ok? ==>
        r.value == |Tracks(State(), playlist)| - |old(Tracks(State(), playlist))|
    {
      hide Inserted, NextPosition, IsNext, Tracks, MaxOver, DistinctPositions, Handled, ForeignKeys;
      ghost var db := State();
      if Valid(db) {
        AddIsCounted(db, Add(user, playlist, ids, budget, stampFails));
      }
      if ids == [] {
        assert ids[..Handled(tracks, ids, budget)] == [];
        NothingInserted(rows, playlist, NextPosition(rows, playlist), true);
        return Ok(0);
      }
      if !(playlist in owners && owners[playlist] == user) {
        return Err(NotFound);
      }
      var max := MaxPosition(playlist);
      NextIsPastTheMax(rows, playlist, max);
      r := InsertEach(playlist, ids, if max.Some? then max.value + 1 else 0, budget);
      if r.Ok? && r.value > 0 && stampFails {
        return Err(Database);
      }
    }

    method RemoveTrack(user: int, playlist: I32, track: I32, fault: bool, stampFails: bool)
      returns (r: Result<bool, Error>)
      requires ForeignKeys(State())
      modifies this`rows
      ensures State() == AfterCall(old(State()), Remove(user, playlist, track, fault, stampFails))
      ensures ForeignKeys(State())
      ensures r ==
        if !Owned(State(), user, playlist) then Err(NotFound)
        else if fault || (stampFails && (playlist, track) in old(rows)) then Err(Database)
        else Ok((playlist, track) in old(rows))
      ensures old(Valid(State())) && r.Ok? ==> r.value == (track in old(Tracks(State(), playlist)))
    {
      hide Tracks, DistinctPositions;
      if Valid(State()) {
        TableShowsItsTracks(State(), playlist);
      }
      if !(playlist in owners && owners[playlist] == user) {
        return Err(NotFound);
      }
      if fault {
        return Err(Database);
      }
      var deleted := (playlist, track) in rows;
      rows := rows - {(playlist, track)};
      if deleted && stampFails {
        return Err(Database);
      }
      r := Ok(deleted);
    }

    /** One transaction: an id that is no track, or any failure, leaves the old order in place. */
    method ReorderPlaylist(user: int, playlist: I32, ids: seq<I32>, fault: bool) returns (r: Result<(), Error>)
      requires ForeignKeys(State())
      modifies this`rows
      ensures State() == AfterCall(old(State()), Reorder(user, playlist, ids, fault)) && ForeignKeys(State())
      ensures r ==
        if !Owned(State(), user, playlist) then Err(NotFound)
        else if fault || Known(tracks, ids) < |ids| then Err(Database)
        else Ok(())
    {
      hide Inserted, NextPosition, Handled, IsNext;
      if !(playlist in owners && owners[playlist] == user) {
        return Err(NotFound);
      }
      if fault {
        return Err(Database);
      }
      var before, bare := rows, WithoutPlaylist(rows, playlist);
      rows := bare;
      NothingInserted(bare, playlist, 0, false);
      var i: nat := 0;
      while i < |ids|
        invariant i <= Known(tracks, ids) && ForeignKeys(State())
        invariant rows == Inserted(bare, playlist, ids[..i], 0, false)
      {
        InsertedSnoc(bare, playlist, ids[..i], ids[i], 0, false);
        assert ids[..i + 1] == ids[..i] + [ids[i]];
        var written := InsertRow(playlist, ids[i], i);
        if written.Err? {
          rows := before;
          return Err(Database);
        }
        i := i + 1;
      }
      assert ids[..i] == ids;
      r := Ok(());
    }
  }

  /** The rows an uninterrupted add writes are the tracks its list gains. */
  lemma AddIsCounted(db: Db, call: Call)
    requires Valid(db) && call.Add?
    ensures var after := AfterCall(db, call);
      |after.rows| - |db.rows| == |Tracks(after, call.playlist)| - |Tracks(db, call.playlist)|
  {
    hide Inserted, NextPosition, IsNext, Tracks, Valid, Handled;
    CallRefines(db, call);
    AddRefines(db, call.playlist, call.ids[..Handled(db.tracks, call.ids, call.budget)]);
  }

  lemma NothingInserted(rows: Rows, playlist: I32, position: int, dense: bool)
    ensures Inserted(rows, playlist, [], position, dense) == rows
  {
  }

  lemma NothingPicked(rows: Rows, playlist: I32)
    ensures Picked(rows, playlist, [], Members(rows, playlist))
  {
    var none: seq<I32> := [];
    assert Elements(none) == {};
  }

  lemma AllPicked(rows: Rows, playlist: I32, list: seq<I32>)
    requires Picked(rows, playlist, list, {})
    ensures ByPosition(rows, playlist, list)
  {
  }
}

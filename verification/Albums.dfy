/** The archive table: replacing an album's parts by compare-and-swap, and deleting them. */
module Albums {
  import opened Sequences

  datatype Provider = Apple | Qobuz

  datatype Codec = Alac | Ec3 | Aac | Flac

  /** An uploaded archive part, and equally the row that records it. */
  datatype Part = Part(
    provider: Provider, albumId: string, codec: Codec, partIndex: int, totalParts: int, messageId: int,
    fileId: string, fileUniqueId: string, fileSize: int, fileName: string, generation: string)

  datatype Expectation = Empty | Generation(generation: string) | Mixed

  datatype Replacement = Replacement(
    provider: Provider, albumId: string, codec: Codec, expected: Expectation, uploads: seq<Part>)

  /** The order of the displaced ids is the order the database returned the rows in. */
  datatype Outcome = Committed(displaced: seq<int>) | Stale

  datatype Error = MismatchedPart | MessageIdOutOfRange | Database

  /** The rows of one album with one of these codecs. */
  datatype Query = Query(provider: Provider, albumId: string, codecs: set<Codec>)

  predicate Hits(q: Query, p: Part) {
    p.provider == q.provider && p.albumId == q.albumId && p.codec in q.codecs
  }

  predicate Disjoint(a: Query, b: Query) {
    a.provider != b.provider || a.albumId != b.albumId || a.codecs !! b.codecs
  }

  function Select(q: Query, rows: seq<Part>): seq<Part> {
    if rows == [] then []
    else (if Hits(q, rows[0]) then [rows[0]] else []) + Select(q, rows[1..])
  }

  function Others(q: Query, rows: seq<Part>): seq<Part> {
    if rows == [] then []
    else (if Hits(q, rows[0]) then [] else [rows[0]]) + Others(q, rows[1..])
  }

  /** ALAC and AAC archives share one group; the other codecs stand alone. */
  function CodecGroup(codec: Codec): set<Codec> {
    if codec == Alac || codec == Aac then {Alac, Aac} else {codec}
  }

  function GroupOf(r: Replacement): Query {
    Query(r.provider, r.albumId, CodecGroup(r.codec))
  }

  function QueryOf(provider: Provider, albumId: string, codec: Option<Codec>): Query {
    Query(provider, albumId, if codec.Some? then {codec.value} else {Alac, Ec3, Aac, Flac})
  }

  // ----- Table constraints -----

  predicate WellFormed(p: Part) {
    0 < p.partIndex <= p.totalParts && 0 < p.messageId && 0 < p.fileSize && |p.generation| <= 64
  }

  /** Two rows that may not coexist: the same file, or the same part of the same archive. */
  predicate Clash(a: Part, b: Part) {
    || a.fileUniqueId == b.fileUniqueId
    || (a.provider == b.provider && a.albumId == b.albumId && a.codec == b.codec && a.partIndex == b.partIndex)
  }

  predicate Unique(rows: seq<Part>) {
    rows == [] || (Unique(rows[1..]) && forall p :: p in rows[1..] ==> !Clash(rows[0], p))
  }

  predicate Legal(rows: seq<Part>) {
    Unique(rows) && forall p :: p in rows ==> WellFormed(p)
  }

  // ----- What a replacement does -----

  predicate FitsI32(x: int) {
    -0x8000_0000 <= x < 0x8000_0000
  }

  function Problem(r: Replacement, p: Part): Option<Error> {
    if p.provider != r.provider || p.albumId != r.albumId || p.codec != r.codec then Some(MismatchedPart)
    else if !FitsI32(p.messageId) then Some(MessageIdOutOfRange)
    else None
  }

  function FirstProblem(r: Replacement, uploads: seq<Part>): (e: Option<Error>)
    ensures e == None <==> forall p :: p in uploads ==> Problem(r, p) == None
  {
    if uploads == [] then None
    else if Problem(r, uploads[0]).Some? then Problem(r, uploads[0])
    else FirstProblem(r, uploads[1..])
  }

  predicate Satisfies(expected: Expectation, existing: seq<Part>) {
    match expected
    case Empty => existing == []
    case Generation(g) => existing != [] && forall p :: p in existing ==> p.generation == g
    case Mixed => false
  }

  function MessageIds(rows: seq<Part>): seq<int> {
    Map((p: Part) => p.messageId, rows)
  }

  /** `fault` says that some statement of the transaction failed for a reason of the database's own. */
  function ReplaceResult(rows: seq<Part>, r: Replacement, fault: bool): Result<Outcome, Error> {
    var problem, existing := FirstProblem(r, r.uploads), Select(GroupOf(r), rows);
    if problem.Some? then Err(problem.value)
    else if fault then Err(Database)
    else if !Satisfies(r.expected, existing) then Ok(Stale)
    else if !Legal(Others(GroupOf(r), rows) + r.uploads) then Err(Database)
    else Ok(Committed(MessageIds(existing)))
  }

  predicate Commits(rows: seq<Part>, r: Replacement, fault: bool) {
    var result := ReplaceResult(rows, r, fault);
    result.Ok? && result.value.Committed?
  }

  function AfterReplace(rows: seq<Part>, r: Replacement, fault: bool): seq<Part> {
    if Commits(rows, r, fault) then Others(GroupOf(r), rows) + r.uploads else rows
  }

  // ----- Ordering by part index, stable -----

  function Insert(p: Part, sorted: seq<Part>): seq<Part> {
    if sorted == [] || p.partIndex <= sorted[0].partIndex then [p] + sorted
    else [sorted[0]] + Insert(p, sorted[1..])
  }

  function ByPart(rows: seq<Part>): seq<Part> {
    if rows == [] then [] else Insert(rows[0], ByPart(rows[1..]))
  }

  class AlbumsTable {
    var rows: seq<Part>

    constructor ()
      ensures rows == []
    {
      rows := [];
    }

    /** Collects the matching rows ordered by part index. */
    method FindAlbums(provider: Provider, albumId: string, codec: Option<Codec>) returns (found: seq<Part>)
      ensures found == ByPart(Select(QueryOf(provider, albumId, codec), rows))
      ensures InPartOrder(found)
      ensures forall p :: p in found <==> p in rows && Hits(QueryOf(provider, albumId, codec), p)
      ensures Legal(rows) && codec.Some? ==>
        forall i, j :: 0 <= i < j < |found| ==> found[i].partIndex < found[j].partIndex
    {
      hide Hits, Insert, Legal;
      var q := QueryOf(provider, albumId, codec);
      found := [];
      assert rows[|rows|..] == [];
      for i := |rows| downto 0
        invariant found == ByPart(Select(q, rows[i..]))
      {
        assert rows[i..][1..] == rows[i + 1..];
        SelectStep(q, rows[i], rows[i + 1..]);
        assert rows[i..] == [rows[i]] + rows[i + 1..];
        if Hits(q, rows[i]) {
          found := Insert(rows[i], found);
        }
      }
      assert rows[0..] == rows;
      SortSorts(Select(q, rows));
      LookupHasTheRows(q, rows);
      if Legal(rows) && codec.Some? {
        LookupIsOrdered(rows, provider, albumId, codec);
      }
    }

    /** One multi-row insert: all rows or, when one breaks a constraint, none. */
    method InsertAll(parts: seq<Part>) returns (ok: bool)
      requires Legal(rows)
      modifies this
      ensures ok == Legal(old(rows) + parts)
      ensures rows == if ok then old(rows) + parts else old(rows)
    {
      hide Legal, WellFormed, Clash;
      var table := rows;
      assert table == rows + parts[..0];
      for i := 0 to |parts|
        invariant rows == old(rows) && table == rows + parts[..i] && Legal(table)
      {
        var p := parts[i];
        assert rows + parts[..i + 1] == table + [p];
        LegalSnoc(table, p);
        if !WellFormed(p) || exists row :: row in table && Clash(row, p) {
          BadRowStops(rows, parts, i);
          return false;
        }
        table := table + [p];
      }
      assert parts[..|parts|] == parts;
      rows := table;
      ok := true;
    }

    method ReplaceAlbums(r: Replacement, fault: bool) returns (result: Result<Outcome, Error>)
      requires Legal(rows)
      modifies this
      ensures Legal(rows)
      ensures result == ReplaceResult(old(rows), r, fault)
      ensures rows == AfterReplace(old(rows), r, fault)
    {
      hide Legal, Hits;
      var i := 0;
      while i < |r.uploads|
        invariant i <= |r.uploads| && rows == old(rows)
        invariant FirstProblem(r, r.uploads) == FirstProblem(r, r.uploads[i..])
      {
        var problem := Problem(r, r.uploads[i]);
        if problem.Some? {
          return Err(problem.value);
        }
        assert r.uploads[i..][1..] == r.uploads[i + 1..];
        i := i + 1;
      }
      if fault {
        return Err(Database);
      }
      var existing := Select(GroupOf(r), rows);
      var matchesExpected := Expected(r.expected, existing);
      if !matchesExpected {
        return Ok(Stale);
      }
      var before := rows;
      OthersAreLegal(GroupOf(r), rows);
      rows := Others(GroupOf(r), rows);
      var ok := InsertAll(r.uploads);
      if !ok {
        rows := before;
        return Err(Database);
      }
      return Ok(Committed(MessageIds(existing)));
    }

    static method Expected(expected: Expectation, existing: seq<Part>) returns (b: bool)
      ensures b == Satisfies(expected, existing)
    {
      match expected
      case Empty => b := existing == [];
      case Generation(g) =>
        b := existing != [];
        for i := 0 to |existing|
          invariant b <==> existing != [] && forall p :: p in existing[..i] ==> p.generation == g
        {
          b := b && existing[i].generation == g;
        }
        assert existing[..|existing|] == existing;
      case Mixed => b := false;
    }

    /** Finds, then deletes what it found; a failed statement deletes nothing. */
    method DeleteAlbums(provider: Provider, albumId: string, codec: Option<Codec>, fault: bool)
      returns (result: Result<seq<Part>, Error>)
      modifies this
      ensures var q := QueryOf(provider, albumId, codec);
        && result == (if fault then Err(Database) else Ok(ByPart(Select(q, old(rows)))))
        && rows == (if fault then old(rows) else Others(q, old(rows)))
    {
      var q := QueryOf(provider, albumId, codec);
      if fault {
        return Err(Database);
      }
      var existing := FindAlbums(provider, albumId, codec);
      SortKeepsRows(Select(q, rows));
      if existing == [] {
        NothingSelected(q, rows);
        return Ok([]);
      }
      rows := Others(q, rows);
      return Ok(existing);
    }
  }

  // ----- Legal tables -----

  lemma {:induction false} UniqueSnoc(rows: seq<Part>, p: Part)
    ensures Unique(rows + [p]) <==> Unique(rows) && forall row :: row in rows ==> !Clash(row, p)
  {
    hide Clash;
    if rows == [] {
      assert rows + [p] == [p] && [p][1..] == [];
    } else {
      var all := rows + [p];
      assert all[0] == rows[0] && all[1..] == rows[1..] + [p];
      UniqueSnoc(rows[1..], p);
      assert forall row :: row in rows <==> row == rows[0] || row in rows[1..];
      assert forall row :: row in all[1..] <==> row == p || row in rows[1..];
    }
  }

  lemma LegalSnoc(rows: seq<Part>, p: Part)
    ensures Legal(rows + [p]) <==> Legal(rows) && WellFormed(p) && forall row :: row in rows ==> !Clash(row, p)
  {
    hide WellFormed, Clash, Unique;
    UniqueSnoc(rows, p);
    assert forall row :: row in rows + [p] <==> row == p || row in rows;
  }

  lemma {:induction false} LegalPrefix(a: seq<Part>, b: seq<Part>)
    requires Legal(a + b)
    ensures Legal(a)
    decreases |b|
  {
    if b == [] {
      assert a + b == a;
    } else {
      var n := |b| - 1;
      assert a + b == (a + b[..n]) + [b[n]];
      LegalSnoc(a + b[..n], b[n]);
      LegalPrefix(a, b[..n]);
    }
  }

  lemma BadRowStops(rows: seq<Part>, parts: seq<Part>, i: nat)
    requires i < |parts| && !Legal(rows + parts[..i + 1])
    ensures !Legal(rows + parts)
  {
    hide Legal;
    assert rows + parts == rows + parts[..i + 1] + parts[i + 1..];
    if Legal(rows + parts) {
      LegalPrefix(rows + parts[..i + 1], parts[i + 1..]);
    }
  }

  lemma {:induction false} OthersAreLegal(q: Query, rows: seq<Part>)
    requires Legal(rows)
    ensures Legal(Others(q, rows))
  {
    hide WellFormed, Clash, Hits;
    if rows != [] {
      assert forall p :: p in rows[1..] ==> p in rows;
      OthersAreLegal(q, rows[1..]);
      Members(q, rows[1..]);
      var rest := Others(q, rows[1..]);
      assert ([rows[0]] + rest)[1..] == rest;
      assert [] + rest == rest;
    }
  }

  // ----- Selecting -----

  lemma SelectStep(q: Query, p: Part, rest: seq<Part>)
    ensures ByPart(Select(q, [p] + rest))
         == if Hits(q, p) then Insert(p, ByPart(Select(q, rest))) else ByPart(Select(q, rest))
  {
    hide Hits, Insert;
    assert ([p] + rest)[1..] == rest;
    var selected := Select(q, rest);
    assert ([p] + selected)[1..] == selected && [] + selected == selected;
  }

  lemma LookupHasTheRows(q: Query, rows: seq<Part>)
    ensures forall p :: p in ByPart(Select(q, rows)) <==> p in rows && Hits(q, p)
  {
    hide Hits, Select, ByPart;
    Members(q, rows);
    SortKeepsRows(Select(q, rows));
    forall p ensures p in ByPart(Select(q, rows)) <==> p in Select(q, rows) {
      assert p in ByPart(Select(q, rows)) <==> p in multiset(ByPart(Select(q, rows)));
      assert p in Select(q, rows) <==> p in multiset(Select(q, rows));
    }
  }

  lemma {:induction false} Members(q: Query, rows: seq<Part>)
    ensures forall p :: p in Select(q, rows) <==> p in rows && Hits(q, p)
    ensures forall p :: p in Others(q, rows) <==> p in rows && !Hits(q, p)
  {
    hide Hits;
    if rows != [] {
      Members(q, rows[1..]);
      assert forall p :: p in rows <==> p == rows[0] || p in rows[1..];
    }
  }

  lemma {:induction false} NothingSelected(q: Query, rows: seq<Part>)
    requires Select(q, rows) == []
    ensures Others(q, rows) == rows
  {
    if rows != [] {
      NothingSelected(q, rows[1..]);
    }
  }

  lemma {:induction false} NoneSelected(q: Query, rows: seq<Part>)
    requires forall p :: p in rows ==> !Hits(q, p)
    ensures Select(q, rows) == []
  {
    if rows != [] {
      NoneSelected(q, rows[1..]);
    }
  }

  lemma {:induction false} AllSelected(q: Query, rows: seq<Part>)
    requires forall p :: p in rows ==> Hits(q, p)
    ensures Select(q, rows) == rows && Others(q, rows) == []
  {
    if rows != [] {
      AllSelected(q, rows[1..]);
    }
  }

  lemma {:induction false} SelectConcat(q: Query, a: seq<Part>, b: seq<Part>)
    ensures Select(q, a + b) == Select(q, a) + Select(q, b)
    ensures Others(q, a + b) == Others(q, a) + Others(q, b)
  {
    hide Hits;
    if a == [] {
      assert a + b == b;
    } else {
      assert (a + b)[1..] == a[1..] + b;
      SelectConcat(q, a[1..], b);
    }
  }

  /** Removing the rows of one query leaves those of a disjoint one as they were. */
  lemma {:induction false} OthersKeepDisjoint(q: Query, other: Query, rows: seq<Part>)
    requires Disjoint(q, other)
    ensures Select(other, Others(q, rows)) == Select(other, rows)
  {
    if rows != [] {
      OthersKeepDisjoint(q, other, rows[1..]);
      var rest := Others(q, rows[1..]);
      assert ([rows[0]] + rest)[1..] == rest;
      assert [] + rest == rest;
    }
  }

  // ----- A replacement, seen from outside -----

  /**
    A replacement commits exactly when every part belongs to it and has a 32-bit message id, the
    current group meets the expectation, and the table allows the new rows. The group then
    holds the uploads and nothing else; otherwise nothing changed at all.
  */
  lemma ReplaceIsCompareAndSwap(rows: seq<Part>, r: Replacement, fault: bool)
    ensures Commits(rows, r, fault) <==>
      && !fault && (forall p :: p in r.uploads ==> Problem(r, p) == None)
      && Satisfies(r.expected, Select(GroupOf(r), rows))
      && Legal(Others(GroupOf(r), rows) + r.uploads)
    ensures Select(GroupOf(r), AfterReplace(rows, r, fault))
         == if Commits(rows, r, fault) then r.uploads else Select(GroupOf(r), rows)
    ensures !Commits(rows, r, fault) ==> AfterReplace(rows, r, fault) == rows
  {
    hide Legal, Satisfies;
    if Commits(rows, r, fault) {
      var q := GroupOf(r);
      SelectConcat(q, Others(q, rows), r.uploads);
      Members(q, rows);
      NoneSelected(q, Others(q, rows));
      forall p | p in r.uploads ensures Hits(q, p) {
        assert Problem(r, p) == None;
      }
      AllSelected(q, r.uploads);
    }
  }

  /** Rows of any query that does not overlap the group stay exactly as they were. */
  lemma ReplaceKeepsOthers(rows: seq<Part>, r: Replacement, fault: bool, other: Query)
    requires Disjoint(GroupOf(r), other)
    ensures Select(other, AfterReplace(rows, r, fault)) == Select(other, rows)
  {
    hide Legal, Satisfies;
    if Commits(rows, r, fault) {
      var q := GroupOf(r);
      SelectConcat(other, Others(q, rows), r.uploads);
      OthersKeepDisjoint(q, other, rows);
      forall p | p in r.uploads ensures !Hits(other, p) {
        assert Problem(r, p) == None;
      }
      NoneSelected(other, r.uploads);
    }
  }

  /** The archives a replacement takes the place of: its own codec, and the other one of ALAC and AAC. */
  predicate Replaces(r: Replacement, p: Part) {
    && p.provider == r.provider && p.albumId == r.albumId
    && (p.codec == r.codec || {p.codec, r.codec} == {Alac, Aac})
  }

  lemma ReplacesIff(r: Replacement, p: Part)
    ensures Replaces(r, p) <==> Hits(GroupOf(r), p)
  {
    assert {p.codec, r.codec} == {Alac, Aac} <==>
      (p.codec == Alac && r.codec == Aac) || (p.codec == Aac && r.codec == Alac) by {
      assert Alac in {Alac, Aac} && Aac in {Alac, Aac};
    }
  }

  /** The upload is for this archive, and its message id fits. */
  predicate Belongs(r: Replacement, p: Part) {
    && p.provider == r.provider && p.albumId == r.albumId && p.codec == r.codec
    && -0x8000_0000 <= p.messageId < 0x8000_0000
  }

  /** The caller's expectation, in terms of the rows to be replaced. */
  predicate Meets(rows: seq<Part>, r: Replacement) {
    match r.expected
    case Empty => forall p :: p in rows ==> !Replaces(r, p)
    case Generation(g) =>
      (exists p :: p in rows && Replaces(r, p)) && forall p :: p in rows && Replaces(r, p) ==> p.generation == g
    case Mixed => false
  }

  lemma MeetsIff(rows: seq<Part>, r: Replacement)
    ensures Meets(rows, r) <==> Satisfies(r.expected, Select(GroupOf(r), rows))
  {
    hide Hits, Replaces;
    var existing := Select(GroupOf(r), rows);
    Members(GroupOf(r), rows);
    forall p ensures p in existing <==> p in rows && Replaces(r, p) {
      ReplacesIff(r, p);
    }
    assert existing != [] ==> existing[0] in existing;
  }

  /** The constraints of the table, row by row. */
  lemma LegalIff(rows: seq<Part>)
    ensures Legal(rows) <==>
      && (forall p :: p in rows ==>
            1 <= p.partIndex <= p.totalParts && p.messageId >= 1 && p.fileSize >= 1 && |p.generation| <= 64)
      && (forall i, j :: 0 <= i < j < |rows| ==>
            && rows[i].fileUniqueId != rows[j].fileUniqueId
            && (rows[i].provider, rows[i].albumId, rows[i].codec, rows[i].partIndex)
               != (rows[j].provider, rows[j].albumId, rows[j].codec, rows[j].partIndex))
  {
    hide Unique;
    UniqueIff(rows);
  }

  lemma {:induction false} UniqueIff(rows: seq<Part>)
    ensures Unique(rows) <==> forall i, j :: 0 <= i < j < |rows| ==> !Clash(rows[i], rows[j])
  {
    hide Clash;
    if rows != [] {
      UniqueIff(rows[1..]);
      assert forall i :: 0 < i < |rows| ==> rows[1..][i - 1] == rows[i];
      if Unique(rows) {
        forall i, j | 0 <= i < j < |rows| ensures !Clash(rows[i], rows[j]) {
          assert rows[j] == rows[1..][j - 1];
          assert i > 0 ==> rows[i] == rows[1..][i - 1];
        }
      }
    }
  }

  lemma {:induction false} LegalConcat(a: seq<Part>, b: seq<Part>)
    ensures Legal(a + b) <==> Legal(a) && Legal(b) && forall x, y :: x in a && y in b ==> !Clash(x, y)
    decreases |b|
  {
    hide Clash, WellFormed, Unique;
    if b == [] {
      assert a + b == a;
      EmptyIsLegal();
    } else {
      var n := |b| - 1;
      assert a + b == (a + b[..n]) + [b[n]] && b == b[..n] + [b[n]];
      LegalSnoc(a + b[..n], b[n]);
      LegalSnoc(b[..n], b[n]);
      LegalConcat(a, b[..n]);
      assert forall p :: p in b <==> p in b[..n] || p == b[n];
      assert forall p :: p in a + b[..n] <==> p in a || p in b[..n];
      hide Legal;
    }
  }

  lemma EmptyIsLegal()
    ensures Legal([])
  {
  }

  /** No upload reuses the file of a row that stays. */
  predicate FilesAreNew(rows: seq<Part>, r: Replacement) {
    forall x, y :: x in rows && !Replaces(r, x) && y in r.uploads ==> x.fileUniqueId != y.fileUniqueId
  }

  lemma NewRowsFit(rows: seq<Part>, r: Replacement)
    requires Legal(rows) && forall p :: p in r.uploads ==> Belongs(r, p)
    ensures Legal(Others(GroupOf(r), rows) + r.uploads) <==> Legal(r.uploads) && FilesAreNew(rows, r)
  {
    hide Legal, Hits;
    var kept := Others(GroupOf(r), rows);
    OthersAreLegal(GroupOf(r), rows);
    LegalConcat(kept, r.uploads);
    Members(GroupOf(r), rows);
    forall x ensures x in kept <==> x in rows && !Replaces(r, x) {
      ReplacesIff(r, x);
    }
    forall x, y | x in kept && y in r.uploads ensures Clash(x, y) <==> x.fileUniqueId == y.fileUniqueId {
      assert !Replaces(r, x) && Belongs(r, y);
    }
  }

  /**
    A replacement in terms of its inputs: exactly when it commits, which rows there are afterwards, and
    that it answers with the message ids of the rows it took away.
  */
  lemma ReplacementTakesThePlace(rows: seq<Part>, r: Replacement, fault: bool)
    requires Legal(rows)
    ensures Commits(rows, r, fault) <==>
      && !fault && (forall p :: p in r.uploads ==> Belongs(r, p)) && Meets(rows, r)
      && Legal(r.uploads) && FilesAreNew(rows, r)
    ensures Commits(rows, r, fault) ==>
      && (forall p :: p in AfterReplace(rows, r, fault) <==> p in r.uploads || (p in rows && !Replaces(r, p)))
      && (forall id :: id in ReplaceResult(rows, r, fault).value.displaced <==>
            exists p :: p in rows && Replaces(r, p) && p.messageId == id)
    ensures !Commits(rows, r, fault) ==> AfterReplace(rows, r, fault) == rows
  {
    hide Legal, Hits, Satisfies, Replaces, Meets, FilesAreNew, Select, Others;
    MeetsIff(rows, r);
    ReplaceIsCompareAndSwap(rows, r, fault);
    assert forall p :: Problem(r, p) == None <==> Belongs(r, p);
    if forall p :: p in r.uploads ==> Belongs(r, p) {
      NewRowsFit(rows, r);
    }
    Members(GroupOf(r), rows);
    forall p ensures Replaces(r, p) <==> Hits(GroupOf(r), p) {
      ReplacesIff(r, p);
    }
    MessageIdsAre(Select(GroupOf(r), rows));
  }

  /** ALAC and AAC archives of an album take each other's place, and every other codec only its own. */
  lemma GroupHoldsTheUploads(rows: seq<Part>, r: Replacement, fault: bool)
    requires Commits(rows, r, fault)
    ensures var after := AfterReplace(rows, r, fault);
      && (r.codec in {Alac, Aac} ==> Select(Query(r.provider, r.albumId, {Alac, Aac}), after) == r.uploads)
      && (r.codec == Ec3 ==> Select(Query(r.provider, r.albumId, {Ec3}), after) == r.uploads)
      && (r.codec == Flac ==> Select(Query(r.provider, r.albumId, {Flac}), after) == r.uploads)
  {
    hide Legal, Satisfies, Select, AfterReplace;
    ReplaceIsCompareAndSwap(rows, r, fault);
  }

  lemma MessageIdsAre(rows: seq<Part>)
    ensures forall id :: id in MessageIds(rows) <==> exists p :: p in rows && p.messageId == id
  {
    var ids := MessageIds(rows);
    assert |ids| == |rows| && forall i :: 0 <= i < |ids| ==> ids[i] == rows[i].messageId;
    forall p | p in rows ensures p.messageId in ids {
      var i :| 0 <= i < |rows| && rows[i] == p;
      assert ids[i] == p.messageId;
    }
  }

  /** The answers that are not a commit: the first bad upload is named, and a stale expectation comes last. */
  lemma RefusalsAreExplained(rows: seq<Part>, r: Replacement, fault: bool)
    ensures ReplaceResult(rows, r, fault) == Err(MismatchedPart) <==> exists i ::
      && 0 <= i < |r.uploads| && (forall j :: 0 <= j < i ==> Belongs(r, r.uploads[j]))
      && !Belongs(r, r.uploads[i].(messageId := 0))
    ensures ReplaceResult(rows, r, fault) == Err(MessageIdOutOfRange) <==> exists i ::
      && 0 <= i < |r.uploads| && (forall j :: 0 <= j < i ==> Belongs(r, r.uploads[j]))
      && Belongs(r, r.uploads[i].(messageId := 0)) && !Belongs(r, r.uploads[i])
    ensures ReplaceResult(rows, r, fault) == Ok(Stale) <==>
      !fault && (forall p :: p in r.uploads ==> Belongs(r, p)) && !Meets(rows, r)
  {
    hide Legal, Hits, Satisfies, Replaces, Meets, Select, Others;
    MeetsIff(rows, r);
    FirstProblemIsFirst(r, r.uploads);
    assert forall p :: Problem(r, p) == None <==> Belongs(r, p);
  }

  lemma {:induction false} FirstProblemIsFirst(r: Replacement, uploads: seq<Part>)
    ensures forall e :: FirstProblem(r, uploads) == Some(e) <==> exists i ::
      && 0 <= i < |uploads| && (forall j :: 0 <= j < i ==> Belongs(r, uploads[j]))
      && Problem(r, uploads[i]) == Some(e)
  {
    if uploads != [] {
      var rest := uploads[1..];
      FirstProblemIsFirst(r, rest);
      assert forall i :: 0 <= i < |rest| ==> rest[i] == uploads[i + 1];
    }
  }

  // ----- Runs -----

  datatype Step = Replace(r: Replacement, fault: bool) | Delete(q: Query, fault: bool)

  /** The table, the message ids committed so far and the ids reported displaced or deleted so far. */
  datatype Archive = Archive(rows: seq<Part>, committed: multiset<int>, reported: multiset<int>)

  function Apply(s: Archive, step: Step): Archive {
    match step
    case Replace(r, fault) =>
      var result := ReplaceResult(s.rows, r, fault);
      if result.Ok? && result.value.Committed? then
        Archive(AfterReplace(s.rows, r, fault), s.committed + multiset(MessageIds(r.uploads)),
                s.reported + multiset(result.value.displaced))
      else s.(rows := AfterReplace(s.rows, r, fault))
    case Delete(q, fault) =>
      if fault then s
      else s.(rows := Others(q, s.rows), reported := s.reported + multiset(MessageIds(ByPart(Select(q, s.rows)))))
  }

  function Run(s: Archive, steps: seq<Step>): Archive
    decreases |steps|
  {
    if steps == [] then s else Run(Apply(s, steps[0]), steps[1..])
  }

  /** The message ids of these rows, each as often as it occurs. */
  function Ids(rows: seq<Part>): multiset<int> {
    if rows == [] then multiset{} else multiset{rows[0].messageId} + Ids(rows[1..])
  }

  lemma {:induction false} IdsAreMessageIds(rows: seq<Part>)
    ensures multiset(MessageIds(rows)) == Ids(rows)
  {
    if rows != [] {
      IdsAreMessageIds(rows[1..]);
      assert MessageIds(rows) == [rows[0].messageId] + MessageIds(rows[1..]);
    }
  }

  lemma IdsPrepend(p: Part, rows: seq<Part>)
    ensures Ids([p] + rows) == multiset{p.messageId} + Ids(rows)
  {
    assert ([p] + rows)[1..] == rows;
  }

  lemma {:induction false} IdsConcat(a: seq<Part>, b: seq<Part>)
    ensures Ids(a + b) == Ids(a) + Ids(b)
  {
    if a == [] {
      assert a + b == b;
    } else {
      assert (a + b)[1..] == a[1..] + b;
      IdsConcat(a[1..], b);
    }
  }

  lemma SelectCons(q: Query, first: Part, rest: seq<Part>)
    ensures Select(q, [first] + rest) == if Hits(q, first) then [first] + Select(q, rest) else Select(q, rest)
    ensures Others(q, [first] + rest) == if Hits(q, first) then Others(q, rest) else [first] + Others(q, rest)
  {
    hide Hits;
    assert ([first] + rest)[1..] == rest;
    assert [] + Select(q, rest) == Select(q, rest) && [] + Others(q, rest) == Others(q, rest);
  }

  lemma {:induction false} SelectSplits(q: Query, rows: seq<Part>)
    ensures Ids(rows) == Ids(Select(q, rows)) + Ids(Others(q, rows))
  {
    if rows != [] {
      hide Hits, Select, Others, Ids;
      var first, rest := rows[0], rows[1..];
      assert rows == [first] + rest;
      SelectCons(q, first, rest);
      IdsPrepend(first, rest);
      SelectSplits(q, rest);
      if Hits(q, first) {
        IdsPrepend(first, Select(q, rest));
      } else {
        IdsPrepend(first, Others(q, rest));
      }
    }
  }

  lemma {:induction false} InsertKeepsIds(p: Part, sorted: seq<Part>)
    ensures Ids(Insert(p, sorted)) == Ids(sorted) + multiset{p.messageId}
  {
    if sorted == [] || p.partIndex <= sorted[0].partIndex {
      IdsPrepend(p, sorted);
    } else {
      InsertKeepsIds(p, sorted[1..]);
      IdsPrepend(sorted[0], Insert(p, sorted[1..]));
    }
  }

  lemma {:induction false} SortKeepsIds(rows: seq<Part>)
    ensures Ids(ByPart(rows)) == Ids(rows)
  {
    if rows != [] {
      SortKeepsIds(rows[1..]);
      InsertKeepsIds(rows[0], ByPart(rows[1..]));
    }
  }

  lemma {:induction false} InsertKeepsRows(p: Part, sorted: seq<Part>)
    ensures multiset(Insert(p, sorted)) == multiset(sorted) + multiset{p}
  {
    if sorted != [] && p.partIndex > sorted[0].partIndex {
      InsertKeepsRows(p, sorted[1..]);
      assert sorted == [sorted[0]] + sorted[1..];
    }
  }

  lemma {:induction false} SortKeepsRows(rows: seq<Part>)
    ensures multiset(ByPart(rows)) == multiset(rows)
  {
    if rows != [] {
      SortKeepsRows(rows[1..]);
      InsertKeepsRows(rows[0], ByPart(rows[1..]));
      assert rows == [rows[0]] + rows[1..];
    }
  }

  lemma StepConserves(s: Archive, step: Step)
    ensures var t := Apply(s, step);
      Ids(t.rows) + t.reported + s.committed == Ids(s.rows) + s.reported + t.committed
  {
    hide MessageIds, Legal, Satisfies, FirstProblem, Ids;
    match step
    case Replace(r, fault) =>
      if Commits(s.rows, r, fault) {
        SelectSplits(GroupOf(r), s.rows);
        IdsConcat(Others(GroupOf(r), s.rows), r.uploads);
        IdsAreMessageIds(r.uploads);
        IdsAreMessageIds(Select(GroupOf(r), s.rows));
      }
    case Delete(q, _) =>
      SelectSplits(q, s.rows);
      SortKeepsIds(Select(q, s.rows));
      IdsAreMessageIds(ByPart(Select(q, s.rows)));
  }

  lemma Telescope(x: multiset<int>, y: multiset<int>, z: multiset<int>,
                  i: multiset<int>, j: multiset<int>, k: multiset<int>)
    requires y + i == x + j && z + j == y + k
    ensures z + i == x + k
  {
    forall id: int ensures (z + i)[id] == (x + k)[id] {
      assert (y + i)[id] == (x + j)[id] && (z + j)[id] == (y + k)[id];
    }
  }

  /**
    No message is forgotten: over every run, the ids present at the start plus those committed are
    those still in rows plus those some caller was told to clean up. A deletion is one step here;
    what becomes of its lookup when others act before its delete is `SplitDeleteConservesIff`.
  */
  lemma {:induction false} MessagesAreConserved(s: Archive, steps: seq<Step>)
    ensures var t := Run(s, steps);
      Ids(t.rows) + t.reported + s.committed == Ids(s.rows) + s.reported + t.committed
    decreases |steps|
  {
    hide Ids, Apply;
    if steps != [] {
      var next, t := Apply(s, steps[0]), Run(s, steps);
      StepConserves(s, steps[0]);
      MessagesAreConserved(next, steps[1..]);
      Telescope(Ids(s.rows) + s.reported, Ids(next.rows) + next.reported, Ids(t.rows) + t.reported,
                s.committed, next.committed, t.committed);
    }
  }

  /**
    A deletion whose lookup saw `s` and whose delete statement ran after others had taken the steps
    `between`; with nothing found there is no delete statement.
  */
  function SplitDelete(s: Archive, q: Query, between: seq<Step>): Archive {
    var t := Run(s, between);
    if Select(q, s.rows) == [] then t
    else t.(rows := Others(q, t.rows), reported := t.reported + Ids(Select(q, s.rows)))
  }

  /** Such a deletion loses and invents no id exactly when the rows it found carry the ids it deleted. */
  lemma SplitDeleteConservesIff(s: Archive, q: Query, between: seq<Step>)
    ensures var t, u := Run(s, between), SplitDelete(s, q, between);
      Ids(u.rows) + u.reported + s.committed == Ids(s.rows) + s.reported + u.committed
      <==> Select(q, s.rows) == [] || Ids(Select(q, t.rows)) == Ids(Select(q, s.rows))
  {
    hide Ids, Run, Select, Others;
    var t := Run(s, between);
    MessagesAreConserved(s, between);
    SelectSplits(q, t.rows);
    var found, gone, rest := Ids(Select(q, s.rows)), Ids(Select(q, t.rows)), Ids(Others(q, t.rows));
    Cancel(gone, found, rest + t.reported + s.committed, Ids(s.rows) + s.reported + t.committed);
    assert rest + (t.reported + found) + s.committed == found + (rest + t.reported + s.committed);
    assert gone + rest + t.reported + s.committed == gone + (rest + t.reported + s.committed);
  }

  lemma Cancel(a: multiset<int>, b: multiset<int>, rest: multiset<int>, total: multiset<int>)
    requires a + rest == total
    ensures b + rest == total <==> a == b
  {
    if b + rest == total {
      forall id: int ensures a[id] == b[id] {
        assert (a + rest)[id] == (b + rest)[id];
      }
    }
  }

  /** So it conserves when nobody touched the rows in between. */
  lemma UndisturbedDeleteConserves(s: Archive, q: Query, between: seq<Step>)
    requires forall step :: step in between ==> Avoids(step, q)
    ensures var u := SplitDelete(s, q, between);
      Ids(u.rows) + u.reported + s.committed == Ids(s.rows) + s.reported + u.committed
  {
    hide Ids, Run, Select, Others, Avoids, SplitDelete;
    RunKeepsGroup(s, between, q);
    SplitDeleteConservesIff(s, q, between);
  }

  /** And a replacement in between makes it forget the replacement's message. */
  lemma ReplacementInBetweenIsForgotten(s: Archive, r: Replacement, q: Query)
    requires Commits(s.rows, r, false) && q == GroupOf(r) && Select(q, s.rows) != []
    requires Ids(r.uploads) != Ids(Select(q, s.rows))
    ensures var u := SplitDelete(s, q, [Replace(r, false)]);
      Ids(u.rows) + u.reported + s.committed != Ids(s.rows) + s.reported + u.committed
  {
    hide Ids, Select, Others, Commits, SplitDelete;
    ReplaceIsCompareAndSwap(s.rows, r, false);
    SplitDeleteConservesIff(s, q, [Replace(r, false)]);
    RunOfOne(s, Replace(r, false));
    AppliedRows(s, r);
  }

  lemma RunOfOne(s: Archive, step: Step)
    ensures Run(s, [step]) == Apply(s, step)
  {
    assert [step][1..] == [];
    assert Run(Apply(s, step), []) == Apply(s, step);
  }

  lemma AppliedRows(s: Archive, r: Replacement)
    ensures Apply(s, Replace(r, false)).rows == AfterReplace(s.rows, r, false)
  {
    hide Legal, Satisfies, Select, Others, FirstProblem;
  }

  /** The ids a step writes into the rows of a query, and those it takes out of them. */
  function Written(s: Archive, step: Step, q: Query): multiset<int> {
    match step
    case Replace(r, fault) => if Commits(s.rows, r, fault) then Ids(Select(q, r.uploads)) else multiset{}
    case Delete(_, _) => multiset{}
  }

  function TakenOut(s: Archive, step: Step, q: Query): multiset<int> {
    match step
    case Replace(r, fault) =>
      if Commits(s.rows, r, fault) then Ids(Select(q, Select(GroupOf(r), s.rows))) else multiset{}
    case Delete(d, fault) => if fault then multiset{} else Ids(Select(q, Select(d, s.rows)))
  }

  function AllWritten(s: Archive, steps: seq<Step>, q: Query): multiset<int>
    decreases |steps|
  {
    if steps == [] then multiset{} else Written(s, steps[0], q) + AllWritten(Apply(s, steps[0]), steps[1..], q)
  }

  function AllTakenOut(s: Archive, steps: seq<Step>, q: Query): multiset<int>
    decreases |steps|
  {
    if steps == [] then multiset{} else TakenOut(s, steps[0], q) + AllTakenOut(Apply(s, steps[0]), steps[1..], q)
  }

  lemma {:induction false} SelectSplitsWithin(q: Query, d: Query, rows: seq<Part>)
    ensures Ids(Select(q, rows)) == Ids(Select(q, Select(d, rows))) + Ids(Select(q, Others(d, rows)))
  {
    if rows != [] {
      hide Hits, Select, Others, Ids;
      var first, rest := rows[0], rows[1..];
      assert rows == [first] + rest;
      SelectCons(d, first, rest);
      SelectCons(q, first, rest);
      SelectSplitsWithin(q, d, rest);
      if Hits(d, first) {
        SelectCons(q, first, Select(d, rest));
        IdsPrepend(first, Select(q, Select(d, rest)));
      } else {
        SelectCons(q, first, Others(d, rest));
        IdsPrepend(first, Select(q, Others(d, rest)));
      }
      IdsPrepend(first, Select(q, rest));
    }
  }

  lemma StepBalances(s: Archive, step: Step, q: Query)
    ensures Ids(Select(q, Apply(s, step).rows)) + TakenOut(s, step, q)
         == Ids(Select(q, s.rows)) + Written(s, step, q)
  {
    hide Ids, Select, Others, Legal, Satisfies, FirstProblem;
    match step
    case Replace(r, fault) =>
      if Commits(s.rows, r, fault) {
        var d := GroupOf(r);
        SelectSplitsWithin(q, d, s.rows);
        SelectConcat(q, Others(d, s.rows), r.uploads);
        IdsConcat(Select(q, Others(d, s.rows)), Select(q, r.uploads));
      }
    case Delete(d, _) => SelectSplitsWithin(q, d, s.rows);
  }

  /** Over every run the rows of a query gain what steps write into it and lose what they take out. */
  lemma {:induction false} RunBalances(s: Archive, steps: seq<Step>, q: Query)
    ensures Ids(Select(q, Run(s, steps).rows)) + AllTakenOut(s, steps, q)
         == Ids(Select(q, s.rows)) + AllWritten(s, steps, q)
    decreases |steps|
  {
    hide Ids, Select, Apply, Written, TakenOut;
    if steps != [] {
      var next := Apply(s, steps[0]);
      StepBalances(s, steps[0], q);
      RunBalances(next, steps[1..], q);
      Chain(Ids(Select(q, s.rows)), Ids(Select(q, next.rows)), Ids(Select(q, Run(s, steps).rows)),
            Written(s, steps[0], q), TakenOut(s, steps[0], q),
            AllWritten(next, steps[1..], q), AllTakenOut(next, steps[1..], q));
    }
  }

  lemma Chain(x: multiset<int>, y: multiset<int>, z: multiset<int>,
              w: multiset<int>, o: multiset<int>, w': multiset<int>, o': multiset<int>)
    requires y + o == x + w && z + o' == y + w'
    ensures z + (o + o') == x + (w + w')
  {
    forall id: int ensures (z + (o + o'))[id] == (x + (w + w'))[id] {
      assert (y + o)[id] == (x + w)[id] && (z + o')[id] == (y + w')[id];
    }
  }

  /**
    The same condition on the steps in between: a deletion that found something loses and invents no
    id exactly when those steps wrote as many ids into its rows as they took out of them.
  */
  lemma SplitDeleteConservesIffBalanced(s: Archive, q: Query, between: seq<Step>)
    ensures var u := SplitDelete(s, q, between);
      Ids(u.rows) + u.reported + s.committed == Ids(s.rows) + s.reported + u.committed
      <==> Select(q, s.rows) == [] || AllWritten(s, between, q) == AllTakenOut(s, between, q)
  {
    hide Ids, Select, Run, SplitDelete, AllWritten, AllTakenOut;
    SplitDeleteConservesIff(s, q, between);
    RunBalances(s, between, q);
    BalanceIff(Ids(Select(q, Run(s, between).rows)), AllTakenOut(s, between, q),
               Ids(Select(q, s.rows)), AllWritten(s, between, q));
  }

  lemma BalanceIff(left: multiset<int>, out: multiset<int>, found: multiset<int>, written: multiset<int>)
    requires left + out == found + written
    ensures left == found <==> written == out
  {
    forall id: int ensures left[id] + out[id] == found[id] + written[id] {
      assert (left + out)[id] == (found + written)[id];
    }
    if left == found {
      forall id: int ensures written[id] == out[id] {
        assert left[id] == found[id];
      }
    }
    if written == out {
      forall id: int ensures left[id] == found[id] {
        assert written[id] == out[id];
      }
    }
  }

  /** One archive part: message `n` in file `n`. */
  function Sample(n: int, file: string, generation: string): Part {
    Part(Apple, "a", Alac, 1, 1, n, file, file, 9, "n", generation)
  }

  function SampleReplacement(): Replacement {
    Replacement(Apple, "a", Alac, Generation("g"), [Sample(2, "y", "h")])
  }

  lemma SampleCommits(first: Part, r: Replacement)
    requires first == Sample(1, "x", "g") && r == SampleReplacement()
    ensures Hits(GroupOf(r), first) && Commits([first], r, false)
  {
    var second := r.uploads[0];
    SinglePart(GroupOf(r), first);
    SinglePart(GroupOf(r), second);
    assert r.uploads == [second] && r.uploads[1..] == [];
    assert FirstProblem(r, r.uploads) == None by {
      assert Problem(r, second) == None;
    }
    assert Others(GroupOf(r), [first]) + r.uploads == [second];
    assert WellFormed(second);
    hide Hits, Select, Others;
  }

  lemma SampleApplied(s: Archive, r: Replacement)
    requires s == Archive([Sample(1, "x", "g")], multiset{}, multiset{}) && r == SampleReplacement()
    ensures Apply(s, Replace(r, false)) == Archive([Sample(2, "y", "h")], multiset{2}, multiset{1})
    ensures Select(GroupOf(r), s.rows) == s.rows && Ids(s.rows) == multiset{1}
    ensures Others(GroupOf(r), [Sample(2, "y", "h")]) == []
  {
    var first, second := s.rows[0], r.uploads[0];
    SampleCommits(first, r);
    SinglePart(GroupOf(r), first);
    SinglePart(GroupOf(r), second);
    SampleParts();
    hide Sample, SampleReplacement, Hits, Select, Others, Legal, Satisfies, FirstProblem, MessageIds, Ids, CodecGroup;
    assert s.rows == [first] && r.uploads == [second] && [] + [second] == [second];
    assert multiset([1]) == multiset{1} && multiset([2]) == multiset{2};
  }

  /** At one table: message 1 is replaced by message 2 between the lookup and the delete, and 2 is forgotten. */
  lemma SecondMessageIsForgotten()
    ensures var r := SampleReplacement();
      var u := SplitDelete(Archive([Sample(1, "x", "g")], multiset{}, multiset{}), GroupOf(r), [Replace(r, false)]);
      u.rows == [] && u.committed == multiset{2} && u.reported == multiset{1, 1}
  {
    hide Sample, SampleReplacement, GroupOf, Select, Others, Apply, Ids;
    var r := SampleReplacement();
    var s := Archive([Sample(1, "x", "g")], multiset{}, multiset{});
    SampleApplied(s, r);
    RunOfOne(s, Replace(r, false));
  }

  lemma SampleParts()
    ensures Sample(1, "x", "g").messageId == 1 && Sample(2, "y", "h").messageId == 2
    ensures SampleReplacement().uploads == [Sample(2, "y", "h")]
  {
  }

  lemma SinglePart(q: Query, p: Part)
    requires Hits(q, p)
    ensures Select(q, [p]) == [p] && Others(q, [p]) == [] && Unique([p])
    ensures Ids([p]) == multiset{p.messageId} && MessageIds([p]) == [p.messageId]
  {
    assert [p][1..] == [];
  }

  lemma StepStaysLegal(s: Archive, step: Step)
    requires Legal(s.rows)
    ensures Legal(Apply(s, step).rows)
  {
    hide Legal, Satisfies, FirstProblem;
    if step.Delete? {
      OthersAreLegal(step.q, s.rows);
    }
  }

  /** The constraints of the table hold after every run. */
  lemma {:induction false} RunsStayLegal(s: Archive, steps: seq<Step>)
    requires Legal(s.rows)
    ensures Legal(Run(s, steps).rows)
    decreases |steps|
  {
    hide Legal, Apply;
    if steps != [] {
      StepStaysLegal(s, steps[0]);
      RunsStayLegal(Apply(s, steps[0]), steps[1..]);
    }
  }

  predicate Avoids(step: Step, q: Query) {
    match step
    case Replace(r, _) => Disjoint(GroupOf(r), q)
    case Delete(d, _) => Disjoint(d, q)
  }

  lemma {:induction false} RunKeepsGroup(s: Archive, steps: seq<Step>, q: Query)
    requires forall step :: step in steps ==> Avoids(step, q)
    ensures Select(q, Run(s, steps).rows) == Select(q, s.rows)
    decreases |steps|
  {
    hide Disjoint, Select, Others, Commits;
    if steps != [] {
      assert Avoids(steps[0], q);
      match steps[0] {
        case Replace(r, fault) => ReplaceKeepsOthers(s.rows, r, fault, q);
        case Delete(d, _) => OthersKeepDisjoint(d, q, s.rows);
      }
      RunKeepsGroup(Apply(s, steps[0]), steps[1..], q);
    }
  }

  /**
    Two replacers of one group read the same expectation, the first committed, and nobody else
    touched the group since: the second can only commit if the first one's rows still meet it.
    Otherwise it is told that it is stale.
  */
  lemma SecondReplacerSeesTheFirst(
    s: Archive, first: Replacement, between: seq<Step>, second: Replacement, fault: bool)
    requires GroupOf(first) == GroupOf(second) && first.expected == second.expected
    requires Commits(s.rows, first, false)
    requires forall step :: step in between ==> Avoids(step, GroupOf(first))
    ensures var rows := Run(Apply(s, Replace(first, false)), between).rows;
      && (Commits(rows, second, fault) ==> Satisfies(second.expected, first.uploads))
      && (!Satisfies(second.expected, first.uploads) && !fault && FirstProblem(second, second.uploads) == None ==>
            ReplaceResult(rows, second, fault) == Ok(Stale))
  {
    hide Satisfies, Legal, Select, Others, Avoids;
    ReplaceIsCompareAndSwap(s.rows, first, false);
    RunKeepsGroup(Apply(s, Replace(first, false)), between, GroupOf(first));
  }

  // ----- Lookups -----

  predicate InPartOrder(rows: seq<Part>) {
    forall i, j :: 0 <= i < j < |rows| ==> rows[i].partIndex <= rows[j].partIndex
  }

  lemma {:induction false} InsertSorts(p: Part, sorted: seq<Part>)
    requires InPartOrder(sorted)
    ensures InPartOrder(Insert(p, sorted))
    ensures forall x :: x in Insert(p, sorted) <==> x == p || x in sorted
  {
    if sorted != [] && p.partIndex > sorted[0].partIndex {
      InsertSorts(p, sorted[1..]);
      var r := Insert(p, sorted[1..]);
      forall k | 0 <= k < |r| ensures sorted[0].partIndex <= r[k].partIndex {
        assert r[k] in r;
      }
    }
  }

  lemma {:induction false} SortSorts(rows: seq<Part>)
    ensures InPartOrder(ByPart(rows))
  {
    if rows != [] {
      SortSorts(rows[1..]);
      InsertSorts(rows[0], ByPart(rows[1..]));
    }
  }

  lemma {:induction false} SelectIsUnique(q: Query, rows: seq<Part>)
    requires Unique(rows)
    ensures Unique(Select(q, rows))
  {
    hide Clash, Hits;
    if rows != [] {
      SelectIsUnique(q, rows[1..]);
      Members(q, rows[1..]);
      var rest := Select(q, rows[1..]);
      assert ([rows[0]] + rest)[1..] == rest;
      assert [] + rest == rest;
    }
  }

  lemma {:induction false} InsertIsUnique(p: Part, sorted: seq<Part>)
    requires InPartOrder(sorted) && Unique(sorted) && forall x :: x in sorted ==> !Clash(x, p)
    ensures Unique(Insert(p, sorted))
  {
    assert forall x :: Clash(x, p) == Clash(p, x);
    hide Clash;
    if sorted == [] || p.partIndex <= sorted[0].partIndex {
      assert ([p] + sorted)[1..] == sorted;
    } else {
      InsertIsUnique(p, sorted[1..]);
      InsertSorts(p, sorted[1..]);
      var rest := Insert(p, sorted[1..]);
      assert ([sorted[0]] + rest)[1..] == rest;
    }
  }

  lemma {:induction false} SortIsUnique(rows: seq<Part>)
    requires Unique(rows)
    ensures Unique(ByPart(rows))
    ensures forall x :: x in ByPart(rows) <==> x in rows
  {
    assert forall x, y :: Clash(x, y) == Clash(y, x);
    hide Clash, Insert;
    if rows != [] {
      SortIsUnique(rows[1..]);
      SortSorts(rows[1..]);
      InsertSorts(rows[0], ByPart(rows[1..]));
      InsertIsUnique(rows[0], ByPart(rows[1..]));
    }
  }

  /** A lookup returns exactly the matching rows by part index; for one codec no index occurs twice. */
  lemma LookupIsOrdered(rows: seq<Part>, provider: Provider, albumId: string, codec: Option<Codec>)
    requires Legal(rows)
    ensures var q := QueryOf(provider, albumId, codec);
      var found := ByPart(Select(q, rows));
      && (forall p :: p in found <==> p in rows && Hits(q, p))
      && InPartOrder(found)
      && (codec.Some? ==> forall i, j :: 0 <= i < j < |found| ==> found[i].partIndex < found[j].partIndex)
  {
    hide Select, ByPart, Unique;
    var q := QueryOf(provider, albumId, codec);
    var found := ByPart(Select(q, rows));
    Members(q, rows);
    SelectIsUnique(q, rows);
    SortIsUnique(Select(q, rows));
    SortSorts(Select(q, rows));
    if codec.Some? {
      forall i, j | 0 <= i < j < |found| ensures found[i].partIndex < found[j].partIndex {
        UniqueMeansDistinct(found, i, j);
        assert found[i] in found && found[j] in found;
      }
    }
  }

  lemma {:induction false} UniqueMeansDistinct(rows: seq<Part>, i: nat, j: nat)
    requires Unique(rows) && i < j < |rows|
    ensures !Clash(rows[i], rows[j])
  {
    if i == 0 {
      assert rows[j] == rows[1..][j - 1];
    } else {
      UniqueMeansDistinct(rows[1..], i - 1, j - 1);
    }
  }
}

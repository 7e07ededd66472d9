/** Grouping cached tracks and live search results into canonical tracks. */
module Catalog {
  import opened Sequences
  import opened Text

  datatype Source = Source(
    id: int, provider: string, trackId: string, codec: string,
    bitDepth: Option<int>, sampleRate: Option<int>, cached: bool)

  datatype Group = Group(
    id: string, title: string, artist: string, album: string, duration: int,
    artworkUrl: Option<string>, isrc: Option<string>, sources: seq<Source>)

  datatype Track = Track(
    id: int, provider: string, trackId: string, codec: string, title: string, artist: string,
    album: string, duration: int, isrc: Option<string>, bitDepth: int, sampleRate: int)

  datatype Meta = Meta(
    id: string, title: string, artist: string, album: string, durationSecs: int,
    isrc: Option<string>, artworkUrl: string)

  /** One contribution, in the order the two loops make them. */
  datatype Entry = Cached(track: Track) | Live(meta: Meta)

  /** What the matcher looks at. */
  datatype Candidate = Candidate(
    isrc: Option<string>, provider: string, trackId: string, title: string, artist: string, duration: int)

  predicate SameIgnoringCase(a: string, b: string) {
    Lower(a) == Lower(b)
  }

  predicate Blank(s: string) {
    Trim(s) == ""
  }

  function NonBlank(isrc: Option<string>): Option<string> {
    if isrc.Some? && !Blank(isrc.value) then isrc else None
  }

  /** A 64-bit duration cast to 32 bits keeps the low half as a signed number. */
  function ToI32(x: int): (r: int)
    ensures -0x8000_0000 <= r < 0x8000_0000 && (x - r) % 0x1_0000_0000 == 0
  {
    var low := x % 0x1_0000_0000;
    if low >= 0x8000_0000 then low - 0x1_0000_0000 else low
  }

  function CandidateOf(entry: Entry): Candidate {
    match entry
    case Cached(t) => Candidate(NonBlank(t.isrc), t.provider, t.trackId, t.title, t.artist, t.duration)
    case Live(m) => Candidate(NonBlank(m.isrc), "apple", m.id, m.title, m.artist, ToI32(m.durationSecs))
  }

  function SourceOf(entry: Entry): Source {
    match entry
    case Cached(t) => Source(t.id, t.provider, t.trackId, t.codec, Some(t.bitDepth), Some(t.sampleRate), true)
    case Live(m) => Source(0, "apple", m.id, "alac", None, None, false)
  }

  predicate SameTrack(s: Source, provider: string, trackId: string) {
    SameIgnoringCase(s.provider, provider) && s.trackId == trackId
  }

  predicate HasTrack(g: Group, provider: string, trackId: string) {
    exists i :: 0 <= i < |g.sources| && SameTrack(g.sources[i], provider, trackId)
  }

  /** The identity of a source: provider and codec without case, and the track id. */
  function Key(s: Source): (string, string, string) {
    (Lower(s.provider), s.trackId, Lower(s.codec))
  }

  predicate HasKey(g: Group, s: Source) {
    exists i :: 0 <= i < |g.sources| && Key(g.sources[i]) == Key(s)
  }

  function Distance(a: int, b: int): nat {
    if a < b then b - a else a - b
  }

  /** `matches_canonical`; `norm` is the normalization of titles and artists, whatever it is. */
  predicate Matches(norm: string -> string, g: Group, c: Candidate) {
    if HasTrack(g, c.provider, c.trackId) then true
    else if g.isrc.Some? && c.isrc.Some? && !Blank(g.isrc.value) && !Blank(c.isrc.value) then
      SameIgnoringCase(Trim(g.isrc.value), Trim(c.isrc.value))
    else
      && norm(g.title) != "" && norm(g.title) == norm(c.title)
      && norm(g.artist) != "" && norm(g.artist) == norm(c.artist)
      && Distance(g.duration, c.duration) <= 3
  }

  /** The first group that matches, or the number of groups when none does. */
  function FirstMatch(norm: string -> string, groups: seq<Group>, c: Candidate): (i: nat)
    ensures i <= |groups|
  {
    FirstIndex((g: Group) => Matches(norm, g, c), groups)
  }

  /** Merging into a group that matched: fill blanks, and add the source unless it is there already. */
  function Merge(g: Group, entry: Entry): Group {
    var c, s := CandidateOf(entry), SourceOf(entry);
    var isrc := if g.isrc == None then c.isrc else g.isrc;
    match entry
    case Cached(_) =>
      g.(isrc := isrc, sources := if HasKey(g, s) then g.sources else g.sources + [s])
    case Live(m) =>
      g.(isrc := isrc,
         artworkUrl := if g.artworkUrl == None && m.artworkUrl != "" then Some(m.artworkUrl) else g.artworkUrl,
         sources := if HasTrack(g, "apple", m.id) then g.sources else g.sources + [s])
  }

  function NewGroup(entry: Entry): Group {
    var c := CandidateOf(entry);
    var id := if c.isrc.Some? then c.isrc.value else c.trackId;
    match entry
    case Cached(t) => Group(id, t.title, t.artist, t.album, t.duration, None, c.isrc, [SourceOf(entry)])
    case Live(m) =>
      Group(id, m.title, m.artist, m.album, c.duration,
            if m.artworkUrl == "" then None else Some(m.artworkUrl), c.isrc, [SourceOf(entry)])
  }

  /** One turn of either loop. */
  function Add(norm: string -> string, groups: seq<Group>, entry: Entry): seq<Group> {
    var i := FirstMatch(norm, groups, CandidateOf(entry));
    if i < |groups| then groups[i := Merge(groups[i], entry)] else groups + [NewGroup(entry)]
  }

  function Build(norm: string -> string, entries: seq<Entry>): seq<Group> {
    if entries == [] then []
    else Add(norm, Build(norm, entries[..|entries| - 1]), entries[|entries| - 1])
  }

  function Entries(cached: seq<Track>, live: seq<Meta>): seq<Entry> {
    Map((t: Track) => Cached(t), cached) + Map((m: Meta) => Live(m), live)
  }

  method FindGroup(norm: string -> string, groups: seq<Group>, c: Candidate) returns (i: nat)
    ensures i == FirstMatch(norm, groups, c)
  {
    hide Matches;
    i := 0;
    while i < |groups| && !Matches(norm, groups[i], c)
      invariant i <= FirstMatch(norm, groups, c)
    {
      i := i + 1;
    }
  }

  method AddEntry(norm: string -> string, groups: seq<Group>, entry: Entry) returns (groups': seq<Group>)
    ensures groups' == Add(norm, groups, entry)
  {
    var i := FindGroup(norm, groups, CandidateOf(entry));
    if i < |groups| {
      groups' := groups[i := Merge(groups[i], entry)];
    } else {
      groups' := groups + [NewGroup(entry)];
    }
  }

  lemma EntryAt(cached: seq<Track>, live: seq<Meta>)
    ensures |Entries(cached, live)| == |cached| + |live|
    ensures forall i :: 0 <= i < |cached| ==> Entries(cached, live)[i] == Cached(cached[i])
    ensures forall i :: 0 <= i < |live| ==> Entries(cached, live)[|cached| + i] == Live(live[i])
  {
  }

  /** First all cached tracks, then all live results. */
  method BuildCanonicalTracks(norm: string -> string, cached: seq<Track>, live: seq<Meta>)
    returns (canonical: seq<Group>)
    ensures canonical == Build(norm, Entries(cached, live))
  {
    hide Build, Add, Entries;
    ghost var entries := Entries(cached, live);
    EntryAt(cached, live);
    canonical := [];
    EmptyBuild(norm);
    assert entries[..0] == [] && entries[..|entries|] == entries;
    for i := 0 to |cached|
      invariant canonical == Build(norm, entries[..i])
    {
      BuildStep(norm, entries, i);
      canonical := AddEntry(norm, canonical, Cached(cached[i]));
    }
    for i := 0 to |live|
      invariant canonical == Build(norm, entries[..|cached| + i])
    {
      BuildStep(norm, entries, |cached| + i);
      canonical := AddEntry(norm, canonical, Live(live[i]));
    }
  }

  lemma EmptyBuild(norm: string -> string)
    ensures Build(norm, []) == []
  {
  }

  lemma BuildStep(norm: string -> string, entries: seq<Entry>, k: nat)
    requires k < |entries|
    ensures Build(norm, entries[..k + 1]) == Add(norm, Build(norm, entries[..k]), entries[k])
  {
    var prefix := entries[..k + 1];
    assert prefix[..|prefix| - 1] == entries[..k] && prefix[|prefix| - 1] == entries[k];
  }

  // ----- What one contribution may change -----

  /** `later` is the same group after more contributions: nothing is lost, blanks are filled once. */
  predicate Grown(g: Group, later: Group) {
    && later.id == g.id && later.title == g.title && later.artist == g.artist
    && later.album == g.album && later.duration == g.duration
    && g.sources <= later.sources
    && (g.isrc.Some? ==> later.isrc == g.isrc)
    && (g.artworkUrl.Some? ==> later.artworkUrl == g.artworkUrl)
  }

  predicate AllGrown(groups: seq<Group>, later: seq<Group>) {
    |groups| <= |later| && forall i :: 0 <= i < |groups| ==> Grown(groups[i], later[i])
  }

  lemma AddGrows(norm: string -> string, groups: seq<Group>, entry: Entry)
    ensures AllGrown(groups, Add(norm, groups, entry))
  {
  }

  lemma GrownTwice(groups: seq<Group>, later: seq<Group>, last: seq<Group>)
    requires AllGrown(groups, later) && AllGrown(later, last)
    ensures AllGrown(groups, last)
  {
    forall i | 0 <= i < |groups| ensures Grown(groups[i], last[i]) {
      assert Grown(groups[i], later[i]) && Grown(later[i], last[i]);
    }
  }

  /** Earlier groups, their sources and their ISRC never change again. */
  lemma {:induction false} EarlierGroupsPersist(norm: string -> string, entries: seq<Entry>, k: nat)
    requires k <= |entries|
    ensures AllGrown(Build(norm, entries[..k]), Build(norm, entries))
    decreases |entries| - k
  {
    if k == |entries| {
      assert entries[..k] == entries;
    } else {
      hide Build, Add, AllGrown;
      EarlierGroupsPersist(norm, entries, k + 1);
      BuildStep(norm, entries, k);
      AddGrows(norm, Build(norm, entries[..k]), entries[k]);
      GrownTwice(Build(norm, entries[..k]), Build(norm, entries[..k + 1]), Build(norm, entries));
    }
  }

  /** Keys are unique in a group, and an ISRC that is set is not blank. */
  predicate Proper(g: Group) {
    && (forall i, j :: 0 <= i < j < |g.sources| ==> Key(g.sources[i]) != Key(g.sources[j]))
    && (g.isrc.Some? ==> !Blank(g.isrc.value))
  }

  lemma MergeIsProper(g: Group, entry: Entry)
    requires Proper(g)
    ensures Proper(Merge(g, entry))
  {
    hide Blank, Lower;
  }

  lemma {:induction false} GroupsAreProper(norm: string -> string, entries: seq<Entry>, i: nat)
    requires i < |Build(norm, entries)|
    ensures Proper(Build(norm, entries)[i])
  {
    var n := |entries| - 1;
    var before := Build(norm, entries[..n]);
    var at := FirstMatch(norm, before, CandidateOf(entries[n]));
    if i < |before| {
      GroupsAreProper(norm, entries[..n], i);
      hide Build, Proper, Merge, FirstMatch;
      MergeIsProper(before[i], entries[n]);
    }
  }

  // ----- ISRC conflicts -----

  predicate IsrcConflict(a: Option<string>, b: Option<string>) {
    a.Some? && b.Some? && !SameIgnoringCase(Trim(a.value), Trim(b.value))
  }

  /** The group a contribution lands in. */
  function Landing(norm: string -> string, entries: seq<Entry>, k: nat): (i: nat)
    requires k < |entries|
  {
    FirstMatch(norm, Build(norm, entries[..k]), CandidateOf(entries[k]))
  }

  lemma AddRepresents(norm: string -> string, groups: seq<Group>, entry: Entry, final: Group)
    requires Grown(Add(norm, groups, entry)[FirstMatch(norm, groups, CandidateOf(entry))], final)
    ensures HasTrack(final, CandidateOf(entry).provider, CandidateOf(entry).trackId)
    ensures entry.Cached? ==> HasKey(final, SourceOf(entry))
  {
    hide Matches, FirstMatch, Lower, Blank;
    var at, s := FirstMatch(norm, groups, CandidateOf(entry)), SourceOf(entry);
    var g := Add(norm, groups, entry)[at];
    assert forall i :: 0 <= i < |g.sources| ==> final.sources[i] == g.sources[i];
    if at == |groups| {
      assert final.sources[0] == s;
    } else if g.sources != groups[at].sources {
      assert final.sources[|g.sources| - 1] == s;
    }
  }

  /** Every contribution ends in a group that lists its track, and its codec when it is cached. */
  lemma NothingIsDropped(norm: string -> string, entries: seq<Entry>, k: nat)
    requires k < |entries|
    ensures var final, at, c := Build(norm, entries), Landing(norm, entries, k), CandidateOf(entries[k]);
      && at < |final| && HasTrack(final[at], c.provider, c.trackId)
      && (entries[k].Cached? ==> HasKey(final[at], SourceOf(entries[k])))
  {
    hide Build, CandidateOf, SourceOf, HasTrack, HasKey, Grown, Merge, NewGroup, FirstMatch;
    BuildStep(norm, entries, k);
    EarlierGroupsPersist(norm, entries, k + 1);
    AddRepresents(norm, Build(norm, entries[..k]), entries[k], Build(norm, entries)[Landing(norm, entries, k)]);
  }

  /** A codec that a cached track brings first, and a track that a live result brings first, are listed as given. */
  lemma NewSourceIsListed(norm: string -> string, entries: seq<Entry>, k: nat)
    requires k < |entries|
    requires var before, at := Build(norm, entries[..k]), Landing(norm, entries, k);
      at < |before| ==>
        match entries[k]
        case Cached(t) => forall s :: s in before[at].sources ==>
          !(Lower(s.provider) == Lower(t.provider) && s.trackId == t.trackId && Lower(s.codec) == Lower(t.codec))
        case Live(m) => forall s :: s in before[at].sources ==>
          !(Lower(s.provider) == Lower("apple") && s.trackId == m.id)
    ensures Landing(norm, entries, k) < |Build(norm, entries)|
    ensures var sources := Build(norm, entries)[Landing(norm, entries, k)].sources;
      match entries[k]
      case Cached(t) =>
        Source(t.id, t.provider, t.trackId, t.codec, Some(t.bitDepth), Some(t.sampleRate), true) in sources
      case Live(m) => Source(0, "apple", m.id, "alac", None, None, false) in sources
  {
    hide Build, FirstMatch, Lower, Blank, Matches;
    BuildStep(norm, entries, k);
    EarlierGroupsPersist(norm, entries, k + 1);
    var at, s := Landing(norm, entries, k), SourceOf(entries[k]);
    var g, final := Build(norm, entries[..k + 1])[at], Build(norm, entries)[at];
    assert g.sources[|g.sources| - 1] == s;
    assert final.sources[|g.sources| - 1] == s;
  }

  /** The first artwork a live result brings to a group stays. */
  lemma FirstArtworkWins(norm: string -> string, entries: seq<Entry>, k: nat)
    requires k < |entries| && entries[k].Live? && entries[k].meta.artworkUrl != ""
    requires var before, at := Build(norm, entries[..k]), Landing(norm, entries, k);
      at < |before| ==> before[at].artworkUrl == None
    ensures Landing(norm, entries, k) < |Build(norm, entries)|
    ensures Build(norm, entries)[Landing(norm, entries, k)].artworkUrl == Some(entries[k].meta.artworkUrl)
  {
    hide Build, FirstMatch, Matches, Blank, HasKey, HasTrack;
    BuildStep(norm, entries, k);
    EarlierGroupsPersist(norm, entries, k + 1);
  }

  /** The contribution that opens a group names it for good. */
  lemma FounderNamesTheGroup(norm: string -> string, entries: seq<Entry>, k: nat)
    requires k < |entries| && Landing(norm, entries, k) == |Build(norm, entries[..k])|
    ensures Landing(norm, entries, k) < |Build(norm, entries)|
    ensures var g, c := Build(norm, entries)[Landing(norm, entries, k)], CandidateOf(entries[k]);
      && g.title == c.title && g.artist == c.artist && g.duration == c.duration
      && g.album == (if entries[k].Cached? then entries[k].track.album else entries[k].meta.album)
      && g.id == (if c.isrc.Some? then c.isrc.value else c.trackId)
      && |g.sources| > 0 && g.sources[0] == SourceOf(entries[k])
  {
    hide Build, FirstMatch, Matches, Blank;
    BuildStep(norm, entries, k);
    EarlierGroupsPersist(norm, entries, k + 1);
  }

  /** The first ISRC contributed to a group is its ISRC for good. */
  lemma FirstIsrcWins(norm: string -> string, entries: seq<Entry>, k: nat)
    requires k < |entries| && CandidateOf(entries[k]).isrc.Some?
    requires var before, at := Build(norm, entries[..k]), Landing(norm, entries, k);
      at < |before| ==> before[at].isrc == None
    ensures Landing(norm, entries, k) < |Build(norm, entries)|
    ensures Build(norm, entries)[Landing(norm, entries, k)].isrc == CandidateOf(entries[k]).isrc
  {
    hide Build, FirstMatch, Matches, Blank, HasKey, HasTrack;
    BuildStep(norm, entries, k);
    EarlierGroupsPersist(norm, entries, k + 1);
  }

  // ----- Why a contribution joins a group -----

  /** Equal non-empty names after normalization, and at most three seconds apart. */
  predicate Alike(norm: string -> string, a: Candidate, b: Candidate) {
    && norm(a.title) != "" && norm(a.title) == norm(b.title)
    && norm(a.artist) != "" && norm(a.artist) == norm(b.artist)
    && -3 <= a.duration - b.duration <= 3
  }

  /** Contribution `f` opened group `i`. */
  predicate Founds(norm: string -> string, entries: seq<Entry>, f: nat, i: nat)
    requires f < |entries|
  {
    Landing(norm, entries, f) == i && |Build(norm, entries[..f])| == i
  }

  /** One of the first `k` contributions put this track into group `i`. */
  predicate Lists(
    norm: string -> string, entries: seq<Entry>, k: nat, i: nat, provider: string, trackId: string)
    requires k <= |entries|
  {
    exists j: nat :: j < k && Landing(norm, entries, j) == i
      && Lower(CandidateOf(entries[j]).provider) == Lower(provider) && CandidateOf(entries[j]).trackId == trackId
  }

  /** The first ISRC that the first `k` contributions brought into group `i`. */
  function BroughtIsrc(norm: string -> string, entries: seq<Entry>, k: nat, i: nat): Option<string>
    requires k <= |entries|
  {
    if k == 0 then None
    else if BroughtIsrc(norm, entries, k - 1, i).Some? then BroughtIsrc(norm, entries, k - 1, i)
    else if Landing(norm, entries, k - 1) == i then CandidateOf(entries[k - 1]).isrc
    else None
  }

  /**
    The three reasons: the track is listed; both ISRCs are known and agree up to spaces and case; one of
    them is unknown and the contribution is like the one that opened the group.
  */
  predicate Belongs(norm: string -> string, entries: seq<Entry>, k: nat, i: nat)
    requires k < |entries|
  {
    var c, isrc := CandidateOf(entries[k]), BroughtIsrc(norm, entries, k, i);
    || Lists(norm, entries, k, i, c.provider, c.trackId)
    || (isrc.Some? && c.isrc.Some? && Lower(Trim(isrc.value)) == Lower(Trim(c.isrc.value)))
    || ((isrc == None || c.isrc == None)
        && exists f: nat :: f < k && Founds(norm, entries, f, i) && Alike(norm, CandidateOf(entries[f]), c))
  }

  lemma LandsInside(norm: string -> string, entries: seq<Entry>, j: nat, k: nat)
    requires j < k <= |entries|
    ensures Landing(norm, entries, j) < |Build(norm, entries[..k])|
  {
    hide Build, FirstMatch, Merge, NewGroup, Grown;
    BuildStep(norm, entries, j);
    var prefix := entries[..k];
    assert prefix[..j + 1] == entries[..j + 1];
    EarlierGroupsPersist(norm, prefix, j + 1);
  }

  lemma {:induction false} NoneBrought(norm: string -> string, entries: seq<Entry>, k: nat, i: nat)
    requires k <= |entries| && forall j: nat :: j < k ==> Landing(norm, entries, j) != i
    ensures BroughtIsrc(norm, entries, k, i) == None
  {
    hide Landing;
    if k > 0 {
      NoneBrought(norm, entries, k - 1, i);
    }
  }

  /** What a group is, told by the contributions that went into it. */
  ghost predicate Told(norm: string -> string, entries: seq<Entry>, k: nat, i: nat, g: Group)
    requires k <= |entries|
  {
    && g.isrc == BroughtIsrc(norm, entries, k, i)
    && (forall p: string, t: string :: HasTrack(g, p, t) <==> Lists(norm, entries, k, i, p, t))
    && (exists f: nat :: f < k && Founds(norm, entries, f, i))
    && (forall f: nat :: f < k && Founds(norm, entries, f, i) ==>
          var c := CandidateOf(entries[f]);
          g.title == c.title && g.artist == c.artist && g.duration == c.duration)
  }

  lemma {:induction false} GroupIsTold(norm: string -> string, entries: seq<Entry>, k: nat, i: nat)
    requires k <= |entries| && i < |Build(norm, entries[..k])|
    ensures Told(norm, entries, k, i, Build(norm, entries[..k])[i])
  {
    if k == 0 {
      EmptyBuild(norm);
      assert false;
    }
    hide Build, FirstMatch, Told, Merge, NewGroup, Landing;
    var n: nat := k - 1;
    BuildStep(norm, entries, n);
    LandingIs(norm, entries, n);
    var before, at := Build(norm, entries[..n]), Landing(norm, entries, n);
    if i < |before| {
      GroupIsTold(norm, entries, n, i);
      if at == i {
        JoinedIsTold(norm, entries, n, i, before[i]);
      } else {
        OtherIsTold(norm, entries, n, i, before[i]);
      }
    } else {
      FoundedIsTold(norm, entries, n, i);
    }
  }

  lemma LandingIs(norm: string -> string, entries: seq<Entry>, k: nat)
    requires k < |entries|
    ensures Landing(norm, entries, k) == FirstMatch(norm, Build(norm, entries[..k]), CandidateOf(entries[k]))
    ensures Landing(norm, entries, k) <= |Build(norm, entries[..k])|
  {
  }

  lemma JoinedIsTold(norm: string -> string, entries: seq<Entry>, n: nat, i: nat, g: Group)
    requires n < |entries| && Told(norm, entries, n, i, g)
    requires Landing(norm, entries, n) == i < |Build(norm, entries[..n])|
    ensures Told(norm, entries, n + 1, i, Merge(g, entries[n]))
  {
    hide Landing, Build, Trim, Lower, HasTrack, HasKey, CandidateOf;
    var g' := Merge(g, entries[n]);
    forall p: string, t: string ensures HasTrack(g', p, t) <==> Lists(norm, entries, n + 1, i, p, t) {
      TracksAfterMerge(g, entries[n], p, t);
      ListsMore(norm, entries, n, i, p, t);
    }
    MergeKeepsFacts(g, entries[n]);
  }

  lemma MergeKeepsFacts(g: Group, entry: Entry)
    ensures var g' := Merge(g, entry);
      && g'.isrc == (if g.isrc == None then CandidateOf(entry).isrc else g.isrc)
      && g'.title == g.title && g'.artist == g.artist && g'.duration == g.duration
  {
  }

  lemma ListsMore(norm: string -> string, entries: seq<Entry>, n: nat, i: nat, p: string, t: string)
    requires n < |entries|
    ensures Lists(norm, entries, n + 1, i, p, t) <==>
      || Lists(norm, entries, n, i, p, t)
      || (Landing(norm, entries, n) == i
          && SameTrackIds(CandidateOf(entries[n]).provider, CandidateOf(entries[n]).trackId, p, t))
  {
    hide Landing, CandidateOf, Lower;
  }

  lemma OtherIsTold(norm: string -> string, entries: seq<Entry>, n: nat, i: nat, g: Group)
    requires n < |entries| && Told(norm, entries, n, i, g) && Landing(norm, entries, n) != i
    ensures Told(norm, entries, n + 1, i, g)
  {
    hide Landing, Build, HasTrack, CandidateOf, Lists;
    forall p: string, t: string ensures HasTrack(g, p, t) <==> Lists(norm, entries, n + 1, i, p, t) {
      ListsMore(norm, entries, n, i, p, t);
    }
  }

  lemma FoundedIsTold(norm: string -> string, entries: seq<Entry>, n: nat, i: nat)
    requires n < |entries| && Founds(norm, entries, n, i)
    ensures Told(norm, entries, n + 1, i, NewGroup(entries[n]))
  {
    hide Landing, Build, HasTrack, CandidateOf, Lower;
    forall j: nat | j < n ensures Landing(norm, entries, j) != i {
      LandsInside(norm, entries, j, n);
    }
    NoneBrought(norm, entries, n, i);
    NewGroupFacts(entries[n]);
    forall p: string, t: string
      ensures HasTrack(NewGroup(entries[n]), p, t) <==> Lists(norm, entries, n + 1, i, p, t)
    {
      TracksOfNewGroup(entries[n], p, t);
      ListsMore(norm, entries, n, i, p, t);
    }
  }

  lemma NewGroupFacts(entry: Entry)
    ensures var g, c := NewGroup(entry), CandidateOf(entry);
      g.isrc == c.isrc && g.title == c.title && g.artist == c.artist && g.duration == c.duration
  {
  }

  /** A group matches exactly when its history gives a reason. */
  lemma MatchesIff(norm: string -> string, entries: seq<Entry>, k: nat, i: nat)
    requires k < |entries| && i < |Build(norm, entries[..k])|
    ensures Matches(norm, Build(norm, entries[..k])[i], CandidateOf(entries[k])) <==> Belongs(norm, entries, k, i)
  {
    hide Build, Lists, BroughtIsrc, Founds, CandidateOf, Trim, Lower, HasTrack, Landing;
    GroupIsTold(norm, entries, k, i);
    GroupsAreProper(norm, entries[..k], i);
    IsrcIsNotBlank(entries[k]);
  }

  lemma IsrcIsNotBlank(entry: Entry)
    ensures var isrc := CandidateOf(entry).isrc; isrc.Some? ==> Trim(isrc.value) != ""
  {
    hide Trim, ToI32;
  }

  /**
    A contribution joins the first group it belongs to, and opens a new one exactly when it belongs to
    none of the groups there are.
  */
  lemma JoinsIff(norm: string -> string, entries: seq<Entry>, k: nat)
    requires k < |entries|
    ensures var before, at := |Build(norm, entries[..k])|, Landing(norm, entries, k);
      && (at < before ==> Belongs(norm, entries, k, at))
      && (forall i: nat :: i < at ==> !Belongs(norm, entries, k, i))
      && at <= before
  {
    hide Build, Belongs, Matches, CandidateOf;
    var groups, at := Build(norm, entries[..k]), Landing(norm, entries, k);
    if at < |groups| {
      MatchesIff(norm, entries, k, at);
    }
    forall i: nat | i < at ensures !Belongs(norm, entries, k, i) {
      MatchesIff(norm, entries, k, i);
    }
  }

  /** Two tracks of one list, in their own fields. */
  predicate SameSong(norm: string -> string, a: Track, b: Track) {
    if Lower(a.provider) == Lower(b.provider) && a.trackId == b.trackId then true
    else if a.isrc.Some? && Trim(a.isrc.value) != "" && b.isrc.Some? && Trim(b.isrc.value) != "" then
      Lower(Trim(a.isrc.value)) == Lower(Trim(b.isrc.value))
    else
      && norm(a.title) == norm(b.title) != "" && norm(a.artist) == norm(b.artist) != ""
      && -3 <= a.duration - b.duration <= 3
  }

  /** Two cached tracks become one canonical track exactly when they are the same song. */
  lemma TwoTracksMeetIff(norm: string -> string, a: Track, b: Track)
    ensures |Build(norm, [Cached(a), Cached(b)])| == if SameSong(norm, a, b) then 1 else 2
  {
    hide Build, Add, Trim, Lower;
    var entries := [Cached(a), Cached(b)];
    EmptyBuild(norm);
    assert entries[..0] == [] && entries[..2] == entries && entries[..1] == [Cached(a)];
    BuildStep(norm, entries, 0);
    BuildStep(norm, entries, 1);
    AddToNone(norm, Cached(a));
    AddToOne(norm, NewGroup(Cached(a)), Cached(b));
    PairMatchesIff(norm, a, b);
  }

  /** The same for a cached track and a live result, which always comes from Apple. */
  lemma LiveMeetsCachedIff(norm: string -> string, a: Track, m: Meta)
    ensures |Build(norm, [Cached(a), Live(m)])| ==
      if SameSong(norm, a, a.(provider := "apple", trackId := m.id, title := m.title, artist := m.artist,
                              duration := ToI32(m.durationSecs), isrc := m.isrc)) then 1 else 2
  {
    hide Build, Add, Trim, Lower, ToI32;
    var entries := [Cached(a), Live(m)];
    EmptyBuild(norm);
    assert entries[..0] == [] && entries[..2] == entries && entries[..1] == [Cached(a)];
    BuildStep(norm, entries, 0);
    BuildStep(norm, entries, 1);
    AddToNone(norm, Cached(a));
    AddToOne(norm, NewGroup(Cached(a)), Live(m));
    var b := a.(provider := "apple", trackId := m.id, title := m.title, artist := m.artist,
                duration := ToI32(m.durationSecs), isrc := m.isrc);
    assert CandidateOf(Cached(b)) == CandidateOf(Live(m));
    PairMatchesIff(norm, a, b);
  }

  lemma AddToNone(norm: string -> string, entry: Entry)
    ensures Add(norm, [], entry) == [NewGroup(entry)]
  {
  }

  lemma AddToOne(norm: string -> string, g: Group, entry: Entry)
    ensures |Add(norm, [g], entry)| == if Matches(norm, g, CandidateOf(entry)) then 1 else 2
  {
    hide Matches, Merge, NewGroup, CandidateOf;
    assert [g][0] == g;
  }

  lemma PairMatchesIff(norm: string -> string, a: Track, b: Track)
    ensures Matches(norm, NewGroup(Cached(a)), CandidateOf(Cached(b))) <==> SameSong(norm, a, b)
  {
    hide Trim, Lower;
    assert NewGroup(Cached(a)).sources[0] == SourceOf(Cached(a));
  }

  // ----- One track, one group? -----

  predicate SameTrackIds(provider: string, trackId: string, provider': string, trackId': string) {
    SameIgnoringCase(provider, provider') && trackId == trackId'
  }

  /** At most one group lists the track. */
  predicate HasOneHome(groups: seq<Group>, provider: string, trackId: string) {
    forall i, j :: 0 <= i < j < |groups| ==>
      !(HasTrack(groups[i], provider, trackId) && HasTrack(groups[j], provider, trackId))
  }

  /** The group a contribution lands in lists its track, and apart from that lists what it listed. */
  lemma TracksAfterMerge(g: Group, entry: Entry, provider: string, trackId: string)
    ensures var c := CandidateOf(entry);
      HasTrack(Merge(g, entry), provider, trackId) <==>
        HasTrack(g, provider, trackId) || SameTrackIds(c.provider, c.trackId, provider, trackId)
  {
    hide Lower, Blank;
    var s, g', c := SourceOf(entry), Merge(g, entry), CandidateOf(entry);
    if g'.sources == g.sources {
      if SameTrackIds(c.provider, c.trackId, provider, trackId) {
        AlreadyListed(g, entry, provider, trackId);
      }
    } else {
      assert g'.sources[|g.sources|] == s;
      assert forall i :: 0 <= i < |g.sources| ==> g'.sources[i] == g.sources[i];
    }
  }

  lemma AlreadyListed(g: Group, entry: Entry, provider: string, trackId: string)
    requires Merge(g, entry).sources == g.sources
    requires SameTrackIds(CandidateOf(entry).provider, CandidateOf(entry).trackId, provider, trackId)
    ensures HasTrack(g, provider, trackId)
  {
    hide Lower, Blank;
    var s := SourceOf(entry);
    match entry {
      case Cached(_) =>
        var i :| 0 <= i < |g.sources| && Key(g.sources[i]) == Key(s);
        assert SameTrack(g.sources[i], provider, trackId);
      case Live(m) =>
        var i :| 0 <= i < |g.sources| && SameTrack(g.sources[i], "apple", m.id);
        assert SameTrack(g.sources[i], provider, trackId);
    }
  }

  lemma TracksOfNewGroup(entry: Entry, provider: string, trackId: string)
    ensures var c := CandidateOf(entry);
      HasTrack(NewGroup(entry), provider, trackId) <==> SameTrackIds(c.provider, c.trackId, provider, trackId)
  {
    hide Lower, Blank;
    assert NewGroup(entry).sources[0] == SourceOf(entry);
  }

  /**
    A contribution leaves its track with one home exactly when it lands where the track already is, or
    no group had it; the homes of other tracks never change.
  */
  lemma OneHomeIff(norm: string -> string, groups: seq<Group>, entry: Entry)
    requires HasOneHome(groups, CandidateOf(entry).provider, CandidateOf(entry).trackId)
    ensures var c, at := CandidateOf(entry), FirstMatch(norm, groups, CandidateOf(entry));
      HasOneHome(Add(norm, groups, entry), c.provider, c.trackId) <==>
        || (at < |groups| && HasTrack(groups[at], c.provider, c.trackId))
        || (forall i :: 0 <= i < |groups| ==> !HasTrack(groups[i], c.provider, c.trackId))
  {
    hide Matches, HasTrack, Merge, NewGroup, FirstMatch, CandidateOf, SameIgnoringCase;
    var c, at, later := CandidateOf(entry), FirstMatch(norm, groups, CandidateOf(entry)), Add(norm, groups, entry);
    SameAsItself(c.provider);
    if at < |groups| {
      TracksAfterMerge(groups[at], entry, c.provider, c.trackId);
    } else {
      TracksOfNewGroup(entry, c.provider, c.trackId);
    }
    assert HasTrack(later[at], c.provider, c.trackId);
    assert forall i :: 0 <= i < |groups| && i != at ==> later[i] == groups[i];
    if i :| 0 <= i < |groups| && HasTrack(groups[i], c.provider, c.trackId) && i != at {
      assert HasTrack(later[i], c.provider, c.trackId);
      assert i < at ==> !HasOneHome(later, c.provider, c.trackId);
      assert at < i ==> !HasOneHome(later, c.provider, c.trackId);
    }
  }

  lemma SameAsItself(s: string)
    ensures SameIgnoringCase(s, s)
  {
  }

  lemma OtherHomesStay(norm: string -> string, groups: seq<Group>, entry: Entry, provider: string, trackId: string)
    requires !SameTrackIds(CandidateOf(entry).provider, CandidateOf(entry).trackId, provider, trackId)
    ensures HasOneHome(Add(norm, groups, entry), provider, trackId) <==> HasOneHome(groups, provider, trackId)
  {
    hide Matches, HasTrack, Merge, NewGroup, FirstMatch, CandidateOf, SameIgnoringCase;
    var at, later := FirstMatch(norm, groups, CandidateOf(entry)), Add(norm, groups, entry);
    if at < |groups| {
      TracksAfterMerge(groups[at], entry, provider, trackId);
    } else {
      TracksOfNewGroup(entry, provider, trackId);
    }
    assert forall i :: 0 <= i < |groups| ==>
      (HasTrack(later[i], provider, trackId) <==> HasTrack(groups[i], provider, trackId));
    assert at == |groups| ==> !HasTrack(later[at], provider, trackId);
  }

  lemma FirstGroupMatches(norm: string -> string, groups: seq<Group>, c: Candidate)
    requires groups != [] && Matches(norm, groups[0], c)
    ensures FirstMatch(norm, groups, c) == 0
  {
    hide Matches;
  }

  lemma OnlyGroupDiffers(norm: string -> string, g: Group, c: Candidate)
    requires !Matches(norm, g, c)
    ensures FirstMatch(norm, [g], c) == 1
  {
    hide Matches;
    assert [g][0] == g;
  }

  /** Two tracks without ISRC, apart in duration, and again in a second codec each with one ISRC. */
  predicate SharedLateIsrc(a: Track, b: Track, a': Track, b': Track) {
    && a.isrc == None && b.isrc == None && a'.isrc == b'.isrc && a'.isrc.Some? && !Blank(a'.isrc.value)
    && a'.provider == a.provider && a'.trackId == a.trackId && b'.provider == b.provider && b'.trackId == b.trackId
    && a.trackId != b.trackId && Distance(a.duration, b.duration) > 3
  }

  lemma SecondTrackOpensAGroup(norm: string -> string, a: Track, b: Track, a': Track, b': Track)
    requires SharedLateIsrc(a, b, a', b')
    ensures var g := NewGroup(Cached(a));
      Add(norm, [], Cached(a)) == [g] && Add(norm, [g], Cached(b)) == [g, NewGroup(Cached(b))]
  {
    hide Blank, Lower;
    OnlyGroupDiffers(norm, NewGroup(Cached(a)), CandidateOf(Cached(b)));
  }

  lemma SecondCodecsLandTogether(norm: string -> string, a: Track, b: Track, a': Track, b': Track)
    requires SharedLateIsrc(a, b, a', b')
    ensures var g, h := NewGroup(Cached(a)), NewGroup(Cached(b));
      var g' := Merge(g, Cached(a'));
      && Add(norm, [g, h], Cached(a')) == [g', h]
      && Add(norm, [g', h], Cached(b')) == [Merge(g', Cached(b')), h]
  {
    hide Blank, Lower, FirstMatch;
    var g, h := NewGroup(Cached(a)), NewGroup(Cached(b));
    var g' := Merge(g, Cached(a'));
    assert SameTrack(g.sources[0], a'.provider, a'.trackId);
    FirstGroupMatches(norm, [g, h], CandidateOf(Cached(a')));
    assert g'.isrc == b'.isrc;
    FirstGroupMatches(norm, [g', h], CandidateOf(Cached(b')));
  }

  /** Then the second track ends in two groups: its own, and the first one's, whose ISRC its second codec shares. */
  lemma SecondTrackHasTwoHomes(norm: string -> string, a: Track, b: Track, a': Track, b': Track)
    requires SharedLateIsrc(a, b, a', b')
    ensures var groups := Build(norm, [Cached(a), Cached(b), Cached(a'), Cached(b')]);
      |groups| == 2 && HasTrack(groups[0], b.provider, b.trackId) && HasTrack(groups[1], b.provider, b.trackId)
    ensures !HasOneHome(Build(norm, [Cached(a), Cached(b), Cached(a'), Cached(b')]), b.provider, b.trackId)
  {
    SecondTrackOpensAGroup(norm, a, b, a', b');
    SecondCodecsLandTogether(norm, a, b, a', b');
    var g', h := Merge(NewGroup(Cached(a)), Cached(a')), NewGroup(Cached(b));
    TracksAfterMerge(g', Cached(b'), b.provider, b.trackId);
    TracksOfNewGroup(Cached(b), b.provider, b.trackId);
    BuildFour(norm, Cached(a), Cached(b), Cached(a'), Cached(b'));
    hide Add, Build, Merge, NewGroup, HasTrack, SharedLateIsrc, SameTrackIds;
  }

  lemma BuildFour(norm: string -> string, a: Entry, b: Entry, c: Entry, d: Entry)
    ensures Build(norm, [a, b, c, d]) == Add(norm, Add(norm, Add(norm, Add(norm, [], a), b), c), d)
  {
    hide Add, Build;
    var entries := [a, b, c, d];
    EmptyBuild(norm);
    assert entries[..0] == [] && entries[..4] == entries;
    BuildStep(norm, entries, 0);
    BuildStep(norm, entries, 1);
    BuildStep(norm, entries, 2);
    BuildStep(norm, entries, 3);
  }

  /** One such input: codec `n` of track "1" or "2"; only the second codecs carry an ISRC. */
  function Sample(first: bool, again: bool): Track {
    Track(if first then 1 else 2, "apple", if first then "1" else "2", if again then "ec-3" else "alac",
          if first then "x" else "y", "a", "z", if first then 0 else 100, if again then Some("I") else None, 16, 44_100)
  }

  lemma SamplesShareLateIsrc()
    ensures SharedLateIsrc(Sample(true, false), Sample(false, false), Sample(true, true), Sample(false, true))
  {
    hide Trim;
    assert "1"[0] != "2"[0];
    TrimKeeps("I");
  }

  lemma TrackInTwoGroups(norm: string -> string)
    ensures var entries := [Cached(Sample(true, false)), Cached(Sample(false, false)),
                            Cached(Sample(true, true)), Cached(Sample(false, true))];
      !HasOneHome(Build(norm, entries), Sample(false, false).provider, Sample(false, false).trackId)
  {
    hide Sample, SharedLateIsrc, HasOneHome, Build;
    SamplesShareLateIsrc();
    SecondTrackHasTwoHomes(norm, Sample(true, false), Sample(false, false), Sample(true, true), Sample(false, true));
  }

  lemma ConflictStep(norm: string -> string, groups: seq<Group>, entry: Entry, final: Group)
    requires var at := FirstMatch(norm, groups, CandidateOf(entry));
      && (at < |groups| ==> Proper(groups[at]))
      && Grown(Add(norm, groups, entry)[at], final)
    requires IsrcConflict(CandidateOf(entry).isrc, final.isrc)
    ensures var at, c := FirstMatch(norm, groups, CandidateOf(entry)), CandidateOf(entry);
      at < |groups| && HasTrack(groups[at], c.provider, c.trackId)
  {
    hide SourceOf, HasTrack, HasKey, Trim, Lower;
  }

  /**
    A contribution whose ISRC differs from the final one of its group is there only because a
    source with its provider and track id was in that group before it.
  */
  lemma ConflictOnlyForSameTrack(norm: string -> string, entries: seq<Entry>, k: nat)
    requires k < |entries|
    requires Landing(norm, entries, k) < |Build(norm, entries)|
    requires IsrcConflict(CandidateOf(entries[k]).isrc, Build(norm, entries)[Landing(norm, entries, k)].isrc)
    ensures var before, at, c := Build(norm, entries[..k]), Landing(norm, entries, k), CandidateOf(entries[k]);
      at < |before| && HasTrack(before[at], c.provider, c.trackId)
  {
    hide Build, CandidateOf, IsrcConflict, HasTrack, Proper, Grown, Merge, NewGroup, FirstMatch;
    var before, at := Build(norm, entries[..k]), Landing(norm, entries, k);
    BuildStep(norm, entries, k);
    EarlierGroupsPersist(norm, entries, k + 1);
    if at < |before| {
      GroupsAreProper(norm, entries[..k], at);
    }
    ConflictStep(norm, before, entries[k], Build(norm, entries)[at]);
  }

  // ----- Conservation of sources -----

  function Bag(groups: seq<Group>): multiset<Source> {
    if groups == [] then multiset{} else multiset(groups[0].sources) + Bag(groups[1..])
  }

  lemma {:induction false} BagUpdate(groups: seq<Group>, i: nat, g: Group)
    requires i < |groups| && groups[i].sources <= g.sources
    ensures Bag(groups[i := g]) == Bag(groups) + multiset(g.sources[|groups[i].sources|..])
  {
    if i == 0 {
      assert groups[i := g][1..] == groups[1..];
      assert g.sources == groups[0].sources + g.sources[|groups[0].sources|..];
    } else {
      assert groups[i := g][1..] == groups[1..][i - 1 := g];
      BagUpdate(groups[1..], i - 1, g);
    }
  }

  lemma {:induction false} BagSnoc(groups: seq<Group>, g: Group)
    ensures Bag(groups + [g]) == Bag(groups) + multiset(g.sources)
  {
    if groups == [] {
      assert groups + [g] == [g] && [g][1..] == [];
    } else {
      assert (groups + [g])[1..] == groups[1..] + [g];
      BagSnoc(groups[1..], g);
    }
  }

  lemma {:induction false} InBag(groups: seq<Group>, i: nat, s: Source)
    requires i < |groups| && s in groups[i].sources
    ensures s in Bag(groups)
  {
    if i > 0 {
      InBag(groups[1..], i - 1, s);
    }
  }

  /** One contribution adds at most its own source; a cached one with a new key adds exactly that. */
  lemma AddsOneSource(norm: string -> string, groups: seq<Group>, entry: Entry)
    ensures var bag, bag' := Bag(groups), Bag(Add(norm, groups, entry));
      bag' == bag || bag' == bag + multiset{SourceOf(entry)}
    ensures entry.Cached? && (forall s :: s in Bag(groups) ==> Key(s) != Key(SourceOf(entry))) ==>
      Bag(Add(norm, groups, entry)) == Bag(groups) + multiset{SourceOf(entry)}
  {
    hide Matches, Key, SourceOf, CandidateOf, FirstMatch;
    var i := FirstMatch(norm, groups, CandidateOf(entry));
    if i < |groups| {
      var g, g' := groups[i], Merge(groups[i], entry);
      BagUpdate(groups, i, g');
      assert g'.sources == g.sources || g'.sources == g.sources + [SourceOf(entry)];
      assert g'.sources[|g.sources|..] == [] || g'.sources[|g.sources|..] == [SourceOf(entry)];
      forall s | s in g.sources ensures s in Bag(groups) {
        InBag(groups, i, s);
      }
    } else {
      BagSnoc(groups, NewGroup(entry));
    }
  }

  predicate DistinctKeys(entries: seq<Entry>) {
    forall i, j :: 0 <= i < j < |entries| ==> Key(SourceOf(entries[i])) != Key(SourceOf(entries[j]))
  }

  /** A source that came from one of these entries has none of the keys that come later. */
  lemma KeyIsNew(entries: seq<Entry>, s: Source)
    requires entries != [] && DistinctKeys(entries)
    requires s in multiset(Map(SourceOf, entries[..|entries| - 1]))
    ensures Key(s) != Key(SourceOf(entries[|entries| - 1]))
  {
    hide Key, SourceOf;
    var sources := Map(SourceOf, entries[..|entries| - 1]);
    assert s in sources;
    var i :| 0 <= i < |sources| && sources[i] == s;
    assert s == SourceOf(entries[i]);
  }

  lemma SourcesSnoc(entries: seq<Entry>)
    requires entries != []
    ensures multiset(Map(SourceOf, entries))
         == multiset(Map(SourceOf, entries[..|entries| - 1])) + multiset{SourceOf(entries[|entries| - 1])}
  {
    hide SourceOf;
    var n := |entries| - 1;
    var init, last := entries[..n], [entries[n]];
    MapConcat(SourceOf, init, last);
    assert entries == init + last;
    assert Map(SourceOf, last) == [SourceOf(entries[n])];
  }

  /** Cached tracks with distinct keys each become exactly one source overall. */
  lemma {:induction false} CachedSourcesAreConserved(norm: string -> string, entries: seq<Entry>)
    requires (forall entry :: entry in entries ==> entry.Cached?) && DistinctKeys(entries)
    ensures Bag(Build(norm, entries)) == multiset(Map(SourceOf, entries))
  {
    hide Add, Key, SourceOf, Bag;
    if entries == [] {
      EmptyBag();
    } else {
      var n := |entries| - 1;
      CachedSourcesAreConserved(norm, entries[..n]);
      SourcesSnoc(entries);
      forall s | s in Bag(Build(norm, entries[..n])) ensures Key(s) != Key(SourceOf(entries[n])) {
        KeyIsNew(entries, s);
      }
      AddsOneSource(norm, Build(norm, entries[..n]), entries[n]);
    }
  }

  lemma EmptyBag()
    ensures Bag([]) == multiset{}
  {
  }

  /** After the live results: the same cached sources, and at most one uncached source per live result. */
  lemma {:induction false} SourcesAreConserved(norm: string -> string, cached: seq<Entry>, live: seq<Entry>)
    returns (added: multiset<Source>)
    requires (forall entry :: entry in cached ==> entry.Cached?) && DistinctKeys(cached)
    requires forall entry :: entry in live ==> entry.Live?
    ensures Bag(Build(norm, cached + live)) == multiset(Map(SourceOf, cached)) + added
    ensures |added| <= |live| && forall s :: s in added ==> !s.cached
    decreases |live|
  {
    hide Bag, Add, DistinctKeys, Map;
    if live == [] {
      assert cached + live == cached;
      CachedSourcesAreConserved(norm, cached);
      added := multiset{};
    } else {
      var n := |live| - 1;
      added := SourcesAreConserved(norm, cached, live[..n]);
      var entries := cached + live;
      assert entries[..|entries| - 1] == cached + live[..n] && entries[|entries| - 1] == live[n];
      var groups := Build(norm, cached + live[..n]);
      AddsOneSource(norm, groups, live[n]);
      assert live[n] in live && !SourceOf(live[n]).cached;
      assert forall entry :: entry in live[..n] ==> entry in live;
      if Bag(Add(norm, groups, live[n])) != Bag(groups) {
        added := added + multiset{SourceOf(live[n])};
      }
    }
  }
}

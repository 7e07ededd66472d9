/** The ZIP part planner: an in-order greedy packer with checked 64-bit sizes. */
module ZipPlan {
  import opened Sequences
  import opened Text
  import opened Filename

  const ENTRY_OVERHEAD_BYTES: nat := 512
  const ARCHIVE_HEADROOM_BYTES: nat := 65_536

  datatype Track = Track(path: string, name: string, size: nat)

  datatype Part = Part(index: nat, total: nat, tracks: seq<Track>, cover: Option<string>, archiveName: string)

  datatype ZipError =
    | Empty
    | InvalidLimit
    | InvalidEntryName(name: string)
    | DuplicateEntry(name: string)
    | TrackTooLarge(name: string)
    | Source(path: string)

  function Weight(tracks: seq<Track>): nat {
    if tracks == [] then 0 else tracks[0].size + Weight(tracks[1..])
  }

  lemma {:induction false} WeightConcat(a: seq<Track>, b: seq<Track>)
    ensures Weight(a + b) == Weight(a) + Weight(b)
  {
    if a == [] {
      assert a + b == b;
    } else {
      assert (a + b)[1..] == a[1..] + b;
      WeightConcat(a[1..], b);
    }
  }

  // ----- Contiguous partitions -----

  /** A part is allowed when it fits beside the cover or holds a single track. */
  predicate Fits(part: seq<Track>, cover: nat, usable: nat) {
    part != [] && (|part| == 1 || cover + Weight(part) <= usable)
  }

  predicate Partition(parts: seq<seq<Track>>, tracks: seq<Track>, cover: nat, usable: nat) {
    Flatten(parts) == tracks && forall k :: 0 <= k < |parts| ==> Fits(parts[k], cover, usable)
  }

  /** No part could have taken the first track of the next one. */
  predicate Saturated(parts: seq<seq<Track>>, cover: nat, usable: nat) {
    forall k :: 0 < k < |parts| ==> parts[k] != [] && cover + Weight(parts[k - 1]) + parts[k][0].size > usable
  }

  /** The partition of what is left after the first `n` tracks. */
  function Drop(parts: seq<seq<Track>>, n: nat): seq<seq<Track>> {
    if parts == [] || n == 0 then parts
    else if n >= |parts[0]| then Drop(parts[1..], n - |parts[0]|)
    else [parts[0][n..]] + parts[1..]
  }

  lemma {:induction false} DropIsPartition(parts: seq<seq<Track>>, n: nat, cover: nat, usable: nat)
    requires n <= |Flatten(parts)| && Partition(parts, Flatten(parts), cover, usable)
    ensures Partition(Drop(parts, n), Flatten(parts)[n..], cover, usable)
    ensures |Drop(parts, n)| <= |parts|
    ensures parts != [] && n >= |parts[0]| ==> |Drop(parts, n)| < |parts|
  {
    if parts != [] && n > 0 {
      var head, tail := parts[0], parts[1..];
      if n >= |head| {
        DropIsPartition(tail, n - |head|, cover, usable);
        assert Flatten(parts)[n..] == Flatten(tail)[n - |head|..];
      } else {
        assert head == head[..n] + head[n..];
        WeightConcat(head[..n], head[n..]);
        var rest := Drop(parts, n);
        assert rest[1..] == tail;
        assert Flatten(rest) == Flatten(parts)[n..];
      }
    }
  }

  /** The first part of a saturated partition is at least as long as that of any other. */
  lemma FirstPartIsLongest(greedy: seq<seq<Track>>, other: seq<seq<Track>>, tracks: seq<Track>, cover: nat, usable: nat)
    requires Partition(greedy, tracks, cover, usable) && Saturated(greedy, cover, usable) && |greedy| >= 2
    requires Partition(other, tracks, cover, usable)
    ensures other != [] && |other[0]| <= |greedy[0]|
  {
    var n := |greedy[0]|;
    assert tracks[..n] == greedy[0];
    assert tracks[n] == greedy[1][0] by {
      assert greedy[1..][0] == greedy[1];
      assert tracks[n..] == Flatten(greedy[1..]);
    }
    if |other[0]| > n {
      var more := other[0][n + 1..];
      assert other[0] == greedy[0] + [greedy[1][0]] + more by {
        assert other[0] == tracks[..|other[0]|];
      }
      OneMoreWeighs(greedy[0], greedy[1][0], more);
    }
  }

  lemma OneMoreWeighs(a: seq<Track>, track: Track, more: seq<Track>)
    ensures Weight(a + [track] + more) >= Weight(a) + track.size
  {
    WeightConcat(a + [track], more);
    WeightConcat(a, [track]);
    assert [track][1..] == [];
  }

  /** A saturated partition uses the fewest parts among all in-order contiguous partitions. */
  lemma {:induction false} SaturatedIsFewest(
      greedy: seq<seq<Track>>, other: seq<seq<Track>>, tracks: seq<Track>, cover: nat, usable: nat)
    requires Partition(greedy, tracks, cover, usable) && Saturated(greedy, cover, usable)
    requires Partition(other, tracks, cover, usable)
    ensures |greedy| <= |other|
  {
    if |greedy| >= 2 {
      FirstPartIsLongest(greedy, other, tracks, cover, usable);
      var n := |greedy[0]|;
      DropIsPartition(other, n, cover, usable);
      assert tracks[n..] == Flatten(greedy[1..]);
      SaturatedIsFewest(greedy[1..], Drop(other, n), tracks[n..], cover, usable);
    }
  }

  // ----- Grouping -----

  /** The planner's variables: the closed groups, the open part, and its size with the cover. */
  datatype Packing = Packing(groups: seq<seq<Track>>, current: seq<Track>, size: nat)

  /** One turn of the grouping loop, with its checked additions. */
  function AddTrack(p: Packing, track: Track, cover: nat, usable: nat): Result<Packing, ZipError> {
    if track.size > usable then Err(TrackTooLarge(track.name))
    else if p.size + track.size >= U64 then Err(InvalidLimit)
    else if p.current != [] && p.size + track.size > usable then
      if cover + track.size >= U64 then Err(InvalidLimit)
      else Ok(Packing(p.groups + [p.current], [track], cover + track.size))
    else Ok(Packing(p.groups, p.current + [track], p.size + track.size))
  }

  /** The first problem the grouping loop meets on the remaining tracks. */
  function GroupProblem(p: Packing, rest: seq<Track>, cover: nat, usable: nat): Option<ZipError>
    decreases |rest|
  {
    if rest == [] then None
    else
      match AddTrack(p, rest[0], cover, usable)
      case Ok(p') => GroupProblem(p', rest[1..], cover, usable)
      case Err(error) => Some(error)
  }

  /** With the cover and two full parts below 2^64 no sum overflows: then only an oversized track is a problem. */
  lemma {:induction false} NoOverflow(p: Packing, rest: seq<Track>, cover: nat, usable: nat)
    requires cover <= usable && cover + 2 * usable < U64 && p.size <= cover + usable
    requires p.current == [] ==> p.size == cover
    ensures var problem := GroupProblem(p, rest, cover, usable);
      && (problem == None <==> forall t :: t in rest ==> t.size <= usable)
      && (problem.Some? ==> problem.value.TrackTooLarge?)
    decreases |rest|
  {
    if rest != [] && rest[0].size <= usable {
      NoOverflow(AddTrack(p, rest[0], cover, usable).value, rest[1..], cover, usable);
      assert forall t :: t in rest <==> t == rest[0] || t in rest[1..];
    }
  }

  predicate Within(tracks: seq<Track>, usable: nat) {
    forall t :: t in tracks ==> t.size <= usable
  }

  /** Otherwise two tracks that fill a part each are refused, although one part each would do. */
  lemma TwoFullTracksOverflow(a: Track, b: Track, cover: nat, usable: nat)
    requires cover <= usable < U64 && a.size <= usable && b.size <= usable
    requires cover + a.size + b.size >= U64
    ensures GroupProblem(Packing([], [], cover), [a, b], cover, usable) == Some(InvalidLimit)
    ensures Partition([[a], [b]], [a, b], cover, usable)
  {
    assert [a, b][1..] == [b];
    FlattenSnoc([], [a]);
    FlattenSnoc([[a]], [b]);
    assert [] + [[a]] + [[b]] == [[a], [b]] && [[a]] + [[b]] == [[a], [b]];
    assert Flatten([[a]]) == [a];
  }

  /** Every list of tracks that fit is grouped exactly when the cover and two full parts stay below 2^64. */
  lemma NoOverflowIff(cover: nat, usable: nat)
    requires cover <= usable < U64
    ensures (forall tracks :: Within(tracks, usable) ==>
              GroupProblem(Packing([], [], cover), tracks, cover, usable) == None)
      <==> cover + 2 * usable < U64
  {
    hide GroupProblem;
    if cover + 2 * usable < U64 {
      forall tracks | Within(tracks, usable)
        ensures GroupProblem(Packing([], [], cover), tracks, cover, usable) == None
      {
        NoOverflow(Packing([], [], cover), tracks, cover, usable);
      }
    } else {
      var a := Track("a", "a", usable);
      TwoFullTracksOverflow(a, a, cover, usable);
      assert Within([a, a], usable);
    }
  }

  /** Growing the last part keeps a partition saturated. */
  lemma GrowLast(groups: seq<seq<Track>>, last: seq<Track>, track: Track, tracks: seq<Track>, cover: nat, usable: nat)
    requires last != [] && cover + Weight(last) + track.size <= usable
    requires Partition(groups + [last], tracks, cover, usable) && Saturated(groups + [last], cover, usable)
    ensures Weight(last + [track]) == Weight(last) + track.size
    ensures Partition(groups + [last + [track]], tracks + [track], cover, usable)
    ensures Saturated(groups + [last + [track]], cover, usable)
  {
    WeightConcat(last, [track]);
    assert [track][1..] == [];
    FlattenSnoc(groups, last);
    FlattenSnoc(groups, last + [track]);
    var was, now := groups + [last], groups + [last + [track]];
    forall k | 0 <= k < |now| ensures Fits(now[k], cover, usable) {
      assert k < |groups| ==> now[k] == was[k];
    }
    forall k | 0 < k < |now|
      ensures now[k] != [] && cover + Weight(now[k - 1]) + now[k][0].size > usable
    {
      assert now[k - 1] == was[k - 1] && was[k] != [] && now[k][0] == was[k][0];
    }
  }

  /** So does a new part for a track the last one cannot take. */
  lemma OpenPart(parts: seq<seq<Track>>, track: Track, tracks: seq<Track>, cover: nat, usable: nat)
    requires Partition(parts, tracks, cover, usable) && Saturated(parts, cover, usable)
    requires parts != [] ==> cover + Weight(parts[|parts| - 1]) + track.size > usable
    ensures Partition(parts + [[track]], tracks + [track], cover, usable)
    ensures Saturated(parts + [[track]], cover, usable)
    ensures Weight([track]) == track.size
  {
    FlattenSnoc(parts, [track]);
    assert [track][1..] == [];
  }

  function PartsSoFar(p: Packing): seq<seq<Track>> {
    if p.current == [] then p.groups else p.groups + [p.current]
  }

  /** The loop invariant: the groups and the open part are a saturated partition of the tracks seen. */
  predicate Packed(p: Packing, tracks: seq<Track>, cover: nat, usable: nat) {
    && (p.current == [] ==> p.groups == [])
    && Partition(PartsSoFar(p), tracks, cover, usable)
    && Saturated(PartsSoFar(p), cover, usable)
    && p.size == cover + Weight(p.current)
  }

  lemma AddTrackKeepsPacked(p: Packing, track: Track, tracks: seq<Track>, cover: nat, usable: nat)
    requires Packed(p, tracks, cover, usable) && AddTrack(p, track, cover, usable).Ok?
    ensures Packed(AddTrack(p, track, cover, usable).value, tracks + [track], cover, usable)
  {
    if p.current != [] && p.size + track.size <= usable {
      GrowLast(p.groups, p.current, track, tracks, cover, usable);
    } else {
      OpenPart(PartsSoFar(p), track, tracks, cover, usable);
      assert [] + [track] == [track];
    }
  }

  method GroupTracks(tracks: seq<Track>, cover: nat, usable: nat) returns (r: Result<seq<seq<Track>>, ZipError>)
    requires cover <= usable < U64
    ensures r.Err? <==> GroupProblem(Packing([], [], cover), tracks, cover, usable).Some?
    ensures r.Err? ==> Some(r.error) == GroupProblem(Packing([], [], cover), tracks, cover, usable)
    ensures r.Ok? ==> Partition(r.value, tracks, cover, usable) && Saturated(r.value, cover, usable)
  {
    var p := Packing([], [], cover);
    assert tracks[0..] == tracks && tracks[..|tracks|] == tracks;
    for i := 0 to |tracks|
      invariant Packed(p, tracks[..i], cover, usable)
      invariant GroupProblem(Packing([], [], cover), tracks, cover, usable)
             == GroupProblem(p, tracks[i..], cover, usable)
    {
      hide Packed, Partition, Saturated, AddTrack;
      assert tracks[i..][1..] == tracks[i + 1..];
      var added := AddTrack(p, tracks[i], cover, usable);
      if added.Err? {
        return Err(added.error);
      }
      AddTrackKeepsPacked(p, tracks[i], tracks[..i], cover, usable);
      assert tracks[..i + 1] == tracks[..i] + [tracks[i]];
      p := added.value;
    }
    r := Ok(if p.current == [] then p.groups else p.groups + [p.current]);
  }

  // ----- Names -----

  function CodecTag(codec: string): string {
    match codec
    case "ec-3" => "Atmos"
    case "aac" => "AAC"
    case "mp4a.40.2" => "AAC"
    case "mp4a.40.5" => "AAC"
    case "flac" => "FLAC"
    case _ => "ALAC"
  }

  function YearPart(releaseDate: string): string {
    var year := if |releaseDate| < 4 then releaseDate else releaseDate[..4];
    if ByteLen(year) == 4 && AllDigits(year) then " (" + year + ")" else ""
  }

  /** The year is shown when the release date starts with four digits. */
  lemma YearIsShownIff(releaseDate: string)
    ensures var year := |releaseDate| >= 4 && forall i :: 0 <= i < 4 ==> '0' <= releaseDate[i] <= '9';
      YearPart(releaseDate) == if year then " (" + releaseDate[..4] + ")" else ""
  {
    if |releaseDate| >= 4 {
      var year := releaseDate[..4];
      assert forall i :: 0 <= i < 4 ==> year[i] == releaseDate[i];
      if AllDigits(year) {
        DigitsAreClean(year);
        assert forall i :: 0 <= i < 4 ==> IsDigit(year[i]);
      }
    } else if AllDigits(releaseDate) {
      DigitsAreClean(releaseDate);
    }
  }

  function PartLeft(tag: string): string {
    " [" + tag + "] (Part "
  }

  function PartRight(total: nat): string {
    " of " + Decimal(total) + ").zip"
  }

  function PartSuffix(tag: string, index: nat, total: nat): string {
    if total == 1 then " [" + tag + "].zip" else PartLeft(tag) + Decimal(index) + PartRight(total)
  }

  function PartName(front: string, tag: string, index: nat, total: nat): string {
    SanitizeAndBound(front + PartSuffix(tag, index, total), Some(PartSuffix(tag, index, total)),
                     MAX_ARCHIVE_FILENAME_BYTES)
  }

  predicate PlainTag(tag: string) {
    |tag| <= 5 && Clean(tag) && Ascii(tag)
  }

  lemma TagIsPlain(codec: string)
    ensures PlainTag(CodecTag(codec))
  {
  }

  lemma PartLeftIsPlain(tag: string)
    requires PlainTag(tag)
    ensures Plain(PartLeft(tag)) && |PartLeft(tag)| <= 15
    ensures PartLeft(tag)[|PartLeft(tag)| - 1] == ' '
  {
    PlainConcat(" [", tag);
    PlainConcat(" [" + tag, "] (Part ");
  }

  lemma PartRightIsPlain(total: nat)
    requires total < U64
    ensures Plain(PartRight(total)) && |PartRight(total)| <= 30
    ensures PartRight(total)[|PartRight(total)| - 1] == 'p'
  {
    DecimalIsPlain(total);
    DecimalOf64Bits(total);
    PlainConcat(" of ", Decimal(total));
    PlainConcat(" of " + Decimal(total), ").zip");
  }

  /** The suffix of a numbered part is short, and nothing in it is changed by sanitizing or trimming. */
  lemma PartSuffixIsPlain(tag: string, index: nat, total: nat)
    requires PlainTag(tag) && index < U64 && 1 < total < U64
    ensures var suffix := PartSuffix(tag, index, total);
      Plain(suffix) && 1 < |suffix| && ByteLen(suffix) <= 65 && suffix[|suffix| - 1] == 'p'
  {
    PartLeftIsPlain(tag);
    PartRightIsPlain(total);
    DecimalIsPlain(index);
    DecimalOf64Bits(index);
    PlainConcat(PartLeft(tag), Decimal(index));
    PlainConcat(PartLeft(tag) + Decimal(index), PartRight(total));
    AsciiByteLen(PartSuffix(tag, index, total));
  }

  /** The name of a numbered part is a prefix of the sanitized front, then the whole suffix. */
  lemma PartNameShape(front: string, dash: nat, tag: string, index: nat, total: nat)
    requires dash < |front| && front[dash] == '-'
    requires PlainTag(tag) && index < U64 && 1 < total < U64
    ensures exists p :: PartName(front, tag, index, total) == p + PartLeft(tag) + Decimal(index) + PartRight(total)
  {
    hide PartLeft, PartRight, Decimal, BoundTrimmed, Trim, Sanitize, ByteLen, LongestPrefix, Clean;
    var suffix := PartSuffix(tag, index, total);
    PartSuffixIsPlain(tag, index, total);
    TailSurvives(front, suffix, dash);
    var trimmed := Trim(Sanitize(front + suffix));
    SuffixIsKept(trimmed, suffix, MAX_ARCHIVE_FILENAME_BYTES);
    var p := LongestPrefix(trimmed[..|trimmed| - |suffix|], MAX_ARCHIVE_FILENAME_BYTES - ByteLen(suffix));
    assert p + suffix == p + PartLeft(tag) + Decimal(index) + PartRight(total);
  }

  /** Parts of one plan never share an archive name. */
  lemma PartNamesAreDistinct(front: string, dash: nat, tag: string, i: nat, j: nat, total: nat)
    requires dash < |front| && front[dash] == '-'
    requires PlainTag(tag) && 1 <= i < j <= total < U64
    ensures PartName(front, tag, i, total) != PartName(front, tag, j, total)
  {
    PartNameShape(front, dash, tag, i, total);
    PartNameShape(front, dash, tag, j, total);
    var p :| PartName(front, tag, i, total) == p + PartLeft(tag) + Decimal(i) + PartRight(total);
    var q :| PartName(front, tag, j, total) == q + PartLeft(tag) + Decimal(j) + PartRight(total);
    PartLeftIsPlain(tag);
    if PartName(front, tag, i, total) == PartName(front, tag, j, total) {
      DecimalBetween(p, q, PartLeft(tag), i, j, PartRight(total));
    }
  }

  lemma SinglePartSuffixIsPlain(tag: string, index: nat)
    requires PlainTag(tag)
    ensures var suffix := PartSuffix(tag, index, 1);
      Plain(suffix) && suffix != "" && ByteLen(suffix) <= 65 && suffix[|suffix| - 1] == 'p'
  {
    PlainConcat(" [", tag);
    PlainConcat(" [" + tag, "].zip");
    AsciiByteLen(PartSuffix(tag, index, 1));
  }

  /** Every archive name ends with the codec and, when there are several, the number of the part. */
  lemma ArchiveNameEnds(front: string, dash: nat, codec: string, index: nat, total: nat)
    requires dash < |front| && front[dash] == '-' && 1 <= index <= total < U64
    ensures var name := PartName(front, CodecTag(codec), index, total);
      var mark := if codec == "ec-3" then "Atmos" else if codec == "flac" then "FLAC"
                   else if codec in {"aac", "mp4a.40.2", "mp4a.40.5"} then "AAC" else "ALAC";
      EndsWith(name, if total == 1 then " [" + mark + "].zip"
                     else " [" + mark + "] (Part " + Decimal(index) + " of " + Decimal(total) + ").zip")
  {
    hide Decimal, BoundTrimmed, Trim, Sanitize, ByteLen, EndsWith, Plain, PartName, PartSuffix, CodecTag;
    var tag := CodecTag(codec);
    TagIsPlain(codec);
    if total == 1 {
      SinglePartSuffixIsPlain(tag, index);
    } else {
      PartSuffixIsPlain(tag, index, total);
    }
    EndsWithSuffix(front, dash, tag, index, total);
    CodecMark(codec);
    SuffixReads(tag, index, total);
  }

  lemma CodecMark(codec: string)
    ensures CodecTag(codec) == if codec == "ec-3" then "Atmos" else if codec == "flac" then "FLAC"
                               else if codec in {"aac", "mp4a.40.2", "mp4a.40.5"} then "AAC" else "ALAC"
  {
  }

  lemma SuffixReads(tag: string, index: nat, total: nat)
    ensures PartSuffix(tag, index, total)
         == if total == 1 then " [" + tag + "].zip"
            else " [" + tag + "] (Part " + Decimal(index) + " of " + Decimal(total) + ").zip"
  {
    hide Decimal;
    Rejoin(" [" + tag + "] (Part " + Decimal(index), " of ", Decimal(total), ").zip");
  }

  lemma Rejoin(front: string, a: string, b: string, c: string)
    ensures front + (a + b + c) == front + a + b + c
  {
  }

  lemma EndsWithSuffix(front: string, dash: nat, tag: string, index: nat, total: nat)
    requires dash < |front| && front[dash] == '-'
    requires var suffix := PartSuffix(tag, index, total);
      Plain(suffix) && suffix != "" && ByteLen(suffix) <= 65 && suffix[|suffix| - 1] == 'p'
    ensures EndsWith(PartName(front, tag, index, total), PartSuffix(tag, index, total))
  {
    hide PartSuffix, BoundTrimmed, Trim, Sanitize, ByteLen, Clean, EndsWith;
    var suffix := PartSuffix(tag, index, total);
    TailSurvives(front, suffix, dash);
    SuffixIsKept(Trim(Sanitize(front + suffix)), suffix, MAX_ARCHIVE_FILENAME_BYTES);
  }

  // ----- Validation and the whole plan -----

  /** `validate_entry_name`, for paths whose components are separated by slashes. */
  predicate ValidEntryName(name: string) {
    && name != "" && ByteLen(name) <= MAX_ZIP_ENTRY_FILENAME_BYTES
    && (forall i :: 0 <= i < |name| ==> name[i] as int >= 0x20 && name[i] as int != 0x7F)
    && name[0] != '/'
    && ".." !in Split(name, '/')
  }

  lemma SafeNameIsValidEntry(name: string)
    requires Safe(name, MAX_ZIP_ENTRY_FILENAME_BYTES)
    ensures ValidEntryName(name)
  {
    hide ByteLen;
    forall i | 0 <= i < |name|
      ensures name[i] != '/' && name[i] as int >= 0x20 && name[i] as int != 0x7F
    {
      assert !IsForbidden(name[i]);
    }
    SplitWhole(name, '/');
  }

  /** Every generated entry name passes the planner's own validation. */
  lemma EntryNameIsValid(name: string, suffix: Option<string>)
    ensures ValidEntryName(SanitizeAndBound(name, suffix, MAX_ZIP_ENTRY_FILENAME_BYTES))
  {
    hide SanitizeAndBound, ValidEntryName, Safe;
    NameIsSafe(name, suffix, MAX_ZIP_ENTRY_FILENAME_BYTES);
    SafeNameIsValidEntry(SanitizeAndBound(name, suffix, MAX_ZIP_ENTRY_FILENAME_BYTES));
  }

  /** The first problem in the track list: an invalid or repeated name, or a source that is gone or changed. */
  function TrackProblem(tracks: seq<Track>, names: set<string>, files: map<string, nat>): Option<ZipError> {
    if tracks == [] then None
    else
      var track := tracks[0];
      if !ValidEntryName(track.name) then Some(InvalidEntryName(track.name))
      else if track.name in names then Some(DuplicateEntry(track.name))
      else if track.path !in files || files[track.path] != track.size then Some(Source(track.path))
      else TrackProblem(tracks[1..], names + {track.name}, files)
  }

  /** No problem means: valid and pairwise distinct names, and sizes that match the files. */
  lemma {:induction false} NoTrackProblem(tracks: seq<Track>, names: set<string>, files: map<string, nat>)
    ensures TrackProblem(tracks, names, files) == None <==>
      && (forall i :: 0 <= i < |tracks| ==>
            var t := tracks[i];
            ValidEntryName(t.name) && t.name !in names && t.path in files && files[t.path] == t.size)
      && (forall i, j :: 0 <= i < j < |tracks| ==> tracks[i].name != tracks[j].name)
  {
    if tracks != [] {
      var rest := tracks[1..];
      NoTrackProblem(rest, names + {tracks[0].name}, files);
      forall i | 0 < i < |tracks| ensures tracks[i] == rest[i - 1] {}
    }
  }

  method CheckTracks(tracks: seq<Track>, files: map<string, nat>) returns (problem: Option<ZipError>)
    ensures problem == TrackProblem(tracks, {"manifest.json"}, files)
  {
    var names := {"manifest.json"};
    assert tracks[0..] == tracks;
    for i := 0 to |tracks|
      invariant TrackProblem(tracks, {"manifest.json"}, files) == TrackProblem(tracks[i..], names, files)
    {
      var track := tracks[i];
      assert tracks[i..][1..] == tracks[i + 1..];
      if !ValidEntryName(track.name) {
        return Some(InvalidEntryName(track.name));
      }
      if track.name in names {
        return Some(DuplicateEntry(track.name));
      }
      names := names + {track.name};
      if track.path !in files || files[track.path] != track.size {
        return Some(Source(track.path));
      }
    }
    problem := None;
  }

  function CoverSize(cover: Option<string>, files: map<string, nat>): nat {
    if cover.Some? && cover.value in files then files[cover.value] else 0
  }

  function Usable(tracks: nat, hasCover: bool, maxPartBytes: nat): nat {
    var entries := tracks + (if hasCover then 1 else 0) + 1;
    var overhead := entries * ENTRY_OVERHEAD_BYTES + ARCHIVE_HEADROOM_BYTES;
    if maxPartBytes < overhead then 0 else maxPartBytes - overhead
  }

  /** Why a plan is refused, checks in the planner's order; `None` when there is a plan. */
  function PlanProblem(tracks: seq<Track>, cover: Option<string>, maxPartBytes: nat, files: map<string, nat>)
    : Option<ZipError>
  {
    var usable := Usable(|tracks|, cover.Some?, maxPartBytes);
    var coverSize := CoverSize(cover, files);
    if tracks == [] then Some(Empty)
    else if maxPartBytes == 0 then Some(InvalidLimit)
    else if TrackProblem(tracks, {"manifest.json"}, files).Some? then TrackProblem(tracks, {"manifest.json"}, files)
    else if cover.Some? && cover.value !in files then Some(Source(cover.value))
    else if usable == 0 || coverSize > usable then Some(InvalidLimit)
    else GroupProblem(Packing([], [], coverSize), tracks, coverSize, usable)
  }

  /** The bytes set aside in every part: 512 for each track of the album, the cover and the manifest, and 65536. */
  function SetAside(tracks: nat, cover: Option<string>): nat {
    512 * tracks + (if cover.Some? then 512 else 0) + 512 + 65_536
  }

  lemma UsableIsTheRest(tracks: nat, cover: Option<string>, maxPartBytes: nat)
    ensures var usable := Usable(tracks, cover.Some?, maxPartBytes);
      usable == if maxPartBytes < SetAside(tracks, cover) then 0 else maxPartBytes - SetAside(tracks, cover)
  {
  }

  /**
    With valid names and matching files, and below the bound, there is a plan exactly when the limit leaves
    room for the cover and for every single track beside what is set aside.
  */
  lemma PlanExistsIff(tracks: seq<Track>, cover: Option<string>, maxPartBytes: nat, files: map<string, nat>)
    requires tracks != [] && TrackProblem(tracks, {"manifest.json"}, files) == None
    requires cover.Some? ==> cover.value in files
    requires CoverSize(cover, files) + 2 * maxPartBytes < U64 + 2 * SetAside(|tracks|, cover)
    ensures
      var aside := SetAside(|tracks|, cover);
      PlanProblem(tracks, cover, maxPartBytes, files) == None <==>
        && aside < maxPartBytes && CoverSize(cover, files) + aside <= maxPartBytes
        && forall t :: t in tracks ==> t.size + aside <= maxPartBytes
    ensures PlanProblem(tracks, cover, maxPartBytes, files).Some? ==>
      var problem := PlanProblem(tracks, cover, maxPartBytes, files).value;
      problem == InvalidLimit || problem.TrackTooLarge?
  {
    hide TrackProblem, GroupProblem, CoverSize, Usable, SetAside;
    UsableIsTheRest(|tracks|, cover, maxPartBytes);
    var coverSize, usable := CoverSize(cover, files), Usable(|tracks|, cover.Some?, maxPartBytes);
    if 0 < usable && coverSize <= usable {
      NoOverflow(Packing([], [], coverSize), tracks, coverSize, usable);
    }
  }

  /**
    A plan the planner refuses although each track could be a part of its own: two files of the
    largest signed 64-bit size and a small cover. The sum is checked before the split is considered.
  */
  lemma OverflowRejectsASplittableList(cover: nat)
    requires 2 <= cover <= 0x7FFF_FFFF_FFFF_FFFF
    ensures var size := 0x7FFF_FFFF_FFFF_FFFF;
      var tracks := [Track("a", "1", size), Track("b", "2", size)];
      var files := map["a" := size, "b" := size, "c" := cover];
      var maxPartBytes := size + 67_584;
      && PlanProblem(tracks, Some("c"), maxPartBytes, files) == Some(InvalidLimit)
      && Partition([[tracks[0]], [tracks[1]]], tracks, cover, Usable(2, true, maxPartBytes))
  {
    hide GroupProblem, ValidEntryName;
    var size := 0x7FFF_FFFF_FFFF_FFFF;
    var a, b := Track("a", "1", size), Track("b", "2", size);
    var files := map["a" := size, "b" := size, "c" := cover];
    DigitIsValidEntry('1');
    DigitIsValidEntry('2');
    assert [a, b][1..] == [b] && [b][1..] == [];
    assert TrackProblem([], {"manifest.json"} + {"1"} + {"2"}, files) == None;
    assert TrackProblem([b], {"manifest.json"} + {"1"}, files) == None;
    assert TrackProblem([a, b], {"manifest.json"}, files) == None;
    TwoFullTracksOverflow(a, b, cover, size);
  }

  lemma DigitIsValidEntry(c: char)
    requires IsDigit(c)
    ensures ValidEntryName([c])
  {
    assert ByteLen([c]) == 1 by {
      assert [c][1..] == [];
    }
    assert '/' !in [c];
    SplitWhole([c], '/');
  }

  function PartTracks(plan: seq<Part>): seq<seq<Track>> {
    Map((p: Part) => p.tracks, plan)
  }

  /** No allowed in-order partition of the tracks has fewer parts. */
  ghost predicate FewestParts(n: nat, tracks: seq<Track>, cover: nat, usable: nat) {
    forall other :: Partition(other, tracks, cover, usable) ==> n <= |other|
  }

  lemma GroupsAreFewest(groups: seq<seq<Track>>, tracks: seq<Track>, cover: nat, usable: nat)
    requires Partition(groups, tracks, cover, usable) && Saturated(groups, cover, usable)
    ensures FewestParts(|groups|, tracks, cover, usable) && |groups| <= |tracks|
  {
    hide Saturated;
    forall other | Partition(other, tracks, cover, usable) ensures |groups| <= |other| {
      SaturatedIsFewest(groups, other, tracks, cover, usable);
    }
    PartsAreFew(groups);
  }

  lemma {:induction false} GroupedTracksFit(p: Packing, rest: seq<Track>, cover: nat, usable: nat)
    requires GroupProblem(p, rest, cover, usable) == None
    ensures Within(rest, usable)
    decreases |rest|
  {
    if rest != [] {
      GroupedTracksFit(AddTrack(p, rest[0], cover, usable).value, rest[1..], cover, usable);
      assert forall t :: t in rest <==> t == rest[0] || t in rest[1..];
    }
  }

  /**
    In bytes: every track fits a part, a part of several tracks fits with the cover, and no part could
    have taken the first track of the next one.
  */
  ghost predicate KeepsLimit(groups: seq<seq<Track>>, cover: nat, aside: nat, maxPartBytes: nat) {
    && cover + aside <= maxPartBytes
    && (forall t :: t in Flatten(groups) ==> t.size + aside <= maxPartBytes)
    && (forall k :: 0 <= k < |groups| && |groups[k]| >= 2 ==> cover + Weight(groups[k]) + aside <= maxPartBytes)
    && (forall k :: 0 < k < |groups| ==>
          groups[k] != [] && cover + Weight(groups[k - 1]) + groups[k][0].size + aside > maxPartBytes)
  }

  lemma PartitionKeepsLimit(
    groups: seq<seq<Track>>, tracks: seq<Track>, cover: nat, usable: nat, aside: nat, maxPartBytes: nat)
    requires Partition(groups, tracks, cover, usable) && Saturated(groups, cover, usable) && Within(tracks, usable)
    requires cover <= usable && usable + aside == maxPartBytes
    ensures KeepsLimit(groups, cover, aside, maxPartBytes)
  {
    hide Weight, Flatten;
    forall k | 0 <= k < |groups| && |groups[k]| >= 2 ensures cover + Weight(groups[k]) + aside <= maxPartBytes {
      assert Fits(groups[k], cover, usable);
    }
  }

  lemma {:induction false} PartsAreFew(groups: seq<seq<Track>>)
    requires forall k :: 0 <= k < |groups| ==> groups[k] != []
    ensures |groups| <= |Flatten(groups)|
  {
    if groups != [] {
      PartsAreFew(groups[1..]);
    }
  }

  lemma NamesOfPlan(artist: string, rest: string, codec: string, total: nat)
    requires total < U64
    ensures var front := artist + " - " + rest;
      forall i, j :: 1 <= i < j <= total ==>
        PartName(front, CodecTag(codec), i, total) != PartName(front, CodecTag(codec), j, total)
  {
    hide PartName, CodecTag, PlainTag;
    var front := artist + " - " + rest;
    assert front[|artist| + 1] == '-';
    TagIsPlain(codec);
    forall i, j | 1 <= i < j <= total
      ensures PartName(front, CodecTag(codec), i, total) != PartName(front, CodecTag(codec), j, total)
    {
      PartNamesAreDistinct(front, |artist| + 1, CodecTag(codec), i, j, total);
    }
  }

  /** The plan as a whole; overflow of the entry overhead itself (more than 2^54 tracks) is excluded. */
  method PlanZipParts(
      artist: string, album: string, releaseDate: string, tracks: seq<Track>, cover: Option<string>,
      maxPartBytes: nat, codec: string, files: map<string, nat>)
    returns (r: Result<seq<Part>, ZipError>)
    requires maxPartBytes < U64 && |tracks| < 0x40_0000_0000_0000
    ensures r.Err? <==> PlanProblem(tracks, cover, maxPartBytes, files).Some?
    ensures r.Err? ==> Some(r.error) == PlanProblem(tracks, cover, maxPartBytes, files)
    ensures r.Ok? ==>
      var coverSize, usable := CoverSize(cover, files), Usable(|tracks|, cover.Some?, maxPartBytes);
      && Partition(PartTracks(r.value), tracks, coverSize, usable)
      && Saturated(PartTracks(r.value), coverSize, usable)
    ensures r.Ok? ==>
      KeepsLimit(PartTracks(r.value), CoverSize(cover, files), SetAside(|tracks|, cover), maxPartBytes)
    ensures r.Ok? ==> forall k :: 0 <= k < |r.value| ==>
      && r.value[k].index == k + 1 && r.value[k].total == |r.value| && r.value[k].cover == cover
      && r.value[k].archiveName
          == PartName(artist + " - " + album + YearPart(releaseDate), CodecTag(codec), k + 1, |r.value|)
    ensures r.Ok? ==>
      FewestParts(|r.value|, tracks, CoverSize(cover, files), Usable(|tracks|, cover.Some?, maxPartBytes))
    ensures r.Ok? ==> forall i, j :: 0 <= i < j < |r.value| ==> r.value[i].archiveName != r.value[j].archiveName
  {
    hide FewestParts, KeepsLimit, SetAside, Within;
    hide Partition, Saturated, GroupProblem, TrackProblem, PartName, YearPart, CodecTag, CoverSize;
    if tracks == [] {
      return Err(Empty);
    }
    if maxPartBytes == 0 {
      return Err(InvalidLimit);
    }
    var problem := CheckTracks(tracks, files);
    if problem.Some? {
      return Err(problem.value);
    }
    if cover.Some? && cover.value !in files {
      return Err(Source(cover.value));
    }
    var coverSize := CoverSize(cover, files);
    var usable := Usable(|tracks|, cover.Some?, maxPartBytes);
    if usable == 0 || coverSize > usable {
      return Err(InvalidLimit);
    }
    var grouped := GroupTracks(tracks, coverSize, usable);
    if grouped.Err? {
      return Err(grouped.error);
    }
    var groups := grouped.value;
    var front := artist + " - " + album + YearPart(releaseDate);
    var plan := seq(|groups|, k requires 0 <= k < |groups| =>
      Part(k + 1, |groups|, groups[k], cover, PartName(front, CodecTag(codec), k + 1, |groups|)));
    assert PartTracks(plan) == groups;
    GroupsAreFewest(groups, tracks, coverSize, usable);
    GroupedTracksFit(Packing([], [], coverSize), tracks, coverSize, usable);
    UsableIsTheRest(|tracks|, cover, maxPartBytes);
    PartitionKeepsLimit(groups, tracks, coverSize, usable, SetAside(|tracks|, cover), maxPartBytes);
    NamesOfPlan(artist, album + YearPart(releaseDate), codec, |groups|);
    assert front == artist + " - " + (album + YearPart(releaseDate));
    r := Ok(plan);
  }
}

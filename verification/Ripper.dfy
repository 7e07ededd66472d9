/** Reserving an output name, one rip attempt with its clean-up, and the retry loop around it. */
module Ripper {
  import opened Sequences
  import opened Text
  import opened Filename

  const MAX_AUDIO_BYTES: nat := 512 * 1024 * 1024

  // ----- Track file names -----

  function NumberText(n: int): string {
    if n >= 0 then Padded(n, 2) else ['-'] + Decimal(-n)
  }

  function TrackFront(trackNumber: Option<int>, title: string, artist: string): string {
    var number := if trackNumber.Some? && trackNumber.value != 0 then trackNumber.value else 1;
    NumberText(number) + ". " + title + " - " + artist
  }

  function TrackTag(codec: string): string {
    match codec
    case "ec-3" => "Atmos"
    case "aac" => "AAC"
    case "mp4a.40.2" => "AAC"
    case "mp4a.40.5" => "AAC"
    case "flac" => "FLAC"
    case "mp3" => "MP3"
    case _ => "ALAC"
  }

  function TrackExtension(codec: string): string {
    match codec
    case "flac" => ".flac"
    case "mp3" => ".mp3"
    case _ => ".m4a"
  }

  function TrackMark(explicit: bool, codec: string): string {
    (if explicit then " [E]" else "") + " [" + TrackTag(codec) + "]"
  }

  function TrackFilename(front: string, explicit: bool, codec: string): string {
    var suffix := TrackMark(explicit, codec) + TrackExtension(codec);
    SanitizeAndBound(front + suffix, Some(suffix), MAX_FILENAME_BYTES)
  }

  predicate PlainExtension(ext: string) {
    2 <= |ext| <= 5 && ext[0] == '.' && Plain(ext) && !IsWhitespace(ext[|ext| - 1]) &&
    forall i :: 0 < i < |ext| ==> ext[i] != '.'
  }

  predicate PlainMark(mark: string) {
    1 < |mark| <= 16 && mark[|mark| - 1] == ']' && Plain(mark)
  }

  lemma ExtensionIsPlain(codec: string)
    ensures PlainExtension(TrackExtension(codec))
  {
  }

  lemma TagIsPlain(codec: string)
    ensures var tag := TrackTag(codec); 0 < |tag| <= 5 && Plain(tag)
  {
  }

  lemma MarkIsPlain(explicit: bool, codec: string)
    ensures PlainMark(TrackMark(explicit, codec))
  {
    TagIsPlain(codec);
    hide TrackTag;
    var tag := TrackTag(codec);
    var flag := if explicit then " [E]" else "";
    PlainConcat(flag, " [");
    PlainConcat(flag + " [", tag);
    PlainConcat(flag + " [" + tag, "]");
  }

  /** A tagger name is a kept part of the front, then the mark, then the extension. */
  lemma TrackFilenameShape(front: string, dash: nat, explicit: bool, codec: string)
    requires dash < |front| && front[dash] == '-'
    ensures exists p :: TrackFilename(front, explicit, codec) == p + TrackMark(explicit, codec) + TrackExtension(codec)
  {
    var mark, ext := TrackMark(explicit, codec), TrackExtension(codec);
    MarkIsPlain(explicit, codec);
    ExtensionIsPlain(codec);
    hide TrackMark, TrackExtension, BoundTrimmed, Trim, Sanitize, ByteLen, LongestPrefix, IsWhitespace;
    var suffix := mark + ext;
    PlainConcat(mark, ext);
    AsciiByteLen(suffix);
    TailSurvives(front, suffix, dash);
    var trimmed := Trim(Sanitize(front + suffix));
    assert suffix[|mark|] == '.' && |suffix| > 2;
    SuffixIsKept(trimmed, suffix, MAX_FILENAME_BYTES);
    var p := LongestPrefix(trimmed[..|trimmed| - |suffix|], MAX_FILENAME_BYTES - ByteLen(suffix));
    assert p + suffix == p + mark + ext;
  }

  /** The shape the reservation loop relies on: a last dot followed by at most four characters. */
  predicate HasShortExtension(name: string) {
    var at := ExtensionStart(name);
    0 < at < |name| && PlainExtension(name[at..]) && name[at - 1] == ']'
  }

  lemma TrackFilenameHasShortExtension(front: string, dash: nat, explicit: bool, codec: string)
    requires dash < |front| && front[dash] == '-'
    ensures HasShortExtension(TrackFilename(front, explicit, codec))
    ensures Safe(TrackFilename(front, explicit, codec), MAX_FILENAME_BYTES)
  {
    TrackFilenameShape(front, dash, explicit, codec);
    var name, mark, ext := TrackFilename(front, explicit, codec), TrackMark(explicit, codec), TrackExtension(codec);
    MarkIsPlain(explicit, codec);
    ExtensionIsPlain(codec);
    var suffix := mark + ext;
    NameIsSafe(front + suffix, Some(suffix), MAX_FILENAME_BYTES);
    hide TrackFilename, TrackMark, TrackExtension;
    var p :| name == p + mark + ext;
    ExtensionOf(p + mark, ext);
  }

  /** Every name the tagger builds is safe and has that shape. */
  lemma TaggerNameIsUsable(trackNumber: Option<int>, title: string, artist: string, explicit: bool, codec: string)
    ensures HasShortExtension(TrackFilename(TrackFront(trackNumber, title, artist), explicit, codec))
    ensures Safe(TrackFilename(TrackFront(trackNumber, title, artist), explicit, codec), MAX_FILENAME_BYTES)
  {
    hide NumberText, TrackFilename, HasShortExtension, Safe;
    var number := if trackNumber.Some? && trackNumber.value != 0 then trackNumber.value else 1;
    var before := NumberText(number) + ". " + title;
    assert TrackFront(trackNumber, title, artist) == before + " - " + artist;
    TrackFilenameHasShortExtension(before + " - " + artist, |before| + 1, explicit, codec);
  }

  /** What the listener reads between the last brackets, and the extension that goes with it. */
  lemma CodecEnding(codec: string)
    ensures TrackTag(codec) == if codec == "ec-3" then "Atmos" else if codec == "flac" then "FLAC"
                               else if codec == "mp3" then "MP3"
                               else if codec in {"aac", "mp4a.40.2", "mp4a.40.5"} then "AAC" else "ALAC"
    ensures TrackExtension(codec) == if codec == "flac" then ".flac" else if codec == "mp3" then ".mp3" else ".m4a"
  {
  }

  /** The file name of a track whose parts are safe and fit: number, title, artist, mark, codec and extension. */
  lemma TrackNameReads(trackNumber: Option<int>, title: string, artist: string, explicit: bool, codec: string)
    requires var number := if trackNumber.Some? && trackNumber.value != 0 then trackNumber.value else 1;
      var front := TrackFront(trackNumber, title, artist);
      0 <= number && Safe(front + TrackMark(explicit, codec) + TrackExtension(codec), 255)
    ensures var number := if trackNumber.Some? && trackNumber.value != 0 then trackNumber.value else 1;
      var tag := if codec == "ec-3" then "Atmos" else if codec == "flac" then "FLAC"
                 else if codec == "mp3" then "MP3"
                 else if codec in {"aac", "mp4a.40.2", "mp4a.40.5"} then "AAC" else "ALAC";
      var ext := if codec == "flac" then ".flac" else if codec == "mp3" then ".mp3" else ".m4a";
      TrackFilename(TrackFront(trackNumber, title, artist), explicit, codec)
        == Padded(number, 2) + ". " + title + " - " + artist + (if explicit then " [E]" else "")
             + " [" + tag + "]" + ext
  {
    hide Safe, TrackTag, TrackExtension, Padded, IsWhitespace, SanitizeAndBound, TrackMark;
    var number := if trackNumber.Some? && trackNumber.value != 0 then trackNumber.value else 1;
    var front := TrackFront(trackNumber, title, artist);
    ExtensionIsPlain(codec);
    FrontStartsWithDigit(trackNumber, title, artist);
    var ext := TrackExtension(codec);
    var whole := front + (TrackMark(explicit, codec) + ext);
    assert whole == front + TrackMark(explicit, codec) + ext;
    assert whole[|whole| - 1] == ext[|ext| - 1];
    SafeNameIsKept(whole, Some(TrackMark(explicit, codec) + ext), MAX_FILENAME_BYTES);
    MarkReads(front, explicit, codec);
    CodecEnding(codec);
  }

  lemma FrontStartsWithDigit(trackNumber: Option<int>, title: string, artist: string)
    requires trackNumber.Some? ==> trackNumber.value >= 0
    ensures var front := TrackFront(trackNumber, title, artist);
      front != [] && !IsWhitespace(front[0])
  {
    hide Decimal;
    var number := if trackNumber.Some? && trackNumber.value != 0 then trackNumber.value else 1;
    var digits := Padded(number, 2);
    assert digits[0] in digits && IsDigit(digits[0]);
  }

  lemma MarkReads(front: string, explicit: bool, codec: string)
    ensures front + TrackMark(explicit, codec)
         == front + (if explicit then " [E]" else "") + " [" + TrackTag(codec) + "]"
  {
    hide TrackTag;
    var flag, tag := if explicit then " [E]" else "", TrackTag(codec);
    assert front + (flag + " [" + tag + "]") == front + flag + " [" + tag + "]";
  }

  lemma ExtensionOf(stem: string, ext: string)
    requires stem != [] && PlainExtension(ext)
    ensures ExtensionStart(stem + ext) == |stem| && (stem + ext)[|stem|..] == ext
  {
    var s := stem + ext;
    assert s[|stem|] == '.';
    forall i | |stem| < i < |s| ensures s[i] != '.' {
      assert s[i] == ext[i - |stem|];
    }
  }

  // ----- Reserving an output name -----

  /** The name tried in attempt `k`: the tagger's name first, then one collision id per attempt. */
  function CandidateName(base: string, ids: nat -> nat, k: nat): string {
    if k == 0 then base else WithCollisionId(base, Decimal(ids(k - 1)), MAX_FILENAME_BYTES)
  }

  /** Ids of one process-wide counter: whoever else draws in between, they only grow. */
  ghost predicate Drawn(ids: nat -> nat, count: nat) {
    && (forall k :: 0 <= k < count ==> ids(k) < U64)
    && (forall j, k :: 0 <= j < k < count ==> ids(j) < ids(k))
  }

  lemma RoomForId(base: string, id: nat)
    requires HasShortExtension(base) && id < U64
    ensures 1 + |Decimal(id)| + ByteLen(base[ExtensionStart(base)..]) < MAX_FILENAME_BYTES
  {
    DecimalOf64Bits(id);
    AsciiByteLen(base[ExtensionStart(base)..]);
  }

  lemma DigitBefore(front: string, digits: string, ext: string)
    requires digits != [] && AllDigits(digits)
    ensures var name := front + digits + ext; IsDigit(name[|name| - |ext| - 1])
  {
    var name := front + digits + ext;
    assert name[|name| - |ext| - 1] == digits[|digits| - 1];
    assert digits[|digits| - 1] in digits;
  }

  /** A name with a collision id differs from the tagger's own name: a digit stands where that has a bracket. */
  lemma CollisionNameIsNew(base: string, id: nat)
    requires HasShortExtension(base) && id < U64
    ensures WithCollisionId(base, Decimal(id), MAX_FILENAME_BYTES) != base
  {
    var at := ExtensionStart(base);
    var stem, ext := base[..at], base[at..];
    RoomForId(base, id);
    DigitsAreClean(Decimal(id));
    CollisionShape(stem, id, ext, MAX_FILENAME_BYTES);
    hide Decimal, LongestPrefix, ByteLen, PlainExtension, AddCollisionId, ExtensionStart, Sanitize, Clean;
    var front := LongestPrefix(stem, MAX_FILENAME_BYTES - (1 + |Decimal(id)| + ByteLen(ext))) + ['_'];
    DigitBefore(front, Decimal(id), ext);
    assert base[|base| - |ext| - 1] == ']';
  }

  lemma CandidatesAreDistinct(base: string, ids: nat -> nat, count: nat, j: nat, k: nat)
    requires HasShortExtension(base) && Drawn(ids, count) && j < k <= count
    ensures CandidateName(base, ids, j) != CandidateName(base, ids, k)
  {
    if j == 0 {
      CollisionNameIsNew(base, ids(k - 1));
    } else if CandidateName(base, ids, j) == CandidateName(base, ids, k) {
      RoomForId(base, ids(j - 1));
      RoomForId(base, ids(k - 1));
      CollisionNamesAreInjective(base, ids(j - 1), ids(k - 1), MAX_FILENAME_BYTES);
    }
  }

  /** Distinct attempts that all hit taken names are at most as many as there are names. */
  lemma AttemptsAreFew(base: string, ids: nat -> nat, attempts: nat, universe: set<string>)
    requires HasShortExtension(base) && Drawn(ids, |universe| + 1) && attempts <= |universe| + 1
    requires forall k :: 0 <= k < attempts ==> CandidateName(base, ids, k) in universe
    ensures attempts <= |universe|
  {
    var names := seq(attempts, k requires 0 <= k < attempts => CandidateName(base, ids, k));
    forall j, k | 0 <= j < k < |names| ensures names[j] != names[k] {
      CandidatesAreDistinct(base, ids, |universe| + 1, j, k);
    }
    hide HasShortExtension, Drawn, CandidateName;
    DistinctFit(names, universe);
  }

  lemma {:induction false} DistinctFit<T>(s: seq<T>, all: set<T>)
    requires NoDuplicates(s) && forall i :: 0 <= i < |s| ==> s[i] in all
    ensures |s| <= |all|
  {
    if s != [] {
      var n := |s| - 1;
      forall i | 0 <= i < n ensures s[..n][i] in all - {s[n]} {
        assert s[..n][i] == s[i];
      }
      DistinctFit(s[..n], all - {s[n]});
    }
  }

  /**
    The reservation loop. `taken(k)` is the set of names other jobs hold at attempt `k`; all of
    them come from the finite set `universe`. The loop ends after at most one attempt more, or at the
    attempt whose open fails for another reason.
  */
  method ReserveName(
      base: string, ids: nat -> nat, taken: nat -> set<string>, failsAt: Option<nat>, ghost universe: set<string>)
    returns (ok: bool, name: string, draws: nat)
    requires HasShortExtension(base) && Drawn(ids, |universe| + 1)
    requires forall k :: taken(k) <= universe
    ensures draws <= |universe| && name == CandidateName(base, ids, draws)
    ensures ok ==> name !in taken(draws) && (failsAt.Some? ==> draws < failsAt.value)
    ensures !ok ==> failsAt == Some(draws)
    ensures forall k :: 0 <= k < draws ==> CandidateName(base, ids, k) in taken(k)
  {
    hide HasShortExtension, WithCollisionId, Drawn, Decimal;
    draws := 0;
    name := base;
    while name in taken(draws) && failsAt != Some(draws)
      invariant name == CandidateName(base, ids, draws)
      invariant draws <= |universe| && (failsAt.Some? ==> draws <= failsAt.value)
      invariant forall k :: 0 <= k < draws ==> CandidateName(base, ids, k) in taken(k)
      decreases |universe| - draws
    {
      AttemptsAreFew(base, ids, draws + 1, universe);
      var collisionId := Decimal(ids(draws));
      name := WithCollisionId(base, collisionId, MAX_FILENAME_BYTES);
      draws := draws + 1;
    }
    ok := failsAt != Some(draws);
  }

  // ----- One attempt -----

  datatype RipError =
    | Cancelled
    | TrackUnavailable
    | RenditionUnavailable
    | LocalIo
    | SourceOffline
    | StreamCorrupt
    | StreamStalled
    | IncompleteBody(expected: nat, received: nat)
    | LimitExceeded
    | Decode
    | Other(message: string)

  /** Errors that end the retry loop at once. */
  predicate Terminal(error: RipError) {
    error.Cancelled? || error.TrackUnavailable? || error.RenditionUnavailable? || error.LocalIo? || error.SourceOffline?
  }

  /** What one turn of the download loop meets: a finished prefetch, silence, a broken stream, or a chunk. */
  datatype Event = Prefetched | Silence | Broken | Chunk(size: nat, writeFails: bool)

  /** `cancelled` is what the signal says at the head of the turn, `cancelledLate` when it fails. */
  datatype Turn = Turn(cancelled: bool, event: Event, cancelledLate: bool)

  /** The finalizer's contract: it touches its destination only, and a failure may leave anything there. */
  datatype Finalizer =
    | Finalized(content: string)
    | FinalizeFailed(error: RipError, leaves: Option<string>, cancelled: bool)

  datatype Meta = Meta(trackNumber: Option<int>, title: string, artist: string, explicit: bool)

  /**
    Everything outside the ripper that one attempt observes. `connect` is the codec of the stream.
    Other jobs create names out of `names`: `held(k)` are theirs when reservation attempt `k` is made;
    and they draw `otherDraws(k)` suffixes right before this attempt draws its own `k`-th one.
    Reservation attempt `openFailsAt` fails for another reason than an existing name.
  */
  datatype World = World(
    cancelledBefore: bool, cancelledFirst: bool, targetDirFails: bool, laneFails: bool,
    meta: Result<Meta, RipError>, cancelledAfterMeta: bool, connect: Result<string, RipError>,
    contentLength: Option<nat>, names: set<string>, held: nat -> set<string>, otherDraws: nat -> nat,
    openFailsAt: Option<nat>, rawFileFails: bool,
    turns: seq<Turn>, cancelledAtEnd: bool, cancelledOnMismatch: bool, flushFails: bool,
    cancelledAfterFlush: bool, cancelledBeforeTagging: bool, finalizer: Finalizer,
    cancelledAfter: bool, cancelledAsleep: bool)

  /** The name the tagger builds from this attempt's metadata and delivered codec. */
  function BaseName(w: World): string
    requires w.meta.Ok? && w.connect.Ok?
  {
    var m := w.meta.value;
    TrackFilename(TrackFront(m.trackNumber, m.title, m.artist), m.explicit, w.connect.value)
  }

  function OthersHold(w: World, k: nat): set<string> {
    w.held(k) * w.names
  }

  lemma OthersComeFromNames(w: World)
    ensures forall k: nat :: OthersHold(w, k) <= w.names
  {
  }

  /** How far the counter has moved when this attempt makes collision draw `k`. */
  function Gap(w: World, k: nat): nat {
    w.otherDraws(2 + k) + if k == 0 then 0 else 1 + Gap(w, k - 1)
  }

  function CollisionIds(w: World, first: nat): nat -> nat {
    k => first + Gap(w, k)
  }

  lemma {:induction false} GapGrows(w: World, j: nat, k: nat)
    requires j < k
    ensures Gap(w, j) < Gap(w, k)
  {
    if j < k - 1 {
      GapGrows(w, j, k - 1);
    }
  }

  lemma GapUpTo(w: World, j: nat, k: nat)
    requires j <= k
    ensures Gap(w, j) <= Gap(w, k)
  {
    if j < k {
      GapGrows(w, j, k);
    }
  }

  lemma GapsAreDrawn(w: World, first: nat, count: nat)
    requires count >= 1 && first + Gap(w, count - 1) < U64
    ensures Drawn(CollisionIds(w, first), count)
  {
    hide Gap;
    forall j, k | 0 <= j < k < count ensures Gap(w, j) < Gap(w, k) {
      GapGrows(w, j, k);
    }
    forall k | 0 <= k < count ensures first + Gap(w, k) < U64 {
      if k < count - 1 {
        GapGrows(w, k, count - 1);
      }
    }
  }

  /** The most the counter can move during one attempt in a directory of that many files. */
  function MostDraws(w: World, files: nat): nat {
    w.otherDraws(0) + w.otherDraws(1) + 3 + Gap(w, files + |w.names|)
  }

  /** What a delivered file may be called. */
  ghost predicate IsNameFor(w: World, name: string) {
    w.meta.Ok? && w.connect.Ok? &&
    (name == BaseName(w) || exists id: nat :: name == WithCollisionId(BaseName(w), Decimal(id), MAX_FILENAME_BYTES))
  }

  function Received(turns: seq<Turn>): nat {
    if turns == [] then 0
    else Received(turns[..|turns| - 1]) + match turns[|turns| - 1].event case Chunk(size, _) => size case _ => 0
  }

  function DeclaredLength(w: World): Option<nat> {
    if w.contentLength.Some? && w.contentLength.value > 0 then w.contentLength else None
  }

  /** The turn neither saw a cancellation nor ended the download. */
  predicate WentWell(turn: Turn) {
    !turn.cancelled && (turn.event.Prefetched? || (turn.event.Chunk? && !turn.event.writeFails))
  }

  lemma ReceivedSnoc(turns: seq<Turn>, i: nat)
    requires i < |turns|
    ensures turns[..i + 1] == turns[..i] + [turns[i]]
    ensures Received(turns[..i + 1]) ==
      Received(turns[..i]) + match turns[i].event case Chunk(size, _) => size case _ => 0
  {
    assert turns[..i + 1][..i] == turns[..i];
  }

  /** How one turn fails after `before` bytes, if it does. */
  function TurnError(turn: Turn, before: nat): Option<RipError> {
    if turn.cancelled then Some(Cancelled)
    else match turn.event
      case Prefetched => None
      case Silence => Some(if turn.cancelledLate then Cancelled else StreamStalled)
      case Broken => Some(if turn.cancelledLate then Cancelled else StreamCorrupt)
      case Chunk(size, writeFails) =>
        if before + size > MAX_AUDIO_BYTES then Some(LimitExceeded)
        else if writeFails then Some(LocalIo)
        else None
  }

  /** The error of the first turn that fails. */
  function TurnsError(turns: seq<Turn>): Option<RipError> {
    if turns == [] then None
    else
      var front := turns[..|turns| - 1];
      if TurnsError(front).Some? then TurnsError(front) else TurnError(turns[|turns| - 1], Received(front))
  }

  function DownloadError(w: World): Option<RipError> {
    var total := DeclaredLength(w);
    if total.Some? && total.value > MAX_AUDIO_BYTES then Some(LimitExceeded)
    else if w.rawFileFails then Some(LocalIo)
    else if TurnsError(w.turns).Some? then TurnsError(w.turns)
    else if w.cancelledAtEnd then Some(Cancelled)
    else if total.Some? && Received(w.turns) != total.value then
      Some(if w.cancelledOnMismatch then Cancelled else IncompleteBody(total.value, Received(w.turns)))
    else None
  }

  lemma TurnsErrorSnoc(turns: seq<Turn>, i: nat)
    requires i < |turns|
    ensures TurnsError(turns[..i + 1]) ==
      if TurnsError(turns[..i]).Some? then TurnsError(turns[..i]) else TurnError(turns[i], Received(turns[..i]))
  {
    assert turns[..i + 1][..i] == turns[..i];
  }

  lemma {:induction false} FirstErrorStays(turns: seq<Turn>, i: nat)
    requires i <= |turns| && TurnsError(turns[..i]).Some?
    ensures TurnsError(turns) == TurnsError(turns[..i])
    decreases |turns| - i
  {
    if i == |turns| {
      assert turns[..i] == turns;
    } else {
      TurnsErrorSnoc(turns, i);
      FirstErrorStays(turns, i + 1);
    }
  }

  lemma TurnDecides(turns: seq<Turn>, i: nat, before: nat)
    requires i < |turns| && before == Received(turns[..i]) && TurnsError(turns[..i]) == None
    ensures Received(turns[..i + 1]) == before + match turns[i].event case Chunk(size, _) => size case _ => 0
    ensures TurnsError(turns[..i + 1]) == TurnError(turns[i], before)
    ensures TurnError(turns[i], before).Some? ==> TurnsError(turns) == TurnError(turns[i], before)
  {
    hide TurnError, TurnsError, Received;
    ReceivedSnoc(turns, i);
    TurnsErrorSnoc(turns, i);
    if TurnError(turns[i], before).Some? {
      FirstErrorStays(turns, i + 1);
    }
  }

  /** The download loop: `written` counts the bytes that reached the raw file. */
  method Download(w: World) returns (error: Option<RipError>, written: nat)
    ensures error == DownloadError(w)
    ensures written <= MAX_AUDIO_BYTES
    ensures error == None ==> written == Received(w.turns)
    ensures error == None && DeclaredLength(w).Some? ==> written == DeclaredLength(w).value
  {
    written := 0;
    var total := DeclaredLength(w);
    if total.Some? && total.value > MAX_AUDIO_BYTES {
      return Some(LimitExceeded), written;
    }
    if w.rawFileFails {
      return Some(LocalIo), written;
    }
    assert w.turns[..|w.turns|] == w.turns;
    assert Received(w.turns[..0]) == 0 && TurnsError(w.turns[..0]) == None;
    hide Received, DeclaredLength, TurnsError;
    for i := 0 to |w.turns|
      invariant written == Received(w.turns[..i]) <= MAX_AUDIO_BYTES
      invariant TurnsError(w.turns[..i]) == None
    {
      var turn := w.turns[i];
      TurnDecides(w.turns, i, written);
      if turn.cancelled {
        return Some(Cancelled), written;
      }
      match turn.event {
        case Prefetched =>
        case Silence =>
          return Some(if turn.cancelledLate then Cancelled else StreamStalled), written;
        case Broken =>
          return Some(if turn.cancelledLate then Cancelled else StreamCorrupt), written;
        case Chunk(size, writeFails) =>
          if written + size > MAX_AUDIO_BYTES {
            return Some(LimitExceeded), written;
          }
          if writeFails {
            return Some(LocalIo), written;
          }
          written := written + size;
      }
    }
    if w.cancelledAtEnd {
      return Some(Cancelled), written;
    }
    if total.Some? && written != total.value {
      return Some(if w.cancelledOnMismatch then Cancelled else IncompleteBody(total.value, written)), written;
    }
    error := None;
  }

  // ----- When a download succeeds, and how it fails -----

  /** The first `k` turns all went well and stayed within the audio limit. */
  predicate Reached(w: World, k: nat)
    requires k <= |w.turns|
  {
    forall j :: 0 <= j < k ==> WentWell(w.turns[j]) && Received(w.turns[..j + 1]) <= 512 * 1024 * 1024
  }

  /** The download starts: no declared length beyond the limit, and a raw file to write to. */
  predicate Starts(w: World) {
    !w.rawFileFails && !(w.contentLength.Some? && w.contentLength.value > 512 * 1024 * 1024)
  }

  lemma ReachedSnoc(w: World, k: nat)
    requires k < |w.turns|
    ensures Reached(w, k + 1) <==>
      Reached(w, k) && WentWell(w.turns[k]) && Received(w.turns[..k + 1]) <= 512 * 1024 * 1024
  {
    hide Received, WentWell;
  }

  lemma ReachedIsWithinLimit(w: World, k: nat)
    requires k <= |w.turns| && Reached(w, k)
    ensures Received(w.turns[..k]) <= 512 * 1024 * 1024
  {
    if k > 0 {
      var j: nat := k - 1;
      assert WentWell(w.turns[j]) && Received(w.turns[..j + 1]) <= 512 * 1024 * 1024;
    }
  }

  lemma {:induction false} ReachedMeansNoError(w: World, k: nat)
    requires k <= |w.turns|
    ensures Reached(w, k) <==> TurnsError(w.turns[..k]) == None
  {
    if k > 0 {
      var j: nat := k - 1;
      ReachedMeansNoError(w, j);
      ReachedSnoc(w, j);
      TurnsErrorSnoc(w.turns, j);
      ReceivedSnoc(w.turns, j);
      if Reached(w, j) {
        ReachedIsWithinLimit(w, j);
      }
      hide Received, TurnsError, Reached;
    }
  }

  /** The turn that fails first decides the error. */
  lemma FailingTurnDecides(w: World, k: nat)
    requires Starts(w) && k < |w.turns| && Reached(w, k) && !Reached(w, k + 1)
    ensures var turn, before := w.turns[k], Received(w.turns[..k]);
      && (turn.cancelled ==> DownloadError(w) == Some(Cancelled))
      && (!turn.cancelled && turn.cancelledLate && (turn.event.Silence? || turn.event.Broken?) ==>
            DownloadError(w) == Some(Cancelled))
      && (!turn.cancelled && !turn.cancelledLate && turn.event.Silence? ==> DownloadError(w) == Some(StreamStalled))
      && (!turn.cancelled && !turn.cancelledLate && turn.event.Broken? ==> DownloadError(w) == Some(StreamCorrupt))
      && (!turn.cancelled && turn.event.Chunk? && before + turn.event.size > 512 * 1024 * 1024 ==>
            DownloadError(w) == Some(LimitExceeded))
      && (!turn.cancelled && turn.event.Chunk? && before + turn.event.size <= 512 * 1024 * 1024 ==>
            turn.event.writeFails && DownloadError(w) == Some(LocalIo))
  {
    ReachedMeansNoError(w, k);
    ReachedMeansNoError(w, k + 1);
    TurnsErrorSnoc(w.turns, k);
    FirstErrorStays(w.turns, k + 1);
    ReceivedSnoc(w.turns, k);
    hide Received, TurnsError, Reached;
  }

  /** Before and after the turns: an oversized or unwritable download, a late cancellation, a short or long body. */
  lemma DownloadFailsOutsideTurns(w: World)
    ensures w.contentLength.Some? && w.contentLength.value > 512 * 1024 * 1024 ==>
      DownloadError(w) == Some(LimitExceeded)
    ensures w.rawFileFails && !(w.contentLength.Some? && w.contentLength.value > 512 * 1024 * 1024) ==>
      DownloadError(w) == Some(LocalIo)
    ensures Starts(w) && Reached(w, |w.turns|) ==>
      && (w.cancelledAtEnd ==> DownloadError(w) == Some(Cancelled))
      && (!w.cancelledAtEnd && w.contentLength.Some? && w.contentLength.value > 0
          && w.contentLength.value != Received(w.turns) ==>
            DownloadError(w) == Some(
              if w.cancelledOnMismatch then Cancelled
              else IncompleteBody(w.contentLength.value, Received(w.turns))))
  {
    ReachedMeansNoError(w, |w.turns|);
    assert w.turns[..|w.turns|] == w.turns;
    hide Received, TurnsError, Reached;
  }

  /** Nothing fails or is cancelled, the bytes stay within the limit and are as many as declared. */
  predicate DownloadGoesWell(w: World) {
    && Starts(w) && Reached(w, |w.turns|) && !w.cancelledAtEnd
    && (w.contentLength.Some? && w.contentLength.value > 0 ==> w.contentLength.value == Received(w.turns))
  }

  lemma DownloadSucceedsIff(w: World)
    ensures DownloadError(w) == None <==> DownloadGoesWell(w)
  {
    ReachedMeansNoError(w, |w.turns|);
    assert w.turns[..|w.turns|] == w.turns;
    hide Received, TurnsError, Reached;
  }

  type Positive = n: nat | n >= 1 witness 1

  /** The process-wide source of unique suffixes. */
  class Counter {
    var next: Positive

    constructor ()
      ensures next == 1
    {
      next := 1;
    }

    /** This suffix was handed out before, here or to another job. */
    predicate Spent(id: nat)
      reads this
    {
      1 <= id < next
    }

    method FetchAdd() returns (id: nat)
      modifies this
      ensures !old(Spent(id)) && forall other: nat :: Spent(other) <==> old(Spent(other)) || other == id
      ensures id == old(next) && next == old(next) + 1
    {
      id := next;
      next := next + 1;
    }

    /** The draws of other jobs. */
    method Advance(draws: nat)
      modifies this
      ensures next == old(next) + draws
    {
      next := next + draws;
    }
  }

  /** The output directory as the jobs see it; the private staging lane is not part of it. */
  class OutputDir {
    var files: map<string, string>

    constructor ()
      ensures files == map[]
    {
      files := map[];
    }
  }

  function LateProblem(w: World): Option<RipError> {
    if w.flushFails then Some(LocalIo)
    else if w.cancelledAfterFlush || w.cancelledBeforeTagging then Some(Cancelled)
    else None
  }

  function FinalizerError(w: World): Option<RipError> {
    match w.finalizer
    case Finalized(_) => None
    case FinalizeFailed(failure, _, cancelled) => Some(if failure.Decode? && cancelled then Cancelled else failure)
  }

  function DeliverError(w: World): Option<RipError> {
    if DownloadError(w).Some? then DownloadError(w)
    else if LateProblem(w).Some? then LateProblem(w)
    else FinalizerError(w)
  }

  /** Download, finalize into the reserved name, and remove that name again on any failure. */
  method Deliver(dir: OutputDir, finalName: string, w: World) returns (error: Option<RipError>, written: nat)
    requires finalName in dir.files
    modifies dir
    ensures error == DeliverError(w)
    ensures written <= MAX_AUDIO_BYTES
    ensures error.Some? ==> dir.files == old(dir.files) - {finalName}
    ensures error == None ==>
      && w.finalizer.Finalized?
      && dir.files == old(dir.files)[finalName := w.finalizer.content]
      && written == Received(w.turns)
      && (DeclaredLength(w).Some? ==> written == DeclaredLength(w).value)
  {
    hide DownloadError, Received, DeclaredLength;
    error, written := Download(w);
    if error == None {
      error := LateProblem(w);
    }
    if error == None {
      match w.finalizer {
        case Finalized(content) =>
          dir.files := dir.files[finalName := content];
        case FinalizeFailed(failure, leaves, cancelled) =>
          dir.files := if leaves.Some? then dir.files[finalName := leaves.value] else dir.files - {finalName};
          error := Some(if failure.Decode? && cancelled then Cancelled else failure);
      }
    }
    if error.Some? {
      dir.files := dir.files - {finalName};
    }
  }

  /** The problems met before a name is reserved, in order. */
  function EarlyError(w: World): Option<RipError> {
    if w.cancelledFirst then Some(Cancelled)
    else if w.targetDirFails || w.laneFails then Some(LocalIo)
    else if w.meta.Err? then Some(w.meta.error)
    else if w.cancelledAfterMeta then Some(Cancelled)
    else if w.connect.Err? then Some(w.connect.error)
    else None
  }

  /** Reserves a name that neither the directory nor another job holds at that moment. */
  method Reserve(dir: OutputDir, counter: Counter, w: World) returns (r: Result<string, RipError>, ghost draws: nat)
    requires w.meta.Ok? && w.connect.Ok?
    requires counter.next + Gap(w, |dir.files| + |w.names|) + 1 < U64
    modifies dir, counter
    ensures old(counter.next) <= counter.next <= old(counter.next) + Gap(w, |old(dir.files)| + |w.names|) + 1
    ensures draws <= |old(dir.files)| + |w.names|
    ensures r.Err? <==> w.openFailsAt == Some(draws)
    ensures r.Err? ==> r.error == LocalIo && dir.files == old(dir.files)
    ensures r.Ok? ==>
      && IsNameFor(w, r.value) && r.value !in old(dir.files) && r.value !in OthersHold(w, draws)
      && dir.files == old(dir.files)[r.value := ""]
  {
    hide HasShortExtension, BaseName, Gap, WithCollisionId, Decimal, Drawn, OthersHold;
    var base, first: nat, existing := BaseName(w), counter.next, dir.files.Keys;
    BaseNameIsUsable(w);
    ghost var universe := existing + w.names;
    ghost var most := |dir.files| + |w.names|;
    assert |universe| <= most by {
      assert |existing| == |dir.files|;
      assert |universe| == |existing| + |w.names| - |existing * w.names|;
    }
    GapUpTo(w, |universe|, most);
    GapsAreDrawn(w, first, |universe| + 1);
    var taken := (k: nat) => existing + OthersHold(w, k);
    assert forall k: nat :: taken(k) <= universe by {
      OthersComeFromNames(w);
    }
    var ok, name, count := ReserveName(base, CollisionIds(w, first), taken, w.openFailsAt, universe);
    draws := count;
    if count > 0 {
      assert name == WithCollisionId(base, Decimal(CollisionIds(w, first)(count - 1)), MAX_FILENAME_BYTES);
      GapUpTo(w, count - 1, most);
      counter.Advance(Gap(w, count - 1) + 1);
    }
    if !ok {
      return Err(LocalIo), draws;
    }
    dir.files := dir.files[name := ""];
    r := Ok(name);
  }

  lemma BaseNameIsUsable(w: World)
    requires w.meta.Ok? && w.connect.Ok?
    ensures HasShortExtension(BaseName(w)) && Safe(BaseName(w), MAX_FILENAME_BYTES)
  {
    hide TrackFilename, TrackFront, HasShortExtension, Safe;
    var m := w.meta.value;
    TaggerNameIsUsable(m.trackNumber, m.title, m.artist, m.explicit, w.connect.value);
  }

  /** What one attempt came to: its result, the bytes it wrote, and the reservation attempt it stopped at. */
  datatype Attempt = Attempt(result: Result<string, RipError>, written: nat, draws: nat)

  function AttemptError(w: World, draws: nat): Option<RipError> {
    if EarlyError(w).Some? then EarlyError(w)
    else if w.openFailsAt == Some(draws) then Some(LocalIo)
    else DeliverError(w)
  }

  /** The result is the one the world calls for. */
  predicate AttemptOf(w: World, a: Attempt) {
    && (a.result.Ok? <==> AttemptError(w, a.draws) == None)
    && (a.result.Err? ==> AttemptError(w, a.draws) == Some(a.result.error))
  }

  /**
    One attempt: reserve a name, then deliver into it. The directory gains exactly one new file
    on success and is unchanged otherwise.
  */
  method RipOnce(dir: OutputDir, counter: Counter, w: World)
    returns (r: Result<string, RipError>, written: nat, ghost draws: nat)
    requires counter.next + MostDraws(w, |dir.files|) < U64
    modifies dir, counter
    ensures old(counter.next) <= counter.next <= old(counter.next) + MostDraws(w, |old(dir.files)|)
    ensures written <= MAX_AUDIO_BYTES
    ensures AttemptOf(w, Attempt(r, written, draws))
    ensures r.Err? ==> dir.files == old(dir.files)
    ensures r.Ok? ==>
      && IsNameFor(w, r.value) && r.value !in old(dir.files) && r.value !in OthersHold(w, draws)
      && w.finalizer.Finalized?
      && dir.files == old(dir.files)[r.value := w.finalizer.content]
      && written == Received(w.turns)
      && (DeclaredLength(w).Some? ==> written == DeclaredLength(w).value)
  {
    hide IsNameFor, DeclaredLength, Received, Gap, OthersHold, DeliverError;
    draws := 0;
    if !w.cancelledFirst && !w.targetDirFails {
      counter.Advance(w.otherDraws(0));
      var lane := counter.FetchAdd();
    }
    if w.cancelledFirst || w.targetDirFails || w.laneFails || w.meta.Err? || w.cancelledAfterMeta || w.connect.Err? {
      return Err(EarlyError(w).value), 0, 0;
    }
    counter.Advance(w.otherDraws(1));
    var raw := counter.FetchAdd();
    var reserved;
    reserved, draws := Reserve(dir, counter, w);
    if reserved.Err? {
      return reserved, 0, draws;
    }
    var finalName := reserved.value;
    var error;
    error, written := Deliver(dir, finalName, w);
    if error.Some? {
      assert dir.files == old(dir.files);
      return Err(error.value), written, draws;
    }
    r := Ok(finalName);
  }

  // ----- When an attempt succeeds, and how it fails -----

  /** No flag is set and nothing fails. */
  predicate Smooth(w: World) {
    && !w.cancelledBefore && !w.cancelledFirst && !w.targetDirFails && !w.laneFails && w.meta.Ok?
    && !w.cancelledAfterMeta && w.connect.Ok? && w.openFailsAt == None && DownloadGoesWell(w)
    && !w.flushFails && !w.cancelledAfterFlush && !w.cancelledBeforeTagging && w.finalizer.Finalized?
  }

  /** The attempt itself goes well, whenever it makes its reservation. */
  lemma AttemptSucceedsIff(w: World)
    requires !w.cancelledBefore && w.openFailsAt == None
    ensures forall draws: nat :: AttemptError(w, draws) == None <==> Smooth(w)
  {
    hide DownloadError, DownloadGoesWell;
    DownloadSucceedsIff(w);
  }

  /** The stages before and after the download, in order; each clause assumes that nothing failed before. */
  lemma StageErrors(w: World, draws: nat)
    ensures w.cancelledFirst ==> AttemptError(w, draws) == Some(Cancelled)
    ensures !w.cancelledFirst && (w.targetDirFails || w.laneFails) ==> AttemptError(w, draws) == Some(LocalIo)
    ensures !w.cancelledFirst && !w.targetDirFails && !w.laneFails ==>
      && (w.meta.Err? ==> AttemptError(w, draws) == Some(w.meta.error))
      && (w.meta.Ok? && w.cancelledAfterMeta ==> AttemptError(w, draws) == Some(Cancelled))
      && (w.meta.Ok? && !w.cancelledAfterMeta && w.connect.Err? ==> AttemptError(w, draws) == Some(w.connect.error))
    ensures EarlyError(w) == None && w.openFailsAt == Some(draws) ==> AttemptError(w, draws) == Some(LocalIo)
    ensures EarlyError(w) == None && w.openFailsAt != Some(draws) ==>
      && (!DownloadGoesWell(w) ==> DownloadError(w).Some? && AttemptError(w, draws) == DownloadError(w))
      && (DownloadGoesWell(w) && w.flushFails ==> AttemptError(w, draws) == Some(LocalIo))
      && (DownloadGoesWell(w) && !w.flushFails && (w.cancelledAfterFlush || w.cancelledBeforeTagging) ==>
            AttemptError(w, draws) == Some(Cancelled))
      && (DownloadGoesWell(w) && !w.flushFails && !w.cancelledAfterFlush && !w.cancelledBeforeTagging
          && w.finalizer.FinalizeFailed? ==>
            AttemptError(w, draws) ==
              Some(if w.finalizer.error.Decode? && w.finalizer.cancelled then Cancelled else w.finalizer.error))
  {
    hide DownloadError, DownloadGoesWell;
    DownloadSucceedsIff(w);
  }

  /** Somebody cancelled, or a stage itself reported a cancellation. */
  predicate HasCancelCause(w: World) {
    || w.cancelledBefore || w.cancelledFirst || w.cancelledAfterMeta || w.cancelledAtEnd || w.cancelledOnMismatch
    || w.cancelledAfterFlush || w.cancelledBeforeTagging || w.cancelledAfter || w.cancelledAsleep
    || (exists turn :: turn in w.turns && (turn.cancelled || turn.cancelledLate))
    || w.meta == Err(Cancelled) || w.connect == Err(Cancelled)
    || (w.finalizer.FinalizeFailed? && (w.finalizer.cancelled || w.finalizer.error == Cancelled))
  }

  lemma {:induction false} CancelledTurns(turns: seq<Turn>)
    requires TurnsError(turns) == Some(Cancelled)
    ensures exists turn :: turn in turns && (turn.cancelled || turn.cancelledLate)
  {
    if turns != [] {
      var front, last := turns[..|turns| - 1], turns[|turns| - 1];
      if TurnsError(front).Some? {
        CancelledTurns(front);
        var turn :| turn in front && (turn.cancelled || turn.cancelledLate);
        assert turn in turns;
      } else {
        assert last in turns;
      }
    }
  }

  /** An attempt answers Cancelled only for a reason. */
  lemma CancelledHasACause(w: World, draws: nat)
    requires AttemptError(w, draws) == Some(Cancelled)
    ensures HasCancelCause(w)
  {
    hide Received, TurnsError, DeclaredLength;
    if TurnsError(w.turns) == Some(Cancelled) {
      CancelledTurns(w.turns);
    }
  }

  // ----- The retry loop -----

  /** What an attempt's result means for the loop. */
  predicate Retried(attempt: Attempt) {
    attempt.result.Err? && !Terminal(attempt.result.error)
  }

  /** The most the counter can move during the attempts from `k` up to `end`. */
  function MostDrawsFrom(worlds: nat -> World, k: nat, end: nat, files: nat): nat
    requires k <= end
    decreases end - k
  {
    if k == end then 0 else MostDraws(worlds(k), files) + MostDrawsFrom(worlds, k + 1, end, files)
  }

  /** Every attempt in the log is the one its world calls for. */
  predicate Logged(worlds: nat -> World, log: seq<Attempt>) {
    forall k :: 0 <= k < |log| ==>
      AttemptOf(worlds(k), log[k]) && !worlds(k).cancelledBefore && log[k].written <= MAX_AUDIO_BYTES
  }

  /** Every attempt but the last failed in a way worth retrying, and nobody cancelled before the next one. */
  predicate AllRetried(worlds: nat -> World, log: seq<Attempt>) {
    forall k :: 0 <= k < |log| - 1 ==>
      Retried(log[k]) && !worlds(k).cancelledAfter && !worlds(k).cancelledAsleep
  }

  /** The five ways the loop ends. */
  predicate Ends(worlds: nat -> World, maxRetries: nat, r: Result<string, RipError>, log: seq<Attempt>) {
    var n := |log|;
    if n == 0 then r == Err(Cancelled) && worlds(0).cancelledBefore
    else
      var last, w := log[n - 1], worlds(n - 1);
      if !Retried(last) then r == last.result
      else if w.cancelledAfter then r == Err(Cancelled)
      else if n == maxRetries + 1 then r == last.result
      else r == Err(Cancelled) && (w.cancelledAsleep || worlds(n).cancelledBefore)
  }

  /**
    `rip`: attempt `k` observes `worlds(k)`. The log holds every attempt that ran.
    Only the last one can be a success or a terminal error, so nothing runs after either.
  */
  method Rip(dir: OutputDir, counter: Counter, maxRetries: nat, worlds: nat -> World)
    returns (r: Result<string, RipError>, ghost log: seq<Attempt>)
    requires counter.next + MostDrawsFrom(worlds, 0, maxRetries + 1, |dir.files|) < U64
    modifies dir, counter
    ensures |log| <= maxRetries + 1
    ensures Logged(worlds, log) && AllRetried(worlds, log) && Ends(worlds, maxRetries, r, log)
    ensures r.Ok? ==> log != [] && log[|log| - 1].result == r
    ensures r.Err? && r.error != Cancelled ==> log != [] && log[|log| - 1].result == r
    ensures r.Err? && !Terminal(r.error) ==> |log| == maxRetries + 1
    ensures r.Ok? ==>
      var w, written := worlds(|log| - 1), log[|log| - 1].written;
      && IsNameFor(w, r.value) && r.value !in old(dir.files)
      && w.finalizer.Finalized?
      && dir.files == old(dir.files)[r.value := w.finalizer.content]
      && written == Received(w.turns)
      && (DeclaredLength(w).Some? ==> written == DeclaredLength(w).value)
    ensures r.Err? ==> dir.files == old(dir.files)
  {
    hide IsNameFor, Received, DeclaredLength, MostDraws, OthersHold, AttemptOf;
    log := [];
    var attempt: nat := 0;
    while true
      invariant attempt == |log| <= maxRetries
      invariant Logged(worlds, log)
      invariant forall k :: 0 <= k < |log| ==>
        Retried(log[k]) && !worlds(k).cancelledAfter && !worlds(k).cancelledAsleep
      invariant dir.files == old(dir.files)
      invariant counter.next + MostDrawsFrom(worlds, attempt, maxRetries + 1, |dir.files|) < U64
      decreases maxRetries - attempt
    {
      var w := worlds(attempt);
      if w.cancelledBefore {
        return Err(Cancelled), log;
      }
      var result, written, draws := RipOnce(dir, counter, w);
      log := log + [Attempt(result, written, draws)];
      if result.Ok? || Terminal(result.error) {
        return result, log;
      }
      if w.cancelledAfter {
        return Err(Cancelled), log;
      }
      if attempt >= maxRetries {
        return result, log;
      }
      attempt := attempt + 1;
      if w.cancelledAsleep {
        return Err(Cancelled), log;
      }
    }
  }

  // ----- What a rip answers -----

  /** The attempt fails in a way worth retrying, and nobody cancels around it. */
  predicate FailsForNow(w: World) {
    && !w.cancelledBefore && !w.cancelledAfter && !w.cancelledAsleep && w.openFailsAt == None
    && AttemptError(w, 0).Some?
    && AttemptError(w, 0).value
       !in {Cancelled, TrackUnavailable, RenditionUnavailable, LocalIo, SourceOffline}
  }

  lemma FailingIsRetried(w: World, a: Attempt)
    requires FailsForNow(w) && AttemptOf(w, a)
    ensures Retried(a) && !w.cancelledAfter && !w.cancelledAsleep && !w.cancelledBefore
  {
    hide EarlyError, DeliverError;
  }

  /** The loop goes on for as long as attempts fail for now. */
  lemma AttemptIsReached(
    worlds: nat -> World, maxRetries: nat, r: Result<string, RipError>, log: seq<Attempt>, k: nat)
    requires Logged(worlds, log) && Ends(worlds, maxRetries, r, log)
    requires k <= maxRetries && !worlds(k).cancelledBefore && forall j: nat :: j < k ==> FailsForNow(worlds(j))
    ensures k < |log|
  {
    hide AttemptOf, Retried, FailsForNow;
    var n: nat := |log|;
    if n < k {
      FailsBefore(worlds(n));
    }
    if 0 < n <= k {
      FailingIsRetried(worlds(n - 1), log[n - 1]);
    }
  }

  lemma FailsBefore(w: World)
    requires FailsForNow(w)
    ensures !w.cancelledBefore
  {
  }

  /**
    If the attempt numbered `k` meets a smooth world and every earlier one fails for now, the rip
    succeeds, in exactly that attempt.
  */
  lemma RipSucceeds(
    worlds: nat -> World, maxRetries: nat, r: Result<string, RipError>, log: seq<Attempt>, k: nat)
    requires |log| <= maxRetries + 1
    requires Logged(worlds, log) && AllRetried(worlds, log) && Ends(worlds, maxRetries, r, log)
    requires k <= maxRetries && Smooth(worlds(k)) && forall j: nat :: j < k ==> FailsForNow(worlds(j))
    ensures r.Ok? && |log| == k + 1
  {
    hide EarlyError, DeliverError, FailsForNow;
    AttemptSucceedsIff(worlds(k));
    SmoothIsNotCancelled(worlds(k));
    hide Smooth;
    AttemptIsReached(worlds, maxRetries, r, log, k);
    assert AttemptOf(worlds(k), log[k]);
  }

  lemma SmoothIsNotCancelled(w: World)
    requires Smooth(w)
    ensures !w.cancelledBefore
  {
  }

  /** The other ways to end: a lasting error at once, or the last error when the retries are used up. */
  lemma RipFails(
    worlds: nat -> World, maxRetries: nat, r: Result<string, RipError>, log: seq<Attempt>, k: nat)
    requires |log| <= maxRetries + 1
    requires Logged(worlds, log) && AllRetried(worlds, log) && Ends(worlds, maxRetries, r, log)
    requires k <= maxRetries && !worlds(k).cancelledBefore && worlds(k).openFailsAt == None
    requires AttemptError(worlds(k), 0).Some? && forall j: nat :: j < k ==> FailsForNow(worlds(j))
    ensures var error := AttemptError(worlds(k), 0).value;
      && (error in {Cancelled, TrackUnavailable, RenditionUnavailable, LocalIo, SourceOffline} ==>
            r == Err(error) && |log| == k + 1)
      && (FailsForNow(worlds(k)) && k == maxRetries ==> r == Err(error) && |log| == k + 1)
  {
    hide EarlyError, DeliverError;
    AttemptIsReached(worlds, maxRetries, r, log, k);
    assert AttemptOf(worlds(k), log[k]);
  }

  /** A rip answers Cancelled only when somebody cancelled, or an attempt itself reported it. */
  lemma RipCancelledHasACause(worlds: nat -> World, maxRetries: nat, r: Result<string, RipError>, log: seq<Attempt>)
    requires Logged(worlds, log) && Ends(worlds, maxRetries, r, log) && r == Err(Cancelled)
    ensures exists k: nat :: k <= |log| && HasCancelCause(worlds(k))
  {
    hide AttemptError;
    var n: nat := |log|;
    if n == 0 {
      assert HasCancelCause(worlds(0));
    } else {
      var last: nat := n - 1;
      if log[last].result == r {
        CancelledHasACause(worlds(last), log[last].draws);
      }
      assert HasCancelCause(worlds(last)) || HasCancelCause(worlds(n));
    }
  }
}

/** Retry rounds over the primary mirror and the wrapper, until a stream, a verdict or exhaustion. */
module Acquisition {
  import opened Sequences
  import opened Text

  datatype CodecPreference = HighestQuality | HiRes192 | HiRes96 | LosslessCd | Mp3_320 | Atmos

  datatype WrapperKind = Native | Endpoints

  datatype Stream = Stream(id: int, codec: string)

  datatype Reason = NoAtmosVariantInValidMaster | M3u8NotFound | NonEc3StreamForAtmos

  /** `text` is the rendered error; the codes the selection looks at are constructors. */
  datatype StreamError =
    | Message(text: string)
    | Permanent(text: string)
    | Unavailable(text: string)
    | Timeout(text: string)
    | IncompleteBody(text: string)
    | Authentication(text: string)
    | SourceOffline(text: string)
    | Playback(text: string)
    | LimitExceeded(limitMib: nat)
    | Cancelled

  datatype Answer = Served(stream: Stream) | Failed(error: StreamError)

  datatype WrapperAnswer = Source(stream: Stream) | Absent(reason: Reason) | Refused(error: StreamError)

  /** What the sources would answer in one round, each asked at most once. */
  datatype Round = Round(primary: Answer, native: WrapperAnswer, candidates: nat -> Answer)

  /** All answers, and the moment of cancellation counted in checks of the token (none: never). */
  datatype World = World(rounds: nat -> Round, cancelAt: Option<nat>)

  datatype Config = Config(
    id: string, preference: CodecPreference, primary: Option<string>,
    wrapper: Option<string>, kind: WrapperKind, retryRounds: nat, baseDelay: nat)

  datatype Contact = Primary(url: string) | Wrapper(url: string) | Candidate(url: string)

  datatype Attempt = Accepted(stream: Stream) | RenditionAbsent | Typed(error: StreamError) | NoSource

  datatype Outcome = Selected(stream: Stream) | Missing

  /** `Exhausted` carries what the final message is made of. */
  datatype Failure = Stopped(error: StreamError) | Exhausted(wrapperMissing: bool, errors: seq<string>)

  // ----- Configuration -----

  const MAX_DELAY: nat := 30_000
  const LIMIT_MIB: nat := 512

  /** At least one round, and a base delay of at most thirty seconds. */
  predicate Configured(c: Config) {
    c.retryRounds >= 1 && c.baseDelay <= MAX_DELAY
  }

  function WithConfig(c: Config): (r: Config)
    ensures Configured(r)
    ensures r.(retryRounds := c.retryRounds, baseDelay := c.baseDelay) == c
    ensures c.retryRounds >= 1 ==> r.retryRounds == c.retryRounds
    ensures c.retryRounds == 0 ==> r.retryRounds == 1
    ensures c.baseDelay <= 30_000 ==> r.baseDelay == c.baseDelay
    ensures c.baseDelay > 30_000 ==> r.baseDelay == 30_000
  {
    c.(retryRounds := if c.retryRounds == 0 then 1 else c.retryRounds,
       baseDelay := if c.baseDelay > MAX_DELAY then MAX_DELAY else c.baseDelay)
  }

  function WithoutSlashes(url: string): (r: string)
    ensures r <= url && (r == [] || r[|r| - 1] != '/')
    ensures forall i :: |r| <= i < |url| ==> url[i] == '/'
  {
    if url != [] && url[|url| - 1] == '/' then WithoutSlashes(url[..|url| - 1]) else url
  }

  /** The wrapper deployment, unless nothing is left of the configured URL. */
  function CleanWrapper(c: Config): Option<string> {
    if c.wrapper.Some? && WithoutSlashes(Trim(c.wrapper.value)) != "" then Some(WithoutSlashes(Trim(c.wrapper.value)))
    else None
  }

  /** There is no wrapper when only slashes are left of its trimmed URL; otherwise the slashes at its end are gone. */
  lemma WrapperIsClean(c: Config)
    ensures var r := CleanWrapper(c);
      && (r == None <==> c.wrapper == None || forall i :: 0 <= i < |Trim(c.wrapper.value)| ==>
            Trim(c.wrapper.value)[i] == '/')
      && (r.Some? ==>
            var url := Trim(c.wrapper.value);
            && r.value <= url && r.value != [] && r.value[|r.value| - 1] != '/'
            && forall i :: |r.value| <= i < |url| ==> url[i] == '/')
  {
    hide Trim;
    if c.wrapper.Some? {
      var url := Trim(c.wrapper.value);
      var r := WithoutSlashes(url);
      assert r != [] ==> url[|r| - 1] == r[|r| - 1] != '/';
    }
  }

  function Endpoint(c: Config, base: string, i: nat): string {
    base + (if i == 0 then "/api/stream/" else "/stream/") + c.id
  }

  // ----- Judging one answer -----

  function Render(e: StreamError): string {
    match e
    case LimitExceeded(mib) => "audio stream exceeds the " + Decimal(mib) + " MiB limit"
    case Cancelled => "Download was cancelled"
    case _ => e.text
  }

  function ReasonText(reason: Reason): string {
    match reason
    case NoAtmosVariantInValidMaster => "No Dolby Atmos stream variant found in master playlist"
    case M3u8NotFound => "Wrapper /m3u8 returned HTTP 404"
    case NonEc3StreamForAtmos => "Wrapper returned a non-EC-3 stream for Atmos request"
  }

  predicate IsEc3(s: Stream) {
    Lower(s.codec) == "ec-3"
  }

  predicate Acceptable(p: CodecPreference, s: Stream) {
    p == Atmos ==> IsEc3(s)
  }

  function Absence(p: CodecPreference, reason: Reason): Attempt {
    if p == Atmos then RenditionAbsent
    else if reason == M3u8NotFound then Typed(Permanent(ReasonText(reason)))
    else Typed(Message(ReasonText(reason)))
  }

  function Accept(p: CodecPreference, s: Stream): Attempt {
    if Acceptable(p, s) then Accepted(s) else Absence(p, NonEc3StreamForAtmos)
  }

  // ----- Cancellation checks -----

  /** A round checks the token at up to nine moments; they are numbered across rounds. */
  datatype Moment =
    | BeforeDelay | DuringDelay | BeforeCandidate(i: nat) | AfterCandidate(i: nat)
    | AfterLoop | AfterRound | AfterMerge

  const CHECKS: nat := 9

  function Tick(round: nat, m: Moment): nat
    requires (m.BeforeCandidate? || m.AfterCandidate?) ==> m.i < 2
  {
    CHECKS * round + match m
      case BeforeDelay => 0
      case DuringDelay => 1
      case BeforeCandidate(i) => 2 + 2 * i
      case AfterCandidate(i) => 3 + 2 * i
      case AfterLoop => 6
      case AfterRound => 7
      case AfterMerge => 8
  }

  predicate CancelledBy(w: World, tick: nat) {
    w.cancelAt.Some? && w.cancelAt.value <= tick
  }

  // ----- One round -----

  datatype Once = Once(attempt: Attempt, errors: seq<string>, contacts: seq<Contact>)

  function After(contacts: seq<Contact>, errors: seq<string>, rest: Once): Once {
    Once(rest.attempt, errors + rest.errors, contacts + rest.contacts)
  }

  function SkippedPrimary(): string {
    "Skipping primary mirror: Atmos requested"
  }

  function PrimaryFailure(e: StreamError): string {
    if e == Cancelled then "Primary mirror cancelled" else "Primary mirror failed: " + Render(e)
  }

  function NativeFailure(e: StreamError): string {
    "Native wrapper engine failed: " + Render(e)
  }

  function CandidateFailure(url: string, e: StreamError): string {
    if e == Cancelled then "Wrapper candidate (" + url + ") cancelled: Download was cancelled"
    else "Wrapper candidate (" + url + ") failed: " + Render(e)
  }

  function CandidateCancelledBefore(url: string): string {
    "Wrapper candidate iteration cancelled before " + url + ": Download was cancelled"
  }

  function CandidateCancelledAfter(url: string): string {
    "Wrapper candidate (" + url + ") cancelled after resolution: Download was cancelled"
  }

  function IterationCancelled(): string {
    "Wrapper candidate iteration cancelled: Download was cancelled"
  }

  /** The candidates from index `i` on; `reason` is why the last one that answered was not usable. */
  function Candidates(c: Config, w: World, round: nat, base: string, i: nat, only: bool, reason: Option<Reason>): Once
    requires i <= 2
    decreases 2 - i
  {
    if i == 2 then
      if CancelledBy(w, Tick(round, AfterLoop)) then Once(NoSource, [IterationCancelled()], [])
      else Once(if only && reason.Some? then Absence(c.preference, reason.value) else NoSource, [], [])
    else
      var url := Endpoint(c, base, i);
      if CancelledBy(w, Tick(round, BeforeCandidate(i))) then Once(NoSource, [CandidateCancelledBefore(url)], [])
      else match w.rounds(round).candidates(i)
        case Served(s) =>
          if CancelledBy(w, Tick(round, AfterCandidate(i))) then
            Once(NoSource, [CandidateCancelledAfter(url)], [Candidate(url)])
          else if Acceptable(c.preference, s) then Once(Accepted(s), [], [Candidate(url)])
          else After([Candidate(url)], [], Candidates(c, w, round, base, i + 1, only, Some(NonEc3StreamForAtmos)))
        case Failed(e) =>
          if e.LimitExceeded? then Once(Typed(LimitExceeded(LIMIT_MIB)), [], [Candidate(url)])
          else After([Candidate(url)], [CandidateFailure(url, e)], Candidates(c, w, round, base, i + 1, false, reason))
  }

  function ViaWrapper(c: Config, w: World, round: nat): Once {
    match CleanWrapper(c)
    case None => Once(NoSource, [], [])
    case Some(url) =>
      if c.kind == Endpoints then Candidates(c, w, round, url, 0, true, None)
      else match w.rounds(round).native
        case Source(s) => Once(Accept(c.preference, s), [], [Wrapper(url)])
        case Absent(reason) => Once(Absence(c.preference, reason), [], [Wrapper(url)])
        case Refused(e) =>
          if e.SourceOffline? || e.Authentication? then Once(Typed(e), [], [Wrapper(url)])
          else Once(NoSource, [NativeFailure(e)], [Wrapper(url)])
  }

  function PrimaryUrl(c: Config, base: string): string {
    WithoutSlashes(base) + "/api/stream/" + c.id
  }

  /** The primary mirror when it resolved and the request is not for Atmos, then the wrapper. */
  function ConnectOnce(c: Config, w: World, round: nat): Once {
    match c.primary
    case None => ViaWrapper(c, w, round)
    case Some(base) =>
      if c.preference == Atmos then After([], [SkippedPrimary()], ViaWrapper(c, w, round))
      else match w.rounds(round).primary
        case Served(s) => Once(Accept(c.preference, s), [], [Primary(PrimaryUrl(c, base))])
        case Failed(e) =>
          var contact := [Primary(PrimaryUrl(c, base))];
          if e.LimitExceeded? then Once(Typed(LimitExceeded(LIMIT_MIB)), [], contact)
          else After(contact, [PrimaryFailure(e)], ViaWrapper(c, w, round))
  }

  // ----- All rounds -----

  function Pow2(n: nat): (p: nat)
    ensures p >= 1
  {
    if n == 0 then 1 else 2 * Pow2(n - 1)
  }

  /** How it ended: the rounds that ran, the delays slept through, the last check of the token. */
  datatype Ending = Ending(
    result: Result<Outcome, Failure>, rounds: nat, slept: nat, contacts: seq<Contact>, lastCheck: nat)

  /** What the loop has gathered when it reaches a round. */
  datatype Progress = Progress(errors: seq<string>, slept: nat, contacts: seq<Contact>)

  function FinalTick(c: Config): nat {
    CHECKS * c.retryRounds
  }

  function GiveUp(c: Config, w: World, rounds: nat, p: Progress): Ending {
    Ending(
      if CancelledBy(w, FinalTick(c)) then Err(Stopped(Cancelled))
      else Err(Exhausted(CleanWrapper(c) == None, FirstOccurrences(p.errors))),
      rounds, p.slept, p.contacts, FinalTick(c))
  }

  /** The loop stops before this round when the token is cancelled before or during the delay. */
  predicate StopsBefore(w: World, round: nat) {
    round > 0 && (CancelledBy(w, Tick(round, BeforeDelay)) || CancelledBy(w, Tick(round, DuringDelay)))
  }

  function Delay(c: Config, round: nat): nat {
    if round == 0 then 0 else c.baseDelay * Pow2(round - 1)
  }

  function Gathered(c: Config, w: World, round: nat, p: Progress): Progress {
    var once := ConnectOnce(c, w, round);
    Progress(p.errors + once.errors, p.slept + Delay(c, round), p.contacts + once.contacts)
  }

  /** What a finished round means for the loop: the result to return, or nothing to go on. */
  function Verdict(c: Config, w: World, round: nat): Option<Result<Outcome, Failure>> {
    if CancelledBy(w, Tick(round, AfterRound)) then Some(Err(Stopped(Cancelled)))
    else match ConnectOnce(c, w, round).attempt
      case Accepted(s) => Some(Ok(Selected(s)))
      case RenditionAbsent => Some(Ok(Missing))
      case Typed(e) => Some(Err(Stopped(e)))
      case NoSource => None
  }

  function Rounds(c: Config, w: World, round: nat, p: Progress): Ending
    requires round <= c.retryRounds
    decreases c.retryRounds - round
  {
    if round == c.retryRounds || StopsBefore(w, round) then GiveUp(c, w, round, p)
    else
      var q, verdict := Gathered(c, w, round, p), Verdict(c, w, round);
      if verdict.Some? then Ending(verdict.value, round + 1, q.slept, q.contacts, Tick(round, AfterRound))
      else if CancelledBy(w, Tick(round, AfterMerge)) then GiveUp(c, w, round + 1, q)
      else Rounds(c, w, round + 1, q)
  }

  const NOTHING := Progress([], 0, [])

  function ConnectStream(c: Config, w: World): Ending {
    Rounds(c, w, 0, NOTHING)
  }

  // ----- The loops -----

  lemma AfterTwice(
    contacts: seq<Contact>, errors: seq<string>, contacts': seq<Contact>, errors': seq<string>, rest: Once)
    ensures After(contacts, errors, After(contacts', errors', rest))
         == After(contacts + contacts', errors + errors', rest)
  {
    assert contacts + (contacts' + rest.contacts) == contacts + contacts' + rest.contacts;
    assert errors + (errors' + rest.errors) == errors + errors' + rest.errors;
  }

  method TryCandidates(c: Config, w: World, round: nat, base: string) returns (once: Once)
    ensures once == Candidates(c, w, round, base, 0, true, None)
  {
    hide Endpoint, CandidateFailure, CandidateCancelledBefore, CandidateCancelledAfter, IterationCancelled;
    hide CancelledBy, Acceptable, Absence, After;
    var only, reason := true, None;
    var errors: seq<string>, contacts: seq<Contact> := [], [];
    var i: nat := 0;
    AfterNothing(Candidates(c, w, round, base, i, only, reason));
    while i < 2
      invariant i <= 2
      invariant Candidates(c, w, round, base, 0, true, None)
             == After(contacts, errors, Candidates(c, w, round, base, i, only, reason))
      decreases 2 - i
    {
      var url := Endpoint(c, base, i);
      if CancelledBy(w, Tick(round, BeforeCandidate(i))) {
        return After(contacts, errors, Once(NoSource, [CandidateCancelledBefore(url)], []));
      }
      match w.rounds(round).candidates(i) {
        case Served(s) =>
          if CancelledBy(w, Tick(round, AfterCandidate(i))) {
            return After(contacts, errors, Once(NoSource, [CandidateCancelledAfter(url)], [Candidate(url)]));
          }
          if Acceptable(c.preference, s) {
            return After(contacts, errors, Once(Accepted(s), [], [Candidate(url)]));
          }
          reason := Some(NonEc3StreamForAtmos);
          AfterTwice(contacts, errors, [Candidate(url)], [], Candidates(c, w, round, base, i + 1, only, reason));
          contacts, errors := contacts + [Candidate(url)], errors + [];
        case Failed(e) =>
          if e.LimitExceeded? {
            return After(contacts, errors, Once(Typed(LimitExceeded(LIMIT_MIB)), [], [Candidate(url)]));
          }
          only := false;
          AfterTwice(contacts, errors, [Candidate(url)], [CandidateFailure(url, e)],
                     Candidates(c, w, round, base, i + 1, only, reason));
          contacts, errors := contacts + [Candidate(url)], errors + [CandidateFailure(url, e)];
      }
      i := i + 1;
    }
    if CancelledBy(w, Tick(round, AfterLoop)) {
      return After(contacts, errors, Once(NoSource, [IterationCancelled()], []));
    }
    if only && reason.Some? {
      return After(contacts, errors, Once(Absence(c.preference, reason.value), [], []));
    }
    return After(contacts, errors, Once(NoSource, [], []));
  }

  lemma AfterNothing(once: Once)
    ensures After([], [], once) == once
  {
    assert [] + once.contacts == once.contacts && [] + once.errors == once.errors;
  }

  method MergeErrors(all: seq<string>, roundErrors: seq<string>, ghost before: seq<string>)
    returns (merged: seq<string>)
    requires all == FirstOccurrences(before)
    ensures merged == FirstOccurrences(before + roundErrors)
  {
    merged := all;
    assert before + roundErrors[..0] == before;
    for i := 0 to |roundErrors|
      invariant merged == FirstOccurrences(before + roundErrors[..i])
    {
      var message := roundErrors[i];
      FirstOccurrencesSnoc(before + roundErrors[..i], message, {});
      assert before + roundErrors[..i + 1] == before + roundErrors[..i] + [message];
      if message !in merged {
        merged := merged + [message];
      }
    }
    assert roundErrors[..|roundErrors|] == roundErrors;
  }

  method Connect(c: Config, w: World) returns (ending: Ending)
    ensures ending == ConnectStream(c, w)
  {
    hide ConnectOnce, CleanWrapper, CancelledBy;
    var errors: seq<string>, contacts: seq<Contact>, slept: nat := [], [], 0;
    ghost var p := NOTHING;
    var round: nat := 0;
    while round < c.retryRounds
      invariant round <= c.retryRounds
      invariant p == Progress(p.errors, slept, contacts) && errors == FirstOccurrences(p.errors)
      invariant ConnectStream(c, w) == Rounds(c, w, round, p)
    {
      if round > 0 {
        if CancelledBy(w, Tick(round, BeforeDelay)) {
          break;
        }
        var delay := c.baseDelay * Pow2(round - 1);
        if CancelledBy(w, Tick(round, DuringDelay)) {
          break;
        }
        slept := slept + delay;
      }
      var once := ConnectOnce(c, w, round);
      contacts := contacts + once.contacts;
      if CancelledBy(w, Tick(round, AfterRound)) {
        return Ending(Err(Stopped(Cancelled)), round + 1, slept, contacts, Tick(round, AfterRound));
      }
      match once.attempt {
        case Accepted(s) => return Ending(Ok(Selected(s)), round + 1, slept, contacts, Tick(round, AfterRound));
        case RenditionAbsent => return Ending(Ok(Missing), round + 1, slept, contacts, Tick(round, AfterRound));
        case Typed(e) => return Ending(Err(Stopped(e)), round + 1, slept, contacts, Tick(round, AfterRound));
        case NoSource =>
      }
      errors := MergeErrors(errors, once.errors, p.errors);
      p := Gathered(c, w, round, p);
      round := round + 1;
      if CancelledBy(w, Tick(round - 1, AfterMerge)) {
        break;
      }
    }
    var result := Err(Stopped(Cancelled));
    if !CancelledBy(w, FinalTick(c)) {
      result := Err(Exhausted(CleanWrapper(c) == None, errors));
    }
    return Ending(result, round, slept, contacts, FinalTick(c));
  }

  // ----- What a round may say -----

  /** Some source of this round answered with the stream. */
  predicate OfferedIn(w: World, round: nat, s: Stream) {
    var r := w.rounds(round);
    r.primary == Served(s) || r.native == Source(s) || r.candidates(0) == Served(s) || r.candidates(1) == Served(s)
  }

  /** A round is honest: see the clauses. */
  predicate Honest(c: Config, w: World, round: nat, once: Once) {
    && (once.attempt == RenditionAbsent ==> c.preference == Atmos)
    && (once.attempt != Typed(Cancelled))
    && (once.attempt.Accepted? ==>
          Acceptable(c.preference, once.attempt.stream) && OfferedIn(w, round, once.attempt.stream))
    && (c.preference == Atmos ==> forall contact :: contact in once.contacts ==> !contact.Primary?)
  }

  lemma {:induction false} CandidatesAreHonest(
    c: Config, w: World, round: nat, base: string, i: nat, only: bool, reason: Option<Reason>)
    requires i <= 2
    ensures Honest(c, w, round, Candidates(c, w, round, base, i, only, reason))
    decreases 2 - i
  {
    hide Endpoint, CandidateFailure, CandidateCancelledBefore, CandidateCancelledAfter, IterationCancelled;
    hide Acceptable, ReasonText, CancelledBy;
    if i < 2 {
      CandidatesAreHonest(c, w, round, base, i + 1, only, Some(NonEc3StreamForAtmos));
      CandidatesAreHonest(c, w, round, base, i + 1, false, reason);
    }
  }

  lemma RoundIsHonest(c: Config, w: World, round: nat)
    ensures Honest(c, w, round, ConnectOnce(c, w, round))
  {
    hide CleanWrapper, Candidates, Acceptable, ReasonText, PrimaryUrl, PrimaryFailure, NativeFailure, SkippedPrimary;
    var base := CleanWrapper(c);
    if base.Some? {
      CandidatesAreHonest(c, w, round, base.value, 0, true, None);
    }
  }

  predicate AnsweredWithoutEc3(w: World, round: nat, i: nat) {
    var answer := w.rounds(round).candidates(i);
    answer.Served? && !IsEc3(answer.stream)
  }

  /**
    Through candidate endpoints a rendition counts as absent only for Atmos, and only when both
    endpoints answered with something else; one failure is enough to leave the question open.
  */
  lemma AbsenceNeedsBothCandidates(c: Config, w: World, round: nat)
    requires c.kind == Endpoints && (c.primary == None || c.preference == Atmos)
    ensures ConnectOnce(c, w, round).attempt == RenditionAbsent <==>
      && c.preference == Atmos && CleanWrapper(c).Some?
      && AnsweredWithoutEc3(w, round, 0) && AnsweredWithoutEc3(w, round, 1)
      && !CancelledBy(w, Tick(round, AfterLoop))
  {
    hide CleanWrapper, IsEc3, SkippedPrimary, ReasonText, Endpoint, Render;
    var base := CleanWrapper(c);
    if base.Some? {
      CandidatesEnd(c, w, round, base.value);
    }
  }

  lemma CandidatesEnd(c: Config, w: World, round: nat, base: string)
    ensures Candidates(c, w, round, base, 0, true, None).attempt == RenditionAbsent <==>
      && c.preference == Atmos && AnsweredWithoutEc3(w, round, 0) && AnsweredWithoutEc3(w, round, 1)
      && !CancelledBy(w, Tick(round, AfterLoop))
  {
    hide IsEc3, ReasonText, Endpoint, Render, IterationCancelled, CandidateFailure;
    hide CandidateCancelledBefore, CandidateCancelledAfter;
    var reason := Some(NonEc3StreamForAtmos);
    LastCandidate(c, w, round, base, true, reason);
    LastCandidate(c, w, round, base, false, None);
  }

  lemma LastCandidate(c: Config, w: World, round: nat, base: string, only: bool, reason: Option<Reason>)
    ensures Candidates(c, w, round, base, 1, only, reason).attempt == RenditionAbsent <==>
      && only && c.preference == Atmos && AnsweredWithoutEc3(w, round, 1)
      && !CancelledBy(w, Tick(round, AfterLoop))
  {
    hide IsEc3, ReasonText, Endpoint, Render, IterationCancelled, CandidateFailure;
    hide CandidateCancelledBefore, CandidateCancelledAfter;
    var next := Candidates(c, w, round, base, 2, only, Some(NonEc3StreamForAtmos));
    var other := Candidates(c, w, round, base, 2, false, reason);
  }

  lemma {:induction false} CandidatesAreReported(
    c: Config, w: World, round: nat, base: string, i: nat, only: bool, reason: Option<Reason>)
    requires i <= 2 && c.preference != Atmos && reason == None
    requires !CancelledBy(w, Tick(round, AfterLoop))
    ensures var once := Candidates(c, w, round, base, i, only, reason);
      once.attempt == NoSource ==> |once.errors| == |once.contacts| == 2 - i
    decreases 2 - i
  {
    hide Endpoint, CandidateFailure, CandidateCancelledBefore, CandidateCancelledAfter, IterationCancelled, IsEc3;
    if i < 2 {
      CandidatesAreReported(c, w, round, base, i + 1, false, reason);
    }
  }

  /**
    For anything but Atmos: when an uncancelled round finds no source, every source it contacted has
    left exactly one message, and it contacted all there are.
  */
  lemma FailuresAreReported(c: Config, w: World, round: nat)
    requires c.preference != Atmos && !CancelledBy(w, Tick(round, AfterLoop))
    requires ConnectOnce(c, w, round).attempt == NoSource
    ensures var once := ConnectOnce(c, w, round);
      |once.errors| == |once.contacts| == (if c.primary == None then 0 else 1)
        + (if CleanWrapper(c) == None then 0 else if c.kind == Native then 1 else 2)
  {
    hide CleanWrapper, Candidates, ReasonText, PrimaryUrl, PrimaryFailure, NativeFailure, IsEc3;
    var base := CleanWrapper(c);
    if base.Some? {
      CandidatesAreReported(c, w, round, base.value, 0, true, None);
    }
  }

  // ----- What a whole acquisition may say -----

  /** Everything gathered by the first `n` rounds. */
  function Upto(c: Config, w: World, n: nat): Progress {
    if n == 0 then NOTHING else Gathered(c, w, n - 1, Upto(c, w, n - 1))
  }

  predicate Decided(c: Config, w: World, round: nat, e: Ending) {
    && e.rounds == round + 1
    && Verdict(c, w, round) == Some(e.result)
    && e.lastCheck == Tick(round, AfterRound)
  }

  /** The loop ran `e.rounds` rounds, all but the last without a verdict, and ended for one of two reasons. */
  predicate Explained(c: Config, w: World, e: Ending) {
    && e.rounds <= c.retryRounds
    && (forall r :: 0 <= r < e.rounds - 1 ==> Verdict(c, w, r) == None)
    && e.slept == Upto(c, w, e.rounds).slept && e.contacts == Upto(c, w, e.rounds).contacts
    && (|| (e.rounds > 0 && Decided(c, w, e.rounds - 1, e))
        || (&& e == GiveUp(c, w, e.rounds, Upto(c, w, e.rounds))
            && (e.rounds > 0 ==> Verdict(c, w, e.rounds - 1) == None)
            && (e.rounds < c.retryRounds ==> CancelledBy(w, FinalTick(c)))))
    && (c.retryRounds > 0 ==> e.rounds > 0)
  }

  lemma {:induction false} RoundsAreExplained(c: Config, w: World, round: nat)
    requires round <= c.retryRounds && forall r :: 0 <= r < round ==> Verdict(c, w, r) == None
    ensures Explained(c, w, Rounds(c, w, round, Upto(c, w, round)))
    decreases c.retryRounds - round
  {
    hide Verdict, Gathered, GiveUp;
    var p := Upto(c, w, round);
    if round < c.retryRounds && !StopsBefore(w, round) {
      assert Upto(c, w, round + 1) == Gathered(c, w, round, p);
      if Verdict(c, w, round) == None && !CancelledBy(w, Tick(round, AfterMerge)) {
        RoundsAreExplained(c, w, round + 1);
      } else {
        GiveUpKeeps(c, w, round + 1, Upto(c, w, round + 1));
      }
    } else {
      GiveUpKeeps(c, w, round, p);
    }
  }

  lemma GiveUpKeeps(c: Config, w: World, rounds: nat, p: Progress)
    ensures var e := GiveUp(c, w, rounds, p);
      e.rounds == rounds && e.slept == p.slept && e.contacts == p.contacts && e.lastCheck == FinalTick(c)
  {
  }

  lemma {:induction false} SleptDoubles(c: Config, w: World, n: nat)
    requires n >= 1
    ensures Upto(c, w, n).slept == c.baseDelay * (Pow2(n - 1) - 1)
  {
    hide ConnectOnce;
    if n == 1 {
      assert Upto(c, w, 0) == NOTHING;
      assert Pow2(0) == 1;
    } else {
      SleptDoubles(c, w, n - 1);
      Doubling(c.baseDelay, Pow2(n - 2));
    }
  }

  lemma Doubling(base: nat, power: nat)
    ensures base * (power - 1) + base * power == base * (2 * power - 1)
  {
  }

  /**
    At least one and at most the configured number of rounds run, none after a verdict; before the
    last one the loop slept through base * (2^(rounds - 1) - 1) milliseconds in all.
  */
  lemma RoundsAreBounded(c: Config, w: World)
    requires Configured(c)
    ensures var e := ConnectStream(c, w);
      && 1 <= e.rounds <= c.retryRounds
      && e.slept == c.baseDelay * (Pow2(e.rounds - 1) - 1)
      && forall r :: 0 <= r < e.rounds - 1 ==> Verdict(c, w, r) == None
  {
    hide Verdict, GiveUp, Rounds, Upto;
    StartIsNothing(c, w);
    RoundsAreExplained(c, w, 0);
    SleptDoubles(c, w, ConnectStream(c, w).rounds);
  }

  lemma StartIsNothing(c: Config, w: World)
    ensures Upto(c, w, 0) == NOTHING
  {
  }

  /** The call reports a cancellation exactly when the last check it made of the token saw one. */
  lemma CancellationWins(c: Config, w: World)
    ensures var e := ConnectStream(c, w);
      e.result == Err(Stopped(Cancelled)) <==> CancelledBy(w, e.lastCheck)
  {
    hide ConnectOnce, Rounds, Upto;
    StartIsNothing(c, w);
    RoundsAreExplained(c, w, 0);
    var e := ConnectStream(c, w);
    if e.rounds > 0 {
      RoundIsHonest(c, w, e.rounds - 1);
    }
  }

  /** A cancellation that is there when a round ends is what the call reports. */
  lemma CancelledAfterRound(c: Config, w: World, round: nat)
    requires round < ConnectStream(c, w).rounds && CancelledBy(w, Tick(round, AfterRound))
    ensures ConnectStream(c, w).result == Err(Stopped(Cancelled))
  {
    hide ConnectOnce, Rounds, Upto;
    StartIsNothing(c, w);
    RoundsAreExplained(c, w, 0);
    CancellationWins(c, w);
  }

  /**
    Only an Atmos request can end in a missing rendition; a selected stream was offered in the last
    round that ran and is acceptable; an Atmos request never contacts the primary mirror.
  */
  lemma OutcomeIsHonest(c: Config, w: World)
    ensures var e := ConnectStream(c, w);
      && (e.result == Ok(Missing) ==> c.preference == Atmos)
      && (e.result.Ok? && e.result.value.Selected? ==>
            var s := e.result.value.stream;
            e.rounds > 0 && OfferedIn(w, e.rounds - 1, s) && (c.preference == Atmos ==> IsEc3(s)))
      && (c.preference == Atmos ==> forall contact :: contact in e.contacts ==> !contact.Primary?)
  {
    hide ConnectOnce, Rounds, Upto, IsEc3, OfferedIn;
    StartIsNothing(c, w);
    RoundsAreExplained(c, w, 0);
    var e := ConnectStream(c, w);
    if e.rounds > 0 {
      RoundIsHonest(c, w, e.rounds - 1);
    }
    if c.preference == Atmos {
      AtmosAvoidsPrimary(c, w, e.rounds);
    }
  }

  lemma {:induction false} AtmosAvoidsPrimary(c: Config, w: World, n: nat)
    requires c.preference == Atmos
    ensures forall contact :: contact in Upto(c, w, n).contacts ==> !contact.Primary?
  {
    hide ConnectOnce;
    if n > 0 {
      AtmosAvoidsPrimary(c, w, n - 1);
      RoundIsHonest(c, w, n - 1);
    }
  }

  /** The messages of all rounds, in order. */
  function AllErrors(c: Config, w: World, n: nat): seq<string> {
    if n == 0 then [] else AllErrors(c, w, n - 1) + ConnectOnce(c, w, n - 1).errors
  }

  lemma {:induction false} UptoHasAllErrors(c: Config, w: World, n: nat)
    ensures Upto(c, w, n).errors == AllErrors(c, w, n)
  {
    hide ConnectOnce;
    if n > 0 {
      UptoHasAllErrors(c, w, n - 1);
    }
  }

  /**
    The call reports exhaustion exactly when no round found a verdict and no check up to the last
    saw a cancellation; it then lists every message of every round once, in order of first occurrence.
  */
  lemma ExhaustedIff(c: Config, w: World)
    requires Configured(c)
    ensures var e := ConnectStream(c, w);
      (e.result.Err? && e.result.error.Exhausted?) <==>
        (&& !CancelledBy(w, FinalTick(c))
         && forall r :: 0 <= r < c.retryRounds ==> ConnectOnce(c, w, r).attempt == NoSource)
    ensures var e := ConnectStream(c, w);
      (e.result.Err? && e.result.error.Exhausted?) ==>
        && e.rounds == c.retryRounds
        && e.result.error == Exhausted(CleanWrapper(c) == None, FirstOccurrences(AllErrors(c, w, c.retryRounds)))
        && e.slept == c.baseDelay * (Pow2(c.retryRounds - 1) - 1)
  {
    hide ConnectOnce, Rounds, Upto, AllErrors, CleanWrapper;
    StartIsNothing(c, w);
    RoundsAreExplained(c, w, 0);
    RoundsAreBounded(c, w);
    UptoHasAllErrors(c, w, c.retryRounds);
    var e := ConnectStream(c, w);
    if e.result.Err? && e.result.error.Exhausted? {
      forall r | 0 <= r < c.retryRounds ensures ConnectOnce(c, w, r).attempt == NoSource {
        assert Verdict(c, w, r) == None;
      }
    } else if !CancelledBy(w, FinalTick(c)) {
      assert ConnectOnce(c, w, e.rounds - 1).attempt != NoSource;
    }
  }

  // ----- From the answers of the sources to the outcome -----

  /** A stream the request can use. */
  predicate Serves(p: CodecPreference, a: Answer) {
    a.Served? && (p == Atmos ==> Lower(a.stream.codec) == "ec-3")
  }

  predicate IsOverLimit(a: Answer) {
    a.Failed? && a.error.LimitExceeded?
  }

  /** Neither a usable stream nor an oversized one. */
  predicate Fails(p: CodecPreference, a: Answer) {
    !Serves(p, a) && !IsOverLimit(a)
  }

  /** The primary mirror is not asked, or its failure does not stop the call. */
  predicate PrimaryFails(c: Config, r: Round) {
    c.primary == None || c.preference == Atmos || (r.primary.Failed? && !r.primary.error.LimitExceeded?)
  }

  /** The wrapper is not configured, or what it answers leaves the question open. */
  predicate WrapperFails(c: Config, r: Round) {
    || CleanWrapper(c) == None
    || (c.kind == Native && r.native.Refused? && !r.native.error.SourceOffline? && !r.native.error.Authentication?)
    || (c.kind == Endpoints && Fails(c.preference, r.candidates(0)) && Fails(c.preference, r.candidates(1))
        && (r.candidates(0).Failed? || r.candidates(1).Failed?))
  }

  predicate RoundFails(c: Config, r: Round) {
    PrimaryFails(c, r) && WrapperFails(c, r)
  }

  /** Both endpoints, asked in order; the second one only when the first one failed. */
  lemma CandidatesDecide(c: Config, w: World, round: nat, base: string)
    requires !CancelledBy(w, Tick(round, AfterLoop))
    ensures
      var first, second := w.rounds(round).candidates(0), w.rounds(round).candidates(1);
      var url, url' := base + "/api/stream/" + c.id, base + "/stream/" + c.id;
      var once := Candidates(c, w, round, base, 0, true, None);
      && (Serves(c.preference, first) ==> once.attempt == Accepted(first.stream))
      && (IsOverLimit(first) ==> once.attempt == Typed(LimitExceeded(512)))
      && (!Fails(c.preference, first) ==> once.contacts == [Candidate(url)])
      && (Fails(c.preference, first) ==>
            && once.contacts == [Candidate(url), Candidate(url')]
            && (Serves(c.preference, second) ==> once.attempt == Accepted(second.stream))
            && (IsOverLimit(second) ==> once.attempt == Typed(LimitExceeded(512)))
            && (Fails(c.preference, second) ==>
                  once.attempt == if first.Served? && second.Served? then RenditionAbsent else NoSource))
  {
    hide Render, ReasonText, IterationCancelled, CandidateFailure, CandidateCancelledBefore, CandidateCancelledAfter;
    hide Lower;
    var reason := Some(NonEc3StreamForAtmos);
    if c.preference == Atmos {
      SecondDecides(c, w, round, base, true, reason);
    }
    SecondDecides(c, w, round, base, false, None);
  }

  lemma SecondDecides(c: Config, w: World, round: nat, base: string, only: bool, reason: Option<Reason>)
    requires !CancelledBy(w, Tick(round, AfterLoop))
    requires only ==> reason == Some(NonEc3StreamForAtmos) && c.preference == Atmos
    ensures
      var second := w.rounds(round).candidates(1);
      var once := Candidates(c, w, round, base, 1, only, reason);
      && once.contacts == [Candidate(base + "/stream/" + c.id)]
      && (Serves(c.preference, second) ==> once.attempt == Accepted(second.stream))
      && (IsOverLimit(second) ==> once.attempt == Typed(LimitExceeded(512)))
      && (Fails(c.preference, second) ==>
            once.attempt == if only && second.Served? then RenditionAbsent else NoSource)
  {
    hide Render, ReasonText, IterationCancelled, CandidateFailure, CandidateCancelledBefore, CandidateCancelledAfter;
    hide Lower;
  }

  predicate Uncancelled(w: World, round: nat) {
    !CancelledBy(w, Tick(round, AfterRound))
  }

  /** In an uncancelled round nothing is decided exactly when every source failed. */
  lemma NoSourceIff(c: Config, w: World, round: nat)
    requires Uncancelled(w, round)
    ensures ConnectOnce(c, w, round).attempt == NoSource <==> RoundFails(c, w.rounds(round))
  {
    hide CleanWrapper, Candidates, ReasonText, PrimaryUrl, PrimaryFailure, NativeFailure, SkippedPrimary, Lower;
    var base := CleanWrapper(c);
    if base.Some? {
      CandidatesDecide(c, w, round, base.value);
    }
  }

  /** The loop gets to this round: every source failed in every earlier one, and nobody cancelled. */
  predicate Reaches(c: Config, w: World, round: nat) {
    round < c.retryRounds && Uncancelled(w, round) && forall j: nat :: j < round ==> RoundFails(c, w.rounds(j))
  }

  lemma {:induction false} RoundsReach(c: Config, w: World, from: nat, round: nat)
    requires from <= round && Reaches(c, w, round)
    ensures Rounds(c, w, from, Upto(c, w, from)) == Rounds(c, w, round, Upto(c, w, round))
    decreases round - from
  {
    hide ConnectOnce, RoundFails, GiveUp;
    if from < round {
      NoSourceIff(c, w, from);
      assert Verdict(c, w, from) == None;
      RoundsReach(c, w, from + 1, round);
    }
  }

  /** A round in which some source decides is the last one, and it gives the result. */
  lemma FirstAnswerDecides(c: Config, w: World, round: nat)
    requires Reaches(c, w, round) && !RoundFails(c, w.rounds(round))
    ensures var e, once := ConnectStream(c, w), ConnectOnce(c, w, round);
      && e.rounds == round + 1
      && e.contacts == Upto(c, w, round).contacts + once.contacts
      && (once.attempt.Accepted? ==> e.result == Ok(Selected(once.attempt.stream)))
      && (once.attempt == RenditionAbsent ==> e.result == Ok(Missing))
      && (once.attempt.Typed? ==> e.result == Err(Stopped(once.attempt.error)))
  {
    hide ConnectOnce, RoundFails, GiveUp;
    StartIsNothing(c, w);
    RoundsReach(c, w, 0, round);
    NoSourceIff(c, w, round);
    assert Verdict(c, w, round).Some?;
  }

  /**
    What the primary mirror serves is what the caller gets, in the first round in which a source decides;
    the wrapper is not contacted in that round. An oversized stream stops the call.
  */
  lemma PrimaryDecides(c: Config, w: World, round: nat)
    requires Reaches(c, w, round) && c.primary.Some? && c.preference != Atmos
    ensures var e, answer := ConnectStream(c, w), w.rounds(round).primary;
      && (answer.Served? ==> e.result == Ok(Selected(answer.stream)))
      && (answer.Failed? && answer.error.LimitExceeded? ==> e.result == Err(Stopped(LimitExceeded(512))))
      && (answer.Served? || answer.error.LimitExceeded? ==>
            && e.rounds == round + 1
            && e.contacts == Upto(c, w, round).contacts
                 + [Primary(WithoutSlashes(c.primary.value) + "/api/stream/" + c.id)])
  {
    hide CleanWrapper, ViaWrapper, Rounds, Upto, Lower;
    if !PrimaryFails(c, w.rounds(round)) {
      FirstAnswerDecides(c, w, round);
    }
  }

  /**
    The native wrapper after a primary mirror that did not decide: its stream is selected, unless an Atmos
    request gets another codec; an offline service or rejected credentials stop the call.
  */
  lemma NativeDecides(c: Config, w: World, round: nat)
    requires Reaches(c, w, round) && PrimaryFails(c, w.rounds(round))
    requires c.kind == Native && CleanWrapper(c).Some? && !WrapperFails(c, w.rounds(round))
    ensures var e, answer := ConnectStream(c, w), w.rounds(round).native;
      && e.rounds == round + 1
      && (answer.Source? ==>
            e.result == Ok(if c.preference == Atmos && Lower(answer.stream.codec) != "ec-3" then Missing
                           else Selected(answer.stream)))
      && (answer.Absent? && c.preference == Atmos ==> e.result == Ok(Missing))
      && (answer.Absent? && c.preference != Atmos ==>
            var text := ReasonText(answer.reason);
            e.result == Err(Stopped(if answer.reason == M3u8NotFound then Permanent(text) else Message(text))))
      && (answer.Refused? ==> e.result == Err(Stopped(answer.error)))
      && Wrapper(CleanWrapper(c).value) in e.contacts
  {
    hide CleanWrapper, ConnectOnce, ConnectStream, Upto, Lower, ReasonText;
    FirstAnswerDecides(c, w, round);
    NativeAnswers(c, w, round);
  }

  lemma NativeAnswers(c: Config, w: World, round: nat)
    requires PrimaryFails(c, w.rounds(round)) && c.kind == Native && CleanWrapper(c).Some?
    ensures var once, answer := ConnectOnce(c, w, round), w.rounds(round).native;
      && Wrapper(CleanWrapper(c).value) in once.contacts
      && (answer.Source? ==>
            once.attempt == if c.preference == Atmos && Lower(answer.stream.codec) != "ec-3" then RenditionAbsent
                            else Accepted(answer.stream))
      && (answer.Absent? && c.preference == Atmos ==> once.attempt == RenditionAbsent)
      && (answer.Absent? && c.preference != Atmos ==>
            var text := ReasonText(answer.reason);
            once.attempt == Typed(if answer.reason == M3u8NotFound then Permanent(text) else Message(text)))
      && (answer.Refused? && (answer.error.SourceOffline? || answer.error.Authentication?) ==>
            once.attempt == Typed(answer.error))
  {
    hide CleanWrapper, Lower, PrimaryUrl, PrimaryFailure, NativeFailure, SkippedPrimary, ReasonText;
  }

  /**
    The candidate endpoints after a primary mirror that did not decide: the first stream the request can
    use is selected, an oversized one stops the call, and only two unusable streams mean a missing rendition.
  */
  lemma CandidatesAnswer(c: Config, w: World, round: nat)
    requires Reaches(c, w, round) && PrimaryFails(c, w.rounds(round))
    requires c.kind == Endpoints && CleanWrapper(c).Some? && !WrapperFails(c, w.rounds(round))
    ensures
      var first, second := w.rounds(round).candidates(0), w.rounds(round).candidates(1);
      var deciding := if Fails(c.preference, first) then second else first;
      var e := ConnectStream(c, w);
      && e.rounds == round + 1
      && (Serves(c.preference, deciding) ==> e.result == Ok(Selected(deciding.stream)))
      && (IsOverLimit(deciding) ==> e.result == Err(Stopped(LimitExceeded(512))))
      && (Fails(c.preference, deciding) ==> e.result == Ok(Missing))
      && Candidate(CleanWrapper(c).value + "/api/stream/" + c.id) in e.contacts
      && (Fails(c.preference, first) ==> Candidate(CleanWrapper(c).value + "/stream/" + c.id) in e.contacts)
  {
    hide CleanWrapper, Rounds, Upto, Lower, PrimaryUrl, PrimaryFailure, SkippedPrimary, Candidates;
    FirstAnswerDecides(c, w, round);
    CandidatesDecide(c, w, round, CleanWrapper(c).value);
  }

  /** The call gives up exactly when nobody cancelled and in every round every source failed. */
  lemma GivesUpIff(c: Config, w: World)
    requires Configured(c)
    ensures var e := ConnectStream(c, w);
      (e.result.Err? && e.result.error.Exhausted?) <==>
        !CancelledBy(w, FinalTick(c)) && forall r: nat :: r < c.retryRounds ==> RoundFails(c, w.rounds(r))
  {
    hide ConnectStream, ConnectOnce, RoundFails;
    ExhaustedIff(c, w);
    if !CancelledBy(w, FinalTick(c)) {
      forall r: nat | r < c.retryRounds
        ensures ConnectOnce(c, w, r).attempt == NoSource <==> RoundFails(c, w.rounds(r))
      {
        NoSourceIff(c, w, r);
      }
    }
  }
}

/** Bounded, filesystem-safe file names. */
module Filename {
  import opened Sequences
  import opened Text

  const MAX_FILENAME_BYTES: nat := 255
  const MAX_ARCHIVE_FILENAME_BYTES: nat := 245
  const MAX_ZIP_ENTRY_FILENAME_BYTES: nat := 240

  predicate IsForbidden(c: char) {
    c == '<' || c == '>' || c == ':' || c == '"' || c == '/' || c == '\\' || c == '|' || c == '?' || c == '*' ||
    c as int < 0x20 || 0x7F <= c as int <= 0x9F
  }

  predicate Clean(s: string) {
    forall i :: 0 <= i < |s| ==> !IsForbidden(s[i])
  }

  function SafeChar(c: char): char {
    if IsForbidden(c) then '_' else c
  }

  function Sanitize(s: string): (r: string)
    ensures |r| == |s| && Clean(r)
    ensures forall i :: 0 <= i < |s| && !IsForbidden(s[i]) ==> r[i] == s[i]
  {
    Map(SafeChar, s)
  }

  lemma CleanConcat(a: string, b: string)
    ensures Clean(a + b) <==> Clean(a) && Clean(b)
  {
    if Clean(a + b) {
      forall i | 0 <= i < |a| ensures !IsForbidden(a[i]) { assert a[i] == (a + b)[i]; }
      forall i | 0 <= i < |b| ensures !IsForbidden(b[i]) { assert b[i] == (a + b)[|a| + i]; }
    }
  }

  predicate Plain(s: string) {
    Clean(s) && Ascii(s)
  }

  lemma PlainConcat(a: string, b: string)
    requires Plain(a) && Plain(b)
    ensures Plain(a + b)
  {
    CleanConcat(a, b);
  }

  lemma TrimKeepsTail(s: string, k: nat, tail: string)
    requires EndsWith(s, tail) && tail != [] && !IsWhitespace(tail[|tail| - 1])
    requires k + |tail| < |s| && !IsWhitespace(s[k])
    ensures EndsWith(Trim(s), tail)
  {
    hide IsWhitespace, TrimStart;
    var start := TrimStart(s);
    var d := |s| - |start|;
    assert d <= k;
    assert start == s[d..];
    assert start[|start| - |tail|..] == tail;
    assert start[|start| - 1] == tail[|tail| - 1];
    assert TrimEnd(start) == start;
  }

  /** A clean tail behind a character that is no white space survives sanitizing and trimming. */
  lemma TailSurvives(front: string, tail: string, k: nat)
    requires k < |front| && front[k] == '-'
    requires tail != [] && Clean(tail) && !IsWhitespace(tail[|tail| - 1])
    ensures EndsWith(Trim(Sanitize(front + tail)), tail)
  {
    hide Trim, Map;
    var s := Sanitize(front + tail);
    forall i | 0 <= i < |tail| ensures s[|front| + i] == tail[i] {
      assert (front + tail)[|front| + i] == tail[i];
    }
    assert s[|front|..] == tail;
    assert (front + tail)[k] == '-' && s[k] == '-';
    TrimKeepsTail(s, k, tail);
  }

  // ----- Truncation at a character boundary -----

  function LongestPrefix(s: string, maxBytes: nat): (p: string)
    ensures p <= s && ByteLen(p) <= maxBytes
  {
    if s == [] || CharBytes(s[0]) > maxBytes then []
    else [s[0]] + LongestPrefix(s[1..], maxBytes - CharBytes(s[0]))
  }

  /** No longer prefix of whole characters fits. */
  lemma {:induction false} LongestPrefixIsLongest(s: string, maxBytes: nat, k: nat)
    requires k <= |s| && ByteLen(s[..k]) <= maxBytes
    ensures k <= |LongestPrefix(s, maxBytes)|
  {
    if k > 0 {
      assert s[..k][1..] == s[1..][..k - 1];
      LongestPrefixIsLongest(s[1..], maxBytes - CharBytes(s[0]), k - 1);
    }
  }

  lemma LongestPrefixWhole(s: string, maxBytes: nat)
    requires ByteLen(s) <= maxBytes
    ensures LongestPrefix(s, maxBytes) == s
  {
    assert s[..|s|] == s;
    LongestPrefixIsLongest(s, maxBytes, |s|);
  }

  /** `str::is_char_boundary` on the bytes of a string. */
  predicate IsBoundary(bytes: seq<byte>, i: nat) {
    i == 0 || i == |bytes| || (i < |bytes| && !IsContinuation(bytes[i]))
  }

  /** The end of the longest prefix is a boundary, and the only one from there up to the limit. */
  lemma {:induction false} LastBoundary(s: string, maxBytes: nat, i: nat)
    requires ByteLen(LongestPrefix(s, maxBytes)) <= i <= maxBytes && i <= ByteLen(s)
    ensures IsBoundary(Encode(s), i) <==> i == ByteLen(LongestPrefix(s, maxBytes))
  {
    hide EncodeChar, CharBytes;
    if s != [] {
      var n := CharBytes(s[0]);
      if n <= maxBytes {
        LastBoundary(s[1..], maxBytes - n, i - n);
        if n < i < |Encode(s)| {
          assert Encode(s)[i] == Encode(s[1..])[i - n];
        } else if i == n < |Encode(s)| {
          assert Encode(s)[n] == EncodeChar(s[1])[0];
        }
      } else if i > 0 {
        assert Encode(s)[i] == EncodeChar(s[0])[i];
      }
    }
  }

  lemma {:induction false} EncodePrefix(s: string, p: string)
    requires p <= s
    ensures ByteLen(p) <= ByteLen(s) && Encode(p) == Encode(s)[..ByteLen(p)]
  {
    if p != [] {
      assert p[1..] <= s[1..];
      EncodePrefix(s[1..], p[1..]);
      assert Encode(s)[..ByteLen(p)] == EncodeChar(s[0]) + Encode(s[1..])[..ByteLen(p[1..])];
    }
  }

  /** The byte loop: step back from the limit until a boundary is met. */
  method BoundUtf8Prefix(bytes: seq<byte>, ghost text: string, maxBytes: nat) returns (prefix: seq<byte>)
    requires bytes == Encode(text)
    ensures prefix == Encode(LongestPrefix(text, maxBytes))
  {
    if |bytes| <= maxBytes {
      LongestPrefixWhole(text, maxBytes);
      return bytes;
    }
    ghost var target := ByteLen(LongestPrefix(text, maxBytes));
    EncodePrefix(text, LongestPrefix(text, maxBytes));
    LastBoundary(text, maxBytes, maxBytes);
    var end := maxBytes;
    while end > 0 && !IsBoundary(bytes, end)
      invariant target <= end <= maxBytes
      invariant IsBoundary(bytes, end) <==> end == target
    {
      end := end - 1;
      LastBoundary(text, maxBytes, end);
    }
    prefix := bytes[..end];
  }

  // ----- Bounded names -----

  predicate DotName(s: string) {
    s == "." || s == ".."
  }

  function Candidate(trimmed: string): string {
    if trimmed == "" || DotName(trimmed) then "track" else trimmed
  }

  function Bounded(candidate: string, suffix: Option<string>, max: nat): string {
    if suffix.Some? && EndsWith(candidate, suffix.value) && ByteLen(suffix.value) < max then
      LongestPrefix(candidate[..|candidate| - |suffix.value|], max - ByteLen(suffix.value)) + suffix.value
    else
      LongestPrefix(candidate, max)
  }

  /** What happens to the name once it is sanitized and trimmed. */
  function BoundTrimmed(trimmed: string, suffix: Option<string>, max: nat): string {
    var bounded := Bounded(Candidate(trimmed), suffix, max);
    if bounded == "" || DotName(bounded) then "track" else bounded
  }

  function SanitizeAndBound(name: string, suffix: Option<string>, max: nat): string {
    BoundTrimmed(Trim(Sanitize(name)), suffix, max)
  }

  predicate Safe(name: string, max: nat) {
    name != "" && !DotName(name) && Clean(name) && ByteLen(name) <= max
  }

  lemma TrackIsSafe(max: nat)
    requires max >= 5
    ensures Safe("track", max)
  {
    AsciiByteLen("track");
  }

  lemma TrimIsClean(s: string)
    requires Clean(s)
    ensures Clean(Trim(s))
  {
    hide IsForbidden, IsWhitespace, TrimStart, TrimEnd;
    var start := TrimStart(s);
    var r := Trim(s);
    forall i | 0 <= i < |r| ensures !IsForbidden(r[i]) {
      assert r[i] == start[i] == s[|s| - |start| + i];
    }
  }

  lemma BoundedIsClean(candidate: string, suffix: Option<string>, max: nat)
    requires Clean(candidate)
    ensures Clean(Bounded(candidate, suffix, max)) && ByteLen(Bounded(candidate, suffix, max)) <= max
  {
    if suffix.Some? && EndsWith(candidate, suffix.value) && ByteLen(suffix.value) < max {
      var kept := LongestPrefix(candidate[..|candidate| - |suffix.value|], max - ByteLen(suffix.value));
      ByteLenConcat(kept, suffix.value);
      forall i | 0 <= i < |suffix.value| ensures !IsForbidden(suffix.value[i]) {
        assert suffix.value[i] == candidate[|candidate| - |suffix.value| + i];
      }
    }
  }

  lemma TrimmedNameIsSafe(trimmed: string, suffix: Option<string>, max: nat)
    requires max >= 5 && Clean(trimmed)
    ensures Safe(BoundTrimmed(trimmed, suffix, max), max)
  {
    TrackIsSafe(max);
    BoundedIsClean(Candidate(trimmed), suffix, max);
  }

  /** Every produced name is non-empty, within the byte limit, free of forbidden characters, and no dot name. */
  lemma NameIsSafe(name: string, suffix: Option<string>, max: nat)
    requires max >= 5
    ensures Safe(SanitizeAndBound(name, suffix, max), max)
  {
    TrimIsClean(Sanitize(name));
    TrimmedNameIsSafe(Trim(Sanitize(name)), suffix, max);
  }

  lemma DotNameTail(s: string, suffix: string)
    requires DotName(s) && EndsWith(s, suffix)
    ensures suffix == "" || DotName(suffix)
  {
  }

  /** A suffix that ends the trimmed name and leaves room is kept, unless it is made of one or two dots. */
  lemma SuffixIsKept(trimmed: string, suffix: string, max: nat)
    requires EndsWith(trimmed, suffix) && ByteLen(suffix) < max && suffix != "" && !DotName(suffix)
    ensures EndsWith(BoundTrimmed(trimmed, Some(suffix), max), suffix)
    ensures BoundTrimmed(trimmed, Some(suffix), max)
         == LongestPrefix(trimmed[..|trimmed| - |suffix|], max - ByteLen(suffix)) + suffix
  {
    hide LongestPrefix, ByteLen;
    if DotName(trimmed) {
      DotNameTail(trimmed, suffix);
    }
    var bounded := Bounded(trimmed, Some(suffix), max);
    assert bounded[|bounded| - |suffix|..] == suffix;
    if DotName(bounded) {
      DotNameTail(bounded, suffix);
    }
  }

  /**
    With five bytes in all there is one more way to lose a dot suffix: a first character of four
    bytes before two dots, or a dot and then such a character before one dot.
  */
  predicate Crowded(prefix: string, suffix: string)
    requires prefix != ""
  {
    if suffix == ".." then CharBytes(prefix[0]) == 4
    else prefix[0] == '.' && |prefix| >= 2 && CharBytes(prefix[1]) == 4
  }

  /** A suffix of one or two dots is kept unless the name is itself a dot name or the limit leaves no room. */
  lemma DotSuffixIsKeptIff(trimmed: string, suffix: string, max: nat)
    requires max >= 5 && DotName(suffix) && EndsWith(trimmed, suffix)
    ensures EndsWith(BoundTrimmed(trimmed, Some(suffix), max), suffix) <==>
      !DotName(trimmed) && !(max == 5 && Crowded(trimmed[..|trimmed| - |suffix|], suffix))
  {
    hide LongestPrefix, ByteLen, Crowded, BoundTrimmed;
    DotSuffixBytes(suffix);
    TrackHasNoDot(trimmed, suffix, max);
    if !DotName(trimmed) {
      var prefix := trimmed[..|trimmed| - |suffix|];
      NonEmptyPrefix(trimmed, suffix);
      DotPrefix(prefix, suffix, max - |suffix|);
      KeptUnlessDotName(trimmed, suffix, max);
    }
  }

  /** A name that is the dot suffix itself loses it: the result is the fallback name. */
  lemma DotSuffixIsLost(max: nat)
    requires max >= 5
    ensures SanitizeAndBound(".", Some("."), max) == "track" && !EndsWith("track", ".")
  {
    assert !IsForbidden('.') && !IsWhitespace('.');
    assert Sanitize(".") == ".";
    TrimKeeps(".");
    TrackHasNoDot(".", ".", max);
  }

  /** A long character before two dots loses them at a limit of five bytes. */
  lemma DotSuffixIsCrowdedOut()
    ensures BoundTrimmed(['\U{1F3B5}'] + "..", Some(".."), 5) == "track"
  {
    var trimmed := ['\U{1F3B5}'] + "..";
    assert trimmed[..1] == ['\U{1F3B5}'] && trimmed[|trimmed| - 2..] == "..";
    DotSuffixBytes("..");
    assert LongestPrefix(trimmed[..1], 3) == "";
    assert LongestPrefix(trimmed[..1], 3) + ".." == "..";
  }

  lemma NonEmptyPrefix(trimmed: string, suffix: string)
    requires EndsWith(trimmed, suffix) && DotName(suffix) && !DotName(trimmed)
    ensures var prefix := trimmed[..|trimmed| - |suffix|];
      prefix != "" && prefix + suffix == trimmed
  {
    assert "" + suffix == suffix;
  }

  lemma KeptUnlessDotName(trimmed: string, suffix: string, max: nat)
    requires EndsWith(trimmed, suffix) && suffix != "" && ByteLen(suffix) < max
    requires !DotName(trimmed) && !EndsWith("track", suffix)
    ensures EndsWith(BoundTrimmed(trimmed, Some(suffix), max), suffix) <==>
      !DotName(LongestPrefix(trimmed[..|trimmed| - |suffix|], max - ByteLen(suffix)) + suffix)
  {
    hide LongestPrefix, ByteLen, DotName;
    var bounded := LongestPrefix(trimmed[..|trimmed| - |suffix|], max - ByteLen(suffix)) + suffix;
    assert Candidate(trimmed) == trimmed;
    assert Bounded(trimmed, Some(suffix), max) == bounded;
    EndsWithItsTail(bounded[..|bounded| - |suffix|], suffix);
    hide EndsWith, Bounded, Candidate;
    assert bounded != "";
  }

  lemma EndsWithItsTail(front: string, tail: string)
    ensures EndsWith(front + tail, tail)
  {
  }

  lemma DotSuffixBytes(suffix: string)
    requires DotName(suffix)
    ensures 1 <= ByteLen(suffix) == |suffix| <= 2
  {
    AsciiByteLen(suffix);
  }

  lemma TrackHasNoDot(trimmed: string, suffix: string, max: nat)
    requires max >= 5 && DotName(suffix)
    ensures !EndsWith("track", suffix)
    ensures DotName(trimmed) ==> BoundTrimmed(trimmed, Some(suffix), max) == "track"
  {
    TrackIsSafe(max);
    LongestPrefixWhole("track", max);
    assert "track"[4] == 'k';
  }

  lemma DotPrefix(prefix: string, suffix: string, room: nat)
    requires DotName(suffix) && room + |suffix| >= 5 && prefix != "" && !DotName(prefix + suffix)
    ensures DotName(LongestPrefix(prefix, room) + suffix) <==> room + |suffix| == 5 && Crowded(prefix, suffix)
  {
    var kept := LongestPrefix(prefix, room);
    assert ByteLen(prefix[..1]) == CharBytes(prefix[0]);
    if suffix == ".." {
      LongestPrefixIsLongest(prefix, room, if CharBytes(prefix[0]) <= room then 1 else 0);
    } else if |prefix| == 1 {
      LongestPrefixIsLongest(prefix, room, 1);
    } else {
      TwoCharacters(prefix);
      LongestPrefixIsLongest(prefix, room, 1);
      LongestPrefixIsLongest(prefix, room, if ByteLen(prefix[..2]) <= room then 2 else 0);
      DotNameIff(kept);
      if |kept| >= 2 {
        BytesOfLonger(kept, prefix);
      }
    }
  }

  lemma DotNameIff(kept: string)
    ensures DotName(kept + ".") <==> kept == "" || kept == "."
  {
    if DotName(kept + ".") {
      assert kept == (kept + ".")[..|kept|];
    }
  }

  lemma TwoCharacters(s: string)
    requires |s| >= 2
    ensures ByteLen(s[..2]) == CharBytes(s[0]) + CharBytes(s[1])
  {
    var two := s[..2];
    assert two[1..] == [s[1]] && [s[1]][1..] == [];
    assert ByteLen(two) == CharBytes(s[0]) + ByteLen([s[1]]);
  }

  lemma BytesOfLonger(kept: string, prefix: string)
    requires kept <= prefix && |kept| >= 2
    ensures ByteLen(kept) >= CharBytes(prefix[0]) + CharBytes(prefix[1])
  {
    TwoCharacters(kept);
    assert kept[0] == prefix[0] && kept[1] == prefix[1];
    ByteLenConcat(kept[..2], kept[2..]);
    assert kept == kept[..2] + kept[2..];
  }

  /** A name that is safe and has no white space around it is left alone, whatever suffix is asked for. */
  lemma SafeNameIsKept(name: string, suffix: Option<string>, max: nat)
    requires Safe(name, max) && !IsWhitespace(name[0]) && !IsWhitespace(name[|name| - 1])
    ensures SanitizeAndBound(name, suffix, max) == name
  {
    hide IsForbidden, IsWhitespace, LongestPrefix, ByteLen, Trim;
    assert Sanitize(name) == name;
    TrimKeeps(name);
    if suffix.Some? && EndsWith(name, suffix.value) && ByteLen(suffix.value) < max {
      BoundedWithSuffix(name, suffix.value, max);
    } else {
      LongestPrefixWhole(name, max);
    }
  }

  lemma BoundedWithSuffix(name: string, suffix: string, max: nat)
    requires EndsWith(name, suffix) && ByteLen(name) <= max && ByteLen(suffix) < max
    ensures LongestPrefix(name[..|name| - |suffix|], max - ByteLen(suffix)) + suffix == name
  {
    var prefix := name[..|name| - |suffix|];
    assert name == prefix + suffix;
    ByteLenConcat(prefix, suffix);
    LongestPrefixWhole(prefix, max - ByteLen(suffix));
  }

  lemma {:induction false} SanitizedIsNoLonger(s: string)
    ensures ByteLen(Sanitize(s)) <= ByteLen(s)
  {
    if s != [] {
      SanitizedIsNoLonger(s[1..]);
      assert Sanitize(s)[1..] == Sanitize(s[1..]);
      assert CharBytes(SafeChar(s[0])) <= CharBytes(s[0]);
    }
  }

  /** A name that fits is only cleaned: control characters and nine others become underscores. */
  lemma ShortNameIsCleaned(name: string, suffix: Option<string>, max: nat)
    requires name != "" && !DotName(name) && ByteLen(name) <= max
    requires !IsWhitespace(Sanitize(name)[0]) && !IsWhitespace(Sanitize(name)[|name| - 1])
    ensures var r := SanitizeAndBound(name, suffix, max);
      && |r| == |name|
      && forall i :: 0 <= i < |name| ==>
           r[i] == if name[i] in "<>:\"/\\|?*" || name[i] as int < 32 || 127 <= name[i] as int < 160 then '_'
                   else name[i]
  {
    hide IsWhitespace, ByteLen, SanitizeAndBound;
    var clean := Sanitize(name);
    SanitizedIsNoLonger(name);
    SafeNameIsKept(clean, suffix, max);
    assert Sanitize(clean) == clean;
    SanitizedTwice(name, suffix, max);
  }

  lemma SanitizedTwice(name: string, suffix: Option<string>, max: nat)
    requires Sanitize(Sanitize(name)) == Sanitize(name)
    ensures SanitizeAndBound(Sanitize(name), suffix, max) == SanitizeAndBound(name, suffix, max)
  {
  }

  lemma {:induction false} SpacesAreTrimmed(s: string)
    requires forall i :: 0 <= i < |s| ==> s[i] == ' '
    ensures Trim(s) == ""
  {
    if s != "" {
      SpacesAreTrimmed(s[1..]);
    }
  }

  lemma FallbackIsTrack(trimmed: string, suffix: Option<string>, max: nat)
    requires max >= 5 && (trimmed == "" || DotName(trimmed))
    ensures BoundTrimmed(trimmed, suffix, max) == "track"
  {
    hide LongestPrefix, ByteLen, EndsWith;
    TrackIsSafe(max);
    LongestPrefixWhole("track", max);
    if suffix.Some? && EndsWith("track", suffix.value) && ByteLen(suffix.value) < max {
      BoundedWithSuffix("track", suffix.value, max);
    }
  }

  /** Nothing but spaces, or a dot name, is replaced by the fallback name. */
  lemma EmptyNameIsTrack(name: string, suffix: Option<string>, max: nat)
    requires max >= 5 && (DotName(name) || forall i :: 0 <= i < |name| ==> name[i] == ' ')
    ensures SanitizeAndBound(name, suffix, max) == "track"
  {
    hide BoundTrimmed, Trim;
    assert Sanitize(name) == name;
    if DotName(name) {
      assert !IsWhitespace('.');
      TrimKeeps(name);
    } else {
      SpacesAreTrimmed(name);
    }
    FallbackIsTrack(Trim(name), suffix, max);
  }

  // ----- Collision ids -----

  /** The index of the last dot, or the length when there is none. */
  function LastDot(s: string): (i: nat)
    ensures i <= |s|
    ensures i < |s| ==> s[i] == '.'
    ensures forall k :: i < k < |s| ==> s[k] != '.'
    ensures i == |s| ==> forall k :: 0 <= k < |s| ==> s[k] != '.'
  {
    if s == [] then 0
    else if s[|s| - 1] == '.' then |s| - 1
    else
      var i := LastDot(s[..|s| - 1]);
      if i == |s| - 1 then |s| else i
  }

  function ExtensionStart(s: string): (i: nat)
    ensures i <= |s|
  {
    var dot := LastDot(s);
    if 0 < dot then dot else |s|
  }

  function WithCollisionId(name: string, collisionId: string, max: nat): string {
    var at := ExtensionStart(name);
    AddCollisionId(name[..at], Sanitize(collisionId), name[at..], max)
  }

  function AddCollisionId(stem: string, id: string, ext: string, max: nat): string {
    var suffix := ['_'] + id + ext;
    if ByteLen(suffix) >= max then SanitizeAndBound(stem + suffix, Some(ext), max)
    else LongestPrefix(stem, max - ByteLen(suffix)) + suffix
  }

  lemma DigitsAreClean(s: string)
    requires AllDigits(s)
    ensures Clean(s) && Sanitize(s) == s && ByteLen(s) == |s|
  {
    forall i | 0 <= i < |s| ensures IsDigit(s[i]) {
      assert s[i] in s;
    }
    AsciiByteLen(s);
  }

  /** A name with a collision id is as safe as the name it came from. */
  lemma CollisionNameIsSafe(name: string, collisionId: string, max: nat)
    requires max >= 5 && Clean(name)
    ensures Safe(WithCollisionId(name, collisionId, max), max)
  {
    var at := ExtensionStart(name);
    AddedIdIsSafe(name[..at], Sanitize(collisionId), name[at..], max);
  }

  lemma AddedIdIsSafe(stem: string, id: string, ext: string, max: nat)
    requires max >= 5 && Clean(stem) && Clean(id) && Clean(ext)
    ensures Safe(AddCollisionId(stem, id, ext, max), max)
  {
    var suffix := ['_'] + id + ext;
    if ByteLen(suffix) >= max {
      NameIsSafe(stem + suffix, Some(ext), max);
    } else {
      var prefix := LongestPrefix(stem, max - ByteLen(suffix));
      ByteLenConcat(prefix, suffix);
      CleanConcat(['_'], id);
      CleanConcat(['_'] + id, ext);
      CleanConcat(prefix, suffix);
      assert (prefix + suffix)[|prefix|] == '_';
    }
  }

  lemma DecimalIsPlain(n: nat)
    ensures Plain(Decimal(n))
  {
    DigitsAreClean(Decimal(n));
    forall i | 0 <= i < |Decimal(n)| ensures IsDigit(Decimal(n)[i]) {
      assert Decimal(n)[i] in Decimal(n);
    }
  }

  /** The name with decimal id `id`, when the extension leaves room for it. */
  function Numbered(stem: string, id: nat, ext: string, max: nat): string
    requires 1 + |Decimal(id)| + ByteLen(ext) < max
  {
    LongestPrefix(stem, max - (1 + |Decimal(id)| + ByteLen(ext))) + ['_'] + Decimal(id) + ext
  }

  lemma CollisionSuffixLength(id: nat, ext: string)
    ensures ByteLen(['_'] + Decimal(id) + ext) == 1 + |Decimal(id)| + ByteLen(ext)
  {
    var digits := Decimal(id);
    DigitsAreClean(digits);
    ByteLenConcat(['_'] + digits, ext);
    ByteLenConcat(['_'], digits);
    assert ['_'][1..] == [];
  }

  lemma CollisionShape(stem: string, id: nat, ext: string, max: nat)
    requires 1 + |Decimal(id)| + ByteLen(ext) < max
    ensures AddCollisionId(stem, Decimal(id), ext, max) == Numbered(stem, id, ext, max)
  {
    hide Decimal, LongestPrefix, ByteLen, SanitizeAndBound;
    CollisionSuffixLength(id, ext);
    Reassociate(LongestPrefix(stem, max - (1 + |Decimal(id)| + ByteLen(ext))), ['_'], Decimal(id), ext);
  }

  lemma Reassociate(a: string, b: string, c: string, d: string)
    ensures a + (b + c + d) == a + b + c + d
  {
  }

  lemma NumberedIsInjective(stem: string, m: nat, n: nat, ext: string, max: nat)
    requires 1 + |Decimal(m)| + ByteLen(ext) < max && 1 + |Decimal(n)| + ByteLen(ext) < max
    requires Numbered(stem, m, ext, max) == Numbered(stem, n, ext, max)
    ensures m == n
  {
    var p := LongestPrefix(stem, max - (1 + |Decimal(m)| + ByteLen(ext)));
    var q := LongestPrefix(stem, max - (1 + |Decimal(n)| + ByteLen(ext)));
    DecimalBetween(p, q, ['_'], m, n, ext);
  }

  /** Two decimal ids give the same name only when they are the same id, if the extension leaves room for them. */
  lemma CollisionNamesAreInjective(name: string, m: nat, n: nat, max: nat)
    requires 1 + |Decimal(m)| + ByteLen(name[ExtensionStart(name)..]) < max
    requires 1 + |Decimal(n)| + ByteLen(name[ExtensionStart(name)..]) < max
    requires WithCollisionId(name, Decimal(m), max) == WithCollisionId(name, Decimal(n), max)
    ensures m == n
  {
    var stem, ext := name[..ExtensionStart(name)], name[ExtensionStart(name)..];
    DigitsAreClean(Decimal(m));
    DigitsAreClean(Decimal(n));
    CollisionShape(stem, m, ext, max);
    CollisionShape(stem, n, ext, max);
    NumberedIsInjective(stem, m, n, ext, max);
  }

  /** The id goes before the extension, which starts at the last dot unless that is the first character. */
  lemma IdGoesBeforeTheExtension(stem: string, ext: string, id: nat, max: nat)
    requires stem != "" && (ext == "" || ext[0] == '.') && forall i :: 0 < i < |ext| ==> ext[i] != '.'
    requires ext == "" ==> forall i :: 0 < i < |stem| ==> stem[i] != '.'
    requires ByteLen(stem) + 1 + |Decimal(id)| + ByteLen(ext) <= max
    ensures WithCollisionId(stem + ext, Decimal(id), max) == stem + "_" + Decimal(id) + ext
  {
    hide *;
    ExtensionStartsAt(stem, ext);
    IdAtTheExtension(stem, ext, id, max);
    ByteLenIsPositive(stem);
    CollisionShape(stem, id, ext, max);
    NumberedWhole(stem, id, ext, max);
  }

  lemma IdAtTheExtension(stem: string, ext: string, id: nat, max: nat)
    requires ExtensionStart(stem + ext) == |stem|
    ensures WithCollisionId(stem + ext, Decimal(id), max) == AddCollisionId(stem, Decimal(id), ext, max)
  {
    hide AddCollisionId, Decimal, ExtensionStart;
    assert (stem + ext)[..|stem|] == stem && (stem + ext)[|stem|..] == ext;
    DigitsAreClean(Decimal(id));
  }

  lemma NumberedWhole(stem: string, id: nat, ext: string, max: nat)
    requires 1 + |Decimal(id)| + ByteLen(ext) < max && ByteLen(stem) <= max - (1 + |Decimal(id)| + ByteLen(ext))
    ensures Numbered(stem, id, ext, max) == stem + "_" + Decimal(id) + ext
  {
    hide Decimal, LongestPrefix, ByteLen;
    LongestPrefixWhole(stem, max - (1 + |Decimal(id)| + ByteLen(ext)));
  }

  lemma ByteLenIsPositive(s: string)
    requires s != ""
    ensures ByteLen(s) >= 1
  {
  }

  lemma ExtensionStartsAt(stem: string, ext: string)
    requires stem != "" && (ext == "" || ext[0] == '.') && forall i :: 0 < i < |ext| ==> ext[i] != '.'
    requires ext == "" ==> forall i :: 0 < i < |stem| ==> stem[i] != '.'
    ensures ExtensionStart(stem + ext) == |stem|
  {
    hide LastDot;
    var s := stem + ext;
    var dot := LastDot(s);
    if ext == "" {
      assert s == stem;
    } else {
      assert s[|stem|] == '.';
      assert forall i :: |stem| < i < |s| ==> s[i] == ext[i - |stem|];
    }
  }

  // ----- Archive names -----

  const PARTIAL_SUFFIX := " [Partial]"

  function IntoPartial(name: string): string {
    if EndsWith(name, ".zip") then name[..|name| - 4] + PARTIAL_SUFFIX + ".zip" else name + PARTIAL_SUFFIX
  }

  lemma PartialSuffixIsClean()
    ensures Clean(PARTIAL_SUFFIX)
  {
  }

  lemma PartialSuffixLength(suffix: string)
    requires suffix == PARTIAL_SUFFIX
    ensures ByteLen(suffix) == 10
  {
    AsciiByteLen(suffix);
  }

  /** A partial archive name fits an ordinary file name and stays safe. */
  lemma PartialNameIsSafe(name: string)
    requires Safe(name, MAX_ARCHIVE_FILENAME_BYTES)
    ensures Safe(IntoPartial(name), MAX_FILENAME_BYTES)
    ensures ByteLen(IntoPartial(name)) == ByteLen(name) + 10
  {
    hide ByteLen, Clean;
    PartialSuffixIsClean();
    PartialSuffixLength(PARTIAL_SUFFIX);
    if EndsWith(name, ".zip") {
      var stem := name[..|name| - 4];
      assert name == stem + ".zip";
      InsertBefore(stem, PARTIAL_SUFFIX, ".zip");
    } else {
      ByteLenConcat(name, PARTIAL_SUFFIX);
      CleanConcat(name, PARTIAL_SUFFIX);
    }
  }

  lemma InsertBefore(stem: string, mid: string, tail: string)
    requires Clean(mid)
    ensures Clean(stem + mid + tail) <==> Clean(stem + tail)
    ensures ByteLen(stem + mid + tail) == ByteLen(stem + tail) + ByteLen(mid)
  {
    ByteLenConcat(stem, tail);
    ByteLenConcat(stem, mid);
    ByteLenConcat(stem + mid, tail);
    CleanConcat(stem, tail);
    CleanConcat(stem, mid);
    CleanConcat(stem + mid, tail);
  }

  /** The mark goes before the extension of an archive, and at the end of any other name. */
  lemma PartialMarkPlace(name: string)
    ensures EndsWith(name, ".zip") ==> IntoPartial(name) == name[..|name| - 4] + " [Partial].zip"
    ensures !EndsWith(name, ".zip") ==> IntoPartial(name) == name + " [Partial]"
  {
    if EndsWith(name, ".zip") {
      assert name[..|name| - 4] + PARTIAL_SUFFIX + ".zip" == name[..|name| - 4] + (PARTIAL_SUFFIX + ".zip");
    }
  }

  lemma PartialNamesAreInjective(a: string, b: string)
    requires IntoPartial(a) == IntoPartial(b)
    ensures a == b
  {
    var p := IntoPartial(a);
    var stemA := if EndsWith(a, ".zip") then a[..|a| - 4] else a;
    var stemB := if EndsWith(b, ".zip") then b[..|b| - 4] else b;
    var tailA := if EndsWith(a, ".zip") then PARTIAL_SUFFIX + ".zip" else PARTIAL_SUFFIX;
    var tailB := if EndsWith(b, ".zip") then PARTIAL_SUFFIX + ".zip" else PARTIAL_SUFFIX;
    assert p == stemA + tailA && p == stemB + tailB;
    assert p[|p| - 1] == tailA[|tailA| - 1] && p[|p| - 1] == tailB[|tailB| - 1];
    assert (PARTIAL_SUFFIX + ".zip")[13] == 'p' && PARTIAL_SUFFIX[9] == ']';
    assert tailA == tailB;
    assert stemA == p[..|stemA|] == stemB;
    assert EndsWith(a, ".zip") ==> a == stemA + ".zip";
    assert EndsWith(b, ".zip") ==> b == stemB + ".zip";
  }
}

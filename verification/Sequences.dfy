/** Small facts about sequences that several components share. */
module Sequences {

  datatype Option<+T> = None | Some(value: T)

  datatype Result<+T, +E> = Ok(value: T) | Err(error: E)

  predicate NoDuplicates<T(==)>(s: seq<T>) {
    forall i, j :: 0 <= i < j < |s| ==> s[i] != s[j]
  }

  function Elements<T>(s: seq<T>): set<T> {
    set x | x in s
  }

  /** Keeps the first occurrence of every element that is not in `seen`, in order. */
  function FirstOccurrences<T(==, !new)>(s: seq<T>, seen: set<T> := {}): (r: seq<T>)
    ensures NoDuplicates(r)
    ensures forall x :: x in r <==> x in s && x !in seen
  {
    if s == [] then []
    else if s[0] in seen then FirstOccurrences(s[1..], seen)
    else [s[0]] + FirstOccurrences(s[1..], seen + {s[0]})
  }

  lemma FirstOccurrencesCons<T(!new)>(x: T, rest: seq<T>, seen: set<T>)
    ensures FirstOccurrences([x] + rest, seen) ==
      if x in seen then FirstOccurrences(rest, seen) else [x] + FirstOccurrences(rest, seen + {x})
  {
    assert ([x] + rest)[1..] == rest;
  }

  lemma FirstOccurrencesOfOne<T(!new)>(x: T, seen: set<T>)
    ensures FirstOccurrences([x], seen) == if x in seen then [] else [x]
  {
    assert [x][1..] == [];
  }

  /** Appending one element to the input appends it to the result unless it was already there. */
  lemma {:induction false} FirstOccurrencesSnoc<T(!new)>(s: seq<T>, x: T, seen: set<T>)
    ensures FirstOccurrences(s + [x], seen)
         == FirstOccurrences(s, seen) + if x in s || x in seen then [] else [x]
  {
    hide FirstOccurrences;
    if s == [] {
      assert s + [x] == [x];
      FirstOccurrencesOfOne(x, seen);
      FirstOccurrencesOfNone(seen);
    } else {
      var first, rest := s[0], s[1..];
      assert s == [first] + rest && s + [x] == [first] + (rest + [x]);
      FirstOccurrencesCons(first, rest, seen);
      FirstOccurrencesCons(first, rest + [x], seen);
      assert x in s <==> x == first || x in rest;
      if first in seen {
        FirstOccurrencesSnoc(rest, x, seen);
      } else {
        FirstOccurrencesSnoc(rest, x, seen + {first});
      }
    }
  }

  lemma FirstOccurrencesOfNone<T(!new)>(seen: set<T>)
    ensures FirstOccurrences([], seen) == []
  {
  }

  /** Elements that are all new and all different are all kept. */
  lemma {:induction false} FirstOccurrencesOfNew<T(!new)>(s: seq<T>, seen: set<T>)
    requires NoDuplicates(s) && forall x :: x in s ==> x !in seen
    ensures FirstOccurrences(s, seen) == s
  {
    if s != [] {
      var first, rest := s[0], s[1..];
      assert first in s && forall x :: x in rest ==> x in s && x != first;
      FirstOccurrencesOfNew(rest, seen + {first});
      assert s == [first] + rest;
    }
  }

  function FirstIndex<T(!new)>(p: T -> bool, s: seq<T>): (i: nat)
    ensures i <= |s|
    ensures i < |s| ==> p(s[i])
    ensures forall k :: 0 <= k < i ==> !p(s[k])
  {
    if s == [] || p(s[0]) then 0 else 1 + FirstIndex(p, s[1..])
  }

  function Map<T, U>(f: T -> U, s: seq<T>): (r: seq<U>)
    ensures |r| == |s|
    ensures forall i :: 0 <= i < |s| ==> r[i] == f(s[i])
  {
    if s == [] then [] else [f(s[0])] + Map(f, s[1..])
  }

  lemma {:induction false} MapConcat<T, U>(f: T -> U, a: seq<T>, b: seq<T>)
    ensures Map(f, a + b) == Map(f, a) + Map(f, b)
  {
    if a == [] {
      assert a + b == b;
    } else {
      assert (a + b)[1..] == a[1..] + b;
      MapConcat(f, a[1..], b);
    }
  }

  function Flatten<T>(parts: seq<seq<T>>): seq<T> {
    if parts == [] then [] else parts[0] + Flatten(parts[1..])
  }

  lemma {:induction false} FlattenSnoc<T>(parts: seq<seq<T>>, part: seq<T>)
    ensures Flatten(parts + [part]) == Flatten(parts) + part
  {
    if parts == [] {
      assert parts + [part] == [part];
    } else {
      assert (parts + [part])[1..] == parts[1..] + [part];
      FlattenSnoc(parts[1..], part);
    }
  }
}

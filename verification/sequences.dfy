/**
 * Sequence operations the source performs through JavaScript built-ins:
 * `Array.from(new Set(xs))` (de-duplication keeping first occurrences) and
 * `xs.filter((x) => x !== v)` (removal of every occurrence).
 */
module Sequences {

  /** No element occurs twice. */
  predicate NoDup<T(==,!new)>(s: seq<T>) {
    forall i, j :: 0 <= i < j < |s| ==> s[i] != s[j]
  }

  /** The position of the first occurrence of `x` in `s`. */
  function FirstIndex<T(==,!new)>(s: seq<T>, x: T): (i: nat)
    requires x in s
    ensures i < |s| && s[i] == x
    ensures forall j :: 0 <= j < i ==> s[j] != x
  {
    if s[0] == x then 0 else 1 + FirstIndex(s[1..], x)
  }

  /**
   * `Array.from(new Set(s))`: a `Set` remembers insertion order, so each
   * element is kept at its first occurrence and later repeats are dropped.
   */
  function Dedupe<T(==,!new)>(s: seq<T>): (r: seq<T>)
    ensures NoDup(r)
    ensures forall x :: x in r <==> x in s
    ensures |r| <= |s|
  {
    if |s| == 0 then []
    else
      var d := Dedupe(s[..|s| - 1]);
      if s[|s| - 1] in d then d else d + [s[|s| - 1]]
  }

  /** Appending an element does not move the first occurrence of anything already present. */
  lemma FirstIndexOfPrefix<T(!new)>(p: seq<T>, y: T, x: T)
    requires x in p
    ensures FirstIndex(p + [y], x) == FirstIndex(p, x)
  {
    var i := FirstIndex(p, x);
    var k := FirstIndex(p + [y], x);
    assert (p + [y])[i] == x;
    assert k <= i < |p|;
    assert p[k] == (p + [y])[k];
  }

  /** De-duplication lists the distinct elements in the order of their first occurrence. */
  lemma {:induction false} DedupeKeepsFirstOccurrenceOrder<T(!new)>(s: seq<T>)
    ensures forall i, j :: 0 <= i < j < |Dedupe(s)| ==>
      FirstIndex(s, Dedupe(s)[i]) < FirstIndex(s, Dedupe(s)[j])
  {
    if |s| > 0 {
      var p, y := s[..|s| - 1], s[|s| - 1];
      assert s == p + [y];
      var d := Dedupe(p);
      DedupeKeepsFirstOccurrenceOrder(p);
      forall x | x in d
        ensures FirstIndex(s, x) == FirstIndex(p, x) < |p|
      {
        FirstIndexOfPrefix(p, y, x);
      }
      if y !in d {
        assert FirstIndex(s, y) == |p|;
      }
    }
  }

  /** De-duplicating a sequence that has no repeats changes nothing. */
  lemma {:induction false} DedupeOfNoDup<T(!new)>(s: seq<T>)
    requires NoDup(s)
    ensures Dedupe(s) == s
  {
    if |s| > 0 {
      var p := s[..|s| - 1];
      assert NoDup(p);
      DedupeOfNoDup(p);
      assert s[|s| - 1] !in p;
      assert p + [s[|s| - 1]] == s;
    }
  }

  /** `s.filter((x) => x !== v)`. */
  function RemoveAll<T(==,!new)>(s: seq<T>, v: T): (r: seq<T>)
    ensures v !in r
    ensures forall x :: x != v ==> (x in r <==> x in s)
    ensures forall x :: x != v ==> multiset(r)[x] == multiset(s)[x]
    ensures |r| <= |s|
  {
    if |s| == 0 then []
    else
      assert s == [s[0]] + s[1..];
      if s[0] == v then RemoveAll(s[1..], v) else [s[0]] + RemoveAll(s[1..], v)
  }

  /** Removing an element that does not occur is the identity. */
  lemma {:induction false} RemoveAllAbsent<T(!new)>(s: seq<T>, v: T)
    requires v !in s
    ensures RemoveAll(s, v) == s
  {
    if |s| > 0 {
      RemoveAllAbsent(s[1..], v);
    }
  }

  /** Removal works piecewise, so the surviving elements keep their relative order. */
  lemma {:induction false} RemoveAllAppend<T(!new)>(a: seq<T>, b: seq<T>, v: T)
    ensures RemoveAll(a + b, v) == RemoveAll(a, v) + RemoveAll(b, v)
  {
    if |a| > 0 {
      assert (a + b)[1..] == a[1..] + b;
      RemoveAllAppend(a[1..], b, v);
    } else {
      assert a + b == b;
    }
  }

  /** Removal keeps a duplicate-free sequence duplicate-free. */
  lemma {:induction false} RemoveAllNoDup<T(!new)>(s: seq<T>, v: T)
    requires NoDup(s)
    ensures NoDup(RemoveAll(s, v))
  {
    if |s| > 0 {
      assert NoDup(s[1..]) by {
        forall i, j | 0 <= i < j < |s[1..]| ensures s[1..][i] != s[1..][j] {
          assert s[1..][i] == s[i + 1] && s[1..][j] == s[j + 1];
        }
      }
      RemoveAllNoDup(s[1..], v);
      if s[0] != v {
        assert s[0] !in s[1..];
        var r := RemoveAll(s[1..], v);
        assert s[0] !in r;
        assert RemoveAll(s, v) == [s[0]] + r;
      }
    }
  }
}

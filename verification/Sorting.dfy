/** In-place insertion sort under a given "serves before" relation. */
module Sorting {

  /** A strict order in which incomparable elements are interchangeable. */
  ghost predicate StrictWeak<T(!new)>(better: (T, T) -> bool) {
    && (forall a, b :: better(a, b) ==> !better(b, a))
    && (forall a, b, c :: !better(b, a) && !better(c, b) ==> !better(c, a))
  }

  ghost predicate Sorted<T>(better: (T, T) -> bool, s: seq<T>) {
    forall i, j :: 0 <= i < j < |s| ==> !better(s[j], s[i])
  }

  /** Insertion of one element behind everything it is not better than. */
  function Insert<T>(better: (T, T) -> bool, s: seq<T>, x: T): seq<T> {
    if s == [] || !better(x, s[|s| - 1]) then s + [x]
    else Insert(better, s[..|s| - 1], x) + [s[|s| - 1]]
  }

  function Sort<T>(better: (T, T) -> bool, s: seq<T>): (r: seq<T>)
    ensures |r| == |s|
  {
    if s == [] then [] else
      var t := Sort(better, s[..|s| - 1]);
      InsertLength(better, t, s[|s| - 1]);
      Insert(better, t, s[|s| - 1])
  }

  lemma {:induction false} InsertLength<T>(better: (T, T) -> bool, s: seq<T>, x: T)
    ensures |Insert(better, s, x)| == |s| + 1
  {
    if s != [] {
      InsertLength(better, s[..|s| - 1], x);
    }
  }

  method InsertionSort<T>(a: array<T>, better: (T, T) -> bool)
    modifies a
    ensures a[..] == Sort(better, old(a[..]))
  {
    ghost var input := a[..];
    for index := 0 to a.Length
      invariant a[..index] == Sort(better, input[..index])
      invariant a[index..] == input[index..]
    {
      assert a[index] == a[index..][0] == input[index];
      Shift(a, index, better);
      assert input[..index + 1][..index] == input[..index];
      assert a[index + 1..] == input[index..][1..];
    }
    assert a[..a.Length] == a[..] && input[..a.Length] == input;
  }

  /** Move the element at `index` in front of everything it is better than. */
  method Shift<T>(a: array<T>, index: nat, better: (T, T) -> bool)
    requires index < a.Length
    modifies a
    ensures a[..index + 1] == Insert(better, old(a[..index]), old(a[index]))
    ensures a[index + 1..] == old(a[index + 1..])
  {
    ghost var prefix := a[..index];
    var candidate := a[index];
    var position := index;
    while position > 0 && better(candidate, a[position - 1])
      invariant position <= index && Opened(a[..index + 1], prefix, position)
      invariant forall i :: index < i < a.Length ==> a[i] == old(a[i])
      invariant forall i :: position <= i < index ==> better(candidate, prefix[i])
    {
      a[position] := a[position - 1];
      position := position - 1;
    }
    ghost var gap := a[..index + 1];
    a[position] := candidate;
    assert a[..index + 1] == gap[position := candidate];
    GapIsFilled(better, prefix, gap, candidate, position);
  }

  /** s with one place more at p, whatever stands there. */
  ghost predicate Opened<T>(t: seq<T>, s: seq<T>, p: nat) {
    && |t| == |s| + 1 && p <= |s|
    && (forall i :: 0 <= i < p ==> t[i] == s[i])
    && (forall i :: p < i < |t| ==> t[i] == s[i - 1])
  }

  lemma {:induction false} GapIsFilled<T>(better: (T, T) -> bool, s: seq<T>, t: seq<T>, x: T, p: nat)
    requires Opened(t, s, p) && (0 < p ==> !better(x, s[p - 1])) && forall i :: p <= i < |s| ==> better(x, s[i])
    ensures t[p := x] == Insert(better, s, x)
  {
    InsertAt(better, s, x, p);
    assert t[p := x] == s[..p] + [x] + s[p..];
  }

  lemma {:induction false} InsertAt<T>(better: (T, T) -> bool, s: seq<T>, x: T, p: nat)
    requires p <= |s|
    requires 0 < p ==> !better(x, s[p - 1])
    requires forall i :: p <= i < |s| ==> better(x, s[i])
    ensures Insert(better, s, x) == s[..p] + [x] + s[p..]
  {
    if p < |s| {
      InsertAt(better, s[..|s| - 1], x, p);
    }
  }

  lemma {:induction false} InsertElements<T>(better: (T, T) -> bool, s: seq<T>, x: T)
    ensures forall e :: e in Insert(better, s, x) ==> e in s || e == x
  {
    if s != [] { InsertElements(better, s[..|s| - 1], x); }
  }

  lemma AppendIsSorted<T(!new)>(better: (T, T) -> bool, s: seq<T>, x: T)
    requires StrictWeak(better) && Sorted(better, s) && (s != [] ==> !better(x, s[|s| - 1]))
    ensures Sorted(better, s + [x])
  {
    forall i | 0 <= i < |s| ensures !better(x, s[i]) {
      if i < |s| - 1 { assert !better(s[|s| - 1], s[i]); }
    }
  }

  lemma {:induction false} InsertIsSorted<T(!new)>(better: (T, T) -> bool, s: seq<T>, x: T)
    requires StrictWeak(better) && Sorted(better, s)
    ensures Sorted(better, Insert(better, s, x))
    ensures multiset(Insert(better, s, x)) == multiset(s) + multiset{x}
  {
    if s == [] || !better(x, s[|s| - 1]) {
      AppendIsSorted(better, s, x);
    } else {
      var front, last := s[..|s| - 1], s[|s| - 1];
      assert s == front + [last];
      InsertIsSorted(better, front, x);
      InsertElements(better, front, x);
      var t := Insert(better, front, x);
      assert forall e :: e in front ==> !better(last, e);
      assert !better(last, x);
      assert forall i :: 0 <= i < |t| ==> t[i] in t && !better(last, t[i]);
    }
  }

  /** The sort returns the same elements, best first. */
  lemma {:induction false} SortIsCorrect<T(!new)>(better: (T, T) -> bool, s: seq<T>)
    requires StrictWeak(better)
    ensures Sorted(better, Sort(better, s)) && multiset(Sort(better, s)) == multiset(s)
  {
    if s != [] {
      assert s == s[..|s| - 1] + [s[|s| - 1]];
      SortIsCorrect(better, s[..|s| - 1]);
      InsertIsSorted(better, Sort(better, s[..|s| - 1]), s[|s| - 1]);
    }
  }

  /** The elements of s that x neither serves before nor is served after, in order. */
  function Ties<T>(better: (T, T) -> bool, s: seq<T>, x: T): seq<T> {
    if s == [] then []
    else
      var last := s[|s| - 1];
      Ties(better, s[..|s| - 1], x) + if better(last, x) || better(x, last) then [] else [last]
  }

  lemma {:induction false} InsertKeepsTies<T(!new)>(better: (T, T) -> bool, s: seq<T>, y: T, x: T)
    requires StrictWeak(better)
    ensures Ties(better, Insert(better, s, y), x) == Ties(better, s + [y], x)
  {
    assert (s + [y])[..|s|] == s;
    if s != [] && better(y, s[|s| - 1]) {
      var front, last := s[..|s| - 1], s[|s| - 1];
      InsertKeepsTies(better, front, y, x);
      assert (front + [y])[..|front|] == front;
      var t := Insert(better, front, y);
      assert (t + [last])[..|t|] == t;
    }
  }

  /** The sort is stable: elements of equal standing keep their order. */
  lemma {:induction false} SortIsStable<T(!new)>(better: (T, T) -> bool, s: seq<T>, x: T)
    requires StrictWeak(better)
    ensures Ties(better, Sort(better, s), x) == Ties(better, s, x)
  {
    if s != [] {
      var front, last := s[..|s| - 1], s[|s| - 1];
      SortIsStable(better, front, x);
      var t := Sort(better, front);
      InsertKeepsTies(better, t, last, x);
      assert (t + [last])[..|t|] == t;
    }
  }
}

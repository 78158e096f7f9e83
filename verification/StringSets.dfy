/**
 Order-independent comparison of member lists: copy both, sort both, compare. The library sort is
 written out as the insertion sort it uses for short slices.
 */
module StringSets {

  // ---------- The order of strings ----------

  /** Lexicographic order, the order of the library's string sort. */
  predicate AtMost(a: string, b: string) {
    a == "" || (b != "" && (a[0] < b[0] || (a[0] == b[0] && AtMost(a[1..], b[1..]))))
  }

  lemma {:induction false} AtMostIsAntisymmetric(a: string, b: string)
    requires AtMost(a, b) && AtMost(b, a)
    ensures a == b
    decreases |a|
  {
    if a != "" {
      AtMostIsAntisymmetric(a[1..], b[1..]);
      assert a == [a[0]] + a[1..] && b == [b[0]] + b[1..];
    }
  }

  lemma {:induction false} AtMostIsTransitive(a: string, b: string, c: string)
    requires AtMost(a, b) && AtMost(b, c)
    ensures AtMost(a, c)
    decreases |a|
  {
    if a != "" && a[0] == b[0] == c[0] {
      AtMostIsTransitive(a[1..], b[1..], c[1..]);
    }
  }

  lemma {:induction false} AtMostIsTotal(a: string, b: string)
    ensures AtMost(a, b) || AtMost(b, a)
    decreases |a|
  {
    if a != "" && b != "" {
      AtMostIsTotal(a[1..], b[1..]);
    }
  }

  // ---------- Sorting ----------

  ghost predicate IsSorted(s: seq<string>) {
    forall i, j :: 0 <= i < j < |s| ==> AtMost(s[i], s[j])
  }

  /** A sorted list with one more element put in its place. */
  ghost function Insert(s: seq<string>, x: string): seq<string> {
    if s == [] || AtMost(s[|s| - 1], x) then s + [x]
    else Insert(s[..|s| - 1], x) + [s[|s| - 1]]
  }

  ghost function Sorted(s: seq<string>): seq<string> {
    if s == [] then [] else Insert(Sorted(s[..|s| - 1]), s[|s| - 1])
  }

  lemma {:induction false} InsertCounts(s: seq<string>, x: string)
    ensures multiset(Insert(s, x)) == multiset(s) + multiset{x}
    decreases |s|
  {
    hide AtMost;
    if s != [] {
      InsertCounts(s[..|s| - 1], x);
      assert s == s[..|s| - 1] + [s[|s| - 1]];
    }
  }

  lemma {:induction false} InsertSorts(s: seq<string>, x: string)
    requires IsSorted(s)
    ensures IsSorted(Insert(s, x))
    decreases |s|
  {
    if s == [] {
    } else if AtMost(s[|s| - 1], x) {
      forall i | 0 <= i < |s| ensures AtMost(s[i], x) {
        if i < |s| - 1 { AtMostIsTransitive(s[i], s[|s| - 1], x); }
      }
      hide AtMost;
    } else {
      var init, last := s[..|s| - 1], s[|s| - 1];
      AtMostIsTotal(last, x);
      InsertSorts(init, x);
      InsertCounts(init, x);
      hide AtMost;
      var t := Insert(init, x);
      forall i | 0 <= i < |t| ensures AtMost(t[i], last) {
        assert t[i] in multiset(t);
        assert t[i] == x || t[i] in init;
      }
    }
  }

  lemma {:induction false} SortedSorts(s: seq<string>)
    ensures IsSorted(Sorted(s)) && multiset(Sorted(s)) == multiset(s)
    decreases |s|
  {
    if s != [] {
      SortedSorts(s[..|s| - 1]);
      InsertSorts(Sorted(s[..|s| - 1]), s[|s| - 1]);
      InsertCounts(Sorted(s[..|s| - 1]), s[|s| - 1]);
      assert s == s[..|s| - 1] + [s[|s| - 1]];
    }
  }

  lemma HeadIsLeast(a: seq<string>, x: string)
    requires IsSorted(a) && x in a
    ensures AtMost(a[0], x)
  {
    AtMostIsTotal(x, x);
  }

  lemma SameHead(a: seq<string>, b: seq<string>)
    requires IsSorted(a) && IsSorted(b) && multiset(a) == multiset(b) && a != [] && b != []
    ensures a[0] == b[0]
  {
    hide AtMost, IsSorted;
    assert a[0] in multiset(b) && b[0] in multiset(a);
    HeadIsLeast(a, b[0]);
    HeadIsLeast(b, a[0]);
    AtMostIsAntisymmetric(a[0], b[0]);
  }

  lemma HeadAndTail(s: seq<string>)
    requires s != []
    ensures s == [s[0]] + s[1..] && multiset(s[1..]) == multiset(s) - multiset{s[0]}
  {
    assert s == [s[0]] + s[1..];
  }

  lemma TailIsSorted(s: seq<string>)
    requires IsSorted(s) && s != []
    ensures IsSorted(s[1..])
  {
    hide AtMost;
  }

  /** A multiset has only one sorted listing. */
  lemma {:induction false} SortedListingIsUnique(a: seq<string>, b: seq<string>)
    requires IsSorted(a) && IsSorted(b) && multiset(a) == multiset(b)
    ensures a == b
    decreases |a|
  {
    hide AtMost, IsSorted;
    assert |a| == |multiset(a)| == |multiset(b)| == |b|;
    if a != [] {
      SameHead(a, b);
      TailIsSorted(a);
      TailIsSorted(b);
      HeadAndTail(a);
      HeadAndTail(b);
      SortedListingIsUnique(a[1..], b[1..]);
    }
  }

  lemma InsertPasses(s: seq<string>, x: string, j: nat)
    requires 0 < j <= |s| && !AtMost(s[j - 1], x)
    ensures Insert(s[..j], x) + s[j..] == Insert(s[..j - 1], x) + s[j - 1..]
  {
    hide AtMost;
    assert s[..j][..j - 1] == s[..j - 1] && [s[j - 1]] + s[j..] == s[j - 1..];
  }

  lemma InsertStops(s: seq<string>, x: string, j: nat)
    requires j <= |s| && (j == 0 || AtMost(s[j - 1], x))
    ensures Insert(s[..j], x) == s[..j] + [x]
  {
  }

  /** Moves `a[n]` down to its place in the sorted prefix before it. */
  method SiftDown(a: array<string>, n: nat)
    requires n < a.Length
    modifies a
    ensures a[..n + 1] == Insert(old(a[..n]), old(a[n]))
    ensures a[n + 1..] == old(a[n + 1..])
  {
    ghost var s, x, tail := a[..n], a[n], a[n + 1..];
    var j := n;
    assert a[..] == s[..n] + [x] + s[n..] + tail;
    assert Insert(s, x) == Insert(s[..n], x) + s[n..] by { assert s[..n] == s; }
    hide AtMost, Insert;
    while j > 0 && !AtMost(a[j - 1], a[j])
      invariant 0 <= j <= n
      invariant a[..] == s[..j] + [x] + s[j..] + tail
      invariant Insert(s, x) == Insert(s[..j], x) + s[j..]
    {
      assert a[..][j - 1] == s[j - 1] && a[..][j] == x;
      InsertPasses(s, x, j);
      ShiftOne(s, x, j, tail);
      a[j - 1], a[j] := a[j], a[j - 1];
      j := j - 1;
    }
    assert j > 0 ==> a[..][j - 1] == s[j - 1] && a[..][j] == x;
    InsertStops(s, x, j);
    assert a[..n + 1] == a[..][..n + 1] && a[n + 1..] == a[..][n + 1..];
  }

  lemma ShiftOne(s: seq<string>, x: string, j: nat, tail: seq<string>)
    requires 0 < j <= |s|
    ensures (s[..j] + [x] + s[j..] + tail)[j - 1 := x][j := s[j - 1]] == s[..j - 1] + [x] + s[j - 1..] + tail
  {
  }

  method SortStrings(a: array<string>)
    modifies a
    ensures a[..] == Sorted(old(a[..]))
  {
    ghost var s := a[..];
    var i := 0;
    while i < a.Length
      invariant 0 <= i <= a.Length
      invariant a[..i] == Sorted(s[..i]) && a[i..] == s[i..]
    {
      assert s[..i + 1][..i] == s[..i] && a[i] == a[i..][0] == s[i];
      SiftDown(a, i);
      assert s[i..][1..] == s[i + 1..];
      i := i + 1;
    }
    assert a[..] == a[..i] && s[..i] == s;
  }

  method CopyOf(a: array<string>) returns (c: array<string>)
    ensures fresh(c) && c[..] == a[..]
  {
    c := new string[a.Length];
    for i := 0 to a.Length
      invariant c[..i] == a[..i]
    {
      c[i] := a[i];
    }
  }

  // ---------- Comparing member lists ----------

  lemma SortedEqualIff(a: seq<string>, b: seq<string>)
    ensures Sorted(a) == Sorted(b) <==> multiset(a) == multiset(b)
    ensures |Sorted(a)| == |a|
  {
    SortedSorts(a);
    SortedSorts(b);
    hide Sorted;
    assert |multiset(Sorted(a))| == |multiset(a)|;
    if multiset(a) == multiset(b) {
      SortedListingIsUnique(Sorted(a), Sorted(b));
    }
  }

  method SameAtEveryIndex(a: array<string>, b: array<string>) returns (equal: bool)
    requires a.Length == b.Length
    ensures equal <==> a[..] == b[..]
  {
    for i := 0 to a.Length
      invariant forall j :: 0 <= j < i ==> a[j] == b[j]
    {
      if a[i] != b[i] {
        assert a[..][i] != b[..][i];
        return false;
      }
    }
    return true;
  }

  /** The comparison holds exactly when the two lists are equal as multisets. It changes neither. */
  method SetsEqual(a: array<string>, b: array<string>) returns (equal: bool)
    ensures equal <==> multiset(a[..]) == multiset(b[..])
  {
    hide Sorted;
    SortedEqualIff(a[..], b[..]);
    SortedEqualIff(b[..], a[..]);
    if a.Length != b.Length {
      return false;
    }
    var sortedA := CopyOf(a);
    SortStrings(sortedA);
    var sortedB := CopyOf(b);
    SortStrings(sortedB);
    equal := SameAtEveryIndex(sortedA, sortedB);
  }

  ghost predicate NoDuplicates(s: seq<string>) {
    forall i, j :: 0 <= i < j < |s| ==> s[i] != s[j]
  }

  ghost function Elements(s: seq<string>): set<string> {
    set x | x in s
  }

  lemma {:induction false} NoDuplicatesCounts(s: seq<string>, x: string)
    requires NoDuplicates(s)
    ensures multiset(s)[x] == if x in s then 1 else 0
    decreases |s|
  {
    if s != [] {
      var init, last := s[..|s| - 1], s[|s| - 1];
      NoDuplicatesCounts(init, x);
      assert s == init + [last];
    }
  }

  /** On lists without duplicates, multiset equality is equality as sets. */
  lemma SetEqualityWithoutDuplicates(a: seq<string>, b: seq<string>)
    requires NoDuplicates(a) && NoDuplicates(b)
    ensures multiset(a) == multiset(b) <==> Elements(a) == Elements(b)
  {
    forall x ensures multiset(a)[x] == (if x in a then 1 else 0) && multiset(b)[x] == if x in b then 1 else 0 {
      NoDuplicatesCounts(a, x);
      NoDuplicatesCounts(b, x);
    }
    assert forall x :: x in a <==> x in Elements(a);
    assert forall x :: x in b <==> x in Elements(b);
    if multiset(a) == multiset(b) {
      assert forall x :: x in a <==> multiset(a)[x] == 1;
    }
  }

  /** A list equal as a multiset to one without duplicates has none either. */
  lemma {:induction false} DuplicatesShow(a: seq<string>, b: seq<string>)
    requires NoDuplicates(b) && multiset(a) == multiset(b)
    ensures NoDuplicates(a)
  {
    forall i, j | 0 <= i < j < |a| ensures a[i] != a[j] {
      NoDuplicatesCounts(b, a[i]);
      assert a == a[..j] + [a[j]] + a[j + 1..] && a[..j][i] == a[i];
    }
  }
}

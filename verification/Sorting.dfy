/** Sorting a listing of records in place. */
module Sorting {
  import opened Prelude
  import opened Clock
  import opened Machine

  /** One entry of a listing. */
  datatype Item = Item(id: RecordId, created: Instant)

  ghost predicate OldestFirst(s: seq<Item>) {
    forall i, j :: 0 <= i < j < |s| ==> s[i].created <= s[j].created
  }

  method SwapWithPrevious(a: array<Item>, j: nat)
    requires 0 < j < a.Length
    modifies a
    ensures a[..] == old(a[..])[j := old(a[j - 1])][j - 1 := old(a[j])]
    ensures multiset(a[..]) == multiset(old(a[..]))
  {
    a[j], a[j - 1] := a[j - 1], a[j];
  }

  /** The first `i + 1` entries are in order but for the one at `j`, which is older than those after it. */
  ghost predicate Inserting(s: seq<Item>, i: nat, j: nat) {
    && j <= i < |s|
    && (forall x, y :: 0 <= x < y <= i && y != j ==> s[x].created <= s[y].created)
  }

  lemma InsertStep(s: seq<Item>, i: nat, j: nat)
    requires Inserting(s, i, j) && j > 0 && s[j].created < s[j - 1].created
    ensures Inserting(s[j := s[j - 1]][j - 1 := s[j]], i, j - 1)
  {
  }

  lemma InsertDone(s: seq<Item>, i: nat, j: nat)
    requires Inserting(s, i, j) && (j > 0 ==> s[j - 1].created <= s[j].created)
    ensures OldestFirst(s[..i + 1])
  {
    forall x | 0 <= x < j ensures s[x].created <= s[j].created {
    }
  }

  /** Moves entry `i` down to its place among the entries before it. */
  method Insert(a: array<Item>, i: nat)
    requires i < a.Length && OldestFirst(a[..i])
    modifies a
    ensures OldestFirst(a[..i + 1]) && multiset(a[..]) == multiset(old(a[..]))
  {
    var j: nat := i;
    while j > 0 && a[j].created < a[j - 1].created
      invariant Inserting(a[..], i, j)
      invariant multiset(a[..]) == multiset(old(a[..]))
    {
      InsertStep(a[..], i, j);
      SwapWithPrevious(a, j);
      j := j - 1;
    }
    InsertDone(a[..], i, j);
  }

  /** Sorts oldest first, in some order among equals. */
  method SortByCreation(a: array<Item>)
    modifies a
    ensures OldestFirst(a[..])
    ensures multiset(a[..]) == multiset(old(a[..]))
  {
    for i := 0 to a.Length
      invariant OldestFirst(a[..i])
      invariant multiset(a[..]) == multiset(old(a[..]))
    {
      Insert(a, i);
    }
    assert a[..a.Length] == a[..];
  }

  lemma {:induction false} DistinctCounts<T>(s: seq<T>, x: T)
    requires Distinct(s)
    ensures multiset(s)[x] <= 1
  {
    if s != [] {
      var front := s[..|s| - 1];
      assert s == front + [Last(s)];
      DistinctCounts(front, x);
      assert Last(s) !in front;
    }
  }

  /** A rearrangement repeats nothing that was not repeated before. */
  lemma RearrangementIsDistinct<T>(s: seq<T>, r: seq<T>)
    requires Distinct(s) && multiset(s) == multiset(r)
    ensures Distinct(r)
  {
    forall i, j | 0 <= i < j < |r| ensures r[i] != r[j] {
      DistinctCounts(s, r[i]);
      assert r == r[..j] + [r[j]] + r[j + 1..];
      assert r[i] in r[..j];
    }
  }
}

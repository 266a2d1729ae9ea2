/** Searching for an unused id: number after number is tried until one is free, and there is always one soon. */
module UniqueIds {
  import opened Decimals

  /** An endless list of different candidate ids. */
  ghost predicate Distinct(candidate: nat -> string) { forall m: nat, n: nat :: candidate(m) == candidate(n) ==> m == n }

  ghost predicate Free(candidate: nat -> string, taken: set<string>, n: nat) { candidate(n) !in taken }

  /** The candidates from `from` on, `count` of them. */
  ghost function Block(candidate: nat -> string, from: nat, count: nat): set<string> {
    if count == 0 then {} else Block(candidate, from, count - 1) + {candidate(from + count - 1)}
  }

  lemma {:induction false} BlockSize(candidate: nat -> string, from: nat, count: nat, n: nat)
    requires Distinct(candidate)
    ensures |Block(candidate, from, count)| == count
    ensures candidate(n) in Block(candidate, from, count) ==> from <= n < from + count
  {
    if count > 0 {
      BlockSize(candidate, from, count - 1, n);
      BlockSize(candidate, from, count - 1, from + count - 1);
    }
  }

  lemma {:induction false} SubsetSize(a: set<string>, b: set<string>)
    requires a <= b
    ensures |a| <= |b|
    decreases a
  {
    if a != {} {
      var x :| x in a;
      SubsetSize(a - {x}, b - {x});
    }
  }

  /** Among one more candidate than there are taken ids, some candidate is free. */
  lemma SomeFree(candidate: nat -> string, taken: set<string>, from: nat) returns (n: nat)
    requires Distinct(candidate)
    ensures from <= n <= from + |taken| && Free(candidate, taken, n)
  {
    n := from;
    while candidate(n) in taken
      invariant from <= n <= from + |taken|
      invariant Block(candidate, from, n - from) <= taken
      decreases from + |taken| - n
    {
      assert Block(candidate, from, n + 1 - from) == Block(candidate, from, n - from) + {candidate(n)};
      BlockSize(candidate, from, n + 1 - from, 0);
      SubsetSize(Block(candidate, from, n + 1 - from), taken);
      n := n + 1;
    }
  }

  /** The first free candidate at or after `from`; `limit` is a place where the search is sure to have ended. */
  ghost function FirstFree(candidate: nat -> string, taken: set<string>, from: nat, limit: nat): (n: nat)
    requires from <= limit && Free(candidate, taken, limit)
    ensures from <= n <= limit && Free(candidate, taken, n)
    ensures forall m: nat :: from <= m < n ==> !Free(candidate, taken, m)
    decreases limit - from
  {
    if Free(candidate, taken, from) then from else FirstFree(candidate, taken, from + 1, limit)
  }

  /** Where the search that starts at `from` ends. */
  ghost predicate Found(candidate: nat -> string, taken: set<string>, from: nat, n: nat) {
    from <= n && Free(candidate, taken, n) && forall m: nat :: from <= m < n ==> !Free(candidate, taken, m)
  }

  lemma SearchEnds(candidate: nat -> string, taken: set<string>, from: nat)
    requires Distinct(candidate)
    ensures exists limit: nat :: from <= limit && Free(candidate, taken, limit)
  {
    var limit := SomeFree(candidate, taken, from);
  }

  /** What the search finds. */
  ghost function Search(candidate: nat -> string, taken: set<string>, from: nat): (n: nat)
    requires Distinct(candidate)
    ensures Found(candidate, taken, from, n)
  {
    SearchEnds(candidate, taken, from);
    var limit: nat :| from <= limit && Free(candidate, taken, limit);
    FirstFree(candidate, taken, from, limit)
  }

  /** There is one such place, and it is within one more try than there are taken ids. */
  lemma FoundSoon(candidate: nat -> string, taken: set<string>, from: nat, n: nat)
    requires Distinct(candidate) && Found(candidate, taken, from, n)
    ensures n == Search(candidate, taken, from) && n <= from + |taken|
  {
    var m := SomeFree(candidate, taken, from);
  }

  // ----- the three numberings -----

  function Padded(prefix: string, n: nat): string { prefix + PadStart(Dec(n), 3) }

  /** Without a number first, then with 2, 3 and so on behind it. */
  function Suffixed(stem: string, separator: string, n: nat): string { if n <= 1 then stem else stem + separator + Dec(n) }

  ghost function PaddedIds(prefix: string): nat -> string { (n: nat) => Padded(prefix, n) }

  /** The bare stem, then stem and number from 2 on. */
  ghost function SuffixedIds(stem: string, separator: string): nat -> string { (n: nat) => Suffixed(stem, separator, n + 1) }

  lemma PaddedDistinct(prefix: string)
    ensures Distinct(PaddedIds(prefix))
  {
    forall m: nat, n: nat | Padded(prefix, m) == Padded(prefix, n) ensures m == n {
      SameTail(prefix, PadStart(Dec(m), 3), PadStart(Dec(n), 3));
      PaddedInjective(m, n, 3);
    }
  }

  lemma SameTail(front: string, a: string, b: string)
    ensures front + a == front + b ==> a == b
    ensures a != "" ==> front + a != front
  {
    assert (front + a)[|front|..] == a && (front + b)[|front|..] == b;
  }

  lemma SuffixedDistinct(stem: string, separator: string)
    requires separator != ""
    ensures Distinct(SuffixedIds(stem, separator))
  {
    hide Dec;
    var ids := SuffixedIds(stem, separator);
    forall m: nat, n: nat | ids(m) == ids(n) ensures m == n {
      SuffixedDiffer(stem, separator, m, n);
    }
  }

  lemma SuffixedDiffer(stem: string, separator: string, m: nat, n: nat)
    requires separator != "" && Suffixed(stem, separator, m + 1) == Suffixed(stem, separator, n + 1)
    ensures m == n
  {
    hide Dec;
    if m > 0 && n > 0 {
      SameTail(stem + separator, Dec(m + 1), Dec(n + 1));
      DecInjective(m + 1, n + 1);
    }
  }

  function Ids(items: seq<string>): set<string> { set i | 0 <= i < |items| :: items[i] }

  lemma {:induction false} IdsSize(items: seq<string>)
    ensures |Ids(items)| <= |items|
  {
    if items != [] {
      var front := items[..|items| - 1];
      IdsSize(front);
      assert Ids(items) == Ids(front) + {items[|items| - 1]};
    }
  }

  /** The id the search gives: new, and numbered at most twice the number of items and one. */
  ghost function UniqueId(items: seq<string>, prefix: string): (id: string)
    ensures id !in items && exists n: nat :: |items| < n <= 2 * |items| + 1 && id == Padded(prefix, n)
  {
    PaddedDistinct(prefix);
    IdsSize(items);
    var n := Search(PaddedIds(prefix), Ids(items), |items| + 1);
    FoundSoon(PaddedIds(prefix), Ids(items), |items| + 1, n);
    assert PaddedIds(prefix)(n) !in Ids(items);
    Padded(prefix, n)
  }

  /** And it is the first free one: every number from one above the count up to it is taken. */
  lemma UniqueIdIsFirst(items: seq<string>, prefix: string) returns (n: nat)
    ensures n > |items| && UniqueId(items, prefix) == prefix + PadStart(Dec(n), 3)
    ensures forall m: nat :: |items| < m < n ==> Padded(prefix, m) in items
  {
    hide Dec, PadStart;
    PaddedDistinct(prefix);
    n := Search(PaddedIds(prefix), Ids(items), |items| + 1);
    forall m: nat | |items| < m < n ensures Padded(prefix, m) in items {
      assert !Free(PaddedIds(prefix), Ids(items), m);
      assert PaddedIds(prefix)(m) in Ids(items);
    }
  }

  /** The id search of the checklist workspace: for every list of ids it ends within one more try than there are items, and the
      id it gives is new. */
  method ManagerChecklistUniqueId(items: seq<string>, prefix: string) returns (id: string)
    ensures id == UniqueId(items, prefix)
  {
    var next := |items| + 1;
    id := prefix + PadStart(Dec(next), 3);
    PaddedDistinct(prefix);
    ghost var candidate := PaddedIds(prefix);
    ghost var limit := SomeFree(candidate, Ids(items), |items| + 1);
    IdsSize(items);
    while id in items
      invariant id == Padded(prefix, next) && |items| < next <= limit
      invariant forall m: nat :: |items| < m < next ==> !Free(candidate, Ids(items), m)
      decreases limit - next
    {
      assert candidate(next) in Ids(items);
      next := next + 1;
      id := prefix + PadStart(Dec(next), 3);
    }
    assert candidate(next) !in Ids(items);
    FoundSoon(candidate, Ids(items), |items| + 1, next);
  }
}

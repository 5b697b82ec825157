/**
 * The grouping and election steps of `deduplicateBookResults`: greedy,
 * seed-relative clustering of the extracted records, then one canonical
 * record per group chosen by source priority.
 */
module Clustering {
  import opened Wrappers
  import opened BookRecords
  import opened Similarity
  import opened StableSort

  /** One extracted record: its projection, the raw item, its provider and the index of its result entry. */
  datatype ProcessedBook = ProcessedBook(book: BookInfo, originalItem: RawItem, source: string, sourceIndex: nat)

  /** The score of record `j` against seed `i`. */
  function PairScore(books: seq<ProcessedBook>, i: nat, j: nat): real
    requires i < |books| && j < |books|
  {
    Score(Some(books[i].book), Some(books[j].book))
  }

  function Elems(g: seq<nat>): set<nat> {
    set k | k in g
  }

  predicate Increasing(g: seq<nat>) {
    forall a, b :: 0 <= a < b < |g| ==> g[a] < g[b]
  }

  predicate NoDup(s: seq<nat>) {
    forall a, b :: 0 <= a < b < |s| ==> s[a] != s[b]
  }

  function Flatten(groups: seq<seq<nat>>): seq<nat> {
    if groups == [] then [] else groups[0] + Flatten(groups[1..])
  }

  /**
   * The inner scan for seed `i` from position `j`: every later record not yet
   * used whose score against the seed reaches the threshold, in index order.
   */
  function Members(books: seq<ProcessedBook>, threshold: real, used: set<nat>, i: nat, j: nat): seq<nat>
    requires i < |books| && j <= |books|
    decreases |books| - j
  {
    if j == |books| then []
    else if j !in used && PairScore(books, i, j) >= threshold then [j] + Members(books, threshold, used, i, j + 1)
    else Members(books, threshold, used, i, j + 1)
  }

  /** The outer scan from position `i`: each unused record opens a group with the members it attracts. */
  function ClustersFrom(books: seq<ProcessedBook>, threshold: real, used: set<nat>, i: nat): seq<seq<nat>>
    requires i <= |books|
    decreases |books| - i
  {
    if i == |books| then []
    else if i in used then ClustersFrom(books, threshold, used, i + 1)
    else
      var g := [i] + Members(books, threshold, used, i, i + 1);
      [g] + ClustersFrom(books, threshold, used + Elems(g), i + 1)
  }

  /** The groups of record indices the greedy pass builds, in the order of their seeds. */
  function Clusters(books: seq<ProcessedBook>, threshold: real): seq<seq<nat>> {
    ClustersFrom(books, threshold, {}, 0)
  }

  /** `Members` only looks at the used set from position `j` on. */
  lemma {:induction false} MembersFrame(books: seq<ProcessedBook>, threshold: real, used: set<nat>, used': set<nat>, i: nat, j: nat)
    requires i < |books| && j <= |books|
    requires forall k :: j <= k < |books| ==> (k in used <==> k in used')
    ensures Members(books, threshold, used, i, j) == Members(books, threshold, used', i, j)
    decreases |books| - j
  {
    if j < |books| {
      MembersFrame(books, threshold, used, used', i, j + 1);
    }
  }

  /** What the inner scan collects: exactly the unused later records at or above the threshold, increasing. */
  ghost predicate MembersShape(books: seq<ProcessedBook>, threshold: real, used: set<nat>, i: nat, j: nat, m: seq<nat>)
    requires i < |books|
  {
    && Increasing(m)
    && (forall a :: 0 <= a < |m| ==> j <= m[a] < |books|)
    && (forall k :: k in m <==> j <= k < |books| && k !in used && PairScore(books, i, k) >= threshold)
  }

  lemma {:induction false} MembersSpec(books: seq<ProcessedBook>, threshold: real, used: set<nat>, i: nat, j: nat)
    requires i < |books| && j <= |books|
    ensures MembersShape(books, threshold, used, i, j, Members(books, threshold, used, i, j))
    decreases |books| - j
  {
    if j < |books| {
      MembersSpec(books, threshold, used, i, j + 1);
    }
  }

  lemma {:induction false} FlattenAppend(a: seq<seq<nat>>, b: seq<seq<nat>>)
    ensures Flatten(a + b) == Flatten(a) + Flatten(b)
  {
    if a == [] {
      assert a + b == b;
    } else {
      var ab := a + b;
      assert ab[0] == a[0] && ab[1..] == a[1..] + b;
      FlattenAppend(a[1..], b);
      assert Flatten(ab) == a[0] + (Flatten(a[1..]) + Flatten(b));
      assert a[0] + (Flatten(a[1..]) + Flatten(b)) == (a[0] + Flatten(a[1..])) + Flatten(b);
    }
  }

  lemma NoDupConcat(g: seq<nat>, h: seq<nat>)
    requires Increasing(g) && NoDup(h)
    requires forall k :: k in h ==> k !in Elems(g)
    ensures NoDup(g + h)
  {
    var f := g + h;
    forall a, b | 0 <= a < b < |f| ensures f[a] != f[b] {
      if b < |g| {
        assert g[a] < g[b];
      } else if a >= |g| {
        assert f[a] == h[a - |g|] && f[b] == h[b - |g|];
      } else {
        assert f[a] in Elems(g);
        assert f[b] == h[b - |g|];
      }
    }
  }

  /** The groups from position `i` on hold every unused record at or after `i`, each exactly once. */
  lemma {:induction false} ClustersFromCover(books: seq<ProcessedBook>, threshold: real, used: set<nat>, i: nat)
    requires i <= |books|
    ensures var f := Flatten(ClustersFrom(books, threshold, used, i));
      && NoDup(f)
      && (forall k :: k in f <==> i <= k < |books| && k !in used)
    decreases |books| - i
  {
    if i < |books| {
      if i in used {
        ClustersFromCover(books, threshold, used, i + 1);
      } else {
        var m := Members(books, threshold, used, i, i + 1);
        var g := [i] + m;
        var rest := ClustersFrom(books, threshold, used + Elems(g), i + 1);
        MembersSpec(books, threshold, used, i, i + 1);
        assert MembersShape(books, threshold, used, i, i + 1, m);
        ClustersFromCover(books, threshold, used + Elems(g), i + 1);
        assert ClustersFrom(books, threshold, used, i) == [g] + rest;
        assert Flatten(ClustersFrom(books, threshold, used, i)) == g + Flatten(rest);
        assert forall a :: 0 < a < |g| ==> g[a] == m[a - 1];
        CoverStep(g, Flatten(rest), used, i, |books|);
      }
    }
  }

  /** A group opened by unused seed `i`, followed by a cover of what it leaves, covers everything unused from `i` on. */
  lemma CoverStep(g: seq<nat>, rest: seq<nat>, used: set<nat>, i: nat, n: nat)
    requires g != [] && g[0] == i && i < n && i !in used
    requires forall a, b :: 0 <= a < b < |g| ==> g[a] < g[b]
    requires forall a :: 0 < a < |g| ==> i < g[a] < n && g[a] !in used
    requires NoDup(rest)
    requires forall k :: k in rest <==> i + 1 <= k < n && k !in used + Elems(g)
    ensures NoDup(g + rest)
    ensures forall k :: k in g + rest <==> i <= k < n && k !in used
  {
    assert Increasing(g);
    NoDupConcat(g, rest);
    forall k | i <= k < n && k !in used ensures k in g + rest {
      if k in Elems(g) {
        assert k in g;
      } else {
        assert k != i;
        assert k in rest;
      }
    }
  }

  /** The shape of one group: seed first, members increasing, every member at or above the threshold against the seed. */
  predicate WellFormedGroup(books: seq<ProcessedBook>, threshold: real, g: seq<nat>) {
    && g != []
    && Increasing(g)
    && (forall a :: 0 <= a < |g| ==> g[a] < |books|)
    && (forall a :: 1 <= a < |g| ==> PairScore(books, g[0], g[a]) >= threshold)
  }

  /**
   * The groups `r` built from position `i` with `used` already taken: each is
   * well formed; its seed is the lowest index not yet used; and it takes every
   * later unused record that reaches the threshold against its seed.
   */
  ghost predicate GreedyGroups(books: seq<ProcessedBook>, threshold: real, used: set<nat>, i: nat, r: seq<seq<nat>>) {
    forall p :: 0 <= p < |r| ==>
      && WellFormedGroup(books, threshold, r[p])
      && i <= r[p][0] && r[p][0] !in used
      && (forall k :: i <= k < r[p][0] && k !in used ==> k in Flatten(r[..p]))
      && (forall k ::
            (r[p][0] < k < |books| && k !in used && k !in Flatten(r[..p]) && PairScore(books, r[p][0], k) >= threshold)
            ==> k in r[p])
  }

  lemma {:induction false} ClustersFromGreedy(books: seq<ProcessedBook>, threshold: real, used: set<nat>, i: nat)
    requires i <= |books|
    ensures GreedyGroups(books, threshold, used, i, ClustersFrom(books, threshold, used, i))
    decreases |books| - i
  {
    if i < |books| {
      if i in used {
        ClustersFromGreedy(books, threshold, used, i + 1);
        GreedySkip(books, threshold, used, i, ClustersFrom(books, threshold, used, i + 1));
      } else {
        var g := [i] + Members(books, threshold, used, i, i + 1);
        ClustersFromGreedy(books, threshold, used + Elems(g), i + 1);
        GreedyCons(books, threshold, used, i, g, ClustersFrom(books, threshold, used + Elems(g), i + 1));
      }
    }
  }

  /** A used position opens no group. */
  lemma GreedySkip(books: seq<ProcessedBook>, threshold: real, used: set<nat>, i: nat, r: seq<seq<nat>>)
    requires i in used
    requires GreedyGroups(books, threshold, used, i + 1, r)
    ensures GreedyGroups(books, threshold, used, i, r)
  {
    forall p, k | 0 <= p < |r| && i <= k < r[p][0] && k !in used
      ensures k in Flatten(r[..p])
    {
      assert k != i;
    }
  }

  /** An unused position opens the group of its members, in front of the groups built after it. */
  lemma GreedyCons(books: seq<ProcessedBook>, threshold: real, used: set<nat>, i: nat, g: seq<nat>, rest: seq<seq<nat>>)
    requires i < |books| && i !in used
    requires g == [i] + Members(books, threshold, used, i, i + 1)
    requires GreedyGroups(books, threshold, used + Elems(g), i + 1, rest)
    ensures GreedyGroups(books, threshold, used, i, [g] + rest)
  {
    var r := [g] + rest;
    var m := Members(books, threshold, used, i, i + 1);
    MembersSpec(books, threshold, used, i, i + 1);
    assert MembersShape(books, threshold, used, i, i + 1, m);
    forall p | 0 <= p < |r|
      ensures WellFormedGroup(books, threshold, r[p])
      ensures i <= r[p][0] && r[p][0] !in used
      ensures forall k :: i <= k < r[p][0] && k !in used ==> k in Flatten(r[..p])
      ensures forall k ::
          (r[p][0] < k < |books| && k !in used && k !in Flatten(r[..p]) && PairScore(books, r[p][0], k) >= threshold)
          ==> k in r[p]
    {
      if p == 0 {
        assert r[0] == g;
        GroupIsWellFormed(books, threshold, used, i, m);
        assert r[..0] == [];
      } else {
        GreedyTail(books, threshold, used, i, g, rest, p);
      }
    }
  }

  lemma GreedyTail(books: seq<ProcessedBook>, threshold: real, used: set<nat>, i: nat, g: seq<nat>, rest: seq<seq<nat>>, p: nat)
    requires i < |books| && i !in used
    requires g != [] && g[0] == i
    requires GreedyGroups(books, threshold, used + Elems(g), i + 1, rest)
    requires 1 <= p <= |rest|
    ensures var r := [g] + rest;
      && WellFormedGroup(books, threshold, r[p])
      && i <= r[p][0] && r[p][0] !in used
      && (forall k :: i <= k < r[p][0] && k !in used ==> k in Flatten(r[..p]))
      && (forall k ::
            (r[p][0] < k < |books| && k !in used && k !in Flatten(r[..p]) && PairScore(books, r[p][0], k) >= threshold)
            ==> k in r[p])
  {
    var r := [g] + rest;
    var q := rest[p - 1];
    assert r[p] == q;
    assert WellFormedGroup(books, threshold, q);
    assert r[..p] == [g] + rest[..p - 1];
    FlattenAppend([g], rest[..p - 1]);
    assert Flatten([g]) == g;
    assert Flatten(r[..p]) == g + Flatten(rest[..p - 1]);
  }

  lemma GroupIsWellFormed(books: seq<ProcessedBook>, threshold: real, used: set<nat>, i: nat, m: seq<nat>)
    requires i < |books|
    requires MembersShape(books, threshold, used, i, i + 1, m)
    ensures WellFormedGroup(books, threshold, [i] + m)
  {
    var g := [i] + m;
    forall a, b | 0 <= a < b < |g| ensures g[a] < g[b] {
      if a == 0 {
        assert g[b] == m[b - 1];
      } else {
        assert g[a] == m[a - 1] && g[b] == m[b - 1];
      }
    }
    forall a | 1 <= a < |g| ensures PairScore(books, g[0], g[a]) >= threshold {
      assert g[a] == m[a - 1] && g[a] in m;
    }
  }

  /** Every extracted record lands in exactly one group. */
  lemma ClustersPartition(books: seq<ProcessedBook>, threshold: real)
    ensures var f := Flatten(Clusters(books, threshold));
      NoDup(f) && forall k :: k in f <==> 0 <= k < |books|
  {
    ClustersFromCover(books, threshold, {}, 0);
  }

  /**
   * Each group is well formed, opens at the lowest record no earlier group
   * holds, and holds every later such record that reaches the threshold
   * against its seed.
   */
  lemma ClustersAreGreedy(books: seq<ProcessedBook>, threshold: real)
    ensures var r := Clusters(books, threshold);
      forall p :: 0 <= p < |r| ==>
        && WellFormedGroup(books, threshold, r[p])
        && (forall k :: 0 <= k < r[p][0] ==> k in Flatten(r[..p]))
        && (forall k ::
              (r[p][0] < k < |books| && k !in Flatten(r[..p]) && PairScore(books, r[p][0], k) >= threshold)
              ==> k in r[p])
  {
    var r := Clusters(books, threshold);
    ClustersFromGreedy(books, threshold, {}, 0);
    assert GreedyGroups(books, threshold, {}, 0, r);
    forall p | 0 <= p < |r|
      ensures WellFormedGroup(books, threshold, r[p])
      ensures forall k :: 0 <= k < r[p][0] ==> k in Flatten(r[..p])
      ensures forall k ::
              (r[p][0] < k < |books| && k !in Flatten(r[..p]) && PairScore(books, r[p][0], k) >= threshold)
              ==> k in r[p]
    {
      var none: set<nat> := {};
      assert forall k :: k !in none;
    }
  }

  /** One pass of the inner loop: seed `i` and the later unused records it attracts, marked used. */
  method ScanFrom(books: seq<ProcessedBook>, threshold: real, start: set<nat>, i: nat) returns (group: seq<nat>, used: set<nat>)
    requires i < |books|
    ensures group == [i] + Members(books, threshold, start, i, i + 1)
    ensures used == start + Elems(group)
  {
    group := [i];
    used := start + {i};
    ghost var whole := [i] + Members(books, threshold, used, i, i + 1);
    for j := i + 1 to |books|
      invariant group + Members(books, threshold, used, i, j) == whole
      invariant used == start + Elems(group)
      invariant forall a :: 0 <= a < |group| ==> group[a] < j
    {
      ScanStep(books, threshold, start, i, j, group, used);
      if j !in used {
        var similarity := PairScore(books, i, j);
        if similarity >= threshold {
          group := group + [j];
          used := used + {j};
        }
      }
    }
    MembersFrame(books, threshold, start + {i}, start, i, i + 1);
  }

  /** One step of the inner scan keeps the collected group plus what is left to scan equal to the whole scan. */
  lemma ScanStep(books: seq<ProcessedBook>, threshold: real, start: set<nat>, i: nat, j: nat, group: seq<nat>, used: set<nat>)
    requires i < j < |books|
    requires used == start + Elems(group)
    requires forall a :: 0 <= a < |group| ==> group[a] < j
    ensures var joins := j !in used && PairScore(books, i, j) >= threshold;
      && group + Members(books, threshold, used, i, j)
         == (if joins then group + [j] else group) + Members(books, threshold, if joins then used + {j} else used, i, j + 1)
      && (joins ==> used + {j} == start + Elems(group + [j]))
  {
    var later := Members(books, threshold, used, i, j + 1);
    if j !in used && PairScore(books, i, j) >= threshold {
      MembersFrame(books, threshold, used, used + {j}, i, j + 1);
      assert group + ([j] + later) == (group + [j]) + later;
      assert Elems(group + [j]) == Elems(group) + {j};
    }
  }

  /** The grouping loop of `deduplicateBookResults`, with its `used` set. */
  method GroupBooks(books: seq<ProcessedBook>, threshold: real) returns (groups: seq<seq<nat>>)
    ensures groups == Clusters(books, threshold)
  {
    groups := [];
    var used: set<nat> := {};
    for i := 0 to |books|
      invariant groups + ClustersFrom(books, threshold, used, i) == Clusters(books, threshold)
    {
      if i !in used {
        var group;
        group, used := ScanFrom(books, threshold, used, i);
        groups := groups + [group];
      }
    }
  }

  /** Source priority for the election: Google Books 3, Open Library 2, LIBRIS 1, anything else 0. */
  function Priority(source: string): (n: int)
    ensures 0 <= n <= 3
    ensures n == 3 <==> source == GoogleBooks
    ensures n == 2 <==> source == OpenLibrary
    ensures n == 1 <==> source == Libris
    ensures n == 0 <==> !IsKnownSource(source)
  {
    if source == GoogleBooks then 3
    else if source == OpenLibrary then 2
    else if source == Libris then 1
    else 0
  }

  /** Sort key of the comparator `(a, b) => priority[b.source] - priority[a.source]`. */
  function DescendingPriority(b: ProcessedBook): int {
    -Priority(b.source)
  }

  /** The records of one group, in group order. */
  function GroupRecords(books: seq<ProcessedBook>, group: seq<nat>): (r: seq<ProcessedBook>)
    requires forall a :: 0 <= a < |group| ==> group[a] < |books|
    ensures |r| == |group| && forall a :: 0 <= a < |group| ==> r[a] == books[group[a]]
  {
    seq(|group|, a requires 0 <= a < |group| => books[group[a]])
  }

  /** `group.sort(by descending priority)[0]`: the record kept for a group is a member of highest priority. */
  function Canonical(books: seq<ProcessedBook>, group: seq<nat>): (c: ProcessedBook)
    requires group != []
    requires forall a :: 0 <= a < |group| ==> group[a] < |books|
    ensures exists a :: 0 <= a < |group| && c == books[group[a]]
    ensures forall a :: 0 <= a < |group| ==> Priority(books[group[a]].source) <= Priority(c.source)
  {
    var rs := GroupRecords(books, group);
    SortByHead(rs, DescendingPriority);
    var p := FirstMinIndex(rs, DescendingPriority);
    assert forall q :: 0 <= q < |group| ==> DescendingPriority(rs[p]) <= DescendingPriority(rs[q]);
    SortBy(rs, DescendingPriority)[0]
  }

  /**
   * The canonical record of a group is its member of highest priority; among
   * members of equal priority the earliest wins, because the sort is stable.
   */
  lemma CanonicalIsFirstHighest(books: seq<ProcessedBook>, group: seq<nat>)
    requires group != []
    requires forall a :: 0 <= a < |group| ==> group[a] < |books|
    ensures var p := FirstMinIndex(GroupRecords(books, group), DescendingPriority);
      && Canonical(books, group) == books[group[p]]
      && (forall q :: 0 <= q < |group| ==> Priority(books[group[q]].source) <= Priority(books[group[p]].source))
      && (forall q :: 0 <= q < p ==> Priority(books[group[q]].source) < Priority(books[group[p]].source))
  {
    var rs := GroupRecords(books, group);
    var p := FirstMinIndex(rs, DescendingPriority);
    SortByHead(rs, DescendingPriority);
    assert forall q :: 0 <= q < |group| ==> DescendingPriority(rs[p]) <= DescendingPriority(rs[q]);
    assert forall q :: 0 <= q < p ==> DescendingPriority(rs[q]) > DescendingPriority(rs[p]);
  }
}

/**
 * `deduplicateBookResults`: extracts every usable record from the per-source
 * result lists, groups near-duplicates, keeps one canonical item per group in
 * its own source's list, and records per-result count metadata.
 */
module Deduplication {
  import opened Wrappers
  import opened BookRecords
  import opened Similarity
  import opened Clustering

  /** A count field: a number, or the string `'unknown'`. */
  datatype Count = Number(n: int) | UnknownCount

  datatype DedupInfo = DedupInfo(originalCount: Count, deduplicatedCount: int, removedDuplicates: Count)

  /** The fields of a provider payload the deduplication reads or writes; other fields are carried along unchanged. */
  datatype Payload = Payload(
    items: Option<seq<RawItem>>,       // Google Books
    docs: Option<seq<RawItem>>,        // Open Library
    list: Option<seq<RawItem>>,        // LIBRIS
    totalItems: Option<int>,
    numFound: Option<int>,
    totalFound: Option<int>,
    deduplication: Option<DedupInfo>)

  /** One provider's outcome: its name, its payload (`null` when absent) and its error message. */
  datatype BookResult = BookResult(source: string, results: Option<Payload>, error: Option<string>)

  /** `result.error` is truthy. */
  predicate HasError(r: BookResult) {
    r.error.Some? && r.error.value != ""
  }

  /** `result.error || !result.results`: the entry is copied to the output untouched. */
  predicate PassesThrough(r: BookResult) {
    HasError(r) || r.results.None?
  }

  /** The list of items the entry's source keeps its results in (`items`, `docs` or `list`), or none. */
  function ItemsOf(r: BookResult): seq<RawItem>
    requires r.results.Some?
  {
    var p := r.results.value;
    if r.source == GoogleBooks && p.items.Some? then p.items.value
    else if r.source == OpenLibrary && p.docs.Some? then p.docs.value
    else if r.source == Libris && p.list.Some? then p.list.value
    else []
  }

  /** The record extracted from one item, if the item has a usable title. */
  function BookFor(source: string, index: nat, item: RawItem): (bs: seq<ProcessedBook>)
    ensures |bs| <= 1
    ensures bs != [] ==> IsKnownSource(source)
  {
    var info := ExtractBookInfo(item, source);
    if info.Some? then [ProcessedBook(info.value, item, source, index)] else []
  }

  /** An item yields a record exactly when `extractBookInfo` accepts it, and the record carries what it returned. */
  lemma BookForAccepts(source: string, index: nat, item: RawItem)
    ensures BookFor(source, index, item) != [] <==> ExtractBookInfo(item, source).Some?
    ensures BookFor(source, index, item) != [] ==>
      BookFor(source, index, item) == [ProcessedBook(ExtractBookInfo(item, source).value, item, source, index)]
  {
  }

  /** The records extracted from one entry's items, in item order; items without a usable title are skipped. */
  function BooksOf(source: string, index: nat, items: seq<RawItem>): (bs: seq<ProcessedBook>)
    ensures |bs| <= |items|
    ensures forall b :: b in bs ==> b.source == source && b.sourceIndex == index && IsKnownSource(source)
    ensures forall b :: b in bs ==> b.originalItem in items
    ensures |items| == 1 ==> bs == BookFor(source, index, items[0])
  {
    if items == [] then []
    else
      var n := |items| - 1;
      assert forall x :: x in items[..n] ==> x in items;
      BooksOf(source, index, items[..n]) + BookFor(source, index, items[n])
  }

  /**
   * Extraction works item by item: with the single-item case above, the
   * records of an entry are one per item `extractBookInfo` accepts, in item
   * order.
   */
  lemma {:induction false} BooksOfAppend(source: string, index: nat, a: seq<RawItem>, b: seq<RawItem>)
    ensures BooksOf(source, index, a + b) == BooksOf(source, index, a) + BooksOf(source, index, b)
    decreases |b|
  {
    if b == [] {
      assert a + b == a;
    } else {
      SplitLast(a, b);
      BooksOfAppend(source, index, a, b[..|b| - 1]);
    }
  }

  /** Every item `extractBookInfo` accepts yields its record. */
  lemma BooksOfComplete(source: string, index: nat, items: seq<RawItem>, k: nat)
    requires k < |items|
    ensures forall x :: x in BookFor(source, index, items[k]) ==> x in BooksOf(source, index, items)
  {
    var a, b, c := items[..k], [items[k]], items[k + 1..];
    SplitAround(items, k);
    BooksOfAppend(source, index, a + b, c);
    BooksOfAppend(source, index, a, b);
  }

  lemma SplitLast<T>(a: seq<T>, b: seq<T>)
    requires b != []
    ensures (a + b)[..|a + b| - 1] == a + b[..|b| - 1]
    ensures (a + b)[|a + b| - 1] == b[|b| - 1]
  {
  }

  lemma SplitAround<T>(xs: seq<T>, k: nat)
    requires k < |xs|
    ensures xs == (xs[..k] + [xs[k]]) + xs[k + 1..]
  {
  }

  /** `processedBooks` after the extraction loop over `results`. */
  function Extracted(results: seq<BookResult>): (bs: seq<ProcessedBook>)
    ensures forall b :: b in bs ==>
      && b.sourceIndex < |results|
      && !PassesThrough(results[b.sourceIndex])
      && results[b.sourceIndex].source == b.source
      && IsKnownSource(b.source)
      && b.originalItem in ItemsOf(results[b.sourceIndex])
  {
    if results == [] then []
    else
      var n := |results| - 1;
      var last := results[n];
      var prev := Extracted(results[..n]);
      assert forall k :: 0 <= k < n ==> results[..n][k] == results[k];
      if PassesThrough(last) then prev else prev + BooksOf(last.source, n, ItemsOf(last))
  }

  /** Output indices never decrease along `bs`. */
  predicate IndicesInOrder(bs: seq<ProcessedBook>) {
    forall i, j :: 0 <= i < j < |bs| ==> bs[i].sourceIndex <= bs[j].sourceIndex
  }

  lemma IndicesInOrderAppend(prev: seq<ProcessedBook>, tail: seq<ProcessedBook>, n: nat)
    requires IndicesInOrder(prev)
    requires forall b :: b in prev ==> b.sourceIndex < n
    requires forall b :: b in tail ==> b.sourceIndex == n
    ensures IndicesInOrder(prev + tail)
  {
    var bs := prev + tail;
    assert forall j :: |prev| <= j < |bs| ==> bs[j] == tail[j - |prev|];
    assert forall i :: 0 <= i < |prev| ==> bs[i] == prev[i];
  }

  /** The records come entry by entry: their output indices never decrease. */
  lemma {:induction false} ExtractedOrdered(results: seq<BookResult>)
    ensures IndicesInOrder(Extracted(results))
  {
    if results != [] {
      var n := |results| - 1;
      ExtractedOrdered(results[..n]);
      if !PassesThrough(results[n]) {
        IndicesInOrderAppend(Extracted(results[..n]), BooksOf(results[n].source, n, ItemsOf(results[n])), n);
      }
    }
  }

  /** Every item of a non-pass-through entry that `extractBookInfo` accepts is extracted, pointing at that entry. */
  lemma {:induction false} ExtractedComplete(results: seq<BookResult>, i: nat, k: nat)
    requires i < |results| && !PassesThrough(results[i])
    requires k < |ItemsOf(results[i])|
    ensures forall x :: x in BookFor(results[i].source, i, ItemsOf(results[i])[k]) ==> x in Extracted(results)
  {
    var n := |results| - 1;
    forall x | x in BookFor(results[i].source, i, ItemsOf(results[i])[k]) ensures x in Extracted(results) {
      if i < n {
        assert results[..n][i] == results[i];
        ExtractedComplete(results[..n], i, k);
        ExtractedGrows(results, n, x);
      } else {
        assert i == n;
        BooksOfComplete(results[n].source, n, ItemsOf(results[n]), k);
        ExtractedTakesLast(results, n, x);
      }
    }
  }

  /** A record extracted from the earlier entries stays extracted when one more entry follows. */
  lemma ExtractedGrows(results: seq<BookResult>, n: nat, x: ProcessedBook)
    requires n + 1 == |results| && x in Extracted(results[..n])
    ensures x in Extracted(results)
  {
  }

  /** A record of the last entry's items is extracted when that entry is not passed through. */
  lemma ExtractedTakesLast(results: seq<BookResult>, n: nat, x: ProcessedBook)
    requires n + 1 == |results| && !PassesThrough(results[n])
    requires x in BooksOf(results[n].source, n, ItemsOf(results[n]))
    ensures x in Extracted(results)
  {
  }

  /** `{...result, results: {...result.results, items: [], docs: [], list: []}}`. */
  function Emptied(r: BookResult): (e: BookResult)
    requires r.results.Some?
  {
    r.(results := Some(r.results.value.(items := Some([]), docs := Some([]), list := Some([]))))
  }

  /** `deduplicatedResults` after the extraction loop: pass-through entries as they are, the others emptied. */
  function Skeleton(results: seq<BookResult>): (out: seq<BookResult>)
    ensures |out| == |results|
    ensures forall i :: 0 <= i < |results| && PassesThrough(results[i]) ==> out[i] == results[i]
    ensures forall i :: 0 <= i < |results| && !PassesThrough(results[i]) ==> out[i] == Emptied(results[i])
  {
    if results == [] then []
    else
      var n := |results| - 1;
      var last := results[n];
      assert forall k :: 0 <= k < n ==> results[..n][k] == results[k];
      Skeleton(results[..n]) + [if PassesThrough(last) then last else Emptied(last)]
  }

  /** Appends `item` to the list `source` keeps its results in; a payload-less entry or an unknown source is left alone. */
  function AddItem(r: BookResult, source: string, item: RawItem): BookResult {
    if r.results.None? then r
    else
      var p := r.results.value;
      if source == GoogleBooks then r.(results := Some(p.(items := Some(p.items.GetOr([]) + [item]))))
      else if source == OpenLibrary then r.(results := Some(p.(docs := Some(p.docs.GetOr([]) + [item]))))
      else if source == Libris then r.(results := Some(p.(list := Some(p.list.GetOr([]) + [item]))))
      else r
  }

  /** Groups that are non-empty and index only existing records. */
  predicate ValidGroups(books: seq<ProcessedBook>, groups: seq<seq<nat>>) {
    forall g :: 0 <= g < |groups| ==>
      groups[g] != [] && forall a :: 0 <= a < |groups[g]| ==> groups[g][a] < |books|
  }

  predicate TargetsIn(books: seq<ProcessedBook>, n: nat) {
    forall b :: b in books ==> b.sourceIndex < n
  }

  /** The output entries after the canonical record of each of `groups`, in order, was added to its own entry. */
  function Placed(out: seq<BookResult>, books: seq<ProcessedBook>, groups: seq<seq<nat>>): (r: seq<BookResult>)
    requires ValidGroups(books, groups) && TargetsIn(books, |out|)
    ensures |r| == |out|
  {
    if groups == [] then out
    else
      var n := |groups| - 1;
      var prev := Placed(out, books, groups[..n]);
      var best := Canonical(books, groups[n]);
      assert best in books by {
        CanonicalIsFirstHighest(books, groups[n]);
      }
      prev[best.sourceIndex := AddItem(prev[best.sourceIndex], best.source, best.originalItem)]
  }

  /** `[item]` when a record elected for entry `i` under `source` is `best`, else nothing. */
  function Delta(best: ProcessedBook, i: nat, source: string): seq<RawItem> {
    if best.sourceIndex == i && best.source == source then [best.originalItem] else []
  }

  /** The original items of the canonical records that go to entry `i` under `source`, in group order. */
  function KeptFor(books: seq<ProcessedBook>, groups: seq<seq<nat>>, i: nat, source: string): seq<RawItem>
    requires ValidGroups(books, groups)
  {
    if groups == [] then []
    else
      var n := |groups| - 1;
      var best := Canonical(books, groups[n]);
      KeptFor(books, groups[..n], i, source) + Delta(best, i, source)
  }

  /** `totalItems || numFound || total_found || 'unknown'`: the first non-zero count, else `unknown`. */
  function OriginalCount(p: Payload): (c: Count)
    ensures c == UnknownCount <==> p.totalItems.GetOr(0) == 0 && p.numFound.GetOr(0) == 0 && p.totalFound.GetOr(0) == 0
    ensures c.Number? ==> c.n != 0 && (c == Number(p.totalItems.GetOr(0)) || c == Number(p.numFound.GetOr(0)) || c == Number(p.totalFound.GetOr(0)))
    ensures p.totalItems.GetOr(0) != 0 ==> c == Number(p.totalItems.value)
  {
    if p.totalItems.Some? && p.totalItems.value != 0 then Number(p.totalItems.value)
    else if p.numFound.Some? && p.numFound.value != 0 then Number(p.numFound.value)
    else if p.totalFound.Some? && p.totalFound.value != 0 then Number(p.totalFound.value)
    else UnknownCount
  }

  /** `(items?.length || 0) + (docs?.length || 0) + (list?.length || 0)`. */
  function KeptCount(p: Payload): nat {
    |p.items.GetOr([])| + |p.docs.GetOr([])| + |p.list.GetOr([])|
  }

  /**
   * The metadata pass over one output entry: an entry with an error or no
   * payload is left alone; any other gets only its `deduplication` field set,
   * whose removed count is the original count minus the kept one.
   */
  function WithMetadata(r: BookResult): (w: BookResult)
    ensures PassesThrough(r) ==> w == r
    ensures !PassesThrough(r) ==>
      && w.results.Some? && w.results.value.deduplication.Some?
      && w == r.(results := Some(r.results.value.(deduplication := w.results.value.deduplication)))
      && var d := w.results.value.deduplication.value;
      && d.originalCount == OriginalCount(r.results.value)
      && d.deduplicatedCount == KeptCount(r.results.value)
      && (d.originalCount.Number? ==> d.removedDuplicates == Number(d.originalCount.n - d.deduplicatedCount))
      && (d.originalCount == UnknownCount ==> d.removedDuplicates == UnknownCount)
  {
    if !HasError(r) && r.results.Some? then
      var p := r.results.value;
      var original := OriginalCount(p);
      var kept := KeptCount(p);
      var removed := if original.Number? then Number(original.n - kept) else UnknownCount;
      r.(results := Some(p.(deduplication := Some(DedupInfo(original, kept, removed)))))
    else r
  }

  /** The groups `deduplicateBookResults` forms over the records extracted from `results`. */
  function Groups(results: seq<BookResult>, threshold: real): (groups: seq<seq<nat>>)
    ensures ValidGroups(Extracted(results), groups)
  {
    var books := Extracted(results);
    ClustersAreGreedy(books, threshold);
    Clusters(books, threshold)
  }

  /** The value `deduplicateBookResults(results, threshold)` returns. */
  function Deduplicated(results: seq<BookResult>, threshold: real): (out: seq<BookResult>)
    ensures |out| == |results|
  {
    var placed := Placed(Skeleton(results), Extracted(results), Groups(results, threshold));
    seq(|placed|, i requires 0 <= i < |placed| => WithMetadata(placed[i]))
  }

  /** The inner extraction loop over one entry's items. */
  method ExtractItems(source: string, index: nat, items: seq<RawItem>) returns (books: seq<ProcessedBook>)
    ensures books == BooksOf(source, index, items)
  {
    books := [];
    for m := 0 to |items|
      invariant books == BooksOf(source, index, items[..m])
    {
      assert items[..m + 1][..m] == items[..m];
      var bookInfo := ExtractBookInfo(items[m], source);
      if bookInfo.Some? {
        books := books + [ProcessedBook(bookInfo.value, items[m], source, index)];
      }
      assert books == BooksOf(source, index, items[..m]) + BookFor(source, index, items[m]);
    }
    assert items[..|items|] == items;
  }

  /** The extraction loop: the skeleton of the output and the records to deduplicate. */
  method ExtractAll(searchResults: seq<BookResult>)
    returns (deduplicatedResults: seq<BookResult>, processedBooks: seq<ProcessedBook>)
    ensures deduplicatedResults == Skeleton(searchResults)
    ensures processedBooks == Extracted(searchResults)
  {
    deduplicatedResults := [];
    processedBooks := [];
    for k := 0 to |searchResults|
      invariant deduplicatedResults == Skeleton(searchResults[..k])
      invariant processedBooks == Extracted(searchResults[..k])
    {
      assert searchResults[..k + 1][..k] == searchResults[..k];
      var result := searchResults[k];
      if PassesThrough(result) {
        deduplicatedResults := deduplicatedResults + [result];
      } else {
        var books := ExtractItems(result.source, |deduplicatedResults|, ItemsOf(result));
        processedBooks := processedBooks + books;
        deduplicatedResults := deduplicatedResults + [Emptied(result)];
      }
    }
    assert searchResults[..|searchResults|] == searchResults;
  }

  /** The loop that adds each group's canonical record to the entry it came from. */
  method PlaceAll(skeleton: seq<BookResult>, processedBooks: seq<ProcessedBook>, groups: seq<seq<nat>>)
    returns (deduplicatedResults: seq<BookResult>)
    requires ValidGroups(processedBooks, groups) && TargetsIn(processedBooks, |skeleton|)
    ensures deduplicatedResults == Placed(skeleton, processedBooks, groups)
  {
    deduplicatedResults := skeleton;
    for g := 0 to |groups|
      invariant deduplicatedResults == Placed(skeleton, processedBooks, groups[..g])
    {
      assert groups[..g + 1][..g] == groups[..g];
      var best := Canonical(processedBooks, groups[g]);
      CanonicalIsFirstHighest(processedBooks, groups[g]);
      var resultIndex := best.sourceIndex;
      var targetResult := deduplicatedResults[resultIndex];
      deduplicatedResults := deduplicatedResults[resultIndex := AddItem(targetResult, best.source, best.originalItem)];
    }
    assert groups[..|groups|] == groups;
  }

  /** The metadata loop, updating each entry in place. */
  method AnnotateAll(placed: seq<BookResult>) returns (deduplicatedResults: seq<BookResult>)
    ensures deduplicatedResults == seq(|placed|, i requires 0 <= i < |placed| => WithMetadata(placed[i]))
  {
    deduplicatedResults := placed;
    for k := 0 to |deduplicatedResults|
      invariant |deduplicatedResults| == |placed|
      invariant forall i :: 0 <= i < k ==> deduplicatedResults[i] == WithMetadata(placed[i])
      invariant forall i :: k <= i < |placed| ==> deduplicatedResults[i] == placed[i]
    {
      deduplicatedResults := deduplicatedResults[k := WithMetadata(deduplicatedResults[k])];
    }
  }

  /** `deduplicateBookResults(searchResults, similarityThreshold)`. */
  method DeduplicateBookResults(searchResults: seq<BookResult>, similarityThreshold: real)
    returns (deduplicatedResults: seq<BookResult>)
    ensures deduplicatedResults == Deduplicated(searchResults, similarityThreshold)
  {
    var skeleton, processedBooks := ExtractAll(searchResults);
    var groups := GroupBooks(processedBooks, similarityThreshold);
    assert groups == Groups(searchResults, similarityThreshold);
    var placed := PlaceAll(skeleton, processedBooks, groups);
    deduplicatedResults := AnnotateAll(placed);
  }

  // ---------------------------------------------------------------------
  // What the output holds
  // ---------------------------------------------------------------------

  /** Every record was extracted under one of the three known sources. */
  predicate AllKnown(books: seq<ProcessedBook>) {
    forall b :: b in books ==> IsKnownSource(b.source)
  }

  /** A group's canonical record is one of the records. */
  lemma CanonicalIn(books: seq<ProcessedBook>, groups: seq<seq<nat>>, g: nat)
    requires ValidGroups(books, groups) && g < |groups|
    ensures Canonical(books, groups[g]) in books
  {
    CanonicalIsFirstHighest(books, groups[g]);
  }

  lemma ValidPrefix(books: seq<ProcessedBook>, groups: seq<seq<nat>>, n: nat)
    requires ValidGroups(books, groups) && n <= |groups|
    ensures ValidGroups(books, groups[..n])
  {
    assert forall g :: 0 <= g < n ==> groups[..n][g] == groups[g];
  }

  /** An entry no record points at is left exactly as it was. */
  lemma {:induction false} PlacedUntargeted(out: seq<BookResult>, books: seq<ProcessedBook>, groups: seq<seq<nat>>, i: nat)
    requires ValidGroups(books, groups) && TargetsIn(books, |out|) && i < |out|
    requires forall b :: b in books ==> b.sourceIndex != i
    ensures Placed(out, books, groups)[i] == out[i]
  {
    if groups != [] {
      var n := |groups| - 1;
      ValidPrefix(books, groups, n);
      PlacedUntargeted(out, books, groups[..n], i);
      CanonicalIn(books, groups, n);
    }
  }

  /** The entry with `a`, `b` and `c` appended to its `items`, `docs` and `list`. */
  function Extend(r: BookResult, a: seq<RawItem>, b: seq<RawItem>, c: seq<RawItem>): BookResult
    requires r.results.Some?
    requires var p := r.results.value; p.items.Some? && p.docs.Some? && p.list.Some?
  {
    var p := r.results.value;
    r.(results := Some(p.(items := Some(p.items.value + a), docs := Some(p.docs.value + b), list := Some(p.list.value + c))))
  }

  lemma AddItemExtends(r: BookResult, a: seq<RawItem>, b: seq<RawItem>, c: seq<RawItem>, best: ProcessedBook, i: nat)
    requires r.results.Some?
    requires var p := r.results.value; p.items.Some? && p.docs.Some? && p.list.Some?
    requires best.sourceIndex == i && IsKnownSource(best.source)
    ensures AddItem(Extend(r, a, b, c), best.source, best.originalItem)
      == Extend(r, a + Delta(best, i, GoogleBooks), b + Delta(best, i, OpenLibrary), c + Delta(best, i, Libris))
  {
    var p := r.results.value;
    var x := best.originalItem;
    if best.source == GoogleBooks {
      assert p.items.value + a + [x] == p.items.value + (a + [x]);
      assert Delta(best, i, OpenLibrary) == [] && Delta(best, i, Libris) == [];
      assert b + [] == b && c + [] == c;
    } else if best.source == OpenLibrary {
      assert p.docs.value + b + [x] == p.docs.value + (b + [x]);
      assert Delta(best, i, GoogleBooks) == [] && Delta(best, i, Libris) == [];
      assert a + [] == a && c + [] == c;
    } else {
      assert p.list.value + c + [x] == p.list.value + (c + [x]);
      assert Delta(best, i, GoogleBooks) == [] && Delta(best, i, OpenLibrary) == [];
      assert a + [] == a && b + [] == b;
    }
  }

  /**
   * An entry whose three lists are present ends up with each list extended by
   * the canonical items elected for it under that list's source, in group order,
   * and with nothing else changed.
   */
  lemma {:induction false} PlacedEntry(out: seq<BookResult>, books: seq<ProcessedBook>, groups: seq<seq<nat>>, i: nat)
    requires ValidGroups(books, groups) && TargetsIn(books, |out|) && AllKnown(books) && i < |out|
    requires out[i].results.Some?
    requires var p := out[i].results.value; p.items.Some? && p.docs.Some? && p.list.Some?
    ensures Placed(out, books, groups)[i]
      == Extend(out[i], KeptFor(books, groups, i, GoogleBooks), KeptFor(books, groups, i, OpenLibrary), KeptFor(books, groups, i, Libris))
  {
    if groups == [] {
      var p := out[i].results.value;
      assert p.items.value + [] == p.items.value && p.docs.value + [] == p.docs.value && p.list.value + [] == p.list.value;
    } else {
      var n := |groups| - 1;
      ValidPrefix(books, groups, n);
      PlacedEntry(out, books, groups[..n], i);
      CanonicalIn(books, groups, n);
      var best := Canonical(books, groups[n]);
      var ka, kb, kc := KeptFor(books, groups[..n], i, GoogleBooks), KeptFor(books, groups[..n], i, OpenLibrary), KeptFor(books, groups[..n], i, Libris);
      if best.sourceIndex == i {
        AddItemExtends(out[i], ka, kb, kc, best, i);
      } else {
        assert ka + [] == ka && kb + [] == kb && kc + [] == kc;
      }
    }
  }

  /** Canonical items kept for entry `i` all come from records that point at `i` under `source`. */
  lemma {:induction false} KeptForEmpty(books: seq<ProcessedBook>, groups: seq<seq<nat>>, i: nat, source: string)
    requires ValidGroups(books, groups)
    requires forall b :: b in books ==> b.sourceIndex == i ==> b.source != source
    ensures KeptFor(books, groups, i, source) == []
  {
    if groups != [] {
      var n := |groups| - 1;
      ValidPrefix(books, groups, n);
      KeptForEmpty(books, groups[..n], i, source);
      CanonicalIn(books, groups, n);
    }
  }

  /** The number of items kept across the entries that receive metadata. */
  function CountedTotal(out: seq<BookResult>): nat {
    if out == [] then 0
    else
      var last := out[|out| - 1];
      CountedTotal(out[..|out| - 1]) + (if PassesThrough(last) then 0 else KeptCount(last.results.value))
  }

  /** Replacing one entry by one that still receives metadata and keeps one more item adds one to the total. */
  lemma {:induction false} CountedTotalUpdate(out: seq<BookResult>, j: nat, r: BookResult)
    requires j < |out| && !PassesThrough(out[j]) && !PassesThrough(r)
    requires KeptCount(r.results.value) == KeptCount(out[j].results.value) + 1
    ensures CountedTotal(out[j := r]) == CountedTotal(out) + 1
  {
    var n := |out| - 1;
    if j < n {
      assert out[j := r][..n] == out[..n][j := r];
      CountedTotalUpdate(out[..n], j, r);
    } else {
      assert out[j := r][..n] == out[..n];
    }
  }

  /** Each group adds exactly one item to the entries that receive metadata. */
  lemma {:induction false} PlacedTotal(out: seq<BookResult>, books: seq<ProcessedBook>, groups: seq<seq<nat>>)
    requires ValidGroups(books, groups) && TargetsIn(books, |out|) && AllKnown(books)
    requires forall b :: b in books ==> !PassesThrough(out[b.sourceIndex])
    ensures |Placed(out, books, groups)| == |out|
    ensures forall k :: 0 <= k < |out| ==> PassesThrough(Placed(out, books, groups)[k]) == PassesThrough(out[k])
    ensures CountedTotal(Placed(out, books, groups)) == CountedTotal(out) + |groups|
  {
    if groups != [] {
      var n := |groups| - 1;
      ValidPrefix(books, groups, n);
      PlacedTotal(out, books, groups[..n]);
      CanonicalIn(books, groups, n);
      var prev := Placed(out, books, groups[..n]);
      var best := Canonical(books, groups[n]);
      CountedTotalUpdate(prev, best.sourceIndex, AddItem(prev[best.sourceIndex], best.source, best.originalItem));
    }
  }

  /** The skeleton keeps no item in the entries that receive metadata. */
  lemma {:induction false} SkeletonTotal(results: seq<BookResult>)
    ensures CountedTotal(Skeleton(results)) == 0
  {
    if results != [] {
      var n := |results| - 1;
      SkeletonTotal(results[..n]);
      assert Skeleton(results)[..n] == Skeleton(results[..n]);
    }
  }

  /** Metadata changes neither which entries receive metadata nor how many items they keep. */
  lemma {:induction false} MetadataTotal(placed: seq<BookResult>)
    ensures CountedTotal(seq(|placed|, i requires 0 <= i < |placed| => WithMetadata(placed[i]))) == CountedTotal(placed)
  {
    if placed != [] {
      var n := |placed| - 1;
      MetadataTotal(placed[..n]);
      assert seq(|placed|, i requires 0 <= i < |placed| => WithMetadata(placed[i]))[..n]
          == seq(n, i requires 0 <= i < n => WithMetadata(placed[..n][i]));
    }
  }

  /** Items kept for entry `i` are items of records that point at `i`. */
  lemma {:induction false} KeptForWithin(books: seq<ProcessedBook>, groups: seq<seq<nat>>, i: nat, source: string, pool: seq<RawItem>)
    requires ValidGroups(books, groups)
    requires forall b :: b in books && b.sourceIndex == i ==> b.originalItem in pool
    ensures forall x :: x in KeptFor(books, groups, i, source) ==> x in pool
  {
    if groups != [] {
      var n := |groups| - 1;
      ValidPrefix(books, groups, n);
      KeptForWithin(books, groups[..n], i, source, pool);
      CanonicalIn(books, groups, n);
    }
  }

  /** An entry with a truthy error or no payload is returned unchanged. */
  lemma DeduplicatedPassThrough(results: seq<BookResult>, threshold: real, i: nat)
    requires i < |results| && PassesThrough(results[i])
    ensures Deduplicated(results, threshold)[i] == results[i]
  {
    PlacedUntargeted(Skeleton(results), Extracted(results), Groups(results, threshold), i);
  }

  /**
   * Entry `r` as returned when `a`, `b` and `c` are the items kept for it:
   * the three lists replaced, the metadata added, everything else as it was.
   */
  function Refilled(r: BookResult, a: seq<RawItem>, b: seq<RawItem>, c: seq<RawItem>): BookResult
    requires r.results.Some?
  {
    var p := r.results.value;
    var original := OriginalCount(p);
    var kept := |a| + |b| + |c|;
    r.(results := Some(p.(
      items := Some(a), docs := Some(b), list := Some(c),
      deduplication := Some(DedupInfo(original, kept,
        if original.Number? then Number(original.n - kept) else UnknownCount)))))
  }

  /**
   * Any other entry keeps its source, its error and its other payload fields,
   * holds in `items`, `docs` and `list` exactly the canonical items elected for
   * it, in group order, and carries metadata whose deduplicated count is the
   * number of those items.
   */
  lemma DeduplicatedEntry(results: seq<BookResult>, threshold: real, i: nat)
    requires i < |results| && !PassesThrough(results[i])
    ensures Deduplicated(results, threshold)[i] == Refilled(results[i],
      KeptFor(Extracted(results), Groups(results, threshold), i, GoogleBooks),
      KeptFor(Extracted(results), Groups(results, threshold), i, OpenLibrary),
      KeptFor(Extracted(results), Groups(results, threshold), i, Libris))
  {
    var books, groups := Extracted(results), Groups(results, threshold);
    var a, b, c := KeptFor(books, groups, i, GoogleBooks), KeptFor(books, groups, i, OpenLibrary), KeptFor(books, groups, i, Libris);
    var placed := Placed(Skeleton(results), books, groups);
    PlacedEntry(Skeleton(results), books, groups, i);
    FilledMetadata(results[i], a, b, c);
    assert Deduplicated(results, threshold)[i] == WithMetadata(placed[i]);
  }

  /** The metadata pass over an emptied entry refilled with `a`, `b` and `c`. */
  lemma FilledMetadata(r: BookResult, a: seq<RawItem>, b: seq<RawItem>, c: seq<RawItem>)
    requires !PassesThrough(r)
    ensures WithMetadata(Extend(Emptied(r), a, b, c)) == Refilled(r, a, b, c)
  {
    var p := r.results.value;
    assert [] + a == a && [] + b == b && [] + c == c;
    var filled := Extend(Emptied(r), a, b, c);
    assert filled == r.(results := Some(p.(items := Some(a), docs := Some(b), list := Some(c))));
  }

  /**
   * The items kept for a non-pass-through entry come from that entry's own
   * original list, and only the list belonging to the entry's source is filled.
   */
  lemma KeptFromOwnList(results: seq<BookResult>, threshold: real, i: nat)
    requires i < |results| && !PassesThrough(results[i])
    ensures
      var books, groups := Extracted(results), Groups(results, threshold);
      var a, b, c := KeptFor(books, groups, i, GoogleBooks), KeptFor(books, groups, i, OpenLibrary), KeptFor(books, groups, i, Libris);
      && (forall x :: x in a + b + c ==> x in ItemsOf(results[i]))
      && (results[i].source != GoogleBooks ==> a == [])
      && (results[i].source != OpenLibrary ==> b == [])
      && (results[i].source != Libris ==> c == [])
  {
    var books, groups := Extracted(results), Groups(results, threshold);
    KeptForWithin(books, groups, i, GoogleBooks, ItemsOf(results[i]));
    KeptForWithin(books, groups, i, OpenLibrary, ItemsOf(results[i]));
    KeptForWithin(books, groups, i, Libris, ItemsOf(results[i]));
    if results[i].source != GoogleBooks {
      KeptForEmpty(books, groups, i, GoogleBooks);
    }
    if results[i].source != OpenLibrary {
      KeptForEmpty(books, groups, i, OpenLibrary);
    }
    if results[i].source != Libris {
      KeptForEmpty(books, groups, i, Libris);
    }
  }

  /** Every group contributes exactly one item: the deduplicated counts add up to the number of groups. */
  lemma DeduplicatedTotal(results: seq<BookResult>, threshold: real)
    ensures CountedTotal(Deduplicated(results, threshold)) == |Groups(results, threshold)|
  {
    var books, groups := Extracted(results), Groups(results, threshold);
    var skeleton := Skeleton(results);
    SkeletonTotal(results);
    PlacedTotal(skeleton, books, groups);
    MetadataTotal(Placed(skeleton, books, groups));
  }
}

/**
 * `calculateStringSimilarity` and `calculateSimilarity`: scores in [0, 1],
 * computed over `real` (every value is a ratio of lengths or a fixed weight).
 */
module Similarity {
  import opened Wrappers
  import opened EditDistance
  import opened BookRecords

  /** `calculateStringSimilarity(s1, s2)`: one minus the edit distance relative to the longer string; 1 for two empty strings. */
  function StringSimilarity(s1: string, s2: string): (r: real)
    ensures 0.0 <= r <= 1.0
    ensures r == 1.0 <==> s1 == s2
  {
    var longer := if |s1| > |s2| then s1 else s2;
    var shorter := if |s1| > |s2| then s2 else s1;
    if |longer| == 0 then 1.0
    else
      var d := Distance(longer, shorter);
      DistanceBounds(longer, shorter);
      DistanceZeroIffEqual(longer, shorter);
      RatioFacts(|longer| - d, |longer|);
      (|longer| - d) as real / |longer| as real
  }

  /** The order of the two arguments does not matter. */
  lemma StringSimilaritySymmetric(s1: string, s2: string)
    ensures StringSimilarity(s1, s2) == StringSimilarity(s2, s1)
  {
    DistanceSymmetric(s1, s2);
  }

  /** Some author of `others` is close enough to `a` (similarity above 0.8). */
  predicate HasCloseAuthor(a: string, others: seq<string>) {
    exists b :: b in others && StringSimilarity(a, b) > 0.8
  }

  /** `book1.authors.filter(a1 => book2.authors.some(...))`. */
  function CommonAuthors(authors1: seq<string>, authors2: seq<string>): (r: seq<string>)
    ensures |r| <= |authors1|
    ensures forall a :: a in r ==> a in authors1 && HasCloseAuthor(a, authors2)
    ensures forall i :: 0 <= i < |authors1| && HasCloseAuthor(authors1[i], authors2) ==> authors1[i] in r
    ensures |authors1| == 1 ==> r == (if HasCloseAuthor(authors1[0], authors2) then authors1 else [])
  {
    if authors1 == [] then []
    else
      var rest := CommonAuthors(authors1[1..], authors2);
      assert forall i :: 1 <= i < |authors1| ==> authors1[i] == authors1[1..][i - 1];
      if HasCloseAuthor(authors1[0], authors2) then [authors1[0]] + rest else rest
  }

  /**
   * The filter works piece by piece. With the single-author case above, the
   * kept authors are the close ones of the first list, in order and with
   * their repetitions.
   */
  lemma {:induction false} CommonAuthorsAppend(a: seq<string>, b: seq<string>, authors2: seq<string>)
    ensures CommonAuthors(a + b, authors2) == CommonAuthors(a, authors2) + CommonAuthors(b, authors2)
    decreases |a|
  {
    if a == [] {
      assert a + b == b;
    } else {
      assert (a + b)[0] == a[0];
      assert (a + b)[1..] == a[1..] + b;
      CommonAuthorsAppend(a[1..], b, authors2);
    }
  }

  /** The author part of the score: shared authors over the larger list size, 0 when either list is empty. */
  function AuthorSimilarity(authors1: seq<string>, authors2: seq<string>): (r: real)
    ensures 0.0 <= r <= 1.0
    ensures (authors1 == [] || authors2 == []) ==> r == 0.0
  {
    if |authors1| > 0 && |authors2| > 0 then
      var common := |CommonAuthors(authors1, authors2)|;
      var larger := Max(|authors1|, |authors2|);
      RatioFacts(common, larger);
      common as real / larger as real
    else 0.0
  }

  lemma RatioFacts(num: int, den: int)
    requires 0 < den && 0 <= num <= den
    ensures 0.0 <= num as real / den as real <= 1.0
    ensures num as real / den as real == 1.0 <==> num == den
  {
    var q := num as real / den as real;
    assert q * den as real == num as real;
  }

  /** Both ISBNs present, non-empty and equal, compared as raw strings. */
  predicate IsbnMatch(b1: BookInfo, b2: BookInfo) {
    && b1.isbn.Some? && b1.isbn.value != ""
    && b2.isbn.Some? && b2.isbn.value != ""
    && b1.isbn.value == b2.isbn.value
  }

  /**
   * `calculateSimilarity(book1, book2)`: 0 if either is missing; 0.95 on a raw
   * ISBN match; otherwise 0.7 title similarity plus 0.3 author similarity.
   */
  function Score(book1: Option<BookInfo>, book2: Option<BookInfo>): (r: real)
    ensures 0.0 <= r <= 1.0
    ensures (book1.None? || book2.None?) ==> r == 0.0
    ensures book1.Some? && book2.Some? && IsbnMatch(book1.value, book2.value) ==> r == 0.95
    ensures book1.Some? && book2.Some? && !IsbnMatch(book1.value, book2.value) ==>
      r == 0.7 * StringSimilarity(book1.value.title, book2.value.title)
         + 0.3 * AuthorSimilarity(book1.value.authors, book2.value.authors)
  {
    if book1.None? || book2.None? then 0.0
    else if IsbnMatch(book1.value, book2.value) then 0.95
    else
      var titleSimilarity := StringSimilarity(book1.value.title, book2.value.title);
      var authorSimilarity := AuthorSimilarity(book1.value.authors, book2.value.authors);
      0.0 + titleSimilarity * 0.7 + authorSimilarity * 0.3
  }

  /** Every author of a non-empty list finds itself, so a list agrees fully with itself. */
  lemma {:induction false} AuthorSimilaritySelf(authors: seq<string>)
    requires authors != []
    ensures AuthorSimilarity(authors, authors) == 1.0
  {
    forall i | 0 <= i < |authors| ensures HasCloseAuthor(authors[i], authors) {
      assert authors[i] in authors && StringSimilarity(authors[i], authors[i]) == 1.0;
    }
    CommonAuthorsAll(authors, authors);
    RatioFacts(|authors|, |authors|);
  }

  /** When every author has a close match, all of them are kept. */
  lemma {:induction false} CommonAuthorsAll(authors1: seq<string>, authors2: seq<string>)
    requires forall i :: 0 <= i < |authors1| ==> HasCloseAuthor(authors1[i], authors2)
    ensures CommonAuthors(authors1, authors2) == authors1
  {
    if authors1 != [] {
      CommonAuthorsAll(authors1[1..], authors2);
    }
  }

  /** A record scored against itself: 0.95 with an ISBN, 1 with authors and no ISBN, 0.7 with neither. */
  lemma ScoreSelf(b: BookInfo)
    ensures Score(Some(b), Some(b)) ==
      if b.isbn.Some? && b.isbn.value != "" then 0.95
      else if b.authors != [] then 1.0
      else 0.7
  {
    if b.authors != [] {
      AuthorSimilaritySelf(b.authors);
    }
  }

  /** Two records whose raw ISBNs agree score exactly 0.95, whatever their titles and authors. */
  lemma IsbnMatchScore(t1: string, t2: string, a1: seq<string>, a2: seq<string>, isbn: string)
    requires isbn != ""
    ensures Score(Some(BookInfo(t1, a1, Some(isbn))), Some(BookInfo(t2, a2, Some(isbn)))) == 0.95
  {
  }
}

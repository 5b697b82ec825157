/**
 * The response summarisers: reconstruction of OpenAlex abstracts, the
 * per-work summaries of OpenAlex and Crossref, the envelopes around them, and
 * the numbered text listing of search results.
 */
module Formatters {
  import opened Wrappers
  import opened Strings
  import opened StableSort

  // ---------------------------------------------------------------------
  // Small JavaScript idioms
  // ---------------------------------------------------------------------

  /** A string option is truthy when present and non-empty. */
  predicate Truthy(s: Option<string>) {
    s.Some? && s.value != ""
  }

  /** `s || fallback` for an optional string. */
  function TextOr(s: Option<string>, fallback: string): (r: string)
    ensures Truthy(s) ==> r == s.value
    ensures !Truthy(s) ==> r == fallback
  {
    if Truthy(s) then s.value else fallback
  }

  /** `n || fallback` for an optional number: absent and `0` both give the fallback. */
  function NumberOr(n: Option<int>, fallback: int): (r: int)
    ensures n.Some? && n.value != 0 ==> r == n.value
    ensures n.None? || n.value == 0 ==> r == fallback
  {
    if n.Some? && n.value != 0 then n.value else fallback
  }

  /** `xs.slice(0, n)`. */
  function Take<T>(xs: seq<T>, n: nat): (r: seq<T>)
    ensures |r| == if |xs| <= n then |xs| else n
    ensures forall k :: 0 <= k < |r| ==> r[k] == xs[k]
  {
    if |xs| <= n then xs else xs[..n]
  }

  // ---------------------------------------------------------------------
  // Abstract reconstruction
  // ---------------------------------------------------------------------

  /** An inverted index as `Object.entries` lists it: each word with the positions it occurs at. */
  type InvertedIndex = seq<(string, seq<int>)>

  function Position(w: (string, int)): int { w.1 }

  /** The (word, position) pairs of one entry, in the order of its positions. */
  function EntryPairs(e: (string, seq<int>)): (ps: seq<(string, int)>)
    ensures |ps| == |e.1|
    ensures forall k :: 0 <= k < |ps| ==> ps[k] == (e.0, e.1[k])
  {
    seq(|e.1|, k requires 0 <= k < |e.1| => (e.0, e.1[k]))
  }

  /** Every (word, position) pair of the index, entry by entry. */
  function Pairs(index: InvertedIndex): (ps: seq<(string, int)>)
    ensures |index| == 1 ==> ps == EntryPairs(index[0])
  {
    if index == [] then []
    else
      var n := |index| - 1;
      Pairs(index[..n]) + EntryPairs(index[n])
  }

  /** The collected pairs are exactly the (word, position) pairs of the index's entries. */
  lemma {:induction false} PairsMembers(index: InvertedIndex)
    ensures forall p :: p in Pairs(index) ==> exists e :: e in index && p.0 == e.0 && p.1 in e.1
    ensures forall e, pos :: e in index && pos in e.1 ==> (e.0, pos) in Pairs(index)
  {
    if index != [] {
      var n := |index| - 1;
      PairsMembers(index[..n]);
      assert Pairs(index) == Pairs(index[..n]) + EntryPairs(index[n]);
      assert forall e :: e in index[..n] ==> e in index;
      assert forall e :: e in index ==> e in index[..n] || e == index[n];
      var last := EntryPairs(index[n]);
      forall pos | pos in index[n].1 ensures (index[n].0, pos) in last {
        var k :| 0 <= k < |index[n].1| && index[n].1[k] == pos;
        assert last[k] == (index[n].0, pos);
      }
    }
  }

  /** The pairs of two runs of entries are the pairs of the first followed by those of the second. */
  lemma {:induction false} PairsAppend(a: InvertedIndex, b: InvertedIndex)
    ensures Pairs(a + b) == Pairs(a) + Pairs(b)
    decreases |b|
  {
    if b == [] {
      assert a + b == a;
    } else {
      var n := |b| - 1;
      assert (a + b)[..|a + b| - 1] == a + b[..n];
      assert (a + b)[|a + b| - 1] == b[n];
      PairsAppend(a, b[..n]);
    }
  }

  function WordsOf(ws: seq<(string, int)>): (r: seq<string>)
    ensures |r| == |ws| && forall k :: 0 <= k < |ws| ==> r[k] == ws[k].0
  {
    seq(|ws|, k requires 0 <= k < |ws| => ws[k].0)
  }

  /** The pairs in position order; pairs at the same position keep their index order. */
  function Ordered(index: InvertedIndex): (ws: seq<(string, int)>)
    ensures multiset(ws) == multiset(Pairs(index))
    ensures SortedBy(ws, Position)
  {
    SortBy(Pairs(index), Position)
  }

  /** The abstract text before truncation. */
  function AbstractText(index: InvertedIndex): string {
    Join(WordsOf(Ordered(index)), " ")
  }

  /** `reconstructAbstract(invertedIndex)`. */
  method ReconstructAbstract(index: InvertedIndex) returns (abstractText: string)
    ensures abstractText == Abbreviate(AbstractText(index), 300)
    ensures |abstractText| <= 303
  {
    var words: seq<(string, int)> := [];
    for e := 0 to |index|
      invariant words == Pairs(index[..e])
    {
      assert index[..e + 1][..e] == index[..e];
      var (word, positions) := index[e];
      ghost var before := words;
      for p := 0 to |positions|
        invariant words == before + EntryPairs((word, positions[..p]))
      {
        assert EntryPairs((word, positions[..p + 1])) == EntryPairs((word, positions[..p])) + [(word, positions[p])];
        words := words + [(word, positions[p])];
      }
      assert positions[..|positions|] == positions;
    }
    assert index[..|index|] == index;
    var sorted := SortBy(words, Position);
    var text := Join(WordsOf(sorted), " ");
    abstractText := if |text| > 300 then text[..300] + "..." else text;
  }

  /** The reconstructed words are exactly the index's (word, position) pairs, in non-decreasing position order. */
  lemma AbstractWords(index: InvertedIndex)
    ensures multiset(Ordered(index)) == multiset(Pairs(index))
    ensures forall i, j :: 0 <= i < j < |Ordered(index)| ==> Ordered(index)[i].1 <= Ordered(index)[j].1
    ensures |WordsOf(Ordered(index))| == |Pairs(index)|
    ensures forall p :: WithKey(Ordered(index), Position, p) == WithKey(Pairs(index), Position, p)
  {
    forall p ensures WithKey(Ordered(index), Position, p) == WithKey(Pairs(index), Position, p) {
      SortByStable(Pairs(index), Position, p);
    }
    var ws := Ordered(index);
    assert SortedBy(ws, Position);
    forall i, j | 0 <= i < j < |ws| ensures ws[i].1 <= ws[j].1 {
      assert Position(ws[i]) <= Position(ws[j]);
    }
  }

  // ---------------------------------------------------------------------
  // Authors text
  // ---------------------------------------------------------------------

  /** The authors line: the names joined, with ` et al.` when the work has more than three authors. */
  function AuthorsText(names: seq<string>, authorCount: nat): (r: string)
    ensures names == [] ==> r == "Unknown authors"
    ensures names != [] && authorCount > 3 ==> r == Join(names, ", ") + " et al."
    ensures names != [] && authorCount <= 3 ==> r == Join(names, ", ")
  {
    if |names| > 0 then Join(names, ", ") + (if authorCount > 3 then " et al." else "")
    else "Unknown authors"
  }

  /** The non-empty strings of `xs`, in order (`.filter(Boolean)` / `.filter(name => name.length > 0)`). */
  function NonEmpty(xs: seq<Option<string>>): (r: seq<string>)
    ensures |r| <= |xs|
    ensures forall k :: 0 <= k < |r| ==> r[k] != ""
    ensures forall s :: s in r <==> Some(s) in xs && s != ""
    ensures |xs| == 1 ==> r == if Truthy(xs[0]) then [xs[0].value] else []
  {
    if xs == [] then []
    else
      var n := |xs| - 1;
      assert forall x :: x in xs <==> x in xs[..n] || x == xs[n];
      NonEmpty(xs[..n]) + (if Truthy(xs[n]) then [xs[n].value] else [])
  }

  /** Filtering keeps the order: the strings kept from `a + b` are those kept from `a`, then from `b`. */
  lemma {:induction false} NonEmptyAppend(a: seq<Option<string>>, b: seq<Option<string>>)
    ensures NonEmpty(a + b) == NonEmpty(a) + NonEmpty(b)
    decreases |b|
  {
    if b == [] {
      assert a + b == a;
    } else {
      var n := |b| - 1;
      assert (a + b)[..|a + b| - 1] == a + b[..n];
      assert (a + b)[|a + b| - 1] == b[n];
      NonEmptyAppend(a, b[..n]);
    }
  }

  /** Every name in an authors line comes from the first three authors, at most three of them, and none is empty. */
  lemma AuthorNamesBounded(candidates: seq<Option<string>>)
    ensures |NonEmpty(Take(candidates, 3))| <= 3
    ensures forall s :: s in NonEmpty(Take(candidates, 3)) ==> s != "" && Some(s) in candidates[..if |candidates| < 3 then |candidates| else 3]
  {
    var firsts := Take(candidates, 3);
    assert firsts == candidates[..if |candidates| < 3 then |candidates| else 3];
  }

  // ---------------------------------------------------------------------
  // OpenAlex
  // ---------------------------------------------------------------------

  datatype Concept = Concept(displayName: Option<string>, score: Option<real>)

  datatype OpenAccess = OpenAccess(isOa: Option<bool>, oaUrl: Option<string>)

  /** An OpenAlex work; `authorNames` holds each authorship's `author.display_name`. */
  datatype OpenAlexWork = OpenAlexWork(
    id: Option<string>,
    doi: Option<string>,
    title: Option<string>,
    displayName: Option<string>,
    publicationYear: Option<int>,
    publicationDate: Option<string>,
    citedByCount: Option<int>,
    isOa: Option<bool>,
    authorNames: Option<seq<Option<string>>>,
    journal: Option<string>,
    sourceType: Option<string>,
    abstractIndex: Option<InvertedIndex>,
    concepts: Option<seq<Concept>>,
    openAccess: Option<OpenAccess>,
    language: Option<string>,
    workType: Option<string>)

  datatype OpenAlexSummary = OpenAlexSummary(
    title: string,
    authors: string,
    year: Option<int>,
    publicationDate: Option<string>,
    doi: Option<string>,
    citations: int,
    openAccess: bool,
    openAccessUrl: Option<string>,
    journal: Option<string>,
    sourceType: Option<string>,
    abstractText: string,
    workType: Option<string>,
    language: Option<string>,
    concepts: seq<Option<string>>,
    openalexId: Option<string>,
    url: Option<string>)

  /** The concepts scored above 0.3, in order. */
  function HighScoring(cs: seq<Concept>): (r: seq<Concept>)
    ensures |r| <= |cs|
    ensures |cs| == 1 ==> r == if cs[0].score.Some? && cs[0].score.value > 0.3 then cs else []
  {
    if cs == [] then []
    else
      var n := |cs| - 1;
      var c := cs[n];
      HighScoring(cs[..n]) + (if c.score.Some? && c.score.value != 0.0 && c.score.value > 0.3 then [c] else [])
  }

  /** The concepts kept are exactly those of `cs` scored above 0.3. */
  lemma {:induction false} HighScoringMembers(cs: seq<Concept>)
    ensures forall c :: c in HighScoring(cs) <==> c in cs && c.score.Some? && c.score.value > 0.3
  {
    if cs != [] {
      var n := |cs| - 1;
      HighScoringMembers(cs[..n]);
      assert forall c :: c in cs <==> c in cs[..n] || c == cs[n];
    }
  }

  /** Filtering keeps the order: the concepts kept from `a + b` are those kept from `a`, then from `b`. */
  lemma {:induction false} HighScoringAppend(a: seq<Concept>, b: seq<Concept>)
    ensures HighScoring(a + b) == HighScoring(a) + HighScoring(b)
    decreases |b|
  {
    if b == [] {
      assert a + b == a;
    } else {
      var n := |b| - 1;
      assert (a + b)[..|a + b| - 1] == a + b[..n];
      assert (a + b)[|a + b| - 1] == b[n];
      HighScoringAppend(a, b[..n]);
    }
  }

  /** `concepts?.filter(c => c.score && c.score > 0.3).slice(0, 3).map(c => c.display_name) || []`. */
  function TopConcepts(cs: Option<seq<Concept>>): (r: seq<Option<string>>)
    ensures |r| <= 3
    ensures cs.None? ==> r == []
    ensures cs.Some? ==> |r| == if |HighScoring(cs.value)| < 3 then |HighScoring(cs.value)| else 3
    ensures cs.Some? ==> forall k :: 0 <= k < |r| ==> r[k] == HighScoring(cs.value)[k].displayName
    ensures cs.Some? ==> forall k :: 0 <= k < |r| ==> exists c :: c in cs.value && c.score.Some? && c.score.value > 0.3 && r[k] == c.displayName
  {
    if cs.None? then []
    else
      var top := Take(HighScoring(cs.value), 3);
      HighScoringMembers(cs.value);
      assert forall k :: 0 <= k < |top| ==> top[k] in HighScoring(cs.value);
      seq(|top|, k requires 0 <= k < |top| => top[k].displayName)
  }

  /** `summarizeOpenAlexWork(work)`, given the abstract reconstructed from its index (empty without one). */
  function SummarizeOpenAlexWork(work: OpenAlexWork, abstractText: string): (s: OpenAlexSummary)
    ensures s.title == (if Truthy(work.displayName) then work.displayName.value else if Truthy(work.title) then work.title.value else "Untitled")
    ensures s.authors == AuthorsText(NonEmpty(Take(work.authorNames.GetOr([]), 3)), |work.authorNames.GetOr([])|)
    ensures s.citations == work.citedByCount.GetOr(0)
    ensures s.openAccess <==> work.isOa == Some(true) || (work.openAccess.Some? && work.openAccess.value.isOa == Some(true))
    ensures s.abstractText == abstractText
    ensures s.concepts == TopConcepts(work.concepts)
    ensures s.year == work.publicationYear && s.publicationDate == work.publicationDate && s.doi == work.doi
    ensures s.openAccessUrl == (if work.openAccess.Some? then work.openAccess.value.oaUrl else None)
    ensures s.journal == work.journal && s.sourceType == work.sourceType
    ensures s.workType == work.workType && s.language == work.language && s.openalexId == work.id
    ensures s.url.Some? <==> Truthy(work.doi)
    ensures s.url.Some? ==> s.url.value == "https://doi.org/" + work.doi.value
  {
    var names := NonEmpty(Take(work.authorNames.GetOr([]), 3));
    var count := |work.authorNames.GetOr([])|;
    OpenAlexSummary(
      title := TextOr(work.displayName, TextOr(work.title, "Untitled")),
      authors := AuthorsText(names, count),
      year := work.publicationYear,
      publicationDate := work.publicationDate,
      doi := work.doi,
      citations := NumberOr(work.citedByCount, 0),
      openAccess := work.isOa == Some(true) || (work.openAccess.Some? && work.openAccess.value.isOa == Some(true)),
      openAccessUrl := if work.openAccess.Some? then work.openAccess.value.oaUrl else None,
      journal := work.journal,
      sourceType := work.sourceType,
      abstractText := abstractText,
      workType := work.workType,
      language := work.language,
      concepts := TopConcepts(work.concepts),
      openalexId := work.id,
      url := if Truthy(work.doi) then Some("https://doi.org/" + work.doi.value) else None)
  }

  /** The abstract `summarizeOpenAlexWork` computes: reconstructed when there is an index, empty otherwise. */
  function OpenAlexAbstract(work: OpenAlexWork): (a: string)
    ensures |a| <= 303
    ensures work.abstractIndex.None? ==> a == ""
    ensures work.abstractIndex.Some? ==> a == Abbreviate(AbstractText(work.abstractIndex.value), 300)
  {
    if work.abstractIndex.Some? then Abbreviate(AbstractText(work.abstractIndex.value), 300) else ""
  }

  /** `summarizeOpenAlexWork(work)`, with the abstract reconstructed by the loop. */
  method SummarizeOpenAlex(work: OpenAlexWork) returns (s: OpenAlexSummary)
    ensures s == SummarizeOpenAlexWork(work, OpenAlexAbstract(work))
  {
    var abstractText := "";
    if work.abstractIndex.Some? {
      abstractText := ReconstructAbstract(work.abstractIndex.value);
    }
    s := SummarizeOpenAlexWork(work, abstractText);
  }

  // ---------------------------------------------------------------------
  // Crossref
  // ---------------------------------------------------------------------

  datatype CrossrefAuthor = CrossrefAuthor(given: Option<string>, family: Option<string>)

  datatype CrossrefWork = CrossrefWork(
    doi: Option<string>,
    title: Option<seq<string>>,
    author: Option<seq<CrossrefAuthor>>,
    publishedPrint: Option<seq<seq<int>>>,     // `published-print.date-parts`
    publishedOnline: Option<seq<seq<int>>>,    // `published-online.date-parts`
    referencedByCount: Option<int>,
    containerTitle: Option<seq<string>>,
    publisher: Option<string>,
    workType: Option<string>,
    abstractText: Option<string>,
    subject: Option<seq<string>>,
    url: Option<string>)

  datatype CrossrefSummary = CrossrefSummary(
    title: string,
    authors: string,
    year: Option<int>,
    doi: Option<string>,
    citations: int,
    journal: Option<string>,
    publisher: Option<string>,
    workType: Option<string>,
    abstractText: string,
    subjects: seq<string>,
    url: Option<string>,
    crossrefUrl: Option<string>)

  /** The text an author's name is trimmed from: `` `${a.given || ''} ${a.family || ''}` ``. */
  function NameText(a: CrossrefAuthor): string {
    TextOr(a.given, "") + " " + TextOr(a.family, "")
  }

  /** `` `${a.given || ''} ${a.family || ''}`.trim() ``. */
  function CrossrefName(a: CrossrefAuthor): (name: string)
    ensures name != [] ==> !IsSpace(name[0]) && !IsSpace(name[|name| - 1])
  {
    Trim(NameText(a))
  }

  /** An author's name is a contiguous piece of the joined given and family names, with only white space cut off. */
  lemma CrossrefNameTrimmed(a: CrossrefAuthor)
    ensures var name, t, i := CrossrefName(a), NameText(a), |NameText(a)| - |TrimStart(NameText(a))|;
      && 0 <= i <= |t| - |name| && name == t[i..i + |name|]
      && (forall k :: 0 <= k < i ==> IsSpace(t[k]))
      && (forall k :: i + |name| <= k < |t| ==> IsSpace(t[k]))
  {
    TrimSlice(NameText(a));
  }

  /** Each author's trimmed name, one per author. */
  function AuthorNames(authors: seq<CrossrefAuthor>): (names: seq<Option<string>>)
    ensures |names| == |authors|
    ensures forall k :: 0 <= k < |authors| ==> names[k] == Some(CrossrefName(authors[k]))
  {
    seq(|authors|, k requires 0 <= k < |authors| => Some(CrossrefName(authors[k])))
  }

  /** The trimmed names of `authors`, in order, empty ones dropped (`.map(...).filter(name => name.length > 0)`). */
  function TrimmedNames(authors: seq<CrossrefAuthor>): (r: seq<string>)
    ensures |r| <= |authors|
    ensures |authors| == 1 ==> r == if CrossrefName(authors[0]) != "" then [CrossrefName(authors[0])] else []
  {
    NonEmpty(AuthorNames(authors))
  }

  /** A name is kept exactly when it is the non-empty trimmed name of some author. */
  lemma TrimmedNamesMembers(authors: seq<CrossrefAuthor>)
    ensures forall s :: s in TrimmedNames(authors) <==> s != "" && exists k :: 0 <= k < |authors| && s == CrossrefName(authors[k])
  {
    var names := AuthorNames(authors);
    forall s | s in TrimmedNames(authors)
      ensures s != "" && exists k :: 0 <= k < |authors| && s == CrossrefName(authors[k])
    {
      var k :| 0 <= k < |names| && names[k] == Some(s);
    }
    forall s | s != "" && exists k :: 0 <= k < |authors| && s == CrossrefName(authors[k])
      ensures s in TrimmedNames(authors)
    {
      var k :| 0 <= k < |authors| && s == CrossrefName(authors[k]);
      assert names[k] == Some(s);
    }
  }

  /** Filtering keeps the order: the names kept from `a + b` are those kept from `a`, then from `b`. */
  lemma TrimmedNamesAppend(a: seq<CrossrefAuthor>, b: seq<CrossrefAuthor>)
    ensures TrimmedNames(a + b) == TrimmedNames(a) + TrimmedNames(b)
  {
    assert AuthorNames(a + b) == AuthorNames(a) + AuthorNames(b);
    NonEmptyAppend(AuthorNames(a), AuthorNames(b));
  }

  /** The names of the first three authors, trimmed, empty ones dropped, in author order. */
  function CrossrefNames(authors: seq<CrossrefAuthor>): (r: seq<string>)
    ensures |r| <= 3
    ensures r == TrimmedNames(Take(authors, 3))
    ensures forall s :: s in r <==> s != "" && exists k :: 0 <= k < |authors| && k < 3 && s == CrossrefName(authors[k])
  {
    var firsts := Take(authors, 3);
    TrimmedNamesMembers(firsts);
    assert forall k :: 0 <= k < |authors| && k < 3 ==> k < |firsts| && firsts[k] == authors[k];
    TrimmedNames(firsts)
  }

  /** The first date part (`date-parts[0]`), if any. */
  function FirstPart(parts: Option<seq<seq<int>>>): Option<seq<int>> {
    if parts.Some? && parts.value != [] then Some(parts.value[0]) else None
  }

  /** The year: the print date's first part if truthy, else the online date's first part if truthy. */
  function CrossrefYear(work: CrossrefWork): (y: Option<int>)
    ensures y.Some? ==> y.value != 0
    ensures var p := FirstPart(work.publishedPrint);
      p.Some? && p.value != [] && p.value[0] != 0 ==> y == Some(p.value[0])
    ensures var p, o := FirstPart(work.publishedPrint), FirstPart(work.publishedOnline);
      !(p.Some? && p.value != [] && p.value[0] != 0) ==>
        y == (if o.Some? && o.value != [] && o.value[0] != 0 then Some(o.value[0]) else None)
  {
    var printDate := FirstPart(work.publishedPrint);
    var onlineDate := FirstPart(work.publishedOnline);
    if printDate.Some? && printDate.value != [] && printDate.value[0] != 0 then Some(printDate.value[0])
    else if onlineDate.Some? && onlineDate.value != [] && onlineDate.value[0] != 0 then Some(onlineDate.value[0])
    else None
  }

  /** The first element of an array field, if any. */
  function FirstOfList(xs: Option<seq<string>>): (r: Option<string>)
    ensures r.Some? <==> xs.Some? && xs.value != []
    ensures r.Some? ==> r.value == xs.value[0]
  {
    if xs.Some? && xs.value != [] then Some(xs.value[0]) else None
  }

  /** `summarizeCrossrefWork(work)`. */
  function SummarizeCrossrefWork(work: CrossrefWork): (s: CrossrefSummary)
    ensures s.title == TextOr(FirstOfList(work.title), "Untitled")
    ensures s.authors == AuthorsText(CrossrefNames(work.author.GetOr([])), |work.author.GetOr([])|)
    ensures s.year == CrossrefYear(work)
    ensures s.citations == work.referencedByCount.GetOr(0)
    ensures s.doi == work.doi && s.publisher == work.publisher && s.workType == work.workType
    ensures s.journal == FirstOfList(work.containerTitle)
    ensures |s.abstractText| <= 303
    ensures var a := TextOr(work.abstractText, "");
      |a| <= 300 ==> s.abstractText == a
    ensures var a := TextOr(work.abstractText, "");
      |a| > 300 ==> s.abstractText == a[..300] + "..."
    ensures var subjects := work.subject.GetOr([]);
      |s.subjects| == (if |subjects| < 3 then |subjects| else 3) && s.subjects == subjects[..|s.subjects|]
    ensures Truthy(work.doi) ==> s.url == Some("https://doi.org/" + work.doi.value)
    ensures !Truthy(work.doi) ==> s.url == work.url
    ensures s.crossrefUrl == work.url
  {
    var authors := work.author.GetOr([]);
    CrossrefSummary(
      title := TextOr(FirstOfList(work.title), "Untitled"),
      authors := AuthorsText(CrossrefNames(authors), |authors|),
      year := CrossrefYear(work),
      doi := work.doi,
      citations := NumberOr(work.referencedByCount, 0),
      journal := FirstOfList(work.containerTitle),
      publisher := work.publisher,
      workType := work.workType,
      abstractText := Abbreviate(TextOr(work.abstractText, ""), 300),
      subjects := Take(work.subject.GetOr([]), 3),
      url := if Truthy(work.doi) then Some("https://doi.org/" + work.doi.value) else work.url,
      crossrefUrl := work.url)
  }

  // ---------------------------------------------------------------------
  // Envelopes
  // ---------------------------------------------------------------------

  datatype OpenAlexMeta = OpenAlexMeta(count: Option<int>, dbResponseTimeMs: Option<int>, page: Option<int>, perPage: Option<int>)

  datatype OpenAlexResponse = OpenAlexResponse(meta: Option<OpenAlexMeta>, results: Option<seq<OpenAlexWork>>)

  datatype SummaryMeta = SummaryMeta(count: int, dbResponseTimeMs: Option<int>, page: int, perPage: int, summaryMode: bool)

  /** What `formatOpenAlexResponse` returns: the response as given, or its summary. */
  datatype OpenAlexFormatted =
    | OpenAlexAsGiven(response: Option<OpenAlexResponse>)
    | OpenAlexSummarised(meta: SummaryMeta, results: seq<OpenAlexSummary>)

  /** `formatOpenAlexResponse(response, summaryMode)`, each work summarised with its reconstructed abstract. */
  function FormatOpenAlexResponse(response: Option<OpenAlexResponse>, summaryMode: bool): (r: OpenAlexFormatted)
    ensures response.None? || response.value.results.None? || !summaryMode ==> r == OpenAlexAsGiven(response)
    ensures r.OpenAlexSummarised? <==> response.Some? && response.value.results.Some? && summaryMode
    ensures r.OpenAlexSummarised? ==>
      var m := response.value.meta.GetOr(OpenAlexMeta(None, None, None, None));
      && r.meta.count == m.count.GetOr(0)
      && r.meta.dbResponseTimeMs == m.dbResponseTimeMs
      && r.meta.page == (if m.page.Some? && m.page.value != 0 then m.page.value else 1)
      && r.meta.perPage == (if m.perPage.Some? && m.perPage.value != 0 then m.perPage.value else 25)
    ensures r.OpenAlexSummarised? ==>
      && |r.results| == |response.value.results.value|
      && (forall k :: 0 <= k < |r.results| ==>
            r.results[k] == SummarizeOpenAlexWork(response.value.results.value[k], OpenAlexAbstract(response.value.results.value[k])))
      && r.meta.summaryMode
  {
    if response.None? || response.value.results.None? || !summaryMode then OpenAlexAsGiven(response)
    else
      var works := response.value.results.value;
      var meta := response.value.meta.GetOr(OpenAlexMeta(None, None, None, None));
      OpenAlexSummarised(
        SummaryMeta(NumberOr(meta.count, 0), meta.dbResponseTimeMs, NumberOr(meta.page, 1), NumberOr(meta.perPage, 25), true),
        seq(|works|, k requires 0 <= k < |works| => SummarizeOpenAlexWork(works[k], OpenAlexAbstract(works[k]))))
  }

  datatype CrossrefMessage = CrossrefMessage(totalResults: Option<int>, itemsPerPage: Option<int>, query: Option<string>, items: Option<seq<CrossrefWork>>)

  datatype CrossrefResponse = CrossrefResponse(status: Option<string>, message: Option<CrossrefMessage>)

  datatype CrossrefSummaryMessage = CrossrefSummaryMessage(totalResults: int, itemsPerPage: int, query: Option<string>, summaryMode: bool, items: seq<CrossrefSummary>)

  /** What `formatCrossrefResponse` returns: the response as given, or its summary. */
  datatype CrossrefFormatted =
    | CrossrefAsGiven(response: Option<CrossrefResponse>)
    | CrossrefSummarised(status: Option<string>, message: CrossrefSummaryMessage)

  /** `formatCrossrefResponse(response, summaryMode)`. */
  function FormatCrossrefResponse(response: Option<CrossrefResponse>, summaryMode: bool): (r: CrossrefFormatted)
    ensures response.None? || response.value.message.None? || response.value.message.value.items.None? || !summaryMode
      ==> r == CrossrefAsGiven(response)
    ensures r.CrossrefSummarised? <==>
      response.Some? && response.value.message.Some? && response.value.message.value.items.Some? && summaryMode
    ensures r.CrossrefSummarised? ==>
      var m := response.value.message.value;
      && r.message.totalResults == m.totalResults.GetOr(0)
      && r.message.itemsPerPage == (if m.itemsPerPage.Some? && m.itemsPerPage.value != 0 then m.itemsPerPage.value else 20)
      && r.message.query == m.query
    ensures r.CrossrefSummarised? ==>
      && |r.message.items| == |response.value.message.value.items.value|
      && (forall k :: 0 <= k < |r.message.items| ==>
            r.message.items[k] == SummarizeCrossrefWork(response.value.message.value.items.value[k]))
      && r.status == response.value.status
      && r.message.summaryMode
  {
    if response.None? || response.value.message.None? || response.value.message.value.items.None? || !summaryMode then
      CrossrefAsGiven(response)
    else
      var message := response.value.message.value;
      var works := message.items.value;
      CrossrefSummarised(response.value.status, CrossrefSummaryMessage(
        NumberOr(message.totalResults, 0), NumberOr(message.itemsPerPage, 20), message.query, true,
        seq(|works|, k requires 0 <= k < |works| => SummarizeCrossrefWork(works[k]))))
  }

  // ---------------------------------------------------------------------
  // Text listing
  // ---------------------------------------------------------------------

  /** A summarised work as the listing reads it. */
  datatype ListedItem = ListedItem(
    title: Option<string>,
    authors: Option<string>,
    year: Option<int>,
    journal: Option<string>,
    citations: Option<int>,
    openAccess: Option<bool>,
    doi: Option<string>,
    abstractText: Option<string>)

  datatype ListingMeta = ListingMeta(count: Option<int>, dbResponseTimeMs: Option<int>)

  datatype ListingMessage = ListingMessage(totalResults: Option<int>, items: Option<seq<ListedItem>>)

  /**
   * The value handed to `formatSearchResults`: its `meta` and `results`
   * (OpenAlex shape), its `message` (Crossref shape), and its
   * `JSON.stringify(results, null, 2)` text for the fallback.
   */
  datatype Listing = Listing(meta: Option<ListingMeta>, results: Option<seq<ListedItem>>, message: Option<ListingMessage>, json: string)

  /** The lines after an item's title line. */
  function ItemDetails(item: ListedItem, withOpenAccess: bool): string {
    "   Authors: " + TextOr(item.authors, "Unknown") + "\n"
    + (if item.year.Some? && item.year.value != 0 then "   Year: " + IntToString(item.year.value) + "\n" else "")
    + (if Truthy(item.journal) then "   Journal: " + item.journal.value + "\n" else "")
    + "   Citations: " + IntToString(NumberOr(item.citations, 0))
    + (if withOpenAccess then " | Open Access: " + (if item.openAccess == Some(true) then "Yes" else "No") else "") + "\n"
    + (if Truthy(item.doi) then "   DOI: " + item.doi.value + "\n" else "")
    + (if Truthy(item.abstractText) then "   Abstract: " + item.abstractText.value + "\n" else "")
    + "\n"
  }

  /** The lines `formatSearchResults` writes for the item numbered `number`. */
  function ItemBlock(number: nat, item: ListedItem, withOpenAccess: bool): string {
    NatToString(number) + ". " + (TextOr(item.title, "Untitled") + "\n" + ItemDetails(item, withOpenAccess))
  }

  /** Each block opens with its number. */
  lemma ItemBlockNumbered(number: nat, item: ListedItem, withOpenAccess: bool)
    ensures StartsWith(ItemBlock(number, item, withOpenAccess), NatToString(number) + ". ")
  {
    var numbering := NatToString(number) + ". ";
    assert ItemBlock(number, item, withOpenAccess)[..|numbering|] == numbering;
  }

  /** The blocks of `shown`, numbered from 1. */
  function Blocks(shown: seq<ListedItem>, withOpenAccess: bool): seq<string> {
    seq(|shown|, k requires 0 <= k < |shown| => ItemBlock(k + 1, shown[k], withOpenAccess))
  }

  function Concat(xs: seq<string>): string {
    if xs == [] then "" else Concat(xs[..|xs| - 1]) + xs[|xs| - 1]
  }

  lemma ConcatSnoc(xs: seq<string>, x: string)
    ensures Concat(xs + [x]) == Concat(xs) + x
  {
    assert (xs + [x])[..|xs|] == xs;
  }

  lemma BlocksSnoc(shown: seq<ListedItem>, k: nat, withOpenAccess: bool)
    requires k < |shown|
    ensures Blocks(shown[..k + 1], withOpenAccess) == Blocks(shown[..k], withOpenAccess) + [ItemBlock(k + 1, shown[k], withOpenAccess)]
  {
    var longer := Blocks(shown[..k + 1], withOpenAccess);
    var shorter := Blocks(shown[..k], withOpenAccess) + [ItemBlock(k + 1, shown[k], withOpenAccess)];
    forall i | 0 <= i < k + 1 ensures longer[i] == shorter[i] {
      assert shown[..k + 1][i] == shown[i];
      if i < k {
        assert shown[..k][i] == shown[i];
      }
    }
    assert |longer| == |shorter|;
  }

  /** The heading `formatSearchResults` puts above its listing. */
  function Header(source: string): string {
    "\n=== " + ToUpper(source) + " RESULTS ===\n"
  }

  /** Which listing `formatSearchResults` writes for `source` and `results`. */
  datatype ListingKind =
    | OpenAlexKind(meta: Option<ListingMeta>, items: seq<ListedItem>)
    | CrossrefKind(totalResults: Option<int>, items: seq<ListedItem>)
    | JsonKind

  function KindOf(results: Listing, source: string): ListingKind {
    if source == "OpenAlex" && results.results.Some? then OpenAlexKind(results.meta, results.results.value)
    else if source == "Crossref" && results.message.Some? && results.message.value.items.Some? then
      CrossrefKind(results.message.value.totalResults, results.message.value.items.value)
    else JsonKind
  }

  /** The `Found … results` line. */
  function FoundLine(kind: ListingKind): string
    requires !kind.JsonKind?
  {
    match kind
    case OpenAlexKind(givenMeta, items) =>
      var meta := givenMeta.GetOr(ListingMeta(None, None));
      var time := if meta.dbResponseTimeMs.Some? && meta.dbResponseTimeMs.value != 0 then IntToString(meta.dbResponseTimeMs.value) else "unknown";
      "Found " + IntToString(NumberOr(meta.count, |items|)) + " results (" + time + "ms)\n\n"
    case CrossrefKind(totalResults, items) =>
      "Found " + IntToString(NumberOr(totalResults, |items|)) + " results\n\n"
  }

  /** `formatSearchResults(results, source)`. */
  function SearchResultsText(results: Option<Listing>, source: string): (text: string)
    ensures results.None? ==> text == "No results from " + source
  {
    if results.None? then "No results from " + source
    else
      var kind := KindOf(results.value, source);
      match kind
      case JsonKind => Header(source) + results.value.json
      case OpenAlexKind(_, items) => Header(source) + (FoundLine(kind) + Concat(Blocks(Take(items, 5), true)))
      case CrossrefKind(_, items) => Header(source) + (FoundLine(kind) + Concat(Blocks(Take(items, 5), false)))
  }

  /**
   * Every listing opens with the heading; a listing of items follows it with
   * the `Found` line, and any other value with its JSON text.
   */
  lemma SearchResultsShape(results: Option<Listing>, source: string)
    requires results.Some?
    ensures StartsWith(SearchResultsText(results, source), Header(source))
    ensures var kind := KindOf(results.value, source);
      kind.JsonKind? ==> SearchResultsText(results, source) == Header(source) + results.value.json
    ensures var kind := KindOf(results.value, source);
      !kind.JsonKind? ==> StartsWith(SearchResultsText(results, source), Header(source) + FoundLine(kind))
  {
    var kind := KindOf(results.value, source);
    if kind.JsonKind? {
      AppendPrefixes(Header(source), results.value.json, "");
      assert results.value.json + "" == results.value.json;
    } else {
      AppendPrefixes(Header(source), FoundLine(kind), Concat(Blocks(Take(kind.items, 5), kind.OpenAlexKind?)));
    }
  }

  lemma AppendPrefixes(a: string, b: string, c: string)
    ensures StartsWith(a + (b + c), a) && StartsWith(a + (b + c), a + b)
  {
    assert (a + (b + c))[..|a|] == a;
    assert (a + (b + c))[..|a + b|] == a + b;
  }

  /** The listing loop: the blocks of the first five items appended one by one. */
  method AppendBlocks(items: seq<ListedItem>, withOpenAccess: bool) returns (out: string)
    ensures out == Concat(Blocks(Take(items, 5), withOpenAccess))
  {
    out := "";
    var shown := Take(items, 5);
    for index := 0 to |shown|
      invariant out == Concat(Blocks(shown[..index], withOpenAccess))
    {
      var block := ItemBlock(index + 1, shown[index], withOpenAccess);
      BlocksSnoc(shown, index, withOpenAccess);
      ConcatSnoc(Blocks(shown[..index], withOpenAccess), block);
      out := out + block;
    }
    assert shown[..|shown|] == shown;
  }

  /** `formatSearchResults(results, source)` with its `forEach` loops. */
  method FormatSearchResults(results: Option<Listing>, source: string) returns (text: string)
    ensures text == SearchResultsText(results, source)
  {
    if results.None? {
      return "No results from " + source;
    }
    var header := Header(source);
    var kind := KindOf(results.value, source);
    var formatted := "";
    if kind.JsonKind? {
      formatted := results.value.json;
    } else {
      var found := FoundLine(kind);
      assert formatted + found == found;
      formatted := formatted + found;
      var blocks := AppendBlocks(kind.items, kind.OpenAlexKind?);
      formatted := formatted + blocks;
    }
    text := header + formatted;
  }

  /** The listing shows at most five items, numbered 1, 2, … in the order given. */
  lemma ListingNumbers(items: seq<ListedItem>, withOpenAccess: bool)
    ensures |Blocks(Take(items, 5), withOpenAccess)| == if |items| < 5 then |items| else 5
    ensures forall k :: 0 <= k < |Blocks(Take(items, 5), withOpenAccess)| ==>
      StartsWith(Blocks(Take(items, 5), withOpenAccess)[k], NatToString(k + 1) + ". ")
  {
    var shown := Take(items, 5);
    forall k | 0 <= k < |shown|
      ensures StartsWith(Blocks(shown, withOpenAccess)[k], NatToString(k + 1) + ". ")
    {
      ItemBlockNumbered(k + 1, shown[k], withOpenAccess);
    }
  }
}

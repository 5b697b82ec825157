/**
 * `extractBookInfo`: projects one provider item onto the comparable triple
 * (normalised title, normalised authors, raw ISBN). A provider item is a
 * tagged value, one variant per provider shape plus `Unrecognised`.
 */
module BookRecords {
  import opened Wrappers
  import opened Strings
  import opened TextNormalization

  const GoogleBooks: string := "Google Books"
  const OpenLibrary: string := "Open Library"
  const Libris: string := "LIBRIS (Swedish National Library)"

  datatype IndustryIdentifier = IndustryIdentifier(kind: string, identifier: Option<string>)

  datatype VolumeInfo = VolumeInfo(
    title: Option<string>,
    authors: Option<seq<string>>,
    industryIdentifiers: Option<seq<IndustryIdentifier>>)

  /** A LIBRIS field that arrives either as one string or as an array of strings. */
  datatype TextOrList = Absent | Text(text: string) | List(texts: seq<string>)

  /** One item of a provider's result list. */
  datatype RawItem =
    | Volume(volumeInfo: Option<VolumeInfo>)                                          // Google Books
    | Doc(docTitle: Option<string>, authorName: Option<seq<string>>, docIsbn: Option<seq<string>>) // Open Library
    | Record(recordTitle: TextOrList, author: TextOrList, recordIsbn: Option<seq<string>>)  // LIBRIS
    | Unrecognised

  /** The comparable projection of an item. The ISBN is kept exactly as the provider sent it. */
  datatype BookInfo = BookInfo(title: string, authors: seq<string>, isbn: Option<string>)

  predicate IsIsbnKind(kind: string) {
    kind == "ISBN_13" || kind == "ISBN_10"
  }

  /** `industryIdentifiers.find(id => id.type is ISBN_13 or ISBN_10)`: the first such index, or `|ids|`. */
  function FirstIsbnIndex(ids: seq<IndustryIdentifier>): (k: nat)
    ensures k <= |ids|
    ensures k < |ids| ==> IsIsbnKind(ids[k].kind)
    ensures forall j :: 0 <= j < k ==> !IsIsbnKind(ids[j].kind)
  {
    if ids == [] then 0
    else if IsIsbnKind(ids[0].kind) then 0
    else 1 + FirstIsbnIndex(ids[1..])
  }

  /** `arr?.[0]`. */
  function FirstOf(xs: Option<seq<string>>): Option<string> {
    if xs.Some? && |xs.value| > 0 then Some(xs.value[0]) else None
  }

  /** The title the per-source switch reads; `''` when there is none. */
  function RawTitle(item: RawItem, source: string): string {
    if source == GoogleBooks then
      (match item
       case Volume(Some(v)) => v.title.GetOr("")
       case _ => "")
    else if source == OpenLibrary then
      (match item
       case Doc(t, _, _) => t.GetOr("")
       case _ => "")
    else if source == Libris then
      (match item
       case Record(Text(t), _, _) => t
       case Record(List(ts), _, _) => if |ts| > 0 then ts[0] else ""
       case _ => "")
    else ""
  }

  /** The author names the per-source switch reads, before normalisation. */
  function RawAuthors(item: RawItem, source: string): seq<string> {
    if source == GoogleBooks then
      (match item
       case Volume(Some(v)) => v.authors.GetOr([])
       case _ => [])
    else if source == OpenLibrary then
      (match item
       case Doc(_, a, _) => a.GetOr([])
       case _ => [])
    else if source == Libris then
      (match item
       case Record(_, Text(a), _) => if a != "" then [a] else []
       case Record(_, List(as_), _) => as_
       case _ => [])
    else []
  }

  /** The ISBN the per-source switch reads. */
  function RawIsbn(item: RawItem, source: string): Option<string> {
    if source == GoogleBooks then
      (match item
       case Volume(Some(VolumeInfo(_, _, Some(ids)))) =>
         var k := FirstIsbnIndex(ids);
         if k < |ids| then ids[k].identifier else None
       case _ => None)
    else if source == OpenLibrary then
      (match item
       case Doc(_, _, isbns) => FirstOf(isbns)
       case _ => None)
    else if source == Libris then
      (match item
       case Record(_, _, isbns) => FirstOf(isbns)
       case _ => None)
    else None
  }

  predicate IsKnownSource(source: string) {
    source == GoogleBooks || source == OpenLibrary || source == Libris
  }

  /**
   * `extractBookInfo(item, source)`: nothing for an unknown source or an empty
   * raw title; otherwise the normalised title, every author normalised in
   * order, and the ISBN passed through untouched.
   */
  function ExtractBookInfo(item: RawItem, source: string): (r: Option<BookInfo>)
    ensures !IsKnownSource(source) ==> r.None?
    ensures r.None? <==> RawTitle(item, source) == ""
    ensures r.Some? ==>
      && IsNormal(r.value.title)
      && r.value.title == Normalize(RawTitle(item, source))
      && |r.value.authors| == |RawAuthors(item, source)|
      && (forall i :: 0 <= i < |r.value.authors| ==>
            IsNormal(r.value.authors[i]) && r.value.authors[i] == Normalize(RawAuthors(item, source)[i]))
      && r.value.isbn == RawIsbn(item, source)
  {
    var title := RawTitle(item, source);
    if title == "" then None
    else
      var authors := RawAuthors(item, source);
      Some(BookInfo(Normalize(title), seq(|authors|, i requires 0 <= i < |authors| => Normalize(authors[i])), RawIsbn(item, source)))
  }

  /** For a Google Books volume the ISBN is the identifier of the first ISBN_13 or ISBN_10 entry, whatever follows it. */
  lemma GoogleIsbnIsFirstMatch(title: string, authors: Option<seq<string>>, ids: seq<IndustryIdentifier>, k: nat)
    requires title != ""
    requires k < |ids| && IsIsbnKind(ids[k].kind)
    requires forall j :: 0 <= j < k ==> !IsIsbnKind(ids[j].kind)
    ensures var r := ExtractBookInfo(Volume(Some(VolumeInfo(Some(title), authors, Some(ids)))), GoogleBooks);
      r.Some? && r.value.isbn == ids[k].identifier
  {
    assert FirstIsbnIndex(ids) == k;
  }
}

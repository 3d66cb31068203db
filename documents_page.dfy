/** The document library page (app/documents/page.tsx): the search box
    filters the fetched documents by title. */
module DocumentsPage {
  import opened Lists
  import opened Records
  import opened Search

  function PdfTitle(d: Pdf): string {
    d.title
  }

  /** `filteredDocuments`: the documents whose lower-cased title contains the
      lower-cased query, in their original order. */
  function FilteredDocuments(documents: seq<Pdf>, searchQuery: string): (r: seq<Pdf>)
    ensures IsSubsequence(r, documents)
    ensures forall i :: 0 <= i < |r| ==> TitleMatches(r[i].title, searchQuery)
    ensures forall i :: 0 <= i < |documents| ==> (documents[i] in r <==> TitleMatches(documents[i].title, searchQuery))
  {
    SearchByTitle(documents, PdfTitle, searchQuery)
  }
}

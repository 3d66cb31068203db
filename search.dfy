/** The case-insensitive title search that the document list and the video
    list both run over the records they fetched
    (`items.filter(x => x.title.toLowerCase().includes(query.toLowerCase()))`). */
module Search {
  import opened Text
  import opened Lists

  /** `title.toLowerCase().includes(query.toLowerCase())`. */
  predicate TitleMatches(title: string, query: string) {
    Includes(ToLower(title), ToLower(query))
  }

  /** The filter callback, for items whose title `title` selects. */
  function Matcher<T>(title: T -> string, query: string): T -> bool {
    x => TitleMatches(title(x), query)
  }

  /** The items whose title contains the query, ignoring letter case, in their original order. */
  function SearchByTitle<T>(items: seq<T>, title: T -> string, query: string): (r: seq<T>)
    ensures IsSubsequence(r, items)
    ensures forall i :: 0 <= i < |r| ==> TitleMatches(title(r[i]), query)
    ensures forall i :: 0 <= i < |items| ==> (items[i] in r <==> TitleMatches(title(items[i]), query))
  {
    FilterIsSubsequence(items, Matcher(title, query));
    FilterMembership(items, Matcher(title, query));
    Filter(items, Matcher(title, query))
  }

  /** Each matching item is kept as often as it occurs in the input. */
  lemma SearchCount<T>(items: seq<T>, title: T -> string, query: string, x: T)
    ensures multiset(SearchByTitle(items, title, query))[x]
         == if TitleMatches(title(x), query) then multiset(items)[x] else 0
  {
    FilterCount(items, Matcher(title, query), x);
  }

  /** An empty query keeps every item. */
  lemma SearchEmptyQuery<T>(items: seq<T>, title: T -> string)
    ensures SearchByTitle(items, title, "") == items
  {
    forall i | 0 <= i < |items|
      ensures Matcher(title, "")(items[i])
    {
      IncludesEmpty(ToLower(title(items[i])));
    }
    FilterKeepsAll(items, Matcher(title, ""));
  }

  /** Queries that lower-case alike select the same items. */
  lemma SearchIgnoresQueryCase<T>(items: seq<T>, title: T -> string, q1: string, q2: string)
    requires ToLower(q1) == ToLower(q2)
    ensures SearchByTitle(items, title, q1) == SearchByTitle(items, title, q2)
  {
    FilterCongruent(items, Matcher(title, q1), Matcher(title, q2));
  }

  /** Upper-casing the query changes nothing. */
  lemma SearchUpperCaseQuery<T>(items: seq<T>, title: T -> string, query: string)
    ensures SearchByTitle(items, title, ToUpper(query)) == SearchByTitle(items, title, query)
  {
    LowerOfUpper(query);
    SearchIgnoresQueryCase(items, title, ToUpper(query), query);
  }

  /** Searching the results again with the same query changes nothing. */
  lemma SearchIdempotent<T>(items: seq<T>, title: T -> string, query: string)
    ensures SearchByTitle(SearchByTitle(items, title, query), title, query)
         == SearchByTitle(items, title, query)
  {
    FilterIdempotent(items, Matcher(title, query));
  }
}

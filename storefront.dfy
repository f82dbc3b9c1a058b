/** The storefront's search: the books whose title or author contains the query, ignoring case. */
module Storefront {
  import opened Sequences
  import opened Text
  import opened Types

  /** The test the storefront applies to each book for a non-empty query. */
  function MatchesQuery(searchQuery: string): Book -> bool
  {
    (b: Book) => Contains(ToLower(b.title), ToLower(searchQuery)) || Contains(ToLower(b.author), ToLower(searchQuery))
  }

  /** The empty query is contained in every title. */
  lemma EmptyQueryMatchesAll(books: seq<Book>)
    ensures forall i :: 0 <= i < |books| ==> MatchesQuery("")(books[i])
  {
    forall i | 0 <= i < |books| ensures MatchesQuery("")(books[i]) {
      ContainsEmpty(ToLower(books[i].title));
    }
  }

  /**
   * `filteredBooks`: every book for an empty query, otherwise the books that
   * match, in catalogue order.
   */
  function FilteredBooks(books: seq<Book>, searchQuery: string): (r: seq<Book>)
    ensures searchQuery == "" ==> r == books
    ensures IsSubsequence(r, books)
    ensures forall i :: 0 <= i < |books| ==> (books[i] in r <==> MatchesQuery(searchQuery)(books[i]))
  {
    if searchQuery == "" then
      SubsequenceReflexive(books);
      EmptyQueryMatchesAll(books);
      books
    else
      FilterIsSubsequence(MatchesQuery(searchQuery), books);
      Filter(MatchesQuery(searchQuery), books)
  }

  /** Searching the results again with the same query finds them all again. */
  lemma FilteredIdempotent(books: seq<Book>, searchQuery: string)
    ensures FilteredBooks(FilteredBooks(books, searchQuery), searchQuery) == FilteredBooks(books, searchQuery)
  {
    if searchQuery != "" {
      FilterIdempotent(MatchesQuery(searchQuery), books);
    }
  }

  /** Whatever the letter case of the query, the same books are found. */
  lemma FilteredIgnoresCase(books: seq<Book>, q1: string, q2: string)
    requires ToLower(q1) == ToLower(q2)
    ensures FilteredBooks(books, q1) == FilteredBooks(books, q2)
  {
    assert MatchesQuery(q1) == MatchesQuery(q2);
  }
}

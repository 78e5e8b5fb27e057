/** The Amazon search link of a book (mobile/utils/amazonLinks.ts). */
module AmazonLinks {
  import opened Wrappers
  import opened Text

  const AmazonSearchPrefix: string := "https://www.amazon.com/s?k="

  /** The search query: the ISBN when there is one, else "<title> <author> book". */
  function SearchQuery(title: string, author: string, isbn: Option<string>): string {
    if Present(isbn) then isbn.value else title + " " + author + " book"
  }

  /**
   * `generateAmazonLink(title, author, isbn?)`: the search prefix followed by
   * the percent-encoded query, so the query part holds no raw space.
   */
  function GenerateAmazonLink(title: string, author: string, isbn: Option<string>): (link: string)
    ensures StartsWith(link, AmazonSearchPrefix)
    ensures link[|AmazonSearchPrefix|..] == EncodeUriComponent(SearchQuery(title, author, isbn))
    ensures forall k :: |AmazonSearchPrefix| <= k < |link| ==> link[k] != ' ' && link[k] != '&'
  {
    var link := AmazonSearchPrefix + EncodeUriComponent(SearchQuery(title, author, isbn));
    assert link[..|AmazonSearchPrefix|] == AmazonSearchPrefix;
    link
  }

  /** With an ISBN, title and author play no part in the link. */
  lemma IsbnLinkIgnoresTitleAndAuthor(t1: string, a1: string, t2: string, a2: string, isbn: string)
    requires isbn != ""
    ensures GenerateAmazonLink(t1, a1, Some(isbn)) == GenerateAmazonLink(t2, a2, Some(isbn))
  {
  }

  /** An absent ISBN and an empty one give the same title-and-author link. */
  lemma EmptyIsbnIsAbsent(title: string, author: string)
    ensures GenerateAmazonLink(title, author, Some("")) == GenerateAmazonLink(title, author, None)
  {
  }
}

/** Cover-image URL choice and the list of fallback cover URLs (mobile/utils/coverImage.ts). */
module CoverImage {
  import opened Wrappers
  import opened Text

  const OpenLibraryPrefix: string := "https://covers.openlibrary.org/b/"

  /** The OpenLibrary cover of an ISBN. */
  function IsbnCoverUrl(isbn: string): string {
    OpenLibraryPrefix + "isbn/" + isbn + "-L.jpg"
  }

  /** The OpenLibrary cover searched by title; the title is percent-encoded. */
  function TitleCoverUrl(title: string): string {
    OpenLibraryPrefix + "title/" + EncodeUriComponent(title) + "-L.jpg"
  }

  /** The Google Books cover of an ISBN, looked up as `id=ISBN:<isbn>`. */
  function GoogleIsbnCoverUrl(isbn: string): string {
    "https://books.google.com/books/content?id=ISBN:" + isbn + "&printsec=frontcover&img=1&zoom=1&source=gbs_api"
  }

  /** An ISBN long enough to be used for the cover (`isbn && isbn.length >= 10`). */
  predicate UsableIsbn(isbn: Option<string>) {
    Present(isbn) && |isbn.value| >= 10
  }

  /**
   * `generateCoverImageUrl(isbn?, title?)`: the ISBN wins when it has at least
   * ten characters, then the title, else the empty string.
   */
  function GenerateCoverImageUrl(isbn: Option<string>, title: Option<string>): (url: string)
    ensures UsableIsbn(isbn) ==> url == IsbnCoverUrl(isbn.value)
    ensures !UsableIsbn(isbn) && Present(title) ==> url == TitleCoverUrl(title.value)
    ensures url == "" <==> !UsableIsbn(isbn) && !Present(title)
  {
    if UsableIsbn(isbn) then IsbnCoverUrl(isbn.value)
    else if Present(title) then TitleCoverUrl(title.value)
    else ""
  }

  /** With a usable ISBN the title plays no part in the URL. */
  lemma TitleIgnoredWithIsbn(isbn: Option<string>, t1: Option<string>, t2: Option<string>)
    requires UsableIsbn(isbn)
    ensures GenerateCoverImageUrl(isbn, t1) == GenerateCoverImageUrl(isbn, t2)
  {
  }

  /** An ISBN URL and a title URL are never the same text (they differ right after the common prefix). */
  lemma IsbnAndTitleUrlsDiffer(isbn: string, title: string)
    ensures IsbnCoverUrl(isbn) != TitleCoverUrl(title)
  {
    assert IsbnCoverUrl(isbn)[|OpenLibraryPrefix|] == 'i';
    assert TitleCoverUrl(title)[|OpenLibraryPrefix|] == 't';
  }

  /**
   * `getCoverFallbacks(isbn?, title?)`: the two ISBN URLs (OpenLibrary, then
   * Google Books) when an ISBN is present, whatever its length, then the title
   * URL when a title is present.
   */
  method GetCoverFallbacks(isbn: Option<string>, title: Option<string>) returns (fallbacks: seq<string>)
    ensures |fallbacks| == (if Present(isbn) then 2 else 0) + (if Present(title) then 1 else 0)
    ensures Present(isbn) ==> fallbacks[0] == IsbnCoverUrl(isbn.value) && fallbacks[1] == GoogleIsbnCoverUrl(isbn.value)
    ensures Present(title) ==> fallbacks[|fallbacks| - 1] == TitleCoverUrl(title.value)
    ensures !UsableIsbn(isbn) && Present(isbn) && Present(title)
      ==> fallbacks[0] != GenerateCoverImageUrl(isbn, title)
    ensures (!Present(isbn) || UsableIsbn(isbn)) && GenerateCoverImageUrl(isbn, title) != ""
      ==> fallbacks[0] == GenerateCoverImageUrl(isbn, title)
  {
    fallbacks := [];
    if Present(isbn) {
      fallbacks := fallbacks + [IsbnCoverUrl(isbn.value)];
      fallbacks := fallbacks + [GoogleIsbnCoverUrl(isbn.value)];
    }
    if Present(title) {
      fallbacks := fallbacks + [TitleCoverUrl(title.value)];
      IsbnAndTitleUrlsDiffer(if isbn.Some? then isbn.value else "", title.value);
    }
  }
}

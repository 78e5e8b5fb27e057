/**
 * The cover image of the web result card (src/components/BookResult.tsx):
 * when an image fails to load, its `src` moves along a fixed chain of
 * alternative cover URLs, and when none is left the image is hidden and
 * the placeholder shown.
 */
module BookResultCover {
  import opened Wrappers
  import opened Text
  import opened CoverImage

  const OpenLibraryIsbnMarker: string := "openlibrary.org/b/isbn/"
  const OpenLibraryTitleMarker: string := "openlibrary.org/b/title/"
  const GoogleBooksMarker: string := "books.google.com"
  const IsbnMarker: string := "ISBN:"

  const GoogleIdPrefix: string := "https://books.google.com/books/content?id="
  const GoogleIdSuffix: string := "&printsec=frontcover&img=1&zoom=1&source=gbs_api"
  const AmazonPrefix: string := "https://images-na.ssl-images-amazon.com/images/P/"
  const AmazonSuffix: string := ".01._SX450_SY635_SCLZZZZZZZ_.jpg"

  /** The Google Books cover looked up by volume id. */
  function GoogleIdCoverUrl(isbn: string): string {
    GoogleIdPrefix + isbn + GoogleIdSuffix
  }

  /** The Amazon image, keyed by the ISBN, or by the encoded title without one. */
  function AmazonCoverUrl(isbn: Option<string>, title: string): string {
    AmazonPrefix + (if Present(isbn) then isbn.value else EncodeUriComponent(title)) + AmazonSuffix
  }

  /**
   * The `src` after a load failure of `src`, or `None` when the placeholder
   * takes over.  The rules are tried in order.
   */
  function NextSrc(src: string, isbn: Option<string>, title: string): (r: Option<string>)
    ensures r.None? <==>
      && !(Present(isbn) && Contains(src, OpenLibraryIsbnMarker))
      && !Contains(src, GoogleBooksMarker) && !Contains(src, OpenLibraryTitleMarker)
  {
    if Present(isbn) && Contains(src, OpenLibraryIsbnMarker) then Some(GoogleIsbnCoverUrl(isbn.value))
    else if Present(isbn) && Contains(src, GoogleBooksMarker) && Contains(src, IsbnMarker) then Some(GoogleIdCoverUrl(isbn.value))
    else if Contains(src, GoogleBooksMarker) then Some(TitleCoverUrl(title))
    else if Contains(src, OpenLibraryTitleMarker) then Some(AmazonCoverUrl(isbn, title))
    else None
  }

  /** How many further URLs the chain tries from `src`: 4 for the first rule down to 0 for none. */
  function Rank(src: string, isbn: Option<string>, title: string): (rank: nat)
    ensures rank <= 4
    ensures rank == 0 <==> NextSrc(src, isbn, title).None?
  {
    if Present(isbn) && Contains(src, OpenLibraryIsbnMarker) then 4
    else if Present(isbn) && Contains(src, GoogleBooksMarker) && Contains(src, IsbnMarker) then 3
    else if Contains(src, GoogleBooksMarker) then 2
    else if Contains(src, OpenLibraryTitleMarker) then 1
    else 0
  }

  /**
   * The markers the rules look for occur in the generated URLs only where
   * the URL's own fixed text puts them, not through the ISBN or the title.
   */
  predicate MarkersOnlyWhereExpected(isbn: Option<string>, title: string) {
    && (Present(isbn) ==>
          && !Contains(GoogleIsbnCoverUrl(isbn.value), OpenLibraryIsbnMarker)
          && !Contains(GoogleIdCoverUrl(isbn.value), OpenLibraryIsbnMarker)
          && !Contains(GoogleIdCoverUrl(isbn.value), IsbnMarker))
    && !Contains(TitleCoverUrl(title), OpenLibraryIsbnMarker)
    && !Contains(TitleCoverUrl(title), GoogleBooksMarker)
    && !Contains(AmazonCoverUrl(isbn, title), OpenLibraryIsbnMarker)
    && !Contains(AmazonCoverUrl(isbn, title), GoogleBooksMarker)
    && !Contains(AmazonCoverUrl(isbn, title), OpenLibraryTitleMarker)
  }

  /** A block inside the first part of `a + b + c` occurs in the whole. */
  lemma OccursInHead(a: string, b: string, c: string, m: string, i: nat)
    requires OccursAt(a, m, i)
    ensures Contains(a + b + c, m)
  {
    assert (a + b + c)[i..i + |m|] == a[i..i + |m|];
    assert OccursAt(a + b + c, m, i);
  }

  /** `m` occurs in `a + m + b` right after `a`. */
  lemma OccursBetween(a: string, m: string, b: string)
    ensures OccursAt(a + m + b, m, |a|)
  {
    assert (a + m + b)[|a|..|a| + |m|] == m;
  }

  const GoogleIsbnHead: string := "https://books.google.com/books/content?id=ISBN:"
  const GoogleIsbnTail: string := "&printsec=frontcover&img=1&zoom=1&source=gbs_api"

  lemma GoogleIsbnHeadParts()
    ensures GoogleIsbnHead == "https://" + GoogleBooksMarker + "/books/content?id=ISBN:"
    ensures GoogleIsbnHead == GoogleIdPrefix + IsbnMarker + ""
  {
  }

  lemma GoogleIdPrefixParts()
    ensures GoogleIdPrefix == "https://" + GoogleBooksMarker + "/books/content?id="
  {
  }

  lemma TitleHeadParts()
    ensures OpenLibraryPrefix + "title/" == "https://covers." + OpenLibraryTitleMarker + ""
  {
  }

  lemma GoogleIsbnUrlMarkers(isbn: string)
    ensures Contains(GoogleIsbnCoverUrl(isbn), GoogleBooksMarker) && Contains(GoogleIsbnCoverUrl(isbn), IsbnMarker)
  {
    assert GoogleIsbnCoverUrl(isbn) == GoogleIsbnHead + isbn + GoogleIsbnTail;
    GoogleIsbnHeadParts();
    OccursBetween("https://", GoogleBooksMarker, "/books/content?id=ISBN:");
    OccursInHead(GoogleIsbnHead, isbn, GoogleIsbnTail, GoogleBooksMarker, 8);
    OccursBetween(GoogleIdPrefix, IsbnMarker, "");
    OccursInHead(GoogleIsbnHead, isbn, GoogleIsbnTail, IsbnMarker, |GoogleIdPrefix|);
  }

  lemma GoogleIdUrlMarker(isbn: string)
    ensures Contains(GoogleIdCoverUrl(isbn), GoogleBooksMarker)
  {
    GoogleIdPrefixParts();
    OccursBetween("https://", GoogleBooksMarker, "/books/content?id=");
    OccursInHead(GoogleIdPrefix, isbn, GoogleIdSuffix, GoogleBooksMarker, 8);
  }

  lemma TitleUrlMarker(title: string)
    ensures Contains(TitleCoverUrl(title), OpenLibraryTitleMarker)
  {
    var head := OpenLibraryPrefix + "title/";
    assert TitleCoverUrl(title) == head + EncodeUriComponent(title) + "-L.jpg";
    TitleHeadParts();
    OccursBetween("https://covers.", OpenLibraryTitleMarker, "");
    OccursInHead(head, EncodeUriComponent(title), "-L.jpg", OpenLibraryTitleMarker, 15);
  }

  /** Each failure moves one step down the chain. */
  lemma RankDecreases(src: string, isbn: Option<string>, title: string)
    requires MarkersOnlyWhereExpected(isbn, title)
    requires NextSrc(src, isbn, title).Some?
    ensures Rank(NextSrc(src, isbn, title).value, isbn, title) == Rank(src, isbn, title) - 1
  {
    if Present(isbn) {
      GoogleIsbnUrlMarkers(isbn.value);
      GoogleIdUrlMarker(isbn.value);
    }
    TitleUrlMarker(title);
  }

  /** The `src` after `k` load failures, or `None` once the placeholder shows. */
  function AfterFailures(src: string, isbn: Option<string>, title: string, k: nat): Option<string>
    decreases k
  {
    if k == 0 then Some(src)
    else match NextSrc(src, isbn, title)
      case None => None
      case Some(next) => AfterFailures(next, isbn, title, k - 1)
  }

  /**
   * The chain ends: from any `src`, the placeholder shows after exactly
   * `Rank + 1` failures, so after at most four further URLs.
   */
  lemma {:induction false} ChainEnds(src: string, isbn: Option<string>, title: string)
    requires MarkersOnlyWhereExpected(isbn, title)
    ensures AfterFailures(src, isbn, title, Rank(src, isbn, title) + 1).None?
    ensures forall k: nat :: k <= Rank(src, isbn, title) ==> AfterFailures(src, isbn, title, k).Some?
    decreases Rank(src, isbn, title)
  {
    var next := NextSrc(src, isbn, title);
    if next.Some? {
      RankDecreases(src, isbn, title);
      ChainEnds(next.value, isbn, title);
      forall k | 1 <= k <= Rank(src, isbn, title)
        ensures AfterFailures(src, isbn, title, k).Some?
      {
        assert AfterFailures(src, isbn, title, k) == AfterFailures(next.value, isbn, title, k - 1);
      }
    }
  }

  /**
   * Without the side condition the chain need not end: for a book without
   * ISBN whose title is plain unreserved text containing "books.google.com",
   * the Google rule maps the title URL to itself.
   */
  lemma TitleUrlCanRepeat(isbn: Option<string>, title: string)
    requires !Present(isbn)
    requires forall k :: 0 <= k < |title| ==> IsUnreserved(title[k])
    requires Contains(title, GoogleBooksMarker)
    ensures NextSrc(TitleCoverUrl(title), isbn, title) == Some(TitleCoverUrl(title))
  {
    EncodeUnreserved(title);
    assert TitleCoverUrl(title) == OpenLibraryPrefix + "title/" + title + "-L.jpg";
    ContainsInfix(OpenLibraryPrefix + "title/", title, "-L.jpg", GoogleBooksMarker);
  }

  /** The cover area of one result card. */
  class Cover {
    var src: string
    var imageShown: bool
    var placeholderShown: bool
    const isbn: Option<string>
    const title: string

    /** Exactly one of image and placeholder is displayed. */
    predicate Valid()
      reads this
    {
      imageShown != placeholderShown
    }

    /** The image is rendered only for a non-empty cover URL; otherwise the placeholder shows at once. */
    constructor(coverImageUrl: Option<string>, isbn: Option<string>, title: string)
      ensures imageShown <==> Present(coverImageUrl)
      ensures placeholderShown <==> !Present(coverImageUrl)
      ensures Present(coverImageUrl) ==> src == coverImageUrl.value
      ensures this.isbn == isbn && this.title == title && Valid()
    {
      this.isbn := isbn;
      this.title := title;
      src := if Present(coverImageUrl) then coverImageUrl.value else "";
      imageShown := Present(coverImageUrl);
      placeholderShown := !Present(coverImageUrl);
    }

    /** The `onError` handler of the image. */
    method OnError()
      requires imageShown && Valid()
      modifies this
      ensures Present(isbn) && Contains(old(src), OpenLibraryIsbnMarker) ==> src == GoogleIsbnCoverUrl(isbn.value) && imageShown
      ensures !(Present(isbn) && Contains(old(src), OpenLibraryIsbnMarker))
              && Present(isbn) && Contains(old(src), GoogleBooksMarker) && Contains(old(src), IsbnMarker)
              ==> src == GoogleIdCoverUrl(isbn.value) && imageShown
      ensures !Present(isbn) && Contains(old(src), GoogleBooksMarker) ==> src == TitleCoverUrl(title) && imageShown
      ensures !Contains(old(src), GoogleBooksMarker) && !Contains(old(src), OpenLibraryIsbnMarker) && Contains(old(src), OpenLibraryTitleMarker)
              ==> src == AmazonCoverUrl(isbn, title) && imageShown
      ensures NextSrc(old(src), isbn, title).None? ==> !imageShown && placeholderShown && src == old(src)
      ensures NextSrc(old(src), isbn, title).Some? ==> src == NextSrc(old(src), isbn, title).value && imageShown
      ensures Valid()
    {
      var currentSrc := src;
      if Present(isbn) && Contains(currentSrc, OpenLibraryIsbnMarker) {
        src := GoogleIsbnCoverUrl(isbn.value);
      } else if Present(isbn) && Contains(currentSrc, GoogleBooksMarker) && Contains(currentSrc, IsbnMarker) {
        src := GoogleIdCoverUrl(isbn.value);
      } else if Contains(currentSrc, GoogleBooksMarker) {
        src := TitleCoverUrl(title);
      } else if Contains(currentSrc, OpenLibraryTitleMarker) {
        src := AmazonCoverUrl(isbn, title);
      } else {
        imageShown := false;
        placeholderShown := true;
      }
    }
  }
}

/**
 * The web application shell (src/App.tsx): the search flow over the mock
 * book service, the retry action and which panel is rendered.
 */
module WebApp {
  import opened Wrappers
  import opened BookTypes
  import LegacyBookService

  class App {
    var isLoading: bool
    var currentBook: Option<LegacyBook>
    var error: Option<string>

    constructor()
      ensures !isLoading && currentBook.None? && error.None?
    {
      isLoading := false;
      currentBook := None;
      error := None;
    }

    /** The error panel: rendered when the error is a non-empty string. */
    predicate ShowsError()
      reads this
    {
      Present(error)
    }

    /** The book panel: a book, no error, not loading. */
    predicate ShowsBook()
      reads this
    {
      currentBook.Some? && !Present(error) && !isLoading
    }

    /** The welcome panel: no book, no error, not loading. */
    predicate ShowsWelcome()
      reads this
    {
      currentBook.None? && !Present(error) && !isLoading
    }

    /** The book and welcome panels never show together, nor beside an error. */
    lemma PanelsExclusive()
      ensures !(ShowsBook() && ShowsWelcome())
      ensures ShowsError() ==> !ShowsBook() && !ShowsWelcome()
    {
    }

    /** The state after a search has started and before the result arrives. */
    method StartSearch()
      modifies this
      ensures isLoading && error.None? && currentBook.None?
      ensures !ShowsBook() && !ShowsWelcome() && !ShowsError()
    {
      isLoading := true;
      error := None;
      currentBook := None;
    }

    /**
     * `handleSearch`: loading with nothing shown, then exactly one of the
     * book and the error, and loading off.
     */
    method HandleSearch(title: string)
      modifies this
      ensures !isLoading
      ensures currentBook.Some? != error.Some?
      ensures var result := LegacyBookService.SearchBook(title);
        && (result.success && result.book.Some? ==> currentBook == result.book && error.None?)
        && (!(result.success && result.book.Some?) ==>
              error == Some(if Present(result.error) then result.error.value else "An unexpected error occurred"))
      ensures ShowsBook() != ShowsError()
    {
      StartSearch();
      var result := LegacyBookService.SearchBook(title);
      if result.success && result.book.Some? {
        currentBook := result.book;
      } else {
        error := Some(if Present(result.error) then result.error.value else "An unexpected error occurred");
      }
      isLoading := false;
    }

    /** `handleRetry`: clears both the error and the book, which brings back the welcome panel when idle. */
    method HandleRetry()
      modifies this
      ensures error.None? && currentBook.None? && isLoading == old(isLoading)
      ensures !isLoading ==> ShowsWelcome()
    {
      error := None;
      currentBook := None;
    }
  }
}

/**
 * The mobile book store (mobile/stores/bookStore.ts): the current book, the
 * loading flag, the last error and the searched title, overwritten by its
 * setters.
 */
module BookStore {
  import opened Wrappers
  import opened BookTypes

  class Store {
    var currentBook: Option<Book>
    var isLoading: bool
    var error: Option<string>
    var searchTitle: string

    /** A book and an error are never shown together. */
    predicate Valid()
      reads this
    {
      !(currentBook.Some? && error.Some?)
    }

    predicate IsInitial()
      reads this
    {
      currentBook.None? && !isLoading && error.None? && searchTitle == ""
    }

    constructor()
      ensures IsInitial() && Valid()
    {
      currentBook := None;
      isLoading := false;
      error := None;
      searchTitle := "";
    }

    /** `setCurrentBook`: sets the book and clears the error. */
    method SetCurrentBook(book: Option<Book>)
      modifies this
      ensures currentBook == book && error.None?
      ensures isLoading == old(isLoading) && searchTitle == old(searchTitle)
      ensures Valid()
    {
      currentBook := book;
      error := None;
    }

    /** `setIsLoading`: only the flag changes. */
    method SetIsLoading(loading: bool)
      modifies this
      ensures isLoading == loading
      ensures currentBook == old(currentBook) && error == old(error) && searchTitle == old(searchTitle)
      ensures old(Valid()) ==> Valid()
    {
      isLoading := loading;
    }

    /** `setError`: sets the error and clears the book, even when the error is null. */
    method SetError(e: Option<string>)
      modifies this
      ensures error == e && currentBook.None?
      ensures isLoading == old(isLoading) && searchTitle == old(searchTitle)
      ensures Valid()
    {
      error := e;
      currentBook := None;
    }

    /** `setSearchTitle`: only the title changes. */
    method SetSearchTitle(title: string)
      modifies this
      ensures searchTitle == title
      ensures currentBook == old(currentBook) && error == old(error) && isLoading == old(isLoading)
      ensures old(Valid()) ==> Valid()
    {
      searchTitle := title;
    }

    /** `reset`: back to the initial state. */
    method Reset()
      modifies this
      ensures IsInitial() && Valid()
    {
      currentBook := None;
      isLoading := false;
      error := None;
      searchTitle := "";
    }
  }
}

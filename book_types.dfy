/**
 * The records shared by the web and mobile applications (`Book`,
 * `ActionableStep`, `DetailedStepInfo`, `BookSearchResult`), the record of
 * the legacy mock service, and the abstract result of `JSON.parse`.
 */
module BookTypes {
  import opened Wrappers

  /** The detailed explanation attached to a step in the mobile application. */
  datatype StepDetails = StepDetails(sentences: seq<string>, keyTakeaway: string)

  /**
   * One action of the seven-day plan.  `day` is optional in both
   * applications; `details` exists only in the mobile application (the web
   * steps always carry `None`).
   */
  datatype ActionableStep = ActionableStep(
    day: Option<string>,
    step: string,
    chapter: string,
    details: Option<StepDetails>)

  datatype Book = Book(
    title: string,
    author: string,
    summary: string,
    actionableSteps: seq<ActionableStep>,
    coverImageUrl: Option<string>,
    publishedYear: Option<int>,
    genre: Option<string>,
    isbn: Option<string>)

  /** `{ success, book?, error? }`, generic in the kind of book it carries. */
  datatype SearchResult<B> = SearchResult(success: bool, book: Option<B>, error: Option<string>)

  type BookSearchResult = SearchResult<Book>

  function Found<B>(b: B): SearchResult<B> {
    SearchResult(true, Some(b), None)
  }

  function Failed<B>(message: string): SearchResult<B> {
    SearchResult(false, None, Some(message))
  }

  /** The shape every search result of the services has: a book exactly on success, an error exactly on failure. */
  predicate Uniform<B>(r: SearchResult<B>) {
    (r.success <==> r.book.Some?) && (r.success <==> r.error.None?)
  }

  /**
   * What `JSON.parse` may return, as far as the services look at it: either
   * a value that is not an object (null, a number, a string, a boolean), or an
   * object whose fields are read.  A field that is missing, `null` or falsy is
   * the empty string (or `None`); `actionableSteps` is `None` when it is not
   * an array.
   */
  datatype Json =
    | NotAnObject
    | Object(
        title: string,
        author: string,
        summary: string,
        actionableSteps: Option<seq<ActionableStep>>,
        coverImageUrl: Option<string>,
        publishedYear: Option<int>,
        genre: Option<string>,
        isbn: Option<string>)

  /** A trending-shelf entry: `Pick<Book, 'title' | 'author' | 'coverImageUrl' | 'isbn'>`. */
  datatype TrendingBook = TrendingBook(
    title: string,
    author: string,
    coverImageUrl: Option<string>,
    isbn: Option<string>)

  /** The book record of the legacy mock service: steps are plain strings. */
  datatype LegacyBook = LegacyBook(
    title: string,
    author: string,
    publishedYear: int,
    genre: string,
    summary: string,
    actionableSteps: seq<string>)
}

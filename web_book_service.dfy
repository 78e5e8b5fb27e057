/**
 * The web book service (src/services/openRouterService.ts): strict
 * validation of the AI reply, `searchBook` and its built-in catalog.  The
 * API key comes from the build environment and is a parameter here; the
 * request outcome and `JSON.parse` are inputs as in the mobile service.
 */
module WebBookService {
  import opened Wrappers
  import opened Text
  import opened BookTypes
  import opened Catalog
  import opened CoverImage
  import MobileBookService

  /** The days a catalog plan runs through, in order. */
  const WeekFromMonday: seq<string> := ["Monday", "Tuesday", "Wednesday", "Thursday", "Friday", "Saturday", "Sunday"]

  /** The per-step check of lines 108-112: step, chapter and day all non-empty. */
  predicate CompleteStep(s: ActionableStep) {
    s.step != "" && s.chapter != "" && Present(s.day)
  }

  /**
   * The strict check of lines 94-112: an object with non-empty title,
   * author and summary and exactly seven complete steps.  The cover is
   * recomputed from ISBN and title (lines 115-118).
   */
  function AcceptStrict(data: Json): (r: Option<Book>)
    ensures r.Some? <==>
      && data.Object? && data.title != "" && data.author != "" && data.summary != ""
      && data.actionableSteps.Some? && |data.actionableSteps.value| == 7
      && (forall k :: 0 <= k < 7 ==> CompleteStep(data.actionableSteps.value[k]))
    ensures r.Some? ==> r.value.actionableSteps == data.actionableSteps.value
    ensures r.Some? ==> r.value.coverImageUrl == Some(GenerateCoverImageUrl(data.isbn, Some(data.title)))
  {
    match data
    case NotAnObject => None
    case Object(title, author, summary, steps, _, year, genre, isbn) =>
      if title == "" || author == "" || summary == "" || steps.None? then None
      else if |steps.value| != 7 then None
      else if exists k :: 0 <= k < 7 && !CompleteStep(steps.value[k]) then None
      else Some(Book(title, author, summary, steps.value, Some(GenerateCoverImageUrl(isbn, Some(title))), year, genre, isbn))
  }

  /** What the strict check accepts, the lenient mobile check accepts too, with the same book. */
  lemma StrictIsStricterThanLenient(data: Json)
    ensures AcceptStrict(data).Some? ==> MobileBookService.Accept(data) == AcceptStrict(data)
  {
  }

  /** A plan of six or eight steps is refused, however complete its steps are. */
  lemma WrongStepCountRejected(data: Json)
    requires data.Object? && data.actionableSteps.Some?
    requires |data.actionableSteps.value| == 6 || |data.actionableSteps.value| == 8
    ensures AcceptStrict(data).None?
    ensures MobileBookService.Accept(data).Some? <==> data.title != "" && data.author != "" && data.summary != ""
  {
  }

  /** One incomplete step anywhere in the seven refuses the whole reply. */
  lemma IncompleteStepRejected(data: Json, k: int)
    requires data.Object? && data.actionableSteps.Some? && |data.actionableSteps.value| == 7
    requires 0 <= k < 7 && !CompleteStep(data.actionableSteps.value[k])
    ensures AcceptStrict(data).None?
  {
  }

  /**
   * `generateBookAnalysis`: no key, a failed request, empty content, text
   * `parse` refuses or a reply the strict check refuses all give `None`.
   * The content goes to `parse` exactly as received.
   */
  function Analysis(apiKey: string, reply: MobileBookService.ApiReply, parse: string -> Option<Json>): (r: Option<Book>)
    ensures apiKey == "" ==> r.None?
    ensures r.Some? ==> reply.Reply? && Present(reply.content)
    ensures r.Some? ==> parse(reply.content.value).Some? && r == AcceptStrict(parse(reply.content.value).value)
    ensures apiKey != "" && reply.Reply? && Present(reply.content) && parse(reply.content.value).Some? ==>
      r == AcceptStrict(parse(reply.content.value).value)
  {
    if apiKey == "" then None
    else if reply.RequestFailed? || !Present(reply.content) then None
    else
      match parse(reply.content.value)
      case None => None
      case Some(data) => AcceptStrict(data)
  }

  /**
   * With a parser that, like `JSON.parse`, refuses text starting with a
   * backtick, a fenced reply is never analysed: there is no clean-up here.
   */
  lemma FencedReplyRejected(apiKey: string, content: string, parse: string -> Option<Json>)
    requires StartsWith(content, MobileBookService.Fence)
    requires forall t :: StartsWith(t, "`") ==> parse(t).None?
    ensures Analysis(apiKey, MobileBookService.Reply(Some(content)), parse).None?
  {
    assert content[..1] == content[..3][..1];
  }

  const CouldNotAnalyzeMessage: string -> string := MobileBookService.CouldNotAnalyzeMessage

  /**
   * `searchBook`: no content filter; the catalog (exact key, then first
   * partial key) wins whatever the connection test reports; otherwise the
   * AI with the title as typed.
   */
  function SearchBook(title: string, apiKey: string, reply: MobileBookService.ApiReply, parse: string -> Option<Json>)
    : (result: BookSearchResult)
    ensures Uniform(result)
    ensures Lookup(FallbackCatalog, MobileBookService.Normalize(title)).Some? ==>
      result == Found(Lookup(FallbackCatalog, MobileBookService.Normalize(title)).value)
    ensures Lookup(FallbackCatalog, MobileBookService.Normalize(title)).None? ==>
      result == match Analysis(apiKey, reply, parse)
                case Some(b) => Found(b)
                case None => Failed(MobileBookService.CouldNotAnalyzeMessage(title))
  {
    var normalizedTitle := MobileBookService.Normalize(title);
    match Lookup(FallbackCatalog, normalizedTitle)
    case Some(b) => Found(b)
    case None =>
      match Analysis(apiKey, reply, parse)
      case Some(b) => Found(b)
      case None => Failed(MobileBookService.CouldNotAnalyzeMessage(title))
  }

  /** Without a key, a title outside the catalog always fails with the message quoting it. */
  lemma NoKeyOutsideCatalogFails(title: string, reply: MobileBookService.ApiReply, parse: string -> Option<Json>)
    requires Lookup(FallbackCatalog, MobileBookService.Normalize(title)).None?
    ensures SearchBook(title, "", reply, parse) == Failed(MobileBookService.CouldNotAnalyzeMessage(title))
  {
  }

  /** The catalog keys are distinct, so an exact key always wins. */
  lemma CatalogKeysDistinct()
    ensures DistinctKeys(FallbackCatalog)
  {
  }

  /** Every catalog plan has seven steps running Monday to Sunday in order, all complete. */
  lemma CatalogWeekInOrder()
    ensures forall i :: 0 <= i < |FallbackCatalog| ==>
      |FallbackCatalog[i].value.actionableSteps| == 7
      && forall k :: 0 <= k < 7 ==>
        FallbackCatalog[i].value.actionableSteps[k].day == Some(WeekFromMonday[k])
        && CompleteStep(FallbackCatalog[i].value.actionableSteps[k])
  {
  }

  /** The built-in books (`fallbackBooks`), keyed by lower-case title, in declaration order. */
  const FallbackCatalog: seq<Entry<Book>> := [
    Entry("atomic habits",
      Book(
        "Atomic Habits",
        "James Clear",
        "Atomic Habits is a comprehensive guide to building good habits and breaking bad ones. James Clear presents a proven system for improving every day through tiny changes that compound over time. The book emphasizes that small, consistent improvements lead to remarkable results, and provides practical strategies for habit formation based on the four laws of behavior change.",
        [
          ActionableStep(Some("Monday"), "Start with habits so small they seem almost ridiculous (2-minute rule)", "Chapter 11: Walk Slowly, but Never Backward", None),
          ActionableStep(Some("Tuesday"), "Stack new habits onto existing ones using habit stacking", "Chapter 5: The Best Way to Start a New Habit", None),
          ActionableStep(Some("Wednesday"), "Design your environment to make good habits obvious and bad habits invisible", "Chapter 6: Motivation Is Overrated; Environment Often Matters More", None),
          ActionableStep(Some("Thursday"), "Track your habits daily using a simple habit tracker", "Chapter 16: How to Stick with Good Habits Every Day", None),
          ActionableStep(Some("Friday"), "Focus on identity-based habits: \"I am the type of person who...\"", "Chapter 2: How Your Habits Shape Your Identity", None),
          ActionableStep(Some("Saturday"), "Use the two-day rule: never miss twice in a row", "Chapter 15: The Cardinal Rule of Behavior Change", None),
          ActionableStep(Some("Sunday"), "Celebrate small wins immediately after completing a habit", "Chapter 15: The Cardinal Rule of Behavior Change", None)
        ],
        Some("https://covers.openlibrary.org/b/isbn/9780735211292-L.jpg"),
        Some(2018),
        Some("Self-Help"),
        Some("9780735211292"))),
    Entry("think and grow rich",
      Book(
        "Think and Grow Rich",
        "Napoleon Hill",
        "Think and Grow Rich is a classic personal development book based on Hill\'s study of successful individuals. The book outlines 13 principles for achieving wealth and success, emphasizing the power of thought, desire, and persistence. Hill argues that success begins with a burning desire and a definite plan, supported by unwavering faith and persistence.",
        [
          ActionableStep(Some("Monday"), "Define your definite major purpose with specific financial goals", "Chapter 2: Desire", None),
          ActionableStep(Some("Tuesday"), "Develop burning desire by writing down exactly what you want", "Chapter 2: Desire", None),
          ActionableStep(Some("Wednesday"), "Build unwavering faith through auto-suggestion and visualization", "Chapter 3: Faith", None),
          ActionableStep(Some("Thursday"), "Acquire specialized knowledge in your chosen field", "Chapter 5: Specialized Knowledge", None),
          ActionableStep(Some("Friday"), "Use your imagination to create detailed plans for achieving your goals", "Chapter 6: Imagination", None),
          ActionableStep(Some("Saturday"), "Make quick, firm decisions and stick to them", "Chapter 8: Decision", None),
          ActionableStep(Some("Sunday"), "Develop persistence by never giving up on your major purpose", "Chapter 9: Persistence", None)
        ],
        Some("https://covers.openlibrary.org/b/isbn/9781585424337-L.jpg"),
        Some(1937),
        Some("Personal Finance"),
        Some("9781585424337"))),
    Entry("the 7 habits of highly effective people",
      Book(
        "The 7 Habits of Highly Effective People",
        "Stephen R. Covey",
        "Covey presents a principle-centered approach to personal and professional effectiveness. The book introduces seven habits that move individuals from dependence to independence to interdependence. These habits are based on universal principles and focus on character development rather than quick-fix techniques.",
        [
          ActionableStep(Some("Monday"), "Be proactive: Focus on what you can control and take responsibility", "Habit 1: Be Proactive", None),
          ActionableStep(Some("Tuesday"), "Begin with the end in mind: Define your personal mission statement", "Habit 2: Begin with the End in Mind", None),
          ActionableStep(Some("Wednesday"), "Put first things first: Prioritize important over urgent tasks", "Habit 3: Put First Things First", None),
          ActionableStep(Some("Thursday"), "Think win-win: Seek mutual benefit in all interactions", "Habit 4: Think Win-Win", None),
          ActionableStep(Some("Friday"), "Seek first to understand, then to be understood: Practice empathetic listening", "Habit 5: Seek First to Understand, Then to Be Understood", None),
          ActionableStep(Some("Saturday"), "Synergize: Value differences and work collaboratively", "Habit 6: Synergize", None),
          ActionableStep(Some("Sunday"), "Sharpen the saw: Continuously improve in all four dimensions of life", "Habit 7: Sharpen the Saw", None)
        ],
        Some("https://books.google.com/books/content?id=ISBN:9781982137274&printsec=frontcover&img=1&zoom=1&source=gbs_api"),
        Some(1989),
        Some("Self-Help"),
        Some("9781982137274")))
  ]
}

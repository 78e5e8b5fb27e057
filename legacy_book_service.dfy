/**
 * The mock book service (src/services/bookService.ts): a two-stage lookup
 * over a small table of books whose steps are plain strings.  The simulated
 * network delay is left out.
 */
module LegacyBookService {
  import opened Wrappers
  import opened Text
  import opened BookTypes
  import opened Catalog

  function NotFoundMessage(title: string): (m: string)
    ensures Contains(m, "\"" + title + "\"")
  {
    var quoted := "\"" + title + "\"";
    ContainsSelf(quoted);
    ContainsInfix("Sorry, we couldn't find ", quoted, " in our database. Please try another book title.", quoted);
    "Sorry, we couldn't find " + quoted + " in our database. Please try another book title."
  }

  /**
   * `searchBook`: the entry whose key is the normalised title, else the
   * first entry whose key contains it or is contained in it, else a failure
   * quoting the title as typed.
   */
  function SearchBook(title: string): (result: SearchResult<LegacyBook>)
    ensures Uniform(result)
    ensures var q := Trim(Lower(title));
      && (FindMatch(MockBooks, q).Exact? ==> result == Found(MockBooks[FindMatch(MockBooks, q).index].value))
      && (FindMatch(MockBooks, q).Partial? ==> result == Found(MockBooks[FindMatch(MockBooks, q).index].value))
      && (FindMatch(MockBooks, q).NoMatch? ==> !result.success && Contains(result.error.value, "\"" + title + "\""))
  {
    match Lookup(MockBooks, Trim(Lower(title)))
    case Some(b) => Found(b)
    case None => Failed(NotFoundMessage(title))
  }

  lemma DistinctMockKeys()
    ensures DistinctKeys(MockBooks)
  {
  }

  /** Every mock book has ten steps. */
  lemma TenStepsEach()
    ensures forall i :: 0 <= i < |MockBooks| ==> |MockBooks[i].value.actionableSteps| == 10
  {
  }

  /** The mock books (`mockBooks`), keyed by lower-case title, in declaration order. */
  const MockBooks: seq<Entry<LegacyBook>> := [
    Entry("atomic habits",
      LegacyBook(
        "Atomic Habits",
        "James Clear",
        2018,
        "Self-Help",
        "Atomic Habits is a comprehensive guide to building good habits and breaking bad ones. James Clear presents a proven system for improving every day through tiny changes that compound over time. The book emphasizes that small, consistent improvements lead to remarkable results, and provides practical strategies for habit formation based on the four laws of behavior change.",
        [
          "Start with habits so small they seem almost ridiculous (2-minute rule)",
          "Stack new habits onto existing ones using habit stacking",
          "Design your environment to make good habits obvious and bad habits invisible",
          "Track your habits daily using a simple habit tracker",
          "Focus on identity-based habits: \"I am the type of person who...\"",
          "Use the two-day rule: never miss twice in a row",
          "Celebrate small wins immediately after completing a habit",
          "Make bad habits difficult by increasing friction",
          "Find an accountability partner or join a community",
          "Review and adjust your habits monthly based on what\'s working"
        ])),
    Entry("think and grow rich",
      LegacyBook(
        "Think and Grow Rich",
        "Napoleon Hill",
        1937,
        "Personal Finance",
        "Think and Grow Rich is a classic personal development book based on Hill\'s study of successful individuals. The book outlines 13 principles for achieving wealth and success, emphasizing the power of thought, desire, and persistence. Hill argues that success begins with a burning desire and a definite plan, supported by unwavering faith and persistence.",
        [
          "Define your definite major purpose with specific financial goals",
          "Develop burning desire by writing down exactly what you want",
          "Build unwavering faith through auto-suggestion and visualization",
          "Acquire specialized knowledge in your chosen field",
          "Use your imagination to create detailed plans for achieving your goals",
          "Make quick, firm decisions and stick to them",
          "Develop persistence by never giving up on your major purpose",
          "Surround yourself with a mastermind group of like-minded individuals",
          "Transform your sexual energy into creative and productive outlets",
          "Listen to your subconscious mind and act on hunches and inspirations"
        ])),
    Entry("the 7 habits of highly effective people",
      LegacyBook(
        "The 7 Habits of Highly Effective People",
        "Stephen R. Covey",
        1989,
        "Self-Help",
        "Covey presents a principle-centered approach to personal and professional effectiveness. The book introduces seven habits that move individuals from dependence to independence to interdependence. These habits are based on universal principles and focus on character development rather than quick-fix techniques.",
        [
          "Be proactive: Focus on what you can control and take responsibility",
          "Begin with the end in mind: Define your personal mission statement",
          "Put first things first: Prioritize important over urgent tasks",
          "Think win-win: Seek mutual benefit in all interactions",
          "Seek first to understand, then to be understood: Practice empathetic listening",
          "Synergize: Value differences and work collaboratively",
          "Sharpen the saw: Continuously improve in all four dimensions of life",
          "Practice daily self-reflection and planning",
          "Create weekly and monthly reviews of your progress",
          "Align your actions with your values and principles"
        ]))
  ]
}

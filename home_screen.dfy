/**
 * The mobile home screen (mobile/app/index.tsx): the trending selection that
 * never repeats the previous call's books, the cycling search placeholder and the
 * search handler.  The random order `sort(() => Math.random() - 0.5)`
 * produces is an input (`order`, a permutation of the table's positions);
 * the outcome of `searchBook` is an input too.
 */
module HomeScreen {
  import opened Wrappers
  import opened Text
  import opened BookTypes
  import opened FallbackBooks
  import TrendingBooksService
  import BookStore

  // ---------------------------------------------------------------------
  // Trending selection without repeats
  // ---------------------------------------------------------------------

  predicate DistinctTitles(books: seq<TrendingBook>) {
    forall i, j :: 0 <= i < j < |books| ==> books[i].title != books[j].title
  }

  function Titles(books: seq<TrendingBook>): (titles: seq<string>)
    ensures |titles| == |books| && forall k :: 0 <= k < |books| ==> titles[k] == books[k].title
  {
    seq(|books|, k requires 0 <= k < |books| => books[k].title)
  }

  /** `order` lists every position of a table of n books exactly once. */
  predicate IsOrder(order: seq<nat>, n: nat) {
    |order| == n
    && (forall k :: 0 <= k < n ==> order[k] < n)
    && (forall i, j :: 0 <= i < j < n ==> order[i] != order[j])
  }

  /** The table in the shuffled order. */
  function Arrange(order: seq<nat>): (shuffled: seq<TrendingBook>)
    requires IsOrder(order, |Trending|)
    ensures |shuffled| == |Trending|
    ensures forall b :: b in shuffled ==> b in Trending
    ensures DistinctTitles(shuffled)
  {
    TitlesDistinct();
    var shuffled := seq(|order|, k requires 0 <= k < |order| => Trending[order[k]]);
    assert forall i, j :: 0 <= i < j < |shuffled| ==> shuffled[i].title != shuffled[j].title by {
      forall i, j | 0 <= i < j < |shuffled|
        ensures shuffled[i].title != shuffled[j].title
      {
        if order[i] < order[j] {
          assert Trending[order[i]].title != Trending[order[j]].title;
        } else {
          assert Trending[order[j]].title != Trending[order[i]].title;
        }
      }
    }
    shuffled
  }

  /** `filter(book => !previouslyShown.includes(book.title))`: exactly the books not shown last time, in order. */
  function NotShownBefore(books: seq<TrendingBook>, previouslyShown: seq<string>): (r: seq<TrendingBook>)
    ensures |r| <= |books|
    ensures forall b :: b in r <==> b in books && b.title !in previouslyShown
  {
    if books == [] then []
    else
      var rest := NotShownBefore(books[1..], previouslyShown);
      assert forall b :: b in books <==> b == books[0] || b in books[1..];
      if books[0].title in previouslyShown then rest else [books[0]] + rest
  }

  lemma {:induction false} NotShownBeforeDistinct(books: seq<TrendingBook>, previouslyShown: seq<string>)
    requires DistinctTitles(books)
    ensures DistinctTitles(NotShownBefore(books, previouslyShown))
  {
    if books != [] {
      var rest := NotShownBefore(books[1..], previouslyShown);
      NotShownBeforeDistinct(books[1..], previouslyShown);
      if books[0].title !in previouslyShown {
        forall x | x in rest
          ensures x.title != books[0].title
        {
          var k :| 0 <= k < |books[1..]| && books[1..][k] == x;
          assert books[k + 1] == x;
        }
        var r := [books[0]] + rest;
        forall i, j | 0 <= i < j < |r|
          ensures r[i].title != r[j].title
        {
          if i == 0 {
            assert r[j] == rest[j - 1] && r[j] in rest;
          } else {
            assert r[i] == rest[i - 1] && r[j] == rest[j - 1];
          }
        }
      }
    }
  }

  /**
   * With distinct titles, filtering out the titles of a set `shown` (which
   * covers every filtered title) keeps at least |books| - |shown| books.
   */
  lemma {:induction false} NotShownBeforeCount(books: seq<TrendingBook>, previouslyShown: seq<string>, shown: set<string>)
    requires DistinctTitles(books)
    requires forall k :: 0 <= k < |books| && books[k].title in previouslyShown ==> books[k].title in shown
    ensures |NotShownBefore(books, previouslyShown)| >= |books| - |shown|
  {
    if books != [] {
      var t := books[0].title;
      assert forall k :: 0 <= k < |books[1..]| ==> books[1..][k] == books[k + 1];
      if t in previouslyShown {
        NotShownBeforeCount(books[1..], previouslyShown, shown - {t});
      } else {
        NotShownBeforeCount(books[1..], previouslyShown, shown);
      }
    }
  }

  lemma {:induction false} SetOfSeqSize(s: seq<string>)
    ensures |set t | t in s| <= |s|
  {
    if s != [] {
      SetOfSeqSize(s[1..]);
      assert (set t | t in s) == (set t | t in s[1..]) + {s[0]};
    }
  }

  /** The module-level `previouslyShown` list and the selection that updates it. */
  class TrendingPicker {
    var previouslyShown: seq<string>

    constructor()
      ensures previouslyShown == []
    {
      previouslyShown := [];
    }

    /**
     * `getRandomBooks(count)`: at most `count` distinct table books, none
     * with a title shown last time; the shown list becomes their titles.  If
     * the table has room for `count` books after the last selection, exactly
     * `count` are returned.
     */
    method GetRandomBooks(order: seq<nat>, count: int) returns (selected: seq<TrendingBook>)
      requires IsOrder(order, |Trending|)
      modifies this
      ensures forall b :: b in selected ==> b in Trending && b.title !in old(previouslyShown)
      ensures DistinctTitles(selected)
      ensures 0 <= count ==> |selected| <= count
      ensures 0 <= count && |old(previouslyShown)| + count <= |Trending| ==> |selected| == count
      ensures previouslyShown == Titles(selected)
    {
      var shuffled := Arrange(order);
      var nonRepeating := NotShownBefore(shuffled, previouslyShown);
      NotShownBeforeDistinct(shuffled, previouslyShown);
      NotShownBeforeCount(shuffled, previouslyShown, set t | t in previouslyShown);
      SetOfSeqSize(previouslyShown);
      selected := nonRepeating[..TrendingBooksService.SliceEnd(count, |nonRepeating|)];
      assert forall b :: b in selected ==> b in nonRepeating;
      previouslyShown := Titles(selected);
    }
  }

  /** With the 25-book table, two successive calls for five books are full and share no title. */
  method SuccessiveCallsAreDisjoint(picker: TrendingPicker, order1: seq<nat>, order2: seq<nat>)
    returns (first: seq<TrendingBook>, second: seq<TrendingBook>)
    requires IsOrder(order1, |Trending|) && IsOrder(order2, |Trending|)
    requires |picker.previouslyShown| <= 5
    modifies picker
    ensures |first| == 5 && |second| == 5
    ensures forall i, j :: 0 <= i < 5 && 0 <= j < 5 ==> first[i].title != second[j].title
  {
    TwentyFiveBooks();
    first := picker.GetRandomBooks(order1, 5);
    second := picker.GetRandomBooks(order2, 5);
    assert forall j :: 0 <= j < 5 ==> second[j] in second;
  }

  // ---------------------------------------------------------------------
  // Placeholder cycling
  // ---------------------------------------------------------------------

  const Placeholders: seq<string> := [
    "Try 'Atomic Habits' by James Clear",
    "Try 'Think and Grow Rich' by Napoleon Hill",
    "Try 'The 7 Habits of Highly Effective People'",
    "Try 'How to Win Friends and Influence People'",
    "Try 'The 4-Hour Workweek' by Tim Ferriss",
    "Try 'Rich Dad Poor Dad' by Robert Kiyosaki",
    "Try 'The Power of Now' by Eckhart Tolle"
  ]

  /** One tick of the placeholder interval. */
  function NextPlaceholder(i: nat): (j: nat)
    ensures j < |Placeholders|
  {
    (i + 1) % |Placeholders|
  }

  /** The index after `k` ticks. */
  function AfterTicks(i: nat, k: nat): nat {
    if k == 0 then i else NextPlaceholder(AfterTicks(i, k - 1))
  }

  /** From a valid index, k ticks advance it by k, modulo the number of placeholders. */
  lemma {:induction false} AfterTicksIsModular(i: nat, k: nat)
    requires i < |Placeholders|
    ensures AfterTicks(i, k) == (i + k) % |Placeholders|
  {
    if k > 0 {
      AfterTicksIsModular(i, k - 1);
      assert |Placeholders| == 7;
      TickMod(i + k - 1);
    }
  }

  /** Advancing a residue modulo 7 by one is advancing the number by one. */
  lemma TickMod(x: nat)
    ensures (x % 7 + 1) % 7 == (x + 1) % 7
  {
  }

  /** Seven ticks show every placeholder once and come back to the start. */
  lemma PlaceholderCycle(i: nat)
    requires i < |Placeholders|
    ensures AfterTicks(i, |Placeholders|) == i
  {
    AfterTicksIsModular(i, |Placeholders|);
  }

  // ---------------------------------------------------------------------
  // Search
  // ---------------------------------------------------------------------

  /** What awaiting `searchBook` produced: a result, or an exception with its message. */
  datatype SearchOutcome = Returned(result: BookSearchResult) | Threw(message: string)

  /** The error the screen shows for an outcome without a book. */
  function ErrorFor(outcome: SearchOutcome): (e: string)
    ensures e != ""
    ensures outcome.Returned? && Present(outcome.result.error) ==> e == outcome.result.error.value
    ensures outcome.Threw? && outcome.message != "" ==> e == outcome.message
  {
    match outcome
    case Returned(result) => if Present(result.error) then result.error.value else "Failed to find book"
    case Threw(message) => if message != "" then message else "An error occurred"
  }

  class Screen {
    var searchTerm: string
    var placeholderIndex: nat
    const store: BookStore.Store

    predicate Valid()
      reads this
    {
      placeholderIndex < |Placeholders|
    }

    constructor(store: BookStore.Store)
      ensures this.store == store && searchTerm == "" && placeholderIndex == 0 && Valid()
    {
      this.store := store;
      searchTerm := "";
      placeholderIndex := 0;
    }

    /** The interval callback. */
    method CyclePlaceholder()
      requires Valid()
      modifies this
      ensures placeholderIndex == NextPlaceholder(old(placeholderIndex))
      ensures searchTerm == old(searchTerm) && Valid()
    {
      placeholderIndex := (placeholderIndex + 1) % |Placeholders|;
    }

    /**
     * `handleSearch`: nothing happens for a blank term or while a search is
     * loading; otherwise the store is set to loading with no error and the
     * trimmed term as title, then receives the book or the error, and
     * loading ends in every case.  `searchedFor` is the query passed to
     * `searchBook`; `navigated` says whether the result screen was opened.
     */
    method HandleSearch(outcome: SearchOutcome) returns (searchedFor: Option<string>, navigated: bool)
      modifies store
      ensures Trim(searchTerm) == "" || old(store.isLoading) ==>
        searchedFor.None? && !navigated
        && store.currentBook == old(store.currentBook) && store.error == old(store.error)
        && store.isLoading == old(store.isLoading) && store.searchTitle == old(store.searchTitle)
      ensures searchedFor.Some? <==> Trim(searchTerm) != "" && !old(store.isLoading)
      ensures searchedFor.Some? ==> searchedFor.value == Trim(searchTerm) && store.searchTitle == Trim(searchTerm)
      ensures searchedFor.Some? ==> !store.isLoading && store.Valid()
      ensures searchedFor.Some? ==> (navigated <==> outcome.Returned? && outcome.result.success && outcome.result.book.Some?)
      ensures searchedFor.Some? && navigated ==> store.currentBook == outcome.result.book && store.error.None?
      ensures searchedFor.Some? && !navigated ==> store.currentBook.None? && store.error == Some(ErrorFor(outcome))
    {
      navigated := false;
      if Trim(searchTerm) == "" || store.isLoading {
        return None, false;
      }
      store.SetIsLoading(true);
      store.SetError(None);
      store.SetSearchTitle(Trim(searchTerm));
      searchedFor := Some(Trim(searchTerm));
      if outcome.Returned? && outcome.result.success && outcome.result.book.Some? {
        store.SetCurrentBook(outcome.result.book);
        navigated := true;
      } else {
        store.SetError(Some(ErrorFor(outcome)));
      }
      store.SetIsLoading(false);
    }
  }
}

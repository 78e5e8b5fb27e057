/**
 * The web trending list (src/services/trendingBooksService.ts): a
 * Fisher–Yates shuffle of a copy of the list followed by taking the first
 * `count` books.  `Math.random()` is an input: `picks` holds the indices
 * `Math.floor(Math.random() * (i + 1))` in the order the loop draws them,
 * so the draw for position i is `picks[n - 1 - i]`; `PicksFromDraws` builds
 * them from the draws themselves with `Pick`, and each lies in 0..i.
 */
module TrendingBooksService {
  import opened Wrappers
  import opened BookTypes

  /** `Math.floor(r * (i + 1))`: the index the draw `r` picks among 0..i. */
  function Pick(r: real, i: nat): (j: nat)
    requires 0.0 <= r < 1.0
    ensures j <= i
  {
    var n := (i + 1) as real;
    var x := r * n;
    PositiveProduct(1.0 - r, n);
    assert n - x == (1.0 - r) * n;
    assert 0.0 <= x < n;
    x.Floor
  }

  lemma PositiveProduct(a: real, b: real)
    requires a > 0.0 && b > 0.0
    ensures a * b > 0.0
  {
  }

  /** Enough draws, the one for position i lying in 0..i. */
  predicate ValidPicks(picks: seq<nat>, n: nat) {
    |picks| >= n - 1 && forall d :: 0 <= d < |picks| && d < n ==> picks[d] <= n - 1 - d
  }

  function Swap<T>(s: seq<T>, i: nat, j: nat): (r: seq<T>)
    requires i < |s| && j < |s|
    ensures |r| == |s| && r[i] == s[j] && r[j] == s[i]
    ensures forall k :: 0 <= k < |s| && k != i && k != j ==> r[k] == s[k]
  {
    s[i := s[j]][j := s[i]]
  }

  /** A swap keeps every book and its number of copies. */
  lemma SwapMultiset<T>(s: seq<T>, i: nat, j: nat)
    requires i < |s| && j < |s|
    ensures multiset(Swap(s, i, j)) == multiset(s)
  {
    if i != j {
      assert multiset(s[i := s[j]]) == multiset(s) - multiset{s[i]} + multiset{s[j]};
    }
  }

  /**
   * The indices the loop computes from the draws `Math.random()` returns,
   * in the order it draws them (the d-th draw is for position n - 1 - d).
   */
  function PicksFromDraws(draws: seq<real>, n: nat): (picks: seq<nat>)
    requires |draws| >= n - 1
    requires forall d :: 0 <= d < |draws| ==> 0.0 <= draws[d] < 1.0
    ensures ValidPicks(picks, n)
  {
    var m := if n == 0 then 0 else n - 1;
    seq(m, d requires 0 <= d < m => Pick(draws[d], n - 1 - d))
  }

  /** The draw for position i lies in 0..i. */
  lemma PickInRange(picks: seq<nat>, n: nat, i: nat)
    requires ValidPicks(picks, n) && 0 < i < n
    ensures picks[n - 1 - i] <= i
  {
    var d := n - 1 - i;
    assert 0 <= d < |picks| && d < n;
  }

  /**
   * The shuffle as a function: the loop iterations for i, i-1, ..., 1 on
   * `s`, where the iteration for i swaps positions i and the drawn j.
   */
  function ShuffleDown<T>(s: seq<T>, picks: seq<nat>, i: int): (r: seq<T>)
    requires i < |s| && ValidPicks(picks, |s|)
    ensures |r| == |s|
    decreases i
  {
    if i <= 0 then s
    else
      PickInRange(picks, |s|, i);
      ShuffleDown(Swap(s, i, picks[|s| - 1 - i]), picks, i - 1)
  }

  /** The shuffle is a permutation: it keeps every book and its number of copies. */
  lemma {:induction false} ShuffleDownMultiset<T>(s: seq<T>, picks: seq<nat>, i: int)
    requires i < |s| && ValidPicks(picks, |s|)
    ensures multiset(ShuffleDown(s, picks, i)) == multiset(s)
    decreases i
  {
    if i > 0 {
      var j := picks[|s| - 1 - i];
      PickInRange(picks, |s|, i);
      SwapMultiset(s, i, j);
      ShuffleDownMultiset(Swap(s, i, j), picks, i - 1);
    }
  }

  /** Once the loop is below a position, that position is never touched again. */
  lemma {:induction false} ShuffleKeepsAbove<T>(s: seq<T>, picks: seq<nat>, i: int, k: int)
    requires 0 <= k && i < k < |s| && ValidPicks(picks, |s|)
    ensures ShuffleDown(s, picks, i)[k] == s[k]
    decreases i
  {
    if i > 0 {
      var j := picks[|s| - 1 - i];
      PickInRange(picks, |s|, i);
      var t := Swap(s, i, j);
      assert t[k] == s[k];
      assert ShuffleDown(s, picks, i) == ShuffleDown(t, picks, i - 1);
      ShuffleKeepsAbove(t, picks, i - 1, k);
    }
  }

  /** Where `slice(0, m)` stops on a list of length n (a negative m counts from the end). */
  function SliceEnd(m: int, n: nat): (e: nat)
    ensures e <= n
    ensures 0 <= m ==> e == if m < n then m else n
    ensures m < 0 ==> e == if n + m < 0 then 0 else n + m
  {
    if m < 0 then (if n + m < 0 then 0 else n + m) else if m < n then m else n
  }

  /** The swap loop of `getRandomBooks`, run in place on the copy `shuffled`. */
  method ShuffleInPlace(shuffled: array<TrendingBook>, picks: seq<nat>)
    requires ValidPicks(picks, shuffled.Length)
    modifies shuffled
    ensures shuffled[..] == ShuffleDown(old(shuffled[..]), picks, shuffled.Length - 1)
  {
    ghost var start := shuffled[..];
    var i := shuffled.Length - 1;
    while i > 0
      invariant -1 <= i < shuffled.Length && (shuffled.Length > 0 ==> 0 <= i)
      invariant ShuffleDown(shuffled[..], picks, i) == ShuffleDown(start, picks, shuffled.Length - 1)
      decreases i
    {
      var j := picks[shuffled.Length - 1 - i];
      PickInRange(picks, shuffled.Length, i);
      ghost var before := shuffled[..];
      shuffled[i], shuffled[j] := shuffled[j], shuffled[i];
      assert shuffled[..] == Swap(before, i, j);
      i := i - 1;
    }
  }

  /**
   * `getRandomBooks(books, count)`: the swap loop on a fresh copy, then the
   * first min(count, n) books.
   */
  method GetRandomBooks(books: seq<TrendingBook>, count: int, picks: seq<nat>) returns (picked: seq<TrendingBook>)
    requires ValidPicks(picks, |books|)
    ensures picked == ShuffleDown(books, picks, |books| - 1)[..SliceEnd(if count < |books| then count else |books|, |books|)]
    ensures 0 <= count ==> |picked| == if count < |books| then count else |books|
    ensures multiset(picked) <= multiset(books)
  {
    var shuffled := new TrendingBook[|books|](k requires 0 <= k < |books| => books[k]);
    assert shuffled[..] == books;
    ShuffleInPlace(shuffled, picks);
    var n := |books|;
    var m := if count < n then count else n;
    var all := shuffled[..];
    picked := all[..SliceEnd(m, n)];
    PrefixMultiset(all, SliceEnd(m, n));
    ShuffleDownMultiset(books, picks, n - 1);
  }

  /** A prefix holds no book more often than the whole list. */
  lemma PrefixMultiset<T>(s: seq<T>, e: nat)
    requires e <= |s|
    ensures multiset(s[..e]) <= multiset(s)
  {
    assert s == s[..e] + s[e..];
  }

  /** The eight books `fetchTrendingBooks` adds to the base list (`additionalTrendingBooks`). */
  const AdditionalTrendingBooks: seq<TrendingBook> :=
    [
      TrendingBook("Rich Dad, Poor Dad", "Robert T. Kiyosaki", Some("https://covers.openlibrary.org/b/isbn/9781612680194-L.jpg"), Some("9781612680194")),
      TrendingBook("How to Win Friends and Influence People", "Dale Carnegie", Some("https://covers.openlibrary.org/b/isbn/9780671027032-L.jpg"), Some("9780671027032")),
      TrendingBook("The 4-Hour Workweek", "Timothy Ferriss", Some("https://covers.openlibrary.org/b/isbn/9780307465351-L.jpg"), Some("9780307465351")),
      TrendingBook("The Power of Now", "Eckhart Tolle", Some("https://covers.openlibrary.org/b/isbn/9781577314806-L.jpg"), Some("9781577314806")),
      TrendingBook("Outliers", "Malcolm Gladwell", Some("https://covers.openlibrary.org/b/isbn/9780316017930-L.jpg"), Some("9780316017930")),
      TrendingBook("The Alchemist", "Paulo Coelho", Some("https://covers.openlibrary.org/b/isbn/9780061122415-L.jpg"), Some("9780061122415")),
      TrendingBook("Deep Work", "Cal Newport", Some("https://covers.openlibrary.org/b/isbn/9781455586691-L.jpg"), Some("9781455586691")),
      TrendingBook("Mindset", "Carol S. Dweck", Some("https://covers.openlibrary.org/b/isbn/9780345472328-L.jpg"), Some("9780345472328"))
    ]

  /**
   * `fetchTrendingBooks`: five books drawn from the base list followed by
   * the additional books.  The base list is a parameter: the module it is
   * imported from does not define it.
   */
  method FetchTrendingBooks(baseTrendingBooks: seq<TrendingBook>, picks: seq<nat>) returns (picked: seq<TrendingBook>)
    requires ValidPicks(picks, |baseTrendingBooks| + |AdditionalTrendingBooks|)
    ensures |picked| == 5
    ensures multiset(picked) <= multiset(baseTrendingBooks + AdditionalTrendingBooks)
  {
    picked := GetRandomBooks(baseTrendingBooks + AdditionalTrendingBooks, 5, picks);
  }
}

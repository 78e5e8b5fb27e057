/**
 * The mobile trending table (mobile/constants/fallbackBooks.ts): 25 books
 * with title, author, ISBN and cover, checked as constant data.
 */
module FallbackBooks {
  import opened Wrappers
  import opened Text
  import opened BookTypes
  import opened CoverImage

  predicate IsIsbn13(isbn: Option<string>) {
    isbn.Some? && |isbn.value| == 13 && forall k :: 0 <= k < 13 ==> IsDigit(isbn.value[k])
  }

  /** There are 25 books. */
  lemma TwentyFiveBooks()
    ensures |Trending| == 25
  {
  }

  /** Every ISBN is a 13-digit string. */
  lemma IsbnsAreThirteenDigits()
    ensures forall i :: 0 <= i < |Trending| ==> IsIsbn13(Trending[i].isbn)
  {
  }

  /** The cover is the OpenLibrary cover of the book's ISBN. */
  predicate HasIsbnCover(b: TrendingBook) {
    b.isbn.Some? && b.coverImageUrl == Some(IsbnCoverUrl(b.isbn.value))
  }

  /** Each book's cover, checked one book at a time. */
  lemma CoverOfBook0()
    ensures HasIsbnCover(Trending[0])
  {
    assert "https://covers.openlibrary.org/b/isbn/9780735211292-L.jpg" == IsbnCoverUrl("9780735211292");
  }

  lemma CoverOfBook1()
    ensures HasIsbnCover(Trending[1])
  {
    assert "https://covers.openlibrary.org/b/isbn/9781585424337-L.jpg" == IsbnCoverUrl("9781585424337");
  }

  lemma CoverOfBook2()
    ensures HasIsbnCover(Trending[2])
  {
    assert "https://covers.openlibrary.org/b/isbn/9781982137274-L.jpg" == IsbnCoverUrl("9781982137274");
  }

  lemma CoverOfBook3()
    ensures HasIsbnCover(Trending[3])
  {
    assert "https://covers.openlibrary.org/b/isbn/9781612680194-L.jpg" == IsbnCoverUrl("9781612680194");
  }

  lemma CoverOfBook4()
    ensures HasIsbnCover(Trending[4])
  {
    assert "https://covers.openlibrary.org/b/isbn/9780671027032-L.jpg" == IsbnCoverUrl("9780671027032");
  }

  lemma CoverOfBook5()
    ensures HasIsbnCover(Trending[5])
  {
    assert "https://covers.openlibrary.org/b/isbn/9780307465351-L.jpg" == IsbnCoverUrl("9780307465351");
  }

  lemma CoverOfBook6()
    ensures HasIsbnCover(Trending[6])
  {
    assert "https://covers.openlibrary.org/b/isbn/9781577314806-L.jpg" == IsbnCoverUrl("9781577314806");
  }

  lemma CoverOfBook7()
    ensures HasIsbnCover(Trending[7])
  {
    assert "https://covers.openlibrary.org/b/isbn/9780316017930-L.jpg" == IsbnCoverUrl("9780316017930");
  }

  lemma CoverOfBook8()
    ensures HasIsbnCover(Trending[8])
  {
    assert "https://covers.openlibrary.org/b/isbn/9780061122415-L.jpg" == IsbnCoverUrl("9780061122415");
  }

  lemma CoverOfBook9()
    ensures HasIsbnCover(Trending[9])
  {
    assert "https://covers.openlibrary.org/b/isbn/9781455586691-L.jpg" == IsbnCoverUrl("9781455586691");
  }

  lemma CoverOfBook10()
    ensures HasIsbnCover(Trending[10])
  {
    assert "https://covers.openlibrary.org/b/isbn/9780345472328-L.jpg" == IsbnCoverUrl("9780345472328");
  }

  lemma CoverOfBook11()
    ensures HasIsbnCover(Trending[11])
  {
    assert "https://covers.openlibrary.org/b/isbn/9781591846444-L.jpg" == IsbnCoverUrl("9781591846444");
  }

  lemma CoverOfBook12()
    ensures HasIsbnCover(Trending[12])
  {
    assert "https://covers.openlibrary.org/b/isbn/9780062316097-L.jpg" == IsbnCoverUrl("9780062316097");
  }

  lemma CoverOfBook13()
    ensures HasIsbnCover(Trending[13])
  {
    assert "https://covers.openlibrary.org/b/isbn/9780807014271-L.jpg" == IsbnCoverUrl("9780807014271");
  }

  lemma CoverOfBook14()
    ensures HasIsbnCover(Trending[14])
  {
    assert "https://covers.openlibrary.org/b/isbn/9780307887894-L.jpg" == IsbnCoverUrl("9780307887894");
  }

  lemma CoverOfBook15()
    ensures HasIsbnCover(Trending[15])
  {
    assert "https://covers.openlibrary.org/b/isbn/9780804139298-L.jpg" == IsbnCoverUrl("9780804139298");
  }

  lemma CoverOfBook16()
    ensures HasIsbnCover(Trending[16])
  {
    assert "https://covers.openlibrary.org/b/isbn/9781592407330-L.jpg" == IsbnCoverUrl("9781592407330");
  }

  lemma CoverOfBook17()
    ensures HasIsbnCover(Trending[17])
  {
    assert "https://covers.openlibrary.org/b/isbn/9780374533557-L.jpg" == IsbnCoverUrl("9780374533557");
  }

  lemma CoverOfBook18()
    ensures HasIsbnCover(Trending[18])
  {
    assert "https://covers.openlibrary.org/b/isbn/9780066620992-L.jpg" == IsbnCoverUrl("9780066620992");
  }

  lemma CoverOfBook19()
    ensures HasIsbnCover(Trending[19])
  {
    assert "https://covers.openlibrary.org/b/isbn/9781501111105-L.jpg" == IsbnCoverUrl("9781501111105");
  }

  lemma CoverOfBook20()
    ensures HasIsbnCover(Trending[20])
  {
    assert "https://covers.openlibrary.org/b/isbn/9780804137386-L.jpg" == IsbnCoverUrl("9780804137386");
  }

  lemma CoverOfBook21()
    ensures HasIsbnCover(Trending[21])
  {
    assert "https://covers.openlibrary.org/b/isbn/9781591845324-L.jpg" == IsbnCoverUrl("9781591845324");
  }

  lemma CoverOfBook22()
    ensures HasIsbnCover(Trending[22])
  {
    assert "https://covers.openlibrary.org/b/isbn/9780553383713-L.jpg" == IsbnCoverUrl("9780553383713");
  }

  lemma CoverOfBook23()
    ensures HasIsbnCover(Trending[23])
  {
    assert "https://covers.openlibrary.org/b/isbn/9780399592522-L.jpg" == IsbnCoverUrl("9780399592522");
  }

  lemma CoverOfBook24()
    ensures HasIsbnCover(Trending[24])
  {
    assert "https://covers.openlibrary.org/b/isbn/9780525534990-L.jpg" == IsbnCoverUrl("9780525534990");
  }

  lemma EachHasIsbnCover()
    ensures forall i :: 0 <= i < |Trending| ==> HasIsbnCover(Trending[i])
  {
    CoverOfBook0();
    CoverOfBook1();
    CoverOfBook2();
    CoverOfBook3();
    CoverOfBook4();
    CoverOfBook5();
    CoverOfBook6();
    CoverOfBook7();
    CoverOfBook8();
    CoverOfBook9();
    CoverOfBook10();
    CoverOfBook11();
    CoverOfBook12();
    CoverOfBook13();
    CoverOfBook14();
    CoverOfBook15();
    CoverOfBook16();
    CoverOfBook17();
    CoverOfBook18();
    CoverOfBook19();
    CoverOfBook20();
    CoverOfBook21();
    CoverOfBook22();
    CoverOfBook23();
    CoverOfBook24();
  }

  /** Every cover is the OpenLibrary ISBN cover that the cover rule computes for the book. */
  lemma CoversAreIsbnCovers()
    ensures forall i :: 0 <= i < |Trending| ==>
      Trending[i].coverImageUrl == Some(GenerateCoverImageUrl(Trending[i].isbn, Some(Trending[i].title)))
  {
    EachHasIsbnCover();
    IsbnsAreThirteenDigits();
  }

  /** No two books share a title. */
  lemma TitlesDistinct()
    ensures forall i, j :: 0 <= i < j < |Trending| ==> Trending[i].title != Trending[j].title
  {
  }

  /** `fallbackBooks`, in declaration order. */
  const Trending: seq<TrendingBook> := [
    TrendingBook("Atomic Habits", "James Clear", Some("https://covers.openlibrary.org/b/isbn/9780735211292-L.jpg"), Some("9780735211292")),
    TrendingBook("Think and Grow Rich", "Napoleon Hill", Some("https://covers.openlibrary.org/b/isbn/9781585424337-L.jpg"), Some("9781585424337")),
    TrendingBook("The 7 Habits of Highly Effective People", "Stephen R. Covey", Some("https://covers.openlibrary.org/b/isbn/9781982137274-L.jpg"), Some("9781982137274")),
    TrendingBook("Rich Dad, Poor Dad", "Robert T. Kiyosaki", Some("https://covers.openlibrary.org/b/isbn/9781612680194-L.jpg"), Some("9781612680194")),
    TrendingBook("How to Win Friends and Influence People", "Dale Carnegie", Some("https://covers.openlibrary.org/b/isbn/9780671027032-L.jpg"), Some("9780671027032")),
    TrendingBook("The 4-Hour Workweek", "Timothy Ferriss", Some("https://covers.openlibrary.org/b/isbn/9780307465351-L.jpg"), Some("9780307465351")),
    TrendingBook("The Power of Now", "Eckhart Tolle", Some("https://covers.openlibrary.org/b/isbn/9781577314806-L.jpg"), Some("9781577314806")),
    TrendingBook("Outliers", "Malcolm Gladwell", Some("https://covers.openlibrary.org/b/isbn/9780316017930-L.jpg"), Some("9780316017930")),
    TrendingBook("The Alchemist", "Paulo Coelho", Some("https://covers.openlibrary.org/b/isbn/9780061122415-L.jpg"), Some("9780061122415")),
    TrendingBook("Deep Work", "Cal Newport", Some("https://covers.openlibrary.org/b/isbn/9781455586691-L.jpg"), Some("9781455586691")),
    TrendingBook("Mindset", "Carol S. Dweck", Some("https://covers.openlibrary.org/b/isbn/9780345472328-L.jpg"), Some("9780345472328")),
    TrendingBook("Start with Why", "Simon Sinek", Some("https://covers.openlibrary.org/b/isbn/9781591846444-L.jpg"), Some("9781591846444")),
    TrendingBook("Sapiens", "Yuval Noah Harari", Some("https://covers.openlibrary.org/b/isbn/9780062316097-L.jpg"), Some("9780062316097")),
    TrendingBook("Man\'s Search for Meaning", "Viktor E. Frankl", Some("https://covers.openlibrary.org/b/isbn/9780807014271-L.jpg"), Some("9780807014271")),
    TrendingBook("The Lean Startup", "Eric Ries", Some("https://covers.openlibrary.org/b/isbn/9780307887894-L.jpg"), Some("9780307887894")),
    TrendingBook("Zero to One", "Peter Thiel", Some("https://covers.openlibrary.org/b/isbn/9780804139298-L.jpg"), Some("9780804139298")),
    TrendingBook("Daring Greatly", "Bren\U{E9} Brown", Some("https://covers.openlibrary.org/b/isbn/9781592407330-L.jpg"), Some("9781592407330")),
    TrendingBook("Thinking, Fast and Slow", "Daniel Kahneman", Some("https://covers.openlibrary.org/b/isbn/9780374533557-L.jpg"), Some("9780374533557")),
    TrendingBook("Good to Great", "Jim Collins", Some("https://covers.openlibrary.org/b/isbn/9780066620992-L.jpg"), Some("9780066620992")),
    TrendingBook("Grit", "Angela Duckworth", Some("https://covers.openlibrary.org/b/isbn/9781501111105-L.jpg"), Some("9781501111105")),
    TrendingBook("Essentialism", "Greg McKeown", Some("https://covers.openlibrary.org/b/isbn/9780804137386-L.jpg"), Some("9780804137386")),
    TrendingBook("Leaders Eat Last", "Simon Sinek", Some("https://covers.openlibrary.org/b/isbn/9781591845324-L.jpg"), Some("9781591845324")),
    TrendingBook("Emotional Intelligence", "Daniel Goleman", Some("https://covers.openlibrary.org/b/isbn/9780553383713-L.jpg"), Some("9780553383713")),
    TrendingBook("Dare to Lead", "Bren\U{E9} Brown", Some("https://covers.openlibrary.org/b/isbn/9780399592522-L.jpg"), Some("9780399592522")),
    TrendingBook("Everything Is Figureoutable", "Marie Forleo", Some("https://covers.openlibrary.org/b/isbn/9780525534990-L.jpg"), Some("9780525534990"))
  ]
}

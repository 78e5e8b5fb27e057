# Book2Action in Dafny

Book2Action turns a book title into a summary and a seven-day plan of
actionable steps. It has a React web application (`src/`) and an Expo mobile
application (`mobile/`). This project models the deterministic logic of both
and proves what that logic promises. The screens and the network are not modelled.

**Book acquisition.**
- Both `searchBook` variants are modelled:
  - the content-policy check (mobile only);
  - an exact, then first-partial, catalog lookup;
  - the AI path, which turns untrusted reply text into a `Book`:
    - mobile: fence stripping, regex comma repair, lenient validation and generated step details;
    - web: strict validation, exactly seven complete steps.
- The legacy mock service has the same two-stage lookup.
- The reply text, `JSON.parse` and the key store are inputs.

**URL and text builders.**
- The cover-image URL and its fallback list.
- The Amazon search link.
- Google Calendar links and event records, with the "next occurrence in one to seven days" weekday arithmetic.
- The PDF file name and the document laid out for each export mode.
- The sentence splitter used for highlighting.
- The text read aloud for a step.

**The web cover chain.** A state machine over the failing image's `src`,
with a rank that decreases at every step.

**Random selection.** The random draws are inputs.
- The Fisher–Yates shuffle of the web trending list, as an in-place loop over a copy.
- The mobile trending selection that never repeats the books of the previous call, with its module-level memory as explicit state.

**Stores and screens.** Each is a class whose methods change its fields:
- the book store (a book and an error are never both set);
- the auth store (authenticated exactly when a user is set), with the token-expiry rule and the secure-store writes;
- the theme store;
- the API-key settings screen;
- the web search flow and search bar;
- the result screen's calendar state;
- the three read-aloud players (web page, mobile controls, mobile highlighter);
- the PDF export button.

**Constant tables.**
- The 25-book trending table and the three catalogs are checked as data.
- The web catalog's days run Monday to Sunday.

Shared modules:
- `Wrappers` (optional values);
- `Text` (the JavaScript string built-ins used: `trim`, ASCII `toLowerCase`,
  `includes`, `split`/`join`, number printing and `parseInt`, `padStart`,
  `encodeURIComponent` over UTF-8);
- `BookTypes` (the shared records);
- `Catalog` (the two-stage lookup);
- `KeyValue` (the secure store as a map whose calls may throw).

Storage failures are modelled as `failAt`, the position of the first storage
call that throws. Callbacks and timers are event methods. Every engine call
is appended to a `calls` log, so contracts state the exact calls made.

The web `ActionableStep` type has no `details` field. The web step page and
the PDF export still read `step.details`, so the model gives every step an
optional `details`.

## Model

| member | source | states |
|---|---|---|
| `AmazonLinks.GenerateAmazonLink` | mobile/utils/amazonLinks.ts:4-16 | the link starts with the Amazon search prefix and continues with the percent-encoded ISBN when one is given, else with the encoded "title author book"; no raw space or `&` follows the prefix |
| `AmazonLinks.IsbnLinkIgnoresTitleAndAuthor` | mobile/utils/amazonLinks.ts:9-11 | with a non-empty ISBN, the title and author do not affect the link |
| `AmazonLinks.EmptyIsbnIsAbsent` | mobile/utils/amazonLinks.ts:9 | an empty ISBN is treated like a missing one (title and author search) |
| `ContentFilter.AnyContained` | src/utils/contentFilter.ts:7 | `words.some(w => s.includes(w))`: true exactly when some word occurs in the string |
| `ContentFilter.IsAppropriateTitle` | src/utils/contentFilter.ts:5-8 | a title is appropriate exactly when no denylisted word occurs in its lower-cased form |
| `ContentFilter.CaseInsensitive` | src/utils/contentFilter.ts:6 | a title and its lower-cased form get the same verdict |
| `ContentFilter.RejectionIsMonotone` | src/utils/contentFilter.ts:7 | any string containing a rejected title is rejected too |
| `ContentFilter.CompassRejected` | src/utils/contentFilter.ts:2-7 | "The Compass" is rejected because it contains "ass" (no word boundaries) |
| `ContentFilter.EmptyTitleAppropriate` | src/utils/contentFilter.ts:7 | the empty title is appropriate |
| `CoverImage.GenerateCoverImageUrl` | mobile/utils/coverImage.ts:4-14 | an ISBN of length at least 10 gives the ISBN cover URL whatever the title; otherwise a title gives the encoded title URL; the result is empty exactly when neither applies |
| `CoverImage.TitleIgnoredWithIsbn` | mobile/utils/coverImage.ts:5-7 | with a usable ISBN the title does not change the URL |
| `CoverImage.IsbnAndTitleUrlsDiffer` | mobile/utils/coverImage.ts:7-11 | an ISBN cover URL is never a title cover URL |
| `CoverImage.GetCoverFallbacks` | mobile/utils/coverImage.ts:19-36 | the list has two ISBN entries (OpenLibrary, then Google Books) when an ISBN is given and one title entry after them when a title is given; it starts with the primary URL when the ISBN is absent or long enough, and differs from it for a short ISBN |
| `Catalog.IndexOfKey` | src/services/bookService.ts:68-76 | the first entry whose key equals the query, or none when no key does |
| `Catalog.IndexOfPartial` | mobile/services/openRouterService.ts:250-253 | the first entry, in declaration order, whose key contains the query or is contained in it, or none when no key matches that way |
| `Catalog.FindMatch` | mobile/services/openRouterService.ts:242-260 | an exact key match when one exists; otherwise the first partial match; otherwise no match |
| `Catalog.Lookup` | src/services/bookService.ts:68-88 | the value of the entry the match picks, exact before partial, and none exactly when nothing matches; Catalog.LookupFromOwnEntry and NoMatchIff carry the rest |
| `Catalog.ExactBeatsPartial` | src/services/bookService.ts:68-88 | with distinct keys, a key equal to the query is found as an exact match, even when an earlier key matches partially |
| `Catalog.EmptyQueryMatchesFirst` | mobile/services/openRouterService.ts:250-253 | the empty query matches the first entry partially |
| `Catalog.NoMatchIff` | src/services/bookService.ts:79-94 | the lookup finds nothing exactly when no key contains the query or is contained in it |
| `Catalog.LookupFromOwnEntry` | src/services/bookService.ts:68-88 | a value found is the value of an own entry whose key equals the query or matches it partially |
| `Catalog.LookupAsWritten` | src/services/bookService.ts:71-76 | the truthiness test `mockBooks[normalizedTitle]` also passes for an inherited member: a value that is not an entry is returned exactly when the query is "constructor" or "__proto__" and no key equals it; any entry returned matches the query |
| `Catalog.ConstructorFoundAsWritten` | src/services/openRouterService.ts:214-219 | a search for "constructor" in a table none of whose keys matches it reports a success with a value that is no entry, where the own-key lookup finds nothing |
| `Catalog.AsWrittenAgreesElsewhere` | mobile/services/openRouterService.ts:243-260 | for every other query the lookup as written and the own-key lookup give the same entry, or both nothing |
| `FallbackBooks.TwentyFiveBooks` | mobile/constants/fallbackBooks.ts:5-156 | the trending table has exactly 25 entries |
| `FallbackBooks.IsbnsAreThirteenDigits` | mobile/constants/fallbackBooks.ts:9-155 | every entry's ISBN is a string of 13 decimal digits |
| `FallbackBooks.EachHasIsbnCover` | mobile/constants/fallbackBooks.ts:5-156 | every entry's cover URL is the OpenLibrary ISBN cover URL of its own ISBN |
| `FallbackBooks.CoversAreIsbnCovers` | mobile/constants/fallbackBooks.ts:5-156 | every entry's cover URL equals what the cover rule computes from its ISBN and title |
| `FallbackBooks.TitlesDistinct` | mobile/constants/fallbackBooks.ts:5-156 | no two entries share a title |
| `LegacyBookService.NotFoundMessage` | src/services/bookService.ts:93 | the not-found message quotes the title as it was typed |
| `LegacyBookService.SearchBook` | src/services/bookService.ts:64-95 | the result is a success with a book and no error or a failure with an error and no book; an exact key match on the lower-cased, trimmed title wins, read through the own-key Catalog.Lookup (the corrected lookup of the Findings row), then the first partial match; no match gives the not-found error quoting the original title |
| `LegacyBookService.DistinctMockKeys` | src/services/bookService.ts:4-62 | the mock table's keys are distinct |
| `LegacyBookService.TenStepsEach` | src/services/bookService.ts:11-60 | every mock book has exactly 10 action steps |
| `WebBookService.AcceptStrict` | src/services/openRouterService.ts:93-120 | the parsed reply is accepted exactly when it is an object with non-empty title, author and summary and exactly 7 steps, each with a non-empty step, chapter and day; the accepted book keeps the steps and gets the cover the cover rule computes |
| `WebBookService.StrictIsStricterThanLenient` | src/services/openRouterService.ts:93-120 | whatever the strict web check accepts, the mobile check accepts too, giving the same book |
| `WebBookService.WrongStepCountRejected` | src/services/openRouterService.ts:104-106 | six or eight steps are rejected by the web check, while the mobile check accepts them given title, author and summary |
| `WebBookService.IncompleteStepRejected` | src/services/openRouterService.ts:108-112 | a single step without step text, chapter or day rejects the reply |
| `WebBookService.Analysis` | src/services/openRouterService.ts:19-143 | no API key gives no book; a book comes only from a reply with content, parsed as it is and accepted by the strict check; and conversely, with a key and a reply whose content parses, the result is exactly the strict check's verdict on it |
| `WebBookService.FencedReplyRejected` | src/services/openRouterService.ts:89-91 | a reply wrapped in a code fence is parsed unchanged, fails to parse and gives no book |
| `WebBookService.SearchBook` | src/services/openRouterService.ts:203-258 | the result is uniform; a catalog hit (exact through the own-key Catalog.Lookup of the Findings row, then first partial) is returned whatever the connection test reports; otherwise the analysis' book, or the "couldn't find or analyze" error quoting the title |
| `WebBookService.NoKeyOutsideCatalogFails` | src/services/openRouterService.ts:25-28 | without an API key, a title outside the catalog fails with the "couldn't find or analyze" error |
| `WebBookService.CatalogKeysDistinct` | src/services/openRouterService.ts:146-201 | the web catalog's keys are distinct |
| `WebBookService.CatalogWeekInOrder` | src/services/openRouterService.ts:146-201 | every web catalog book has 7 steps whose days run Monday to Sunday in order |
| `MobileBookService.DetailSentences` | mobile/services/openRouterService.ts:44-50 | exactly five detail sentences per step |
| `MobileBookService.WithDetails` | mobile/services/openRouterService.ts:41-53 | a step keeps its day, step text and chapter and gains five sentences, the first quoting the step and the second naming the chapter, and the takeaway "The core lesson is to <lower-cased step> with intention and consistency." |
| `MobileBookService.AddDetailedSteps` | mobile/services/openRouterService.ts:40-54 | the result has as many steps as the input, element i being step i with its details added |
| `MobileBookService.DropTrailingFence` | mobile/services/openRouterService.ts:197-199 | a trailing three-backtick fence is removed, and nothing else changes |
| `MobileBookService.StripFence` | mobile/services/openRouterService.ts:196-200 | content that does not start with a fence is left as it is |
| `MobileBookService.JsonFenceIsFenced` | mobile/services/openRouterService.ts:196-198 | content starting with the json fence also starts with the plain fence, so the json branch is checked first for a reason |
| `MobileBookService.StripFenceUndoesFence` | mobile/services/openRouterService.ts:196-200 | stripping a json-fenced block gives back the trimmed text inside it |
| `MobileBookService.RemoveCommaBeforeClose` | mobile/services/openRouterService.ts:203 | the comma-before-close repair never lengthens the text, keeps every character other than commas and whitespace, in order, and leaves comma-free text unchanged |
| `MobileBookService.RepairKeepsUnmatched` | mobile/services/openRouterService.ts:203 | text in which no comma is followed, after optional whitespace, by '}' or ']' is left unchanged |
| `MobileBookService.RepairShortensMatched` | mobile/services/openRouterService.ts:203 | a comma followed, after optional whitespace, by '}' or ']' is removed, so the text gets strictly shorter |
| `MobileBookService.RepairChangesIff` | mobile/services/openRouterService.ts:203 | the repair changes the text exactly when some comma is followed, after optional whitespace, by a closing bracket |
| `MobileBookService.CommaSpaceBraceRepaired` | mobile/services/openRouterService.ts:203 | ", }" becomes "}" |
| `MobileBookService.DoubleCommaBraceKeepsOne` | mobile/services/openRouterService.ts:203 | ",,}" only becomes ",}": the repair is a single pass |
| `MobileBookService.RemoveChar` | mobile/services/openRouterService.ts:205 | `replace(/`+/g, '')`: no backtick is left, and text without backticks is unchanged |
| `MobileBookService.RemoveCharCounts` | mobile/services/openRouterService.ts:205 | removing backticks keeps every other character with its count, and drops all of the removed one |
| `MobileBookService.RemoveCharConcat` | mobile/services/openRouterService.ts:205 | removing a character from two joined texts is removing it from each, so it works character by character and keeps order |
| `MobileBookService.CollapseCommasShape` | mobile/services/openRouterService.ts:204 | `replace(/,+/g, ',')`: afterwards no two commas are adjacent, the text with its commas removed is unchanged, and the first character is kept |
| `MobileBookService.CollapseCommaRun` | mobile/services/openRouterService.ts:204 | a run of one or more commas alone becomes a single comma |
| `MobileBookService.CollapseCommas` | mobile/services/openRouterService.ts:204 | the collapse never lengthens the text and empties only the empty text; MobileBookService.CollapseCommasShape and MaximalCommaRunBecomesOne state the regular expression's effect |
| `MobileBookService.CollapseCommaFree` | mobile/services/openRouterService.ts:204 | text without commas is unchanged |
| `MobileBookService.CollapseCommasConcat` | mobile/services/openRouterService.ts:204 | collapsing works piece by piece wherever the join does not put two commas side by side |
| `MobileBookService.MaximalCommaRunBecomesOne` | mobile/services/openRouterService.ts:204 | each maximal run of commas, between non-comma neighbours, becomes exactly one comma and the text on either side is collapsed on its own |
| `MobileBookService.Cleaned` | mobile/services/openRouterService.ts:194-205 | the cleaned content contains no backtick at all |
| `MobileBookService.CleanedKeepsText` | mobile/services/openRouterService.ts:194-205 | after the fences are stripped, the cleaning keeps every character other than commas, whitespace and backticks, in order; content with no comma and no backtick is passed on exactly as stripped |
| `MobileBookService.CleanUpContent` | mobile/services/openRouterService.ts:194-205 | the step-by-step reassignments of `content` compute the cleaned content, which has no backtick |
| `MobileBookService.CleanedCanKeepDoubleComma` | mobile/services/openRouterService.ts:203-205 | ",`,x" cleans to ",,x": removing backticks last can leave two adjacent commas after the comma collapse |
| `MobileBookService.Accept` | mobile/services/openRouterService.ts:209-221 | the parsed reply is accepted exactly when it is an object with non-empty title, author and summary and a step array (of any length); the book keeps the reply's fields and its cover is the one the cover rule computes, never empty |
| `MobileBookService.Analysis` | mobile/services/openRouterService.ts:126-227 | a book only comes from a stored API key and a reply with content whose cleaned form parses and is accepted; and conversely, with a key and a reply whose cleaned content parses, the result is exactly what Accept decides for it |
| `MobileBookService.GenerateBookAnalysis` | mobile/services/openRouterService.ts:126-228 | reads the API key from the key store (a failed read counts as no key) and returns the analysis of the reply |
| `MobileBookService.AnyStepCountAccepted` | mobile/services/openRouterService.ts:213-215 | no step count or step field is checked: any step list is accepted with a title, author and summary |
| `MobileBookService.NormalizeIgnoresPadding` | mobile/services/openRouterService.ts:231 | whitespace around a title does not change its normalised form |
| `MobileBookService.Normalize` | mobile/services/openRouterService.ts:231 | the normalised title has no surrounding whitespace and no upper-case ASCII letter |
| `MobileBookService.GetApiKey` | mobile/services/openRouterService.ts:21-28 | the key is the stored value under `openrouter_api_key`, and none when nothing is stored or the read fails |
| `MobileBookService.SearchBook` | mobile/services/openRouterService.ts:230-282 | an inappropriate normalised title fails with the content-policy message and asks nothing else; otherwise a catalog hit (exact through the own-key Catalog.Lookup of the Findings row, then first partial) is returned and the AI is asked exactly when there is none; the AI's book, or the "couldn't find or analyze" error quoting the original title, follows |
| `MobileBookService.GetTrendingBooks` | mobile/services/openRouterService.ts:285-292 | one entry per catalog book, in order, with its title, author, cover and ISBN |
| `MobileBookService.CatalogKeysDistinct` | mobile/services/openRouterService.ts:57-124 | the mobile catalog's keys are distinct |
| `MobileBookService.CatalogStepsWeek` | mobile/services/openRouterService.ts:57-124 | every mobile catalog book has seven steps, each with details added |
| `MobileBookService.BlankQueryFindsFirstBook` | mobile/services/openRouterService.ts:242-260 | a blank title matches the first catalog book partially |
| `TrendingBooksService.Pick` | src/services/trendingBooksService.ts:61 | `Math.floor(r * (i + 1))` for a draw r in [0, 1) is an index in [0, i] |
| `TrendingBooksService.PicksFromDraws` | src/services/trendingBooksService.ts:59-60 | the indices computed from draws in [0, 1), one per position from the last down to 1, are enough for the loop and each lies in 0..i for its position i |
| `TrendingBooksService.Swap` | src/services/trendingBooksService.ts:62 | the swap exchanges positions i and j and leaves every other position alone |
| `TrendingBooksService.SwapMultiset` | src/services/trendingBooksService.ts:62 | a swap keeps the multiset of books |
| `TrendingBooksService.PickInRange` | src/services/trendingBooksService.ts:60-61 | the draw the loop uses at position i lies in 0..i, so the swap stays inside the copy |
| `TrendingBooksService.ShuffleDown` | src/services/trendingBooksService.ts:59-63 | the swap loop from the top index down, as a function, keeps the length |
| `TrendingBooksService.ShuffleDownMultiset` | src/services/trendingBooksService.ts:59-63 | the shuffle keeps the multiset of books: it is a permutation of its input |
| `TrendingBooksService.ShuffleKeepsAbove` | src/services/trendingBooksService.ts:60-63 | positions above the loop's current index are never touched again |
| `TrendingBooksService.SliceEnd` | src/services/trendingBooksService.ts:66 | `slice(0, m)` ends at m clamped to the length for a non-negative m; a negative m counts back from the length, and the end is 0 when it reaches past the start |
| `TrendingBooksService.ShuffleInPlace` | src/services/trendingBooksService.ts:60-63 | the in-place swap loop leaves the array holding the shuffle of its old contents |
| `TrendingBooksService.GetRandomBooks` | src/services/trendingBooksService.ts:57-67 | the result is the first min(count, n) books of the shuffled copy; every returned book comes from the input no more often than it occurs there |
| `TrendingBooksService.FetchTrendingBooks` | src/services/trendingBooksService.ts:69-78 | draws five books, each from the base list followed by the eight additional entries, no more often than it occurs there |
| `HomeScreen.Titles` | mobile/app/index.tsx:40 | `selected.map(b => b.title)`, position by position |
| `HomeScreen.Arrange` | mobile/app/index.tsx:37 | a shuffled copy of the trending table: all 25 books, each from the table, titles distinct |
| `HomeScreen.NotShownBefore` | mobile/app/index.tsx:38 | a book is kept exactly when it is in the list and its title was not shown last time |
| `HomeScreen.NotShownBeforeDistinct` | mobile/app/index.tsx:38 | filtering keeps titles distinct |
| `HomeScreen.NotShownBeforeCount` | mobile/app/index.tsx:38 | filtering removes at most as many books as there were titles shown last time |
| `HomeScreen.TrendingPicker.constructor` | mobile/app/index.tsx:35 | nothing has been shown at start |
| `HomeScreen.TrendingPicker.GetRandomBooks` | mobile/app/index.tsx:36-42 | every book returned is from the table and was not shown by the previous call; titles are distinct; at most `count` are returned, exactly `count` when enough remain; afterwards the shown titles are the returned ones in order |
| `HomeScreen.SuccessiveCallsAreDisjoint` | mobile/app/index.tsx:36-42 | with the 25-entry table and count 5, two successive calls each return five books and no title twice across them |
| `HomeScreen.NextPlaceholder` | mobile/app/index.tsx:57 | the next placeholder index stays below seven |
| `HomeScreen.AfterTicksIsModular` | mobile/app/index.tsx:55-58 | after k ticks the index is (i + k) mod 7 |
| `HomeScreen.PlaceholderCycle` | mobile/app/index.tsx:24-32 | seven ticks bring the placeholder back to where it was |
| `HomeScreen.ErrorFor` | mobile/app/index.tsx:78-82 | the error shown is the result's error or the thrown message when there is one, else a fixed non-empty message |
| `HomeScreen.Screen.CyclePlaceholder` | mobile/app/index.tsx:56-58 | one interval tick advances the placeholder index cyclically |
| `HomeScreen.Screen.HandleSearch` | mobile/app/index.tsx:62-87 | a blank term or a search in progress does nothing; otherwise the store gets the trimmed title, then either the book (and the screen navigates) or the error, and `isLoading` ends false with book and error never both set |
| `BookStore.Store.constructor` | mobile/stores/bookStore.ts:16-20 | no book, not loading, no error, empty title |
| `BookStore.Store.SetCurrentBook` | mobile/stores/bookStore.ts:22 | sets the book, clears the error, and changes nothing else |
| `BookStore.Store.SetIsLoading` | mobile/stores/bookStore.ts:23 | changes only the loading flag and keeps the invariant |
| `BookStore.Store.SetError` | mobile/stores/bookStore.ts:24 | sets the error and clears the book, even for a null error |
| `BookStore.Store.SetSearchTitle` | mobile/stores/bookStore.ts:25 | changes only the title and keeps the invariant |
| `BookStore.Store.Reset` | mobile/stores/bookStore.ts:26 | restores the initial state |
| `WebApp.App.constructor` | src/App.tsx:10-12 | not loading, no book, no error |
| `WebApp.App.PanelsExclusive` | src/App.tsx:46-54 | the book panel and the welcome panel never show together, and the error hides both |
| `WebApp.App.StartSearch` | src/App.tsx:15-17 | starting a search sets loading and clears book and error, so no panel shows |
| `WebApp.App.HandleSearch` | src/App.tsx:14-32 | afterwards loading is off and exactly one of book and error is set: the book of a successful result, else the result's error or "An unexpected error occurred" |
| `WebApp.App.HandleRetry` | src/App.tsx:34-37 | retry clears book and error, so the welcome panel shows when not loading |
| `SearchBar.SubmitDisabled` | src/components/SearchBar.tsx:35 | the button is disabled exactly when the submit guard refuses (blank term or loading) |
| `SearchBar.BlankNeverSubmitted` | src/components/SearchBar.tsx:14-35 | a whitespace-only term cannot be submitted |
| `SearchBar.Bar.constructor` | src/components/SearchBar.tsx:10 | the term starts empty |
| `SearchBar.Bar.OnChange` | src/components/SearchBar.tsx:27-30 | typing changes the term, except while loading when the input is disabled |
| `SearchBar.Bar.HandleSubmit` | src/components/SearchBar.tsx:12-17 | `onSearch` is called exactly when the trimmed term is non-empty and nothing is loading, and receives the trimmed term |
| `KeyValue.Store.constructor` | mobile/app/settings.tsx:99 | an empty secure store |
| `KeyValue.Store.GetItem` | mobile/app/settings.tsx:99 | a stored value for a key exactly when the key is present |
| `KeyValue.Store.SetItem` | mobile/app/settings.tsx:116 | a write that does not throw stores the value under the key; one that throws changes nothing |
| `KeyValue.Store.DeleteItem` | mobile/app/settings.tsx:138 | a delete that does not throw removes the key; one that throws changes nothing |
| `ThemeStore.ThemeName` | mobile/stores/themeStore.ts:21 | the stored name is "dark" exactly for dark mode |
| `ThemeStore.IsDarkName` | mobile/stores/themeStore.ts:31 | a stored name means dark mode exactly when it is "dark" |
| `ThemeStore.Theme.constructor` | mobile/stores/themeStore.ts:14-15 | dark mode on and loading at start |
| `ThemeStore.Theme.ToggleTheme` | mobile/stores/themeStore.ts:17-25 | flips dark mode and stores "dark" or "light" for the new value; a failed write keeps the flip and leaves the store alone |
| `ThemeStore.Theme.LoadTheme` | mobile/stores/themeStore.ts:27-39 | a stored "dark" gives dark mode, any other stored name light mode, nothing stored or a failed read leaves the mode; loading always ends |
| `ThemeStore.ToggleTwiceRestores` | mobile/stores/themeStore.ts:17-21 | toggling twice restores the mode, and the stored name agrees with it |
| `Settings.Screen.constructor` | mobile/app/settings.tsx:36-39 | empty key field, no existing key, not saved, no alert |
| `Settings.Screen.OnChangeText` | mobile/app/settings.tsx:344 | typing changes only the key field |
| `Settings.Screen.LoadApiKey` | mobile/app/settings.tsx:97-107 | a non-empty stored key fills the field and marks a key as existing; an empty or missing key or a failed read changes nothing |
| `Settings.Screen.SaveApiKey` | mobile/app/settings.tsx:109-125 | a blank key raises the "enter a key" alert and stores nothing; otherwise the trimmed key is stored and the key marked existing and saved, or a failed write raises the save-failed alert and changes nothing |
| `Settings.Screen.SavedTickExpires` | mobile/app/settings.tsx:120 | two seconds after a save the saved tick goes away |
| `Settings.Screen.ConfirmDelete` | mobile/app/settings.tsx:136-145 | a confirmed delete removes the stored key, clears the field and the existing-key flag; a failed delete changes nothing |
| `Settings.SavedKeyIsUsed` | mobile/app/settings.tsx:109-125 | a saved key is exactly the one the book service reads for analysis |
| `Settings.DeletedKeyIsGone` | mobile/app/settings.tsx:136-145 | after a confirmed delete the book service finds no key and the delete button is hidden |
| `GoogleAuthService.Completed` | mobile/services/googleAuthService.ts:83-95 | the number of storage writes that finish is the whole sequence unless a write fails before its end, in which case it is exactly the writes before the failing one |
| `GoogleAuthService.TokenWrites` | mobile/services/googleAuthService.ts:83-91 | saving tokens always writes the access token first, and writes nothing but puts, at most three of them |
| `GoogleAuthService.SavedTokensReadBack` | mobile/services/googleAuthService.ts:83-91 | after the writes the access token reads back; the refresh token reads back when present and its key is left as it was otherwise; a non-zero expiry reads back as its decimal text |
| `GoogleAuthService.ClearRemovesAuthKeys` | mobile/services/googleAuthService.ts:154-160 | logging out removes the four auth keys and leaves every other stored key with its value |
| `GoogleAuthService.SaveAuthTokens` | mobile/services/googleAuthService.ts:83-95 | the store holds exactly the writes completed before a failure, and the call throws exactly when one failed |
| `GoogleAuthService.ClearAuthData` | mobile/services/googleAuthService.ts:154-162 | the four deletes run in order until one fails; the call throws exactly when one failed |
| `GoogleAuthService.SaveUserInfo` | mobile/services/googleAuthService.ts:101-108 | the serialised user is written under the user-info key, or nothing changes and the call throws |
| `GoogleAuthService.StoredAccessToken` | mobile/services/googleAuthService.ts:113-120 | a token is returned exactly when the read succeeds and the key is stored; a failed read yields null |
| `GoogleAuthService.StoredUserInfo` | mobile/services/googleAuthService.ts:125-133 | a user is returned only from a successful read of a non-empty stored string, as its parse; a failed read or a missing key yields null |
| `GoogleAuthService.UserInfoRoundTrip` | mobile/services/googleAuthService.ts:101-133 | a user saved with a serialisation that parses back is read back unchanged |
| `GoogleAuthService.TokenExpiredIn` | mobile/services/googleAuthService.ts:138-149 | no stored expiry means expired; an unparseable expiry is never expired; otherwise expired exactly when now is past five minutes before the expiry |
| `GoogleAuthService.IsTokenExpired` | mobile/services/googleAuthService.ts:138-149 | a failed read counts as expired; otherwise the stored expiry decides |
| `GoogleAuthService.ExpiryAfterSave` | mobile/services/googleAuthService.ts:83-149 | after saving a non-zero expiry the token counts as expired exactly when now is past five minutes before it |
| `AuthStore.ExpiresAt` | mobile/stores/authStore.ts:50-52 | a given non-zero lifetime in seconds ends that many milliseconds after now; a missing or zero lifetime gives exactly one hour (3,600,000 ms) after now; the expiry lies in the future for any non-negative lifetime |
| `AuthStore.SignInWrites` | mobile/stores/authStore.ts:54-61 | sign-in writes the token writes first and then one user-info write exactly when the user info was fetched |
| `AuthStore.SaveSignIn` | mobile/stores/authStore.ts:54-61 | storage ends as the completed prefix of the sign-in writes; the token writes are reported failed exactly when one of them did not complete, the user write only when the tokens were all written and a user was fetched, and a failure is reported exactly when some write did not complete |
| `AuthStore.StoredSession` | mobile/stores/authStore.ts:89-101 | a session is restored exactly when the token read gives a non-empty token, the user read gives a user, and the expiry read succeeds with the token not expired; the session holds the stored token and user |
| `AuthStore.Store.constructor` | mobile/stores/authStore.ts:34-38 | the store starts signed out, loading and without error |
| `AuthStore.Store.SetUser` | mobile/stores/authStore.ts:40 | the user is set and the store counts as authenticated exactly when a user is given; nothing else changes |
| `AuthStore.Store.SetAccessToken` | mobile/stores/authStore.ts:41 | only the access token changes |
| `AuthStore.Store.SetLoading` | mobile/stores/authStore.ts:42 | only the loading flag changes |
| `AuthStore.Store.SetError` | mobile/stores/authStore.ts:43 | only the error changes |
| `AuthStore.Store.HandleAuthSuccess` | mobile/stores/authStore.ts:45-83 | storage receives the completed prefix of the sign-in writes; success signs the fetched user in with the token; a failure signs out and re-throws, showing the fixed missing-user message when no user was fetched and the storage error's own message when a write of the tokens or of the user record failed |
| `AuthStore.Store.SignOutWithError` | mobile/stores/authStore.ts:72-80 | the store is signed out, not loading, and holds the message |
| `AuthStore.Store.LoadStoredAuth` | mobile/stores/authStore.ts:85-128 | a restorable session (present token, present user, unexpired token) signs in with the stored user and token; otherwise the store is signed out, so an expired token never signs in; storage is cleared exactly when a stored token has expired; loading ends false |
| `AuthStore.Store.Logout` | mobile/stores/authStore.ts:130-146 | the auth keys are deleted until a failure; a full delete signs out and clears the error, a failed one only stops loading |
| `AuthStore.Store.CheckAndRefreshAuth` | mobile/stores/authStore.ts:148-164 | true exactly when the store is signed in with a non-empty token that has not expired, and then nothing changes; a signed-out store is left as it was; an expired token is logged out, leaving the store and storage as logout does (cleared and signed out when every delete completes) |
| `AuthStore.SignInIsRestored` | mobile/stores/authStore.ts:45-101 | a completed sign-in with an unexpired token is restored by the next load as the same user and token |
| `AuthStore.ExpiryOnlyReadsItsKey` | mobile/services/googleAuthService.ts:138-149 | expiry depends on the stored expiry entry alone |
| `AuthStore.LogoutForgetsSession` | mobile/stores/authStore.ts:130-146 | after a completed logout no session can be restored |
| `BookResultCover.Rank` | src/components/BookResult.tsx:28-57 | a source's distance to the placeholder is at most four, and zero exactly when no fallback applies |
| `BookResultCover.NextSrc` | src/components/BookResult.tsx:28-57 | there is a fallback exactly when the failed source holds the ISBN marker (with an ISBN), the Google Books host or the title marker; BookResultCover.Cover.OnError, Rank and ChainEnds carry the order and termination |
| `BookResultCover.RankDecreases` | src/components/BookResult.tsx:28-50 | when the generated URLs carry only their own markers, each fallback moves one step closer to the placeholder |
| `BookResultCover.ChainEnds` | src/components/BookResult.tsx:22-57 | under the same condition the fallbacks run out after at most Rank steps, and every step before that yields an image source |
| `BookResultCover.TitleUrlCanRepeat` | src/components/BookResult.tsx:38-42 | without an ISBN, a title that itself contains the Google Books host makes the title cover URL select itself again, so the chain does not end |
| `BookResultCover.GoogleIsbnUrlMarkers` | src/components/BookResult.tsx:31-33 | the Google ISBN cover URL carries the two markers the second fallback looks for |
| `BookResultCover.GoogleIdUrlMarker` | src/components/BookResult.tsx:36-38 | the Google ID cover URL carries the host the third fallback looks for |
| `BookResultCover.TitleUrlMarker` | src/components/BookResult.tsx:42-44 | the title cover URL carries the marker the fourth fallback looks for |
| `BookResultCover.Cover.constructor` | src/components/BookResult.tsx:17-63 | the image is shown exactly when a cover URL is present, from that URL, and the placeholder exactly when not |
| `BookResultCover.Cover.OnError` | src/components/BookResult.tsx:22-57 | each failed load switches to the first matching fallback (ISBN on Google, Google ID, title on Open Library, Amazon) in the source's order, or hides the image and shows the placeholder when none applies |
| `CalendarLinks.NextDay` | mobile/utils/calendarLinks.ts:77-78 | the next day is a valid later date one weekday further on |
| `CalendarLinks.AddDays` | mobile/utils/calendarLinks.ts:19 | adding n days gives a valid date n weekdays further on, later whenever n is positive |
| `CalendarLinks.DayIndex` | mobile/utils/calendarLinks.ts:7-8 | a known day name gives its Sunday-based index; an unknown name gives none |
| `CalendarLinks.DaysAhead` | mobile/utils/calendarLinks.ts:16-17 | between one and seven days ahead, landing on the target weekday, seven exactly when it is today's weekday |
| `CalendarLinks.NextOccurrence` | mobile/utils/calendarLinks.ts:6-21 | an unknown day gives today; a known day gives a strictly later valid date on that weekday, a week ahead when it is today's |
| `CalendarLinks.GetNextDayOccurrence` | mobile/utils/calendarLinks.ts:6-21 | the date the source computes by adding `(index - weekday)`, plus seven when not positive, is the next occurrence of the day |
| `CalendarLinks.LowerCaseDayUnknown` | mobile/utils/calendarLinks.ts:8-10 | day names match case-sensitively, so a lower-case name falls back to today |
| `CalendarLinks.FormatDateForUrl` | mobile/utils/calendarLinks.ts:26-31 | the stamp holds only digits and is eight characters long for a four-digit year |
| `CalendarLinks.TwoDigitsShape` | mobile/utils/calendarLinks.ts:28-29 | a month or day pads to exactly two digits that read back as the number |
| `CalendarLinks.FormatDateForUrlReadsBack` | mobile/utils/calendarLinks.ts:26-31 | the stamp's year, month and day fields read back as the date's own |
| `CalendarLinks.GenerateCalendarEventData` | mobile/utils/calendarLinks.ts:52-65 | the event is the step itself, described by its book, from 9 to 10 on the next occurrence of the day, or today for an unknown day |
| `CalendarLinks.GenerateDetailedCalendarEventData` | mobile/utils/calendarLinks.ts:70-92 | the summary is the step after the "Book Action: " prefix, the description is the book, chapter, takeaway and "Details:" blocks followed by the sentences joined with line breaks, and the event runs from 9 to 10 tomorrow |
| `CalendarLinks.DescriptionJoinsLines` | mobile/utils/calendarLinks.ts:79-83 | with at least one sentence, the description is its six heading lines and the sentences joined with line breaks |
| `CalendarLinks.DetailedDescriptionLines` | mobile/utils/calendarLinks.ts:79-83 | with at least one sentence and no line break inside the parts, splitting the description at line breaks gives back the book, chapter, blank, takeaway, blank and "Details:" lines followed by each sentence |
| `CalendarLinks.GenerateCalendarLink` | mobile/utils/calendarLinks.ts:107-118 | the link is the calendar link of the step and its book dated on the next occurrence of the day, today for an unknown day |
| `CalendarLinks.CalendarLink` | mobile/utils/calendarLinks.ts:117 | the link opens the render template with the encoded step as `text` followed by `details`; CalendarLinks.CalendarLinkParameters gives every parameter |
| `CalendarLinks.GenerateDetailedCalendarLink` | mobile/utils/calendarLinks.ts:123-143 | the detailed link is dated tomorrow |
| `CalendarLinks.DetailedCalendarLink` | mobile/utils/calendarLinks.ts:142 | the link opens the render template with the encoded prefixed step as `text` followed by `details`; CalendarLinks.DetailedCalendarLinkParameters gives every parameter |
| `CalendarLinks.EncodedHasNoAmpersand` | mobile/utils/calendarLinks.ts:114-115 | encoded text never contains an ampersand |
| `CalendarLinks.CalendarLinkParameters` | mobile/utils/calendarLinks.ts:112-117 | the link's query splits into exactly the action, the encoded step, the encoded description, the 9-to-10 dates on one stamp and the local time zone, whatever the step and title say |
| `CalendarLinks.DetailedCalendarLinkParameters` | mobile/utils/calendarLinks.ts:130-142 | the detailed link's query splits into exactly the action, the encoded prefixed step, the encoded four-part description and one stamp as start and end |
| `ResultScreen.SummaryParagraphs` | mobile/app/book/result.tsx:129 | splitting on blank lines gives at least one paragraph, and the paragraphs joined with blank lines give back the summary |
| `ResultScreen.ToggleShownIffBreak` | mobile/app/book/result.tsx:272 | the expand toggle is shown exactly when the summary contains a blank line |
| `ResultScreen.VisibleParagraphs` | mobile/app/book/result.tsx:263-266 | the first paragraph is always shown; collapsed shows only it; expanded shows paragraphs that rebuild the whole summary |
| `ResultScreen.StepNumbers` | mobile/app/book/result.tsx:323-348 | steps are numbered from one, in order, one number per step |
| `ResultScreen.Screen.constructor` | mobile/app/book/result.tsx:46-48 | the screen starts collapsed, adding nothing and with no step marked added |
| `ResultScreen.Screen.ToggleExpanded` | mobile/app/book/result.tsx:276 | the expansion flips and nothing else changes |
| `ResultScreen.Screen.BeginApiAdd` | mobile/app/book/result.tsx:76 | the step being added is recorded and nothing else changes |
| `ResultScreen.Screen.FinishApiAdd` | mobile/app/book/result.tsx:81-100 | the spinner clears; success marks the step added; failure alerts with the reported error or the default message |
| `ResultScreen.Screen.TickExpires` | mobile/app/book/result.tsx:87-93 | the added mark of that step alone is removed |
| `ResultScreen.Screen.HandleAddToCalendar` | mobile/app/book/result.tsx:71-106 | a signed-in user with a token goes through the calendar API with the step's event from 9 to 10 on the next occurrence of the day, marked added exactly when the API succeeds; a failed call raises the API's own error as the alert, or the fixed failure alert when it gives none, and a successful one leaves the alert as it was; anyone else gets the calendar link dated on that same day, and the screen state is untouched |
| `Speech.Tier` | mobile/utils/speech.ts:21-45 | a voice's preference tier is Google UK first, then other Google voices, and within each group premium before plain |
| `Speech.NameLeTotal` | mobile/utils/speech.ts:46 | any two names are ordered one way or the other |
| `Speech.NameLeReflexive` | mobile/utils/speech.ts:46 | every name is ordered before itself |
| `Speech.NameLeTransitive` | mobile/utils/speech.ts:46 | the name order is transitive |
| `Speech.VoiceLeTotal` | mobile/utils/speech.ts:21-47 | the voice comparison orders any two voices one way or the other |
| `Speech.EnglishOnly` | mobile/utils/speech.ts:19-20 | the filter keeps every voice whose language contains "en", as often as it occurs, and no other |
| `Speech.Insert` | mobile/utils/speech.ts:21-47 | inserting into a sorted list keeps it sorted and adds exactly that voice |
| `Speech.SortVoices` | mobile/utils/speech.ts:21-47 | the sort yields a permutation of its input ordered by the comparator |
| `Speech.SortedTiers` | mobile/utils/speech.ts:21-45 | in a sorted list tiers never decrease |
| `Speech.SortedNamesWithinTier` | mobile/utils/speech.ts:46 | in a sorted list voices of one tier are in name order |
| `Speech.ToOption` | mobile/utils/speech.ts:48-53 | an option keeps the identifier, language and quality, and shows the name or the identifier when the name is empty |
| `Speech.OrderedEnglish` | mobile/utils/speech.ts:19-47 | the ordered list is sorted and holds exactly the English voices with their multiplicities |
| `Speech.GetAvailableVoices` | mobile/utils/speech.ts:14-60 | a failing engine gives no voices; otherwise one option per ordered English voice, in order |
| `Speech.ListedIffEnglish` | mobile/utils/speech.ts:19-20 | a voice is listed exactly when it is offered and English |
| `Speech.PreferenceOrder` | mobile/utils/speech.ts:21-47 | earlier voices are Google UK whenever later ones are, Google whenever later ones are, never of a later tier, and within a tier in name order |
| `Speech.SpeakTextOptions` | mobile/utils/speech.ts:65-81 | the engine gets the given rate or 1.0, the given voice and pitch 1.0 |
| `Speech.PauseSpeaking` | mobile/utils/speech.ts:93-100 | iOS pauses; other platforms stop |
| `Speech.ResumeSpeaking` | mobile/utils/speech.ts:105-110 | iOS resumes; other platforms do nothing |
| `ReadAloudControls.Controls.constructor` | mobile/components/ReadAloudControls.tsx:35-39 | the player starts idle at rate 1.0 with no voices, no selected voice and no engine calls |
| `ReadAloudControls.Controls.HandlePlay` | mobile/components/ReadAloudControls.tsx:46-99 | blank text changes nothing; a paused player resumes; otherwise the whole text is spoken with the chosen rate and voice; the player is then playing, and when the state changed the clean-up of the `[speechState]` effect appends a stop, so from idle the engine ends silent and without that clean-up it speaks |
| `ReadAloudControls.Controls.HandlePause` | mobile/components/ReadAloudControls.tsx:46-105 | iOS pauses the engine and is paused, elsewhere the engine stops and the player is idle; on iOS the effect clean-up then stops the engine too, so only without it is the speech held |
| `ReadAloudControls.Controls.HandleStop` | mobile/components/ReadAloudControls.tsx:46-111 | the engine stops and the player is idle; a state change adds the clean-up's stop |
| `ReadAloudControls.Controls.SpeechEnded` | mobile/components/ReadAloudControls.tsx:46-95 | the engine finishing or failing leaves the player idle; a state change adds the clean-up's stop |
| `ReadAloudControls.Controls.Poll` | mobile/components/ReadAloudControls.tsx:46-61 | a playing player whose engine is no longer speaking becomes idle, any other state is kept; a state change adds the clean-up's stop |
| `ReadAloudControls.Controls.LoadVoices` | mobile/components/ReadAloudControls.tsx:63-71 | the voice list is the ordered English voices; the first one is selected only when none was selected and the list is not empty |
| `ReadAloudControls.Controls.Unmount` | mobile/components/ReadAloudControls.tsx:57-60 | leaving the screen stops the engine and leaves it silent, changing no player state |
| `ReadAloudControls.Controls.Rerender` | mobile/components/ReadAloudControls.tsx:46-61 | a re-render runs the previous effect's clean-up, a `Stop`, exactly when the state changed and the clean-up runs on changes; no player state changes |
| `ReadAloudControls.PlaybackCutOffAsWritten` | mobile/components/ReadAloudControls.tsx:46-61 | with the clean-up on every state change, play on an idle iOS player ends with the engine silent, and so does play followed by pause |
| `ReadAloudControls.PlaybackKeptWithUnmountCleanup` | mobile/components/ReadAloudControls.tsx:46-105 | with the clean-up only at unmount, play speaks, an iOS pause holds the speech and play resumes it |
| `HighlightedText.SpanEnd` | mobile/components/HighlightedText.tsx:35 | a greedy run of one character class ends at the first character outside the class |
| `HighlightedText.Matches` | mobile/components/HighlightedText.tsx:35 | the matches of `/[^.!?]+[.!?]+[\s]*/g`, left to right: none empty and no more of them than characters; HighlightedText.MatchesAreSentences proves each a piece of the text ending in terminators, HighlightedText.MatchesIff when there is one |
| `HighlightedText.TrimEndsWith` | mobile/components/HighlightedText.tsx:36 | trimming a piece that ends in a terminator and trailing whitespace keeps that terminator as the last character |
| `HighlightedText.MatchesAreSentences` | mobile/components/HighlightedText.tsx:35 | every match is a piece of the text ending in terminators and optional whitespace |
| `HighlightedText.MatchIsSentence` | mobile/components/HighlightedText.tsx:35 | a prefix that ends in a terminator followed by whitespace is a sentence piece of the text |
| `HighlightedText.MatchesIff` | mobile/components/HighlightedText.tsx:35 | the pattern matches somewhere exactly when a non-terminator is followed later by a terminator |
| `HighlightedText.NonEmpty` | mobile/components/HighlightedText.tsx:36 | the filter keeps only non-empty pieces of the input, each non-empty piece as often as it occurs, never more pieces than the input, and the whole input when no piece is empty |
| `HighlightedText.TrimEach` | mobile/components/HighlightedText.tsx:36 | each piece is trimmed, one for one |
| `HighlightedText.SplitIntoSentences` | mobile/components/HighlightedText.tsx:33-37 | the sentences are non-empty and no more than the matches, or one when nothing matches; HighlightedText.SentencesAreTrimmedPieces, MatchedSentencesEndInTerminator and UnmatchedTextIsOneSentence carry the rest |
| `HighlightedText.SentencesAreTrimmedPieces` | mobile/components/HighlightedText.tsx:33-37 | every sentence is non-empty, already trimmed, and a piece of the text |
| `HighlightedText.MatchedSentencesEndInTerminator` | mobile/components/HighlightedText.tsx:35-36 | when the pattern matches, there is one sentence per match and each ends in '.', '!' or '?' |
| `HighlightedText.UnmatchedTextIsOneSentence` | mobile/components/HighlightedText.tsx:35-36 | without a match the result is the trimmed text alone, or nothing for blank text |
| `HighlightedText.NoTerminatorOneSentence` | mobile/components/HighlightedText.tsx:35-36 | text without any terminator is one sentence, or none when blank |
| `HighlightedText.Player.constructor` | mobile/components/HighlightedText.tsx:41-58 | the player starts idle with no current sentence, not cancelled, holding the text's sentences, at rate 1.0 with no voice chosen and no engine calls |
| `HighlightedText.Player.SpeakSentence` | mobile/components/HighlightedText.tsx:77-103 | a cancelled player or an index past the end goes idle with no current sentence; otherwise that sentence becomes current and is spoken with the chosen rate and voice |
| `HighlightedText.Player.HandlePlay` | mobile/components/HighlightedText.tsx:105-123 | blank text changes nothing, not even the cancel flag; otherwise cancellation is cleared, a paused player resumes the engine, and any other player speaks the current sentence, or the first, with the chosen rate and voice, or goes idle with no engine call when there is no such sentence; rate and voice never change |
| `HighlightedText.Player.ResumePaused` | mobile/components/HighlightedText.tsx:114-116 | a paused player resumes the engine and plays; only iOS reaches this |
| `HighlightedText.Player.PlayFromCurrent` | mobile/components/HighlightedText.tsx:117-122 | playing restarts at the current sentence, or the first, and speaks it, or goes idle with no engine call past the end |
| `HighlightedText.Player.SentenceDone` | mobile/components/HighlightedText.tsx:89-96 | a finished sentence schedules the next index unless playback was cancelled |
| `HighlightedText.Player.PacingTimerFires` | mobile/components/HighlightedText.tsx:92-94 | after the pause the next sentence becomes current and is spoken with the chosen rate and voice, or the player goes idle with no engine call when cancelled or at the end; the cancel flag, rate and voice are kept |
| `HighlightedText.Player.SentenceFailed` | mobile/components/HighlightedText.tsx:97-101 | a speech error leaves the player idle with no current sentence |
| `HighlightedText.Player.HandlePause` | mobile/components/HighlightedText.tsx:125-130 | pausing cancels, keeps the current sentence, and is paused on iOS and idle elsewhere |
| `HighlightedText.Player.HandleStop` | mobile/components/HighlightedText.tsx:132-138 | stopping cancels, stops the engine, and leaves the player idle with no current sentence |
| `HighlightedText.Player.Unmount` | mobile/components/HighlightedText.tsx:60-65 | leaving the screen stops the engine and cancels the sentence chain, keeping the current sentence and state |
| `HighlightedText.NextSentenceFollows` | mobile/components/HighlightedText.tsx:84-95 | a completed sentence that is not cancelled is followed by exactly the next one, which is spoken with the same rate and voice, or by idle with no engine call after the last |
| `ActionStepDetail.FallbackDetails` | src/components/ActionStepDetail.tsx:23-32 | without generated details the page shows five sentences, the first quoting the step and the second naming its chapter, and a takeaway quoting the step |
| `ActionStepDetail.Details` | src/components/ActionStepDetail.tsx:23 | generated details are used as they are when present, the fallback otherwise |
| `ActionStepDetail.FirstEnglish` | src/components/ActionStepDetail.tsx:68 | the index found is the first voice whose language contains "en", or there is none |
| `ActionStepDetail.FirstPreferred` | src/components/ActionStepDetail.tsx:55-61 | the index found is the first English voice whose name carries one of the eight preferred markers, or there is none |
| `ActionStepDetail.DefaultVoice` | src/components/ActionStepDetail.tsx:54-73 | a default is chosen exactly when some voice is English; it is the first preferred English voice's name when one exists, and otherwise the first English voice's name |
| `ActionStepDetail.FindByName` | src/components/ActionStepDetail.tsx:128 | the voice found is the first voice in the list with the selected name, and none is found only when no voice has it |
| `ActionStepDetail.MenuLeTotal` | src/components/ActionStepDetail.tsx:332-346 | the menu comparison orders any two voices one way or the other |
| `ActionStepDetail.EnglishVoices` | src/components/ActionStepDetail.tsx:331 | the menu filter keeps every English voice as often as it occurs, and no other |
| `ActionStepDetail.MenuInsert` | src/components/ActionStepDetail.tsx:332-346 | inserting into a sorted menu keeps it sorted and adds exactly that voice |
| `ActionStepDetail.MenuSort` | src/components/ActionStepDetail.tsx:332-346 | the menu sort yields a sorted permutation of its input |
| `ActionStepDetail.MenuVoices` | src/components/ActionStepDetail.tsx:330-352 | the menu lists exactly the English voices, sorted |
| `ActionStepDetail.PremiumVoicesFirst` | src/components/ActionStepDetail.tsx:334-344 | in the menu no plain voice comes before a premium one |
| `ActionStepDetail.MenuNamesInOrder` | src/components/ActionStepDetail.tsx:345 | within the premium group and within the plain group the menu is in name order |
| `ActionStepDetail.MenuIffEnglish` | src/components/ActionStepDetail.tsx:331 | a voice is in the menu exactly when it is available and English |
| `ActionStepDetail.EveryPointIsRead` | src/components/ActionStepDetail.tsx:120-122 | every detail sentence is read as its numbered point line |
| `ActionStepDetail.TextStartsWithHeader` | src/components/ActionStepDetail.tsx:116-118 | the text read aloud opens with the day, step and chapter line, and contains the key-takeaway line |
| `ActionStepDetail.TextToRead` | src/components/ActionStepDetail.tsx:116-122 | the text read aloud opens with the day, step, chapter, takeaway and heading lines; ActionStepDetail.EveryPointIsRead adds every numbered point |
| `ActionStepDetail.AppendPoints` | src/components/ActionStepDetail.tsx:120-122 | the `forEach` appends exactly the numbered point lines of the sentences, in order |
| `ActionStepDetail.BuildTextToRead` | src/components/ActionStepDetail.tsx:116-122 | the text built point by point is the header followed by every numbered point, in order |
| `ActionStepDetail.CreateCalendarLink` | src/components/ActionStepDetail.tsx:228-243 | the page's calendar link is the detailed calendar link for tomorrow with the step's details |
| `ActionStepDetail.UtteranceVoice` | src/components/ActionStepDetail.tsx:127-133 | an utterance gets a voice only when one is selected, and then the first voice in the list with that name; none when no voice has it |
| `ActionStepDetail.Page.constructor` | src/components/ActionStepDetail.tsx:13-18 | the page starts silent, unpaused, with no voices, no selection, rate 1.0 and the menu closed |
| `ActionStepDetail.Page.LoadVoices` | src/components/ActionStepDetail.tsx:50-73 | where the speech engine exists, the voices are the engine's list and the selection becomes the default voice when there is one, else stays |
| `ActionStepDetail.Page.HandleReadAloud` | src/components/ActionStepDetail.tsx:95-172 | while speaking it pauses or resumes; otherwise it cancels and speaks the whole text with the selected voice, the rate and pitch 1.0; the no-engine branch shows only the unsupported alert (see Left out) |
| `ActionStepDetail.Page.SpeechStarted` | src/components/ActionStepDetail.tsx:140-143 | once speech starts the page is speaking and not paused |
| `ActionStepDetail.Page.SpeechEnded` | src/components/ActionStepDetail.tsx:145-148 | once speech ends the page is neither speaking nor paused |
| `ActionStepDetail.Page.SpeechErrorAsWritten` | src/components/ActionStepDetail.tsx:150-168 | as written, the error alert depends on the speaking flag captured when the utterance was made; either way the page stops speaking |
| `ActionStepDetail.Page.SpeechError` | src/components/ActionStepDetail.tsx:150-168 | a non-cancellation error while speaking shows the read error alert; either way the page stops speaking |
| `ActionStepDetail.Page.HandleStopReading` | src/components/ActionStepDetail.tsx:175-188 | stopping clears speaking and paused before cancelling the engine |
| `ActionStepDetail.Page.TestSelectedVoice` | src/components/ActionStepDetail.tsx:191-225 | with speech support the engine is cancelled and then speaks the test phrase with the selected voice and rate |
| `ActionStepDetail.Page.SelectVoice` | src/components/ActionStepDetail.tsx:327 | the chosen name becomes the selection |
| `ActionStepDetail.Page.SetSpeechRate` | src/components/ActionStepDetail.tsx:360-366 | the slider sets the rate within 0.5 to 2 |
| `ActionStepDetail.Page.ToggleVoiceMenu` | src/components/ActionStepDetail.tsx:304 | the settings button flips the voice menu |
| `ActionStepDetail.Page.MouseDown` | src/components/ActionStepDetail.tsx:35-46 | a mouse-down outside the menu closes it; inside it leaves it as it was |
| `ActionStepDetail.Page.Unmount` | src/components/ActionStepDetail.tsx:84-92 | leaving the page cancels any speech; without an engine the failing cancel is caught and no engine call is made |
| `ActionStepDetail.ReadErrorIsLost` | src/components/ActionStepDetail.tsx:150-164 | after a read-aloud starts and fails with a real error, the handler as written shows no alert while the intended one shows the read error alert |
| `ActionStepDetail.PauseThenResume` | src/components/ActionStepDetail.tsx:101-110 | pressing read-aloud twice while speaking pauses and then resumes, ending up speaking |
| `ExportPdf.ModeName` | src/components/ExportPdfButton.tsx:12 | the modes are named "short" and "detailed", as used in the file name |
| `ExportPdf.SanitizeChar` | src/components/ExportPdfButton.tsx:26 | an ASCII letter or digit is kept and lower-cased; anything else becomes '_'; the result is a lower-case letter, a digit or '_' |
| `ExportPdf.SanitizeTitle` | src/components/ExportPdfButton.tsx:26 | the sanitised title has the title's length and is the title sanitised character by character |
| `ExportPdf.SanitizeIdempotent` | src/components/ExportPdfButton.tsx:26 | sanitising twice is the same as sanitising once |
| `ExportPdf.SanitizeKeepsSafeTitle` | src/components/ExportPdfButton.tsx:26 | a title of lower-case letters and digits is kept as it is |
| `ExportPdf.PdfFilename` | src/components/ExportPdfButton.tsx:26 | the file name is the sanitised title followed by "_", the mode and "_action_plan.pdf" |
| `ExportPdf.ModePartIsFileName` | src/components/ExportPdfButton.tsx:26 | the mode suffix holds only file-name-safe characters |
| `ExportPdf.FilenameIsSafe` | src/components/ExportPdfButton.tsx:26 | every file name holds only lower-case letters, digits, '_' and '.' |
| `ExportPdf.ModesHaveDistinctFilenames` | src/components/ExportPdfButton.tsx:26 | the two modes never produce the same file name for a title |
| `ExportPdf.PlanHeading` | src/components/ExportPdfButton.tsx:236-238 | the quick-plan heading is used exactly in short mode |
| `ExportPdf.Row` | src/components/ExportPdfButton.tsx:241-370 | a plan row is numbered from one with the step's day and text; short rows have no chapter or details; detailed rows add the chapter and, when present, the key takeaway and points |
| `ExportPdf.ShownYear` | src/components/ExportPdfButton.tsx:180 | the publication year is shown exactly when it is present and non-zero |
| `ExportPdf.ShownGenre` | src/components/ExportPdfButton.tsx:181 | the genre is shown exactly when it is present and non-empty |
| `ExportPdf.RenderDocument` | src/components/ExportPdfButton.tsx:165-400 | the document carries the book's title and author, its summary split at line breaks, the mode's heading, one row per step in order, and a checklist of every step's day and action only in detailed mode |
| `ExportPdf.ModesShowTheSameSteps` | src/components/ExportPdfButton.tsx:241-400 | both modes list the same steps with the same numbers, the checklist names the plan's steps, and it is non-empty exactly when there are steps |
| `ExportPdf.ParagraphsRebuildSummary` | src/components/ExportPdfButton.tsx:202 | the paragraphs joined with line breaks give back the summary |
| `ExportPdf.Button.constructor` | src/components/ExportPdfButton.tsx:12-15 | the button starts in detailed mode with the options closed, not generating and not successful |
| `ExportPdf.Button.Label` | src/components/ExportPdfButton.tsx:73-88 | the button reads "Generating..." while generating, "PDF!" after a success, and "PDF" otherwise |
| `ExportPdf.Button.ToggleOptions` | src/components/ExportPdfButton.tsx:69 | the export button flips the options |
| `ExportPdf.Button.SelectMode` | src/components/ExportPdfButton.tsx:103-123 | choosing an option sets the mode |
| `ExportPdf.Button.MouseDown` | src/components/ExportPdfButton.tsx:52-63 | a mouse-down outside the options closes them |
| `ExportPdf.Button.Generate` | src/components/ExportPdfButton.tsx:20-49 | a request is sent with the mode's file name and document; the button is generating unless the generator throws at once; the options close |
| `ExportPdf.Button.GenerationSucceeded` | src/components/ExportPdfButton.tsx:34-36 | success ends generation and marks the button successful |
| `ExportPdf.Button.GenerationFailed` | src/components/ExportPdfButton.tsx:41-44 | failure ends generation without success |
| `ExportPdf.Button.SuccessTimerFires` | src/components/ExportPdfButton.tsx:37-39 | two seconds after success the mark is cleared |
| `ExportPdf.ExportCycle` | src/components/ExportPdfButton.tsx:20-49 | a full export sends one request with a safe file name and the button ends up idle |
| `HomeScreen.Screen.constructor` | mobile/app/index.tsx:49-50 | the home screen starts with an empty search term on the first placeholder |
| `Text.TrimStart` | mobile/services/openRouterService.ts:195 | removing leading whitespace leaves a suffix that starts with a non-space, and only whitespace was removed |
| `Text.TrimEnd` | mobile/services/openRouterService.ts:195 | removing trailing whitespace leaves a prefix that ends with a non-space, and only whitespace was removed |
| `Text.Trim` | mobile/services/openRouterService.ts:195 | the trimmed text is a piece of the input with no whitespace at either end |
| `Text.TrimIdempotent` | mobile/app/index.tsx:63-71 | trimming twice is the same as trimming once |
| `Text.TrimEmptyIff` | src/components/SearchBar.tsx:14-15 | the trimmed text is empty exactly when the input is all whitespace |
| `Text.TrimPadded` | mobile/services/openRouterService.ts:231 | whitespace around a core without outer whitespace trims back to the core |
| `Text.LowerChar` | src/utils/contentFilter.ts:6 | a lower-cased character is never an upper-case ASCII letter, and only upper-case letters change |
| `Text.Lower` | src/utils/contentFilter.ts:6 | lower-casing keeps the length and works character by character |
| `Text.LowerIdempotent` | mobile/services/openRouterService.ts:231 | lower-casing twice is the same as lower-casing once |
| `Text.LowerConcat` | mobile/services/openRouterService.ts:51 | lower-casing distributes over concatenation |
| `Text.ContainsLower` | src/utils/contentFilter.ts:5-8 | a piece of a text lower-cased is a piece of the text lower-cased |
| `Text.IndexOfFrom` | src/components/ExportPdfButton.tsx:202 | an index found lies at or after the start position with the whole separator inside the text |
| `Text.IndexOfFromIsFirst` | src/components/ExportPdfButton.tsx:202 | the index found is an occurrence of the separator with none between the start position and it; no index means no occurrence from the start position on |
| `Text.Split` | src/components/ExportPdfButton.tsx:202 | splitting gives at least one part and no part contains the separator |
| `Text.SplitJoin` | src/components/ExportPdfButton.tsx:202 | the parts of a split joined with the separator give back the text |
| `Text.SplitLeftmost` | src/components/ExportPdfButton.tsx:202 | each part sits where the previous separator ended and is followed by the first occurrence of the separator after its start; the last part is followed by none, so `split` cuts at the leftmost occurrences |
| `Text.JoinSplit` | mobile/utils/calendarLinks.ts:117 | parts free of a separator character, joined with it, split back into the same parts |
| `Text.NatToString` | mobile/utils/calendarLinks.ts:27-30 | a natural number prints as at least one digit, exactly one when it is below ten |
| `Text.IntToString` | mobile/services/googleAuthService.ts:90 | a number prints with a leading minus exactly when it is negative |
| `Text.LeadingDigits` | mobile/services/googleAuthService.ts:143 | the leading digits are the longest digit prefix |
| `Text.ParseIntOfIntToString` | mobile/services/googleAuthService.ts:90-143 | a number written as text parses back to itself |
| `Text.ParseInt` | mobile/services/googleAuthService.ts:143 | blank text is `NaN`, and a negative result needs a leading minus; Text.ParseIntOfIntToString and ParseDigits give the values |
| `Text.ParseDigits` | mobile/services/googleAuthService.ts:143 | a run of digits parses to its decimal value |
| `Text.PadStart` | mobile/utils/calendarLinks.ts:28-29 | padding keeps a long enough text and otherwise prefixes the fill character up to the width, keeping the text at the end |
| `Text.Utf8Bytes` | mobile/utils/amazonLinks.ts:11-14 | a code point encodes as one to four bytes |
| `Text.PercentBytes` | mobile/utils/amazonLinks.ts:11-14 | each byte becomes three characters, a percent sign and two hex digits |
| `Text.EncodeUriComponent` | mobile/utils/amazonLinks.ts:11-14 | an encoded component holds only unreserved characters and percent signs |
| `Text.EncodeUnreserved` | mobile/utils/coverImage.ts:10 | text of unreserved characters is encoded as itself |
| `Text.EncodedHasNo` | mobile/utils/calendarLinks.ts:114-117 | an encoded component never holds a reserved character such as '&' or '=' |

## Left out

- The network is not modelled:
  - the OpenRouter chat-completions requests and `testAPIConnection`;
  - `fetchGoogleUserInfo`, `createCalendarEvent` and `addToGoogleCalendar`;
  - the OAuth flow of expo-auth-session.

  Their outcomes are parameters: the reply, the fetched user, the calendar API result and whether the connection test passed. The prompt text is not behaviour and is left out.
- The web `searchBook` calls `testAPIConnection` unless the normalised title contains "7 habits" (src/services/openRouterService.ts:207-210). It ignores the outcome, so the model leaves the call out.
- `JSON.parse` and `JSON.stringify` are parameters, so no JSON grammar is modelled. `JSON.parse` is a partial function from text to a parsed record, and serialisation is a function the caller supplies.
- Platform libraries are foreign calls:
  - expo-secure-store and AsyncStorage are a map, and each call's failure is an input;
  - expo-speech and `window.speechSynthesis` are a log of calls, and their callbacks are events;
  - react-to-pdf receives a request carrying the file name and the modelled document, and its result is an event;
  - haptics, navigation, `Linking.openURL` and `Alert` buttons are left out.
- Timers and intervals become explicit event methods:
  - the two-second and three-second resets;
  - the 150 ms pacing timer between sentences;
  - the half-second player poll;
  - the placeholder interval.

  Async interleavings and stale responses are concurrency and are not modelled.
- Clock and time zone:
  - `Date.now()` and today's local date with its weekday are parameters.
  - `formatDateTimeISO` keeps only the local date and hour. Its conversion to an ISO string in UTC is not modelled.
- ActionStepDetail.CreateCalendarLink: it is dated on tomorrow's local date. The page takes the date from `toISOString`, which is tomorrow in UTC. The two differ near midnight outside UTC.
- `Math.random` is an input:
  - the web shuffle receives the drawn indices;
  - the mobile picker receives the order its random sort produced.
- Character handling:
  - `toLowerCase` changes ASCII letters only;
  - `localeCompare` is code-point order;
  - JavaScript strings are sequences of Unicode scalar values, not UTF-16 code units.
- Speech rates are `real` rather than floating point. The 0.1 step of the rate sliders is not modelled.
- Speech.SortVoices: the model states that the result is a sorted permutation. It does not state how `Array.prototype.sort` orders voices with equal keys (same tier and same name).
- ActionStepDetail.Page.HandleReadAloud: the branch for a browser without `window.speechSynthesis` (src/components/ActionStepDetail.tsx:96-99) is modelled as written, with `supported` false, but it cannot be reached in the running page. The mount effect calls `window.speechSynthesis.getVoices()` (src/components/ActionStepDetail.tsx:51) before any button can be pressed, so without the engine the effect throws, its clean-up is never registered, and the page does not come up. ActionStepDetail.Page.LoadVoices therefore requires the engine, and ActionStepDetail.Page.Unmount makes no engine call without it.
- ActionStepDetail.MenuSort: the same holds for the web voice menu. The order among voices of the same group with the same name is not stated.
- BookResultCover.ChainEnds: reaching the placeholder needs a hypothesis. The generated URLs must not contain the markers of earlier fallbacks. For example, a title containing "books.google.com" breaks this, and BookResultCover.TitleUrlCanRepeat shows that the title URL then selects itself again.
- Rendering, styling and modals are not modelled. This includes the "Generate Detailed/Quick PDF" caption and the footer date of the PDF.
- Unreachable catch branches are not modelled:
  - the `searchBook` catch branches of both services, whose `try` blocks contain nothing that throws;
  - the `try`/`catch` around the web stop and test-voice handlers.
- These handlers are not modelled:
  - the mobile result screen's `handleExportPdf` (mobile/utils/pdfExport.ts is not part of this model);
  - the result screen's `handleOpenAmazon` and `handleActionPress`;
  - the test-voice button and rate slider of the mobile players, and the voice picker of the highlighter, which repeats ReadAloudControls.Controls.LoadVoices.
- `stopSpeaking` and `isSpeaking` from mobile/utils/speech.ts are single engine calls. They appear as the `Stop` call and as the poll's input.
- TrendingBooksService.FetchTrendingBooks: the base list of trending books is a parameter, because src/services/trendingBooksService.ts:2 imports `getTrendingBooks` from src/services/openRouterService.ts, which does not export it; the call as written has no definition to reach, so the model draws from whatever list is given followed by the eight additional entries.
- HomeScreen.TrendingPicker.GetRandomBooks: the home screen's `trendingBooks` state and its refresh are not modelled. `useState(getRandomBooks())` (mobile/app/index.tsx:51) calls the selection on every render, on each placeholder tick, each keystroke and the re-render after a refresh, and each such call overwrites `previouslyShown` with a selection that is thrown away. So the model promises no repeat only between two successive calls (HomeScreen.SuccessiveCallsAreDisjoint), not between two refreshes as the user sees them, which can show the same books again.
- The files that hold no modellable logic are not modelled. They are TrendingBooks, ErrorMessage, Header, BookAnimation, the mobile layout, colors and the tailwind configuration.

## Findings

| source | as written | input that shows it | evidently intended | confidence | as-written member | corrected member |
|---|---|---|---|---|---|---|
| src/components/ActionStepDetail.tsx:150-164 | the utterance's `onerror` tests `isSpeaking` as captured when `handleReadAloud` created the utterance, and that value is always false on that path, so the error alert can never show | press read aloud, the speech starts (`onstart` sets `isSpeaking`), then fails with an error other than a cancellation; ActionStepDetail.ReadErrorIsLost runs this sequence | show "An error occurred while reading the text." when a non-cancellation error interrupts speech that was in progress | not executed; high, from the closure semantics of React state | ActionStepDetail.Page.SpeechErrorAsWritten | ActionStepDetail.Page.SpeechError |
| mobile/components/ReadAloudControls.tsx:46-61 | the effect that polls the engine lists `[speechState]` as its dependencies, so its clean-up (clear the interval, `stopSpeaking`) runs on every change of the player's state, not only when the player leaves the screen | press play on an idle player: the state becomes playing and the clean-up stops the speech just started; on iOS, pause while playing: the state becomes paused and the clean-up stops what was held, so play has nothing to resume | stop the engine only when the player is unmounted, as the highlighter's effect with an empty dependency list does (mobile/components/HighlightedText.tsx:60-65) | not executed; medium, from React's effect semantics (the stop follows the start within one render cycle) | ReadAloudControls.PlaybackCutOffAsWritten | ReadAloudControls.PlaybackKeptWithUnmountCleanup |
| src/services/bookService.ts:71 | `mockBooks[normalizedTitle]` (and `fallbackBooks[normalizedTitle]` at src/services/openRouterService.ts:214 and mobile/services/openRouterService.ts:243) reads inherited members of the object literal too, so a title equal to an inherited name passes the exact-match test and the search reports success with that member as its book | the title "constructor" (or "__proto__"): `mockBooks["constructor"]` is the `Object` function, which is truthy, and it is returned as the book | look up only the table's own keys, so that such a title falls through to the partial search and to the "couldn't find" error | not executed; high, from the semantics of property access on object literals | Catalog.ConstructorFoundAsWritten | Catalog.LookupFromOwnEntry |

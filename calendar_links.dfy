/**
 * Calendar arithmetic and the Google Calendar links and event records built
 * for an action step (mobile/utils/calendarLinks.ts).  Today's local date,
 * with its day of the week, is an input.
 */
module CalendarLinks {
  import opened Wrappers
  import opened Text

  /** A local calendar date; `weekday` counts from Sunday = 0, like `Date.prototype.getDay`. */
  datatype Date = Date(year: int, month: nat, day: nat, weekday: nat)

  predicate IsLeapYear(y: int) {
    (y % 4 == 0 && y % 100 != 0) || y % 400 == 0
  }

  function DaysInMonth(y: int, m: nat): nat
    requires 1 <= m <= 12
  {
    if m == 2 then (if IsLeapYear(y) then 29 else 28)
    else if m == 4 || m == 6 || m == 9 || m == 11 then 30
    else 31
  }

  predicate ValidDate(d: Date) {
    1 <= d.month <= 12 && 1 <= d.day <= DaysInMonth(d.year, d.month) && d.weekday < 7
  }

  /** `a` lies strictly before `b` on the calendar. */
  predicate Before(a: Date, b: Date) {
    a.year < b.year
    || (a.year == b.year && a.month < b.month)
    || (a.year == b.year && a.month == b.month && a.day < b.day)
  }

  /** The following day, rolling over month and year ends. */
  function NextDay(d: Date): (r: Date)
    requires ValidDate(d)
    ensures ValidDate(r) && Before(d, r)
    ensures r.weekday == (d.weekday + 1) % 7
  {
    var w := (d.weekday + 1) % 7;
    if d.day < DaysInMonth(d.year, d.month) then Date(d.year, d.month, d.day + 1, w)
    else if d.month < 12 then Date(d.year, d.month + 1, 1, w)
    else Date(d.year + 1, 1, 1, w)
  }

  /** `date.setDate(date.getDate() + n)`. */
  function AddDays(d: Date, n: nat): (r: Date)
    requires ValidDate(d)
    ensures ValidDate(r)
    ensures r.weekday == (d.weekday + n) % 7
    ensures n > 0 ==> Before(d, r)
    decreases n
  {
    if n == 0 then d
    else
      var r := AddDays(NextDay(d), n - 1);
      assert ((d.weekday + 1) % 7 + (n - 1)) % 7 == (d.weekday + n) % 7;
      r
  }

  const DaysOfWeek: seq<string> := ["Sunday", "Monday", "Tuesday", "Wednesday", "Thursday", "Friday", "Saturday"]

  /** `daysOfWeek.findIndex(d => d === day)`: exact, case-sensitive. */
  function DayIndex(day: string): (r: Option<nat>)
    ensures r.Some? ==> r.value < 7 && DaysOfWeek[r.value] == day
    ensures r.None? ==> day !in DaysOfWeek
  {
    if day == "Sunday" then Some(0)
    else if day == "Monday" then Some(1)
    else if day == "Tuesday" then Some(2)
    else if day == "Wednesday" then Some(3)
    else if day == "Thursday" then Some(4)
    else if day == "Friday" then Some(5)
    else if day == "Saturday" then Some(6)
    else None
  }

  /** Days from weekday `from` to the next weekday `to`, counted in 1..7. */
  function DaysAhead(from: nat, to: nat): (n: nat)
    requires from < 7 && to < 7
    ensures 1 <= n <= 7 && (from + n) % 7 == to
    ensures from == to <==> n == 7
  {
    (to - from + 6) % 7 + 1
  }

  /**
   * The date `getNextDayOccurrence(day)` settles on: the next date, one to
   * seven days after today, that falls on the named weekday (a week ahead
   * when that is today's weekday); today itself for a name that is not an
   * English weekday name.
   */
  function NextOccurrence(day: string, today: Date): (target: Date)
    requires ValidDate(today)
    ensures ValidDate(target)
    ensures DayIndex(day).None? ==> target == today
    ensures DayIndex(day).Some? ==> target.weekday == DayIndex(day).value && Before(today, target)
    ensures DayIndex(day) == Some(today.weekday) ==> target == AddDays(today, 7)
  {
    var index := DayIndex(day);
    if index.None? then today
    else AddDays(today, DaysAhead(today.weekday, index.value))
  }

  /** `getNextDayOccurrence(day)`, computing the days to add as the source does. */
  method GetNextDayOccurrence(day: string, today: Date) returns (target: Date)
    requires ValidDate(today)
    ensures target == NextOccurrence(day, today)
  {
    var index := DayIndex(day);
    if index.None? {
      return today;
    }
    var daysToAdd: int := index.value - today.weekday;
    if daysToAdd <= 0 {
      daysToAdd := daysToAdd + 7;
    }
    assert daysToAdd == DaysAhead(today.weekday, index.value);
    target := AddDays(today, daysToAdd);
  }

  /** Lower-case weekday names are not recognised. */
  lemma LowerCaseDayUnknown()
    ensures DayIndex("monday").None?
  {
    assert "monday"[0] != "Monday"[0];
  }

  /** A two-digit field: `n.toString().padStart(2, '0')`. */
  function TwoDigits(n: nat): string {
    PadStart(NatToString(n), 2, '0')
  }

  /** `formatDateForUrl`: the year, then the month (1 to 12) and the day, each zero-padded to two digits. */
  function FormatDateForUrl(d: Date): (stamp: string)
    requires ValidDate(d)
    ensures forall k :: 0 <= k < |stamp| ==> IsDigit(stamp[k]) || stamp[k] == '-'
    ensures 1000 <= d.year <= 9999 ==> |stamp| == 8
  {
    TwoDigitsShape(d.month);
    TwoDigitsShape(d.day);
    YearLength(d.year);
    IntToString(d.year) + TwoDigits(d.month) + TwoDigits(d.day)
  }

  lemma YearLength(y: int)
    ensures 1000 <= y <= 9999 ==> |IntToString(y)| == 4
  {
    if 1000 <= y <= 9999 {
      NatToStringFourDigits(y);
    }
  }

  lemma TwoDigitsShape(n: nat)
    requires 1 <= n <= 31
    ensures |TwoDigits(n)| == 2 && IsDigit(TwoDigits(n)[0]) && IsDigit(TwoDigits(n)[1])
    ensures DigitsValue(TwoDigits(n)) == n
  {
    if n < 10 {
      assert NatToString(n) == [DigitChar(n)];
      assert TwoDigits(n) == [DigitChar(0), DigitChar(n)];
      PairValue(0, n);
    } else {
      var hi, lo := n / 10, n % 10;
      assert NatToString(hi) == [DigitChar(hi)];
      assert NatToString(n) == NatToString(hi) + [DigitChar(lo)];
      assert TwoDigits(n) == [DigitChar(hi), DigitChar(lo)];
      PairValue(hi, lo);
    }
  }

  /** Two digit characters read as a two-digit number. */
  lemma PairValue(a: nat, b: nat)
    requires a < 10 && b < 10
    ensures DigitsValue([DigitChar(a), DigitChar(b)]) == 10 * a + b
  {
    var s := [DigitChar(a), DigitChar(b)];
    var t := [DigitChar(a)];
    DigitValueOfDigitChar(a);
    DigitValueOfDigitChar(b);
    assert t[..0] == [];
    assert DigitsValue(t) == a;
    assert s[..1] == t;
    assert DigitsValue(s) == DigitsValue(t) * 10 + DigitValue(s[1]);
  }

  /** The stamp of a date with a four-digit year reads back as its year, month and day. */
  lemma FormatDateForUrlReadsBack(d: Date)
    requires ValidDate(d) && 1000 <= d.year <= 9999
    ensures var stamp := FormatDateForUrl(d);
      ParseInt(stamp[..4]) == Some(d.year)
      && ParseInt(stamp[4..6]) == Some(d.month)
      && ParseInt(stamp[6..]) == Some(d.day)
  {
    StampYearReadsBack(d);
    StampMonthReadsBack(d);
    StampDayReadsBack(d);
  }

  /** The stamp of a date with a four-digit year is its year, then its month and day padded to two digits. */
  lemma StampFields(d: Date)
    requires ValidDate(d) && 1000 <= d.year <= 9999
    ensures var stamp := FormatDateForUrl(d);
      && |stamp| == 8
      && stamp[..4] == IntToString(d.year)
      && stamp[4..6] == TwoDigits(d.month)
      && stamp[6..] == TwoDigits(d.day)
  {
    NatToStringFourDigits(d.year);
    TwoDigitsShape(d.month);
    TwoDigitsShape(d.day);
  }

  lemma StampYearReadsBack(d: Date)
    requires ValidDate(d) && 1000 <= d.year <= 9999
    ensures ParseInt(FormatDateForUrl(d)[..4]) == Some(d.year)
  {
    StampFields(d);
    ParseIntOfIntToString(d.year);
  }

  lemma StampMonthReadsBack(d: Date)
    requires ValidDate(d) && 1000 <= d.year <= 9999
    ensures ParseInt(FormatDateForUrl(d)[4..6]) == Some(d.month)
  {
    StampFields(d);
    TwoDigitsParse(d.month);
  }

  lemma StampDayReadsBack(d: Date)
    requires ValidDate(d) && 1000 <= d.year <= 9999
    ensures ParseInt(FormatDateForUrl(d)[6..]) == Some(d.day)
  {
    StampFields(d);
    TwoDigitsParse(d.day);
  }

  /** A month or day padded to two digits parses back to itself. */
  lemma TwoDigitsParse(n: nat)
    requires 1 <= n <= 31
    ensures ParseInt(TwoDigits(n)) == Some(n)
  {
    TwoDigitsShape(n);
    ParseDigits(TwoDigits(n));
  }


  // ---------------------------------------------------------------------
  // Event records
  // ---------------------------------------------------------------------

  /** A local date and hour; the conversion to an ISO string in UTC is not modelled. */
  datatype LocalDateTime = LocalDateTime(date: Date, hour: nat)

  datatype CalendarEventData = CalendarEventData(
    summary: string,
    description: string,
    start: LocalDateTime,
    end: LocalDateTime)

  function ActionStepFrom(bookTitle: string): string {
    "Action step from \"" + bookTitle + "\""
  }

  /** `generateCalendarEventData`: one hour, 9 to 10, on the next occurrence of `day`. */
  method GenerateCalendarEventData(actionStep: string, bookTitle: string, day: string, today: Date)
    returns (event: CalendarEventData)
    requires ValidDate(today)
    ensures event == CalendarEventData(actionStep, ActionStepFrom(bookTitle),
      LocalDateTime(NextOccurrence(day, today), 9), LocalDateTime(NextOccurrence(day, today), 10))
  {
    var target := GetNextDayOccurrence(day, today);
    event := CalendarEventData(actionStep, ActionStepFrom(bookTitle), LocalDateTime(target, 9), LocalDateTime(target, 10));
  }

  /** The description of the detailed event and link. */
  function DetailedDescription(bookTitle: string, chapter: string, keyTakeaway: string, sentences: seq<string>): string {
    ("From book: " + bookTitle + "\n")
    + ("Chapter: " + chapter + "\n\n")
    + ("Key takeaway: " + keyTakeaway + "\n\n")
    + ("Details:\n" + Join(sentences, "\n"))
  }

  /** The description's lines: the three headed lines with blank lines between, "Details:", then one line per sentence. */
  function DescriptionLines(bookTitle: string, chapter: string, keyTakeaway: string, sentences: seq<string>): seq<string> {
    ["From book: " + bookTitle, "Chapter: " + chapter, "", "Key takeaway: " + keyTakeaway, "", "Details:"] + sentences
  }

  /** Joining lines, the first one apart. */
  lemma JoinCons(head: string, rest: seq<string>, sep: string)
    requires |rest| >= 1
    ensures Join([head] + rest, sep) == head + sep + Join(rest, sep)
  {
    assert ([head] + rest)[1..] == rest;
  }

  /** A line break followed by a blank line is a double line break. */
  lemma BlankLineAfter(line: string, rest: string)
    ensures (line + "\n") + ("\n" + rest) == (line + "\n\n") + rest
  {
    assert line + "\n\n" == (line + "\n") + "\n";
  }

  /** Regrouping four blocks to the right. */
  lemma RegroupFour(b0: string, b1: string, b2: string, b3: string)
    ensures b0 + (b1 + (b2 + b3)) == ((b0 + b1) + b2) + b3
  {
  }

  /** The description is its lines joined with line breaks. */
  lemma DescriptionJoinsLines(bookTitle: string, chapter: string, keyTakeaway: string, sentences: seq<string>)
    requires |sentences| >= 1
    ensures Join(DescriptionLines(bookTitle, chapter, keyTakeaway, sentences), "\n")
         == DetailedDescription(bookTitle, chapter, keyTakeaway, sentences)
  {
    var l0, l1, l3 := "From book: " + bookTitle, "Chapter: " + chapter, "Key takeaway: " + keyTakeaway;
    var details := "Details:\n" + Join(sentences, "\n");
    var r5 := ["Details:"] + sentences;
    var r4 := [""] + r5;
    var r3 := [l3] + r4;
    var r2 := [""] + r3;
    var r1 := [l1] + r2;
    assert [l0] + r1 == DescriptionLines(bookTitle, chapter, keyTakeaway, sentences);
    JoinCons("Details:", sentences, "\n");
    assert "Details:" + "\n" == "Details:\n";
    assert Join(r5, "\n") == details;
    JoinCons("", r5, "\n");
    assert "" + "\n" == "\n";
    JoinCons(l3, r4, "\n");
    BlankLineAfter(l3, details);
    assert Join(r3, "\n") == (l3 + "\n\n") + details;
    JoinCons("", r3, "\n");
    JoinCons(l1, r2, "\n");
    BlankLineAfter(l1, Join(r3, "\n"));
    JoinCons(l0, r1, "\n");
    RegroupFour(l0 + "\n", l1 + "\n\n", l3 + "\n\n", details);
  }

  /** No line holds a line break when none of the parts does. */
  lemma DescriptionLinesUnbroken(bookTitle: string, chapter: string, keyTakeaway: string, sentences: seq<string>)
    requires '\n' !in bookTitle && '\n' !in chapter && '\n' !in keyTakeaway
    requires forall k :: 0 <= k < |sentences| ==> '\n' !in sentences[k]
    ensures var lines := DescriptionLines(bookTitle, chapter, keyTakeaway, sentences);
      forall k :: 0 <= k < |lines| ==> '\n' !in lines[k]
  {
    var lines := DescriptionLines(bookTitle, chapter, keyTakeaway, sentences);
    forall k | 0 <= k < |lines|
      ensures '\n' !in lines[k]
    {
      if k >= 6 {
        assert lines[k] == sentences[k - 6];
      }
    }
  }

  /**
   * With no line break inside the title, chapter, takeaway or any sentence,
   * the description read line by line gives back each part in its place.
   */
  lemma DetailedDescriptionLines(bookTitle: string, chapter: string, keyTakeaway: string, sentences: seq<string>)
    requires '\n' !in bookTitle && '\n' !in chapter && '\n' !in keyTakeaway
    requires |sentences| >= 1 && forall k :: 0 <= k < |sentences| ==> '\n' !in sentences[k]
    ensures Split(DetailedDescription(bookTitle, chapter, keyTakeaway, sentences), "\n")
         == DescriptionLines(bookTitle, chapter, keyTakeaway, sentences)
  {
    DescriptionJoinsLines(bookTitle, chapter, keyTakeaway, sentences);
    DescriptionLinesUnbroken(bookTitle, chapter, keyTakeaway, sentences);
    JoinSplit(DescriptionLines(bookTitle, chapter, keyTakeaway, sentences), '\n');
  }

  /** `generateDetailedCalendarEventData`: tomorrow, 9 to 10, titled "Book Action: <step>". */
  function GenerateDetailedCalendarEventData(
    actionStep: string, bookTitle: string, chapter: string, keyTakeaway: string, sentences: seq<string>, today: Date)
    : (event: CalendarEventData)
    requires ValidDate(today)
    ensures StartsWith(event.summary, "Book Action: ") && event.summary[13..] == actionStep
    ensures event.start.date == event.end.date == NextDay(today)
    ensures event.start.hour == 9 && event.end.hour == 10
    ensures event.description == DetailedDescription(bookTitle, chapter, keyTakeaway, sentences)
  {
    var tomorrow := AddDays(today, 1);
    var summary := "Book Action: " + actionStep;
    assert summary[..13] == "Book Action: ";
    CalendarEventData(summary, DetailedDescription(bookTitle, chapter, keyTakeaway, sentences),
      LocalDateTime(tomorrow, 9), LocalDateTime(tomorrow, 10))
  }

  // ---------------------------------------------------------------------
  // Links
  // ---------------------------------------------------------------------

  /**
   * `https://calendar.google.com/calendar/render?action=TEMPLATE`, the page
   * that opens a new event from its query parameters. It is written as four
   * short literals so that RenderTemplateHasNoAmpersand can check each piece
   * for `&` on its own.
   */
  const RenderTemplate: string := "https://" + "calendar.google.com/" + "calendar/render?" + "action=TEMPLATE"

  /** A join of three or more parts opens with the first two, each followed by the separator, then the third. */
  lemma JoinOpening(parts: seq<string>, sep: string, cHead: string)
    requires |parts| >= 3 && StartsWith(parts[2], cHead)
    ensures StartsWith(Join(parts, sep), parts[0] + sep + parts[1] + sep + cHead)
  {
    var a, b, c, rest := parts[0], parts[1], parts[2], parts[3..];
    assert parts == [a] + ([b] + ([c] + rest));
    JoinCons(a, parts[1..], sep);
    assert parts[1..] == [b] + ([c] + rest);
    JoinCons(b, parts[2..], sep);
    var tail := Join(parts[2..], sep);
    if rest != [] {
      JoinCons(c, rest, sep);
      assert parts[2..] == [c] + rest;
    }
    assert StartsWith(tail, cHead);
    var j := a + sep + b + sep + tail;
    assert j == (a + sep + b + sep) + tail;
    assert j[..|a + sep + b + sep + cHead|] == a + sep + b + sep + cHead;
  }

  /**
   * The link of `generateCalendarLink` for a date stamp: the render template
   * followed by the text, details, dates and time-zone parameters, joined
   * with `&`.
   */
  function CalendarLink(actionStep: string, bookTitle: string, stamp: string): (link: string)
    ensures StartsWith(link, RenderTemplate + "&text=" + EncodeUriComponent(actionStep) + "&details=")
  {
    var text := "text=" + EncodeUriComponent(actionStep);
    var details := "details=" + EncodeUriComponent(ActionStepFrom(bookTitle));
    var parts := [RenderTemplate, text, details, "dates=" + stamp + "T090000/" + stamp + "T100000", "ctz=local"];
    assert StartsWith(details, "details=");
    JoinOpening(parts, "&", "details=");
    Join(parts, "&")
  }

  /** The link of `generateDetailedCalendarLink` (and of the web step page) for a date stamp. */
  function DetailedCalendarLink(
    actionStep: string, bookTitle: string, chapter: string, keyTakeaway: string, sentences: seq<string>, stamp: string)
    : (link: string)
    ensures StartsWith(link, RenderTemplate + "&text=" + EncodeUriComponent("Book Action: " + actionStep) + "&details=")
  {
    var text := "text=" + EncodeUriComponent("Book Action: " + actionStep);
    var details := "details=" + EncodeUriComponent(DetailedDescription(bookTitle, chapter, keyTakeaway, sentences));
    var parts := [RenderTemplate, text, details, "dates=" + stamp + "/" + stamp];
    assert StartsWith(details, "details=");
    JoinOpening(parts, "&", "details=");
    Join(parts, "&")
  }

  /** `generateCalendarLink`: a 9:00 to 10:00 slot on the next occurrence of `day`. */
  method GenerateCalendarLink(actionStep: string, bookTitle: string, day: string, today: Date)
    returns (link: string)
    requires ValidDate(today)
    ensures link == CalendarLink(actionStep, bookTitle, FormatDateForUrl(NextOccurrence(day, today)))
  {
    var target := GetNextDayOccurrence(day, today);
    link := CalendarLink(actionStep, bookTitle, FormatDateForUrl(target));
  }

  /** `generateDetailedCalendarLink`: tomorrow's stamp as both start and end. */
  function GenerateDetailedCalendarLink(
    actionStep: string, bookTitle: string, chapter: string, keyTakeaway: string, sentences: seq<string>, today: Date)
    : (link: string)
    requires ValidDate(today)
    ensures link == DetailedCalendarLink(actionStep, bookTitle, chapter, keyTakeaway, sentences, FormatDateForUrl(NextDay(today)))
  {
    DetailedCalendarLink(actionStep, bookTitle, chapter, keyTakeaway, sentences, FormatDateForUrl(AddDays(today, 1)))
  }

  lemma RenderTemplateHasNoAmpersand()
    ensures '&' !in RenderTemplate
  {
    assert '&' !in "https://" && '&' !in "calendar.google.com/";
    assert '&' !in "calendar/render?" && '&' !in "action=TEMPLATE";
  }

  lemma EncodedHasNoAmpersand(s: string)
    ensures '&' !in EncodeUriComponent(s)
  {
    EncodedHasNo(s, '&');
  }

  /**
   * The query of a calendar link splits on `&` into exactly the action, the
   * encoded text, the encoded details, the dates (the same stamp for start and
   * end) and the time zone: no step or title text can inject a parameter.
   */
  lemma CalendarLinkParameters(actionStep: string, bookTitle: string, d: Date)
    requires ValidDate(d)
    ensures var stamp := FormatDateForUrl(d);
      Split(CalendarLink(actionStep, bookTitle, stamp), "&")
      == [RenderTemplate,
          "text=" + EncodeUriComponent(actionStep),
          "details=" + EncodeUriComponent(ActionStepFrom(bookTitle)),
          "dates=" + stamp + "T090000/" + stamp + "T100000",
          "ctz=local"]
  {
    var stamp := FormatDateForUrl(d);
    var parts := [RenderTemplate,
          "text=" + EncodeUriComponent(actionStep),
          "details=" + EncodeUriComponent(ActionStepFrom(bookTitle)),
          "dates=" + stamp + "T090000/" + stamp + "T100000",
          "ctz=local"];
    EncodedHasNoAmpersand(actionStep);
    EncodedHasNoAmpersand(ActionStepFrom(bookTitle));
    assert '&' !in stamp;
    RenderTemplateHasNoAmpersand();
    assert '&' !in parts[0] && '&' !in parts[1] && '&' !in parts[2] && '&' !in parts[3] && '&' !in parts[4];
    assert "&" == ['&'];
    assert CalendarLink(actionStep, bookTitle, stamp) == Join(parts, "&");
    JoinSplit(parts, '&');
  }

  /** The same for the detailed link: text, details and one stamp as both start and end. */
  lemma DetailedCalendarLinkParameters(
    actionStep: string, bookTitle: string, chapter: string, keyTakeaway: string, sentences: seq<string>, d: Date)
    requires ValidDate(d)
    ensures var stamp := FormatDateForUrl(d);
      Split(DetailedCalendarLink(actionStep, bookTitle, chapter, keyTakeaway, sentences, stamp), "&")
      == [RenderTemplate,
          "text=" + EncodeUriComponent("Book Action: " + actionStep),
          "details=" + EncodeUriComponent(DetailedDescription(bookTitle, chapter, keyTakeaway, sentences)),
          "dates=" + stamp + "/" + stamp]
  {
    var stamp := FormatDateForUrl(d);
    var parts := [RenderTemplate,
          "text=" + EncodeUriComponent("Book Action: " + actionStep),
          "details=" + EncodeUriComponent(DetailedDescription(bookTitle, chapter, keyTakeaway, sentences)),
          "dates=" + stamp + "/" + stamp];
    EncodedHasNoAmpersand("Book Action: " + actionStep);
    EncodedHasNoAmpersand(DetailedDescription(bookTitle, chapter, keyTakeaway, sentences));
    assert '&' !in stamp;
    RenderTemplateHasNoAmpersand();
    assert '&' !in parts[0] && '&' !in parts[1] && '&' !in parts[2] && '&' !in parts[3];
    assert "&" == ['&'];
    assert DetailedCalendarLink(actionStep, bookTitle, chapter, keyTakeaway, sentences, stamp) == Join(parts, "&");
    JoinSplit(parts, '&');
  }
}

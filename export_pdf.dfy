/**
 * The web page's PDF export button (`ExportPdfButton`): the export mode,
 * the file name derived from the book's title, the document laid out for
 * each mode, and the button's generating and success flags.
 */
module ExportPdf {
  import opened Wrappers
  import opened Text
  import opened BookTypes

  // ---------------------------------------------------------------------
  // File name
  // ---------------------------------------------------------------------

  datatype ExportMode = Short | Detailed

  function ModeName(mode: ExportMode): (name: string)
    ensures mode.Short? ==> name == "short"
    ensures mode.Detailed? ==> name == "detailed"
  {
    if mode.Short? then "short" else "detailed"
  }

  /** A character that may appear in an exported file name. */
  predicate IsFileChar(c: char) {
    IsAsciiLower(c) || IsDigit(c) || c == '_' || c == '.'
  }

  predicate IsFileName(s: string) {
    forall k :: 0 <= k < |s| ==> IsFileChar(s[k])
  }

  /** One character of `replace(/[^a-z0-9]/gi, '_').toLowerCase()`. */
  function SanitizeChar(c: char): (r: char)
    ensures IsAsciiAlnum(c) ==> r == LowerChar(c)
    ensures !IsAsciiAlnum(c) ==> r == '_'
    ensures IsAsciiLower(r) || IsDigit(r) || r == '_'
  {
    if IsAsciiAlnum(c) then LowerChar(c) else '_'
  }

  /**
   * The title as it enters the file name: every character other than an
   * ASCII letter or digit becomes `_`, and the letters are lower-cased.
   */
  function SanitizeTitle(title: string): (r: string)
    ensures |r| == |title|
    ensures forall k :: 0 <= k < |title| ==> r[k] == SanitizeChar(title[k])
  {
    seq(|title|, k requires 0 <= k < |title| => SanitizeChar(title[k]))
  }

  /** Sanitizing twice is sanitizing once. */
  lemma SanitizeIdempotent(title: string)
    ensures SanitizeTitle(SanitizeTitle(title)) == SanitizeTitle(title)
  {
    var s := SanitizeTitle(title);
    forall k | 0 <= k < |title|
      ensures SanitizeChar(s[k]) == s[k]
    {
      if IsAsciiAlnum(title[k]) {
        assert IsAsciiLower(s[k]) || IsDigit(s[k]);
      }
    }
  }

  /** A title already made of lower-case letters and digits is kept as it is. */
  lemma SanitizeKeepsSafeTitle(title: string)
    requires forall k :: 0 <= k < |title| ==> IsAsciiLower(title[k]) || IsDigit(title[k])
    ensures SanitizeTitle(title) == title
  {
  }

  const PlanSuffix: string := "_action_plan.pdf"

  function ModePart(mode: ExportMode): string {
    "_" + ModeName(mode) + PlanSuffix
  }

  /** `${sanitized title}_${exportMode}_action_plan.pdf`. */
  function PdfFilename(title: string, mode: ExportMode): (name: string)
    ensures |name| == |title| + |ModePart(mode)|
    ensures name[..|title|] == SanitizeTitle(title)
    ensures name[|title|..] == ModePart(mode)
  {
    SanitizeTitle(title) + ModePart(mode)
  }

  lemma ModePartIsFileName(mode: ExportMode)
    ensures IsFileName(ModePart(mode))
  {
    assert IsFileName(PlanSuffix) by {
      assert PlanSuffix == ['_', 'a', 'c', 't', 'i', 'o', 'n', '_', 'p', 'l', 'a', 'n', '.', 'p', 'd', 'f'];
    }
    if mode.Short? {
      assert ModeName(mode) == ['s', 'h', 'o', 'r', 't'];
    } else {
      assert ModeName(mode) == ['d', 'e', 't', 'a', 'i', 'l', 'e', 'd'];
    }
    var p := ModePart(mode);
    forall k | 0 <= k < |p| ensures IsFileChar(p[k]) {
      if k == 0 {
      } else if k <= |ModeName(mode)| {
        assert p[k] == ModeName(mode)[k - 1];
      } else {
        assert p[k] == PlanSuffix[k - 1 - |ModeName(mode)|];
      }
    }
  }

  /** Whatever the title, the file name uses only lower-case letters, digits, `_` and `.`. */
  lemma FilenameIsSafe(title: string, mode: ExportMode)
    ensures IsFileName(PdfFilename(title, mode))
  {
    ModePartIsFileName(mode);
    var name := PdfFilename(title, mode);
    forall k | 0 <= k < |name| ensures IsFileChar(name[k]) {
      if k < |title| {
        assert name[k] == SanitizeTitle(title)[k];
      } else {
        assert name[k] == ModePart(mode)[k - |title|];
      }
    }
  }

  /** The two modes of one book never share a file name. */
  lemma ModesHaveDistinctFilenames(title: string)
    ensures PdfFilename(title, Short) != PdfFilename(title, Detailed)
  {
    assert |ModeName(Short)| != |ModeName(Detailed)|;
  }

  // ---------------------------------------------------------------------
  // The document
  // ---------------------------------------------------------------------

  /** One step as the plan section shows it. */
  datatype PlanRow = PlanRow(
    number: nat,
    day: Option<string>,
    step: string,
    chapter: Option<string>,
    keyTakeaway: Option<string>,
    points: seq<string>)

  /** One line of the weekly checklist: day and action. */
  datatype ChecklistRow = ChecklistRow(day: Option<string>, action: string)

  datatype Document = Document(
    title: string,
    author: string,
    published: Option<int>,
    genre: Option<string>,
    keywords: string,
    paragraphs: seq<string>,
    planHeading: string,
    plan: seq<PlanRow>,
    checklist: seq<ChecklistRow>)

  const ShortHeading: string := "7-Day Quick Action Plan"
  const DetailedHeading: string := "7-Day Complete Action Plan with Details"

  function PlanHeading(mode: ExportMode): (h: string)
    ensures mode.Short? <==> h == ShortHeading
  {
    if mode.Short? then ShortHeading else DetailedHeading
  }

  /** The short form lists day and step; the detailed one adds chapter and details. */
  function Row(step: ActionableStep, index: nat, mode: ExportMode): (r: PlanRow)
    ensures r.number == index + 1 && r.day == step.day && r.step == step.step
    ensures mode.Short? ==> r.chapter == None && r.keyTakeaway == None && r.points == []
    ensures mode.Detailed? ==> r.chapter == Some(step.chapter)
    ensures mode.Detailed? && step.details.Some? ==>
      r.keyTakeaway == Some(step.details.value.keyTakeaway) && r.points == step.details.value.sentences
    ensures step.details.None? ==> r.keyTakeaway == None && r.points == []
  {
    if mode.Short? then PlanRow(index + 1, step.day, step.step, None, None, [])
    else if step.details.Some? then
      PlanRow(index + 1, step.day, step.step, Some(step.chapter),
        Some(step.details.value.keyTakeaway), step.details.value.sentences)
    else PlanRow(index + 1, step.day, step.step, Some(step.chapter), None, [])
  }

  /** `{book.publishedYear && ...}`: for a missing year or the year 0 the Published line is not shown. */
  function ShownYear(year: Option<int>): (y: Option<int>)
    ensures y.Some? <==> year.Some? && year.value != 0
    ensures y.Some? ==> y == year
  {
    if year.Some? && year.value != 0 then year else None
  }

  /** `{book.genre && ...}`: a missing or empty genre is not shown. */
  function ShownGenre(genre: Option<string>): (g: Option<string>)
    ensures g.Some? <==> genre.Some? && genre.value != ""
    ensures g.Some? ==> g == genre
  {
    if genre.Some? && genre.value != "" then genre else None
  }

  const KeywordsMiddle: string := ", book summary, action plan, "

  function Keywords(book: Book): string {
    book.title + ", " + book.author + KeywordsMiddle + (if book.genre.Some? then book.genre.value else "")
  }

  /** The content captured into the PDF for a book and a mode. */
  function RenderDocument(book: Book, mode: ExportMode): (d: Document)
    ensures d.title == book.title && d.author == book.author
    ensures d.published == ShownYear(book.publishedYear) && d.genre == ShownGenre(book.genre)
    ensures d.paragraphs == Split(book.summary, "\n")
    ensures d.planHeading == PlanHeading(mode)
    ensures |d.plan| == |book.actionableSteps|
    ensures forall i :: 0 <= i < |d.plan| ==> d.plan[i] == Row(book.actionableSteps[i], i, mode)
    ensures mode.Short? ==> d.checklist == []
    ensures mode.Detailed? ==> |d.checklist| == |book.actionableSteps|
    ensures mode.Detailed? ==> forall i :: 0 <= i < |d.checklist| ==>
      d.checklist[i] == ChecklistRow(book.actionableSteps[i].day, book.actionableSteps[i].step)
  {
    var steps := book.actionableSteps;
    Document(
      book.title, book.author, ShownYear(book.publishedYear), ShownGenre(book.genre), Keywords(book),
      Split(book.summary, "\n"),
      PlanHeading(mode),
      seq(|steps|, i requires 0 <= i < |steps| => Row(steps[i], i, mode)),
      if mode.Short? then []
      else seq(|steps|, i requires 0 <= i < |steps| => ChecklistRow(steps[i].day, steps[i].step)))
  }

  /** Both modes show every step, in order, numbered from 1; only the detailed one has a checklist. */
  lemma ModesShowTheSameSteps(book: Book, i: nat)
    requires i < |book.actionableSteps|
    ensures RenderDocument(book, Short).plan[i].step == RenderDocument(book, Detailed).plan[i].step
    ensures RenderDocument(book, Short).plan[i].number == i + 1
    ensures RenderDocument(book, Detailed).checklist[i].action == RenderDocument(book, Detailed).plan[i].step
    ensures RenderDocument(book, Detailed).checklist != [] <==> book.actionableSteps != []
  {
  }

  /** The summary's paragraphs join back into the summary. */
  lemma ParagraphsRebuildSummary(book: Book, mode: ExportMode)
    ensures Join(RenderDocument(book, mode).paragraphs, "\n") == book.summary
  {
    SplitJoin(book.summary, "\n");
  }

  // ---------------------------------------------------------------------
  // The button
  // ---------------------------------------------------------------------

  const GeneratingLabel: string := "Generating..."
  const SuccessLabel: string := "PDF!"
  const IdleLabel: string := "PDF"

  /** A call to the PDF generator: the file name and the captured content. */
  datatype PdfRequest = PdfRequest(filename: string, document: Document)

  class Button {
    const book: Book
    var exportMode: ExportMode
    var showOptions: bool
    var isGenerating: bool
    var isSuccess: bool
    /** The requests handed to the generator, oldest first. */
    var requests: seq<PdfRequest>

    constructor (book: Book)
      ensures this.book == book && exportMode == Detailed
      ensures !showOptions && !isGenerating && !isSuccess && requests == []
    {
      this.book := book;
      exportMode := Detailed;
      showOptions := false;
      isGenerating := false;
      isSuccess := false;
      requests := [];
    }

    /** The label of the button: the spinner wins over the tick. */
    function Label(): (shown: string)
      reads this
      ensures isGenerating ==> shown == GeneratingLabel
      ensures !isGenerating && isSuccess ==> shown == SuccessLabel
      ensures !isGenerating && !isSuccess ==> shown == IdleLabel
    {
      if isGenerating then GeneratingLabel else if isSuccess then SuccessLabel else IdleLabel
    }

    method ToggleOptions()
      modifies this`showOptions
      ensures showOptions == !old(showOptions)
    {
      showOptions := !showOptions;
    }

    method SelectMode(mode: ExportMode)
      modifies this`exportMode
      ensures exportMode == mode
    {
      exportMode := mode;
    }

    /** A mouse-down outside the options closes them. */
    method MouseDown(insideOptions: bool)
      modifies this`showOptions
      ensures showOptions == (old(showOptions) && insideOptions)
    {
      if !insideOptions {
        showOptions := false;
      }
    }

    /**
     * The generate button: `handleExport` hands the file name and content to
     * the generator (which may throw at once) and the options close.
     */
    method Generate(throwsAtOnce: bool)
      modifies this`isGenerating, this`showOptions, this`requests
      ensures requests == old(requests) + [PdfRequest(PdfFilename(book.title, exportMode), RenderDocument(book, exportMode))]
      ensures isGenerating == !throwsAtOnce
      ensures !showOptions
    {
      isGenerating := true;
      requests := requests + [PdfRequest(PdfFilename(book.title, exportMode), RenderDocument(book, exportMode))];
      if throwsAtOnce {
        isGenerating := false;
      }
      showOptions := false;
    }

    /** The generator's promise resolves. */
    method GenerationSucceeded()
      modifies this`isGenerating, this`isSuccess
      ensures !isGenerating && isSuccess
    {
      isGenerating := false;
      isSuccess := true;
    }

    /** The generator's promise rejects. */
    method GenerationFailed()
      modifies this`isGenerating
      ensures !isGenerating
    {
      isGenerating := false;
    }

    /** Two seconds after a success. */
    method SuccessTimerFires()
      modifies this`isSuccess
      ensures !isSuccess
    {
      isSuccess := false;
    }
  }

  /** An export that succeeds shows the tick, then the idle label again. */
  method ExportCycle(b: Button)
    modifies b
    ensures b.requests == old(b.requests) + [PdfRequest(PdfFilename(b.book.title, b.exportMode), RenderDocument(b.book, b.exportMode))]
    ensures IsFileName(b.requests[|b.requests| - 1].filename)
    ensures b.Label() == IdleLabel
  {
    b.Generate(false);
    assert b.Label() == GeneratingLabel;
    b.GenerationSucceeded();
    assert b.Label() == SuccessLabel;
    b.SuccessTimerFires();
    FilenameIsSafe(b.book.title, b.exportMode);
  }
}

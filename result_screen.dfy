/**
 * The mobile result screen (mobile/app/book/result.tsx): the summary's
 * paragraphs and their expansion, and adding a step to the calendar, either
 * through the calendar API for a signed-in user or through a web link.
 */
module ResultScreen {
  import opened Wrappers
  import opened Text
  import opened BookTypes
  import opened CalendarLinks

  const ParagraphBreak: string := "\n\n"
  const AddFailedAlert: string := "Could not add event to calendar."

  /** `summary.split('\n\n')`. */
  function SummaryParagraphs(summary: string): (paragraphs: seq<string>)
    ensures |paragraphs| >= 1
    ensures Join(paragraphs, ParagraphBreak) == summary
  {
    SplitJoin(summary, ParagraphBreak);
    Split(summary, ParagraphBreak)
  }

  /** The "See more" toggle is offered exactly when the summary has a paragraph break. */
  lemma ToggleShownIffBreak(summary: string)
    ensures |SummaryParagraphs(summary)| > 1 <==> Contains(summary, ParagraphBreak)
  {
    var found := IndexOfFrom(summary, ParagraphBreak, 0);
    IndexOfFromIsFirst(summary, ParagraphBreak, 0);
    if Contains(summary, ParagraphBreak) {
      var i :| 0 <= i <= |summary| && OccursAt(summary, ParagraphBreak, i);
      assert found.Some?;
    }
  }

  /** The paragraphs on screen: the first always, the rest only when expanded. */
  function VisibleParagraphs(summary: string, isExpanded: bool): (shown: seq<string>)
    ensures |shown| >= 1 && shown[0] == SummaryParagraphs(summary)[0]
    ensures isExpanded ==> Join(shown, ParagraphBreak) == summary
    ensures !isExpanded ==> |shown| == 1
  {
    var paragraphs := SummaryParagraphs(summary);
    if isExpanded then paragraphs else paragraphs[..1]
  }

  /** A step gets a calendar control only when it names a day. */
  predicate HasCalendarControl(step: ActionableStep) {
    Present(step.day)
  }

  /** The numbers shown beside the steps, in order. */
  function StepNumbers(steps: seq<ActionableStep>): (numbers: seq<nat>)
    ensures |numbers| == |steps|
    ensures forall i :: 0 <= i < |numbers| ==> numbers[i] == i + 1
  {
    seq(|steps|, i => i + 1)
  }

  /** What the calendar API answered. */
  datatype CalendarApiResult = CalendarApiResult(success: bool, error: Option<string>)

  /** Which way a step was sent to the calendar. */
  datatype CalendarRoute = ViaApi(event: CalendarEventData) | ViaLink(url: string)

  class Screen {
    var isExpanded: bool
    /** The step being sent to the calendar API, if any. */
    var addingStepIndex: Option<nat>
    /** The steps showing the "added" tick. */
    var addedSteps: set<nat>
    /** The alert on screen, if any. */
    var alert: Option<string>

    constructor()
      ensures !isExpanded && addingStepIndex.None? && addedSteps == {} && alert.None?
    {
      isExpanded := false;
      addingStepIndex := None;
      addedSteps := {};
      alert := None;
    }

    method ToggleExpanded()
      modifies this
      ensures isExpanded == !old(isExpanded)
      ensures addingStepIndex == old(addingStepIndex) && addedSteps == old(addedSteps) && alert == old(alert)
    {
      isExpanded := !isExpanded;
    }

    /** The API path starts: the step is marked as being added. */
    method BeginApiAdd(index: nat)
      modifies this
      ensures addingStepIndex == Some(index)
      ensures isExpanded == old(isExpanded) && addedSteps == old(addedSteps) && alert == old(alert)
    {
      addingStepIndex := Some(index);
    }

    /** The API answered: the mark is cleared, then the tick is added or the failure shown. */
    method FinishApiAdd(index: nat, result: CalendarApiResult)
      modifies this
      ensures addingStepIndex.None? && isExpanded == old(isExpanded)
      ensures result.success ==> addedSteps == old(addedSteps) + {index} && alert == old(alert)
      ensures !result.success ==> addedSteps == old(addedSteps)
      ensures !result.success ==> alert == Some(if Present(result.error) then result.error.value else AddFailedAlert)
    {
      addingStepIndex := None;
      if result.success {
        addedSteps := addedSteps + {index};
      } else {
        alert := Some(if Present(result.error) then result.error.value else AddFailedAlert);
      }
    }

    /** Three seconds after a success the tick of that step goes away. */
    method TickExpires(index: nat)
      modifies this
      ensures addedSteps == old(addedSteps) - {index}
      ensures isExpanded == old(isExpanded) && addingStepIndex == old(addingStepIndex) && alert == old(alert)
    {
      addedSteps := addedSteps - {index};
    }

    /**
     * `handleAddToCalendar`: a signed-in user with a token goes through the
     * API with the event of `generateCalendarEventData`; anyone else gets
     * the web link of `generateCalendarLink`.  The API's answer is an input.
     */
    method HandleAddToCalendar(step: string, bookTitle: string, day: string, index: nat,
                               isAuthenticated: bool, accessToken: Option<string>,
                               apiResult: CalendarApiResult, today: Date)
      returns (route: CalendarRoute)
      requires ValidDate(today)
      modifies this
      ensures route.ViaApi? <==> isAuthenticated && Present(accessToken)
      ensures route.ViaApi? ==>
        && route.event == CalendarEventData(step, ActionStepFrom(bookTitle),
             LocalDateTime(NextOccurrence(day, today), 9), LocalDateTime(NextOccurrence(day, today), 10))
        && addingStepIndex.None?
        && addedSteps == (if apiResult.success then old(addedSteps) + {index} else old(addedSteps))
        && alert == (if apiResult.success then old(alert)
                     else Some(if Present(apiResult.error) then apiResult.error.value else AddFailedAlert))
      ensures route.ViaLink? ==>
        && route.url == CalendarLink(step, bookTitle, FormatDateForUrl(NextOccurrence(day, today)))
        && addingStepIndex == old(addingStepIndex) && addedSteps == old(addedSteps) && alert == old(alert)
      ensures isExpanded == old(isExpanded)
    {
      if isAuthenticated && accessToken.Some? && accessToken.value != "" {
        BeginApiAdd(index);
        var event := GenerateCalendarEventData(step, bookTitle, day, today);
        FinishApiAdd(index, apiResult);
        route := ViaApi(event);
      } else {
        var url := GenerateCalendarLink(step, bookTitle, day, today);
        route := ViaLink(url);
      }
    }
  }
}

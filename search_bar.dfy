/**
 * The web search bar (src/components/SearchBar.tsx): the typed term, the
 * submit guard and the disabled states of the input and the button.
 */
module SearchBar {
  import opened Wrappers
  import opened Text

  /** The submit guard: a non-blank term while no search is running. */
  predicate CanSubmit(searchTerm: string, isLoading: bool) {
    Trim(searchTerm) != "" && !isLoading
  }

  /** The button's `disabled` attribute. */
  function SubmitDisabled(searchTerm: string, isLoading: bool): (disabled: bool)
    ensures disabled <==> !CanSubmit(searchTerm, isLoading)
  {
    Trim(searchTerm) == "" || isLoading
  }

  /** A term of only whitespace can never be submitted, whatever the loading state. */
  lemma BlankNeverSubmitted(searchTerm: string, isLoading: bool)
    requires AllWhitespace(searchTerm)
    ensures SubmitDisabled(searchTerm, isLoading)
  {
    TrimEmptyIff(searchTerm);
  }

  class Bar {
    var searchTerm: string

    constructor()
      ensures searchTerm == ""
    {
      searchTerm := "";
    }

    /** The input's `onChange`; the input is disabled while loading, so typing then changes nothing. */
    method OnChange(value: string, isLoading: bool)
      modifies this
      ensures searchTerm == if isLoading then old(searchTerm) else value
    {
      if !isLoading {
        searchTerm := value;
      }
    }

    /** `handleSubmit`: the query handed to `onSearch`, if the guard lets it through. */
    method HandleSubmit(isLoading: bool) returns (query: Option<string>)
      ensures query.Some? <==> CanSubmit(searchTerm, isLoading)
      ensures query.Some? ==> query.value == Trim(searchTerm) && query.value != ""
      ensures query.Some? ==> !IsWhitespace(query.value[0]) && !IsWhitespace(query.value[|query.value| - 1])
    {
      if Trim(searchTerm) != "" && !isLoading {
        query := Some(Trim(searchTerm));
      } else {
        query := None;
      }
    }
  }
}

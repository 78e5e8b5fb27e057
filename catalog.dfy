/**
 * The lookup every book service performs over its built-in table: an exact
 * key match on the normalised title first, then the first key in declaration
 * order that contains the query or is contained in it.
 */
module Catalog {
  import opened Wrappers
  import opened Text

  datatype Entry<T> = Entry(key: string, value: T)

  /** `key.includes(query) || query.includes(key)`. */
  predicate MatchesPartially(key: string, query: string) {
    Contains(key, query) || Contains(query, key)
  }

  /** Object-literal keys are distinct. */
  predicate DistinctKeys<T>(entries: seq<Entry<T>>) {
    forall i, j :: 0 <= i < j < |entries| ==> entries[i].key != entries[j].key
  }

  /** Index of the entry whose key is `query`, searching from `from`. */
  function IndexOfKey<T>(entries: seq<Entry<T>>, query: string, from: nat): (r: Option<nat>)
    ensures r.Some? ==> from <= r.value < |entries| && entries[r.value].key == query
    ensures r.Some? ==> forall j :: from <= j < r.value ==> entries[j].key != query
    ensures r.None? ==> forall j :: from <= j < |entries| ==> entries[j].key != query
    decreases |entries| - from
  {
    if from >= |entries| then None
    else if entries[from].key == query then Some(from)
    else IndexOfKey(entries, query, from + 1)
  }

  /** Index of the first entry, from `from` on, whose key matches partially (`Array.prototype.find`). */
  function IndexOfPartial<T>(entries: seq<Entry<T>>, query: string, from: nat): (r: Option<nat>)
    ensures r.Some? ==> from <= r.value < |entries| && MatchesPartially(entries[r.value].key, query)
    ensures r.Some? ==> forall j :: from <= j < r.value ==> !MatchesPartially(entries[j].key, query)
    ensures r.None? ==> forall j :: from <= j < |entries| ==> !MatchesPartially(entries[j].key, query)
    decreases |entries| - from
  {
    if from >= |entries| then None
    else if MatchesPartially(entries[from].key, query) then Some(from)
    else IndexOfPartial(entries, query, from + 1)
  }

  /** How a query was resolved against the table. */
  datatype Match = Exact(index: nat) | Partial(index: nat) | NoMatch

  /**
   * Exact match first, then the first partial match, else nothing.  A
   * partial match is reported only when no key equals the query.
   */
  function FindMatch<T>(entries: seq<Entry<T>>, query: string): (m: Match)
    ensures m.Exact? ==> m.index < |entries| && entries[m.index].key == query
    ensures !m.Exact? ==> forall j :: 0 <= j < |entries| ==> entries[j].key != query
    ensures m.Partial? ==> m.index < |entries| && MatchesPartially(entries[m.index].key, query)
    ensures m.Partial? ==> forall j :: 0 <= j < m.index ==> !MatchesPartially(entries[j].key, query)
    ensures m.NoMatch? ==> forall j :: 0 <= j < |entries| ==> !MatchesPartially(entries[j].key, query)
  {
    match IndexOfKey(entries, query, 0)
    case Some(i) => Exact(i)
    case None =>
      match IndexOfPartial(entries, query, 0)
      case Some(i) => Partial(i)
      case None => NoMatch
  }

  /**
   * The table value a query resolves to, if any: only the table's own
   * entries are consulted, as `Object.hasOwn(table, query)` would before
   * `table[query]`.
   */
  function Lookup<T>(entries: seq<Entry<T>>, query: string): (r: Option<T>)
    ensures r.None? <==> FindMatch(entries, query).NoMatch?
    ensures r.Some? ==> r.value == entries[FindMatch(entries, query).index].value
  {
    match FindMatch(entries, query)
    case Exact(i) => Some(entries[i].value)
    case Partial(i) => Some(entries[i].value)
    case NoMatch => None
  }

  /** Whatever the query, a value found is that of an own entry matching it. */
  lemma LookupFromOwnEntry<T>(entries: seq<Entry<T>>, query: string)
    ensures var r := Lookup(entries, query);
      r.Some? ==> exists j ::
        && 0 <= j < |entries| && entries[j].value == r.value
        && (entries[j].key == query || MatchesPartially(entries[j].key, query))
  {
  }

  /**
   * The names a lower-cased, trimmed title can share with the members every
   * object literal inherits from `Object.prototype`: `table[name]` reads the
   * `Object` function or the prototype object, both truthy, though no entry
   * has that key.
   */
  predicate IsInheritedName(query: string) {
    query == "constructor" || query == "__proto__"
  }

  /** What the truthiness test `table[query]` and the partial search give, as the services write them. */
  datatype Resolution<T> = EntryValue(value: T) | NotABook | Missing

  /** The lookup as written: an inherited member passes the exact-match test and is returned as the book. */
  function LookupAsWritten<T>(entries: seq<Entry<T>>, query: string): (r: Resolution<T>)
    ensures r.EntryValue? ==> exists j ::
      && 0 <= j < |entries| && entries[j].value == r.value
      && (entries[j].key == query || MatchesPartially(entries[j].key, query))
    ensures r.NotABook? <==> IsInheritedName(query) && forall j :: 0 <= j < |entries| ==> entries[j].key != query
  {
    match IndexOfKey(entries, query, 0)
    case Some(i) => EntryValue(entries[i].value)
    case None =>
      if IsInheritedName(query) then NotABook
      else
        match IndexOfPartial(entries, query, 0)
        case Some(i) => EntryValue(entries[i].value)
        case None => Missing
  }

  /**
   * Searching for "constructor" in a table without that key reports a
   * success whose book is not a table entry, while the own-key lookup does
   * not take that branch and finds only entries that match.
   */
  lemma ConstructorFoundAsWritten<T>(entries: seq<Entry<T>>)
    requires forall j :: 0 <= j < |entries| ==> !MatchesPartially(entries[j].key, "constructor")
    ensures LookupAsWritten(entries, "constructor") == NotABook
    ensures Lookup(entries, "constructor").None?
  {
    NoMatchIff(entries, "constructor");
  }

  /** Away from the inherited names, the lookup as written and the own-key lookup agree. */
  lemma AsWrittenAgreesElsewhere<T>(entries: seq<Entry<T>>, query: string)
    requires !IsInheritedName(query)
    ensures LookupAsWritten(entries, query) == match Lookup(entries, query) case Some(v) => EntryValue(v) case None => Missing
  {
  }

  /** With distinct keys, a key equal to the query wins over any earlier partial match. */
  lemma ExactBeatsPartial<T>(entries: seq<Entry<T>>, query: string, k: nat)
    requires DistinctKeys(entries)
    requires k < |entries| && entries[k].key == query
    ensures FindMatch(entries, query) == Exact(k)
    ensures Lookup(entries, query) == Some(entries[k].value)
  {
  }

  /** The empty query is contained in every key, so it resolves to the first entry. */
  lemma EmptyQueryMatchesFirst<T>(entries: seq<Entry<T>>)
    requires |entries| > 0 && forall j :: 0 <= j < |entries| ==> entries[j].key != ""
    ensures FindMatch(entries, "") == Partial(0)
    ensures Lookup(entries, "") == Some(entries[0].value)
  {
    ContainsEmpty(entries[0].key);
  }

  /** A query found nowhere in any key, and containing no key, resolves to nothing. */
  lemma NoMatchIff<T>(entries: seq<Entry<T>>, query: string)
    ensures Lookup(entries, query).None?
      <==> forall j :: 0 <= j < |entries| ==> !MatchesPartially(entries[j].key, query)
  {
    ContainsSelf(query);
  }

  function Keys<T>(entries: seq<Entry<T>>): (keys: seq<string>)
    ensures |keys| == |entries| && forall i :: 0 <= i < |entries| ==> keys[i] == entries[i].key
  {
    seq(|entries|, i requires 0 <= i < |entries| => entries[i].key)
  }

  /** `Object.values`, in declaration order. */
  function Values<T>(entries: seq<Entry<T>>): (values: seq<T>)
    ensures |values| == |entries| && forall i :: 0 <= i < |entries| ==> values[i] == entries[i].value
  {
    seq(|entries|, i requires 0 <= i < |entries| => entries[i].value)
  }
}

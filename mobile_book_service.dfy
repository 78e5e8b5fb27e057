/**
 * The mobile book service (mobile/services/openRouterService.ts): the
 * built-in catalog with generated step details, the clean-up and validation
 * of the AI reply, `searchBook` and `getTrendingBooks`.  The HTTP call and
 * `JSON.parse` are inputs: `reply` is what the chat-completions endpoint
 * returned, `parse` is a partial function from text to a parsed value.
 */
module MobileBookService {
  import opened Wrappers
  import opened Text
  import opened BookTypes
  import opened Catalog
  import opened ContentFilter
  import opened CoverImage
  import opened KeyValue

  /** The secure-store key of the OpenRouter API key. */
  const ApiKeyStorageKey: string := "openrouter_api_key"

  // ---------------------------------------------------------------------
  // Generated step details
  // ---------------------------------------------------------------------

  const ImplementOpening: string := "This step helps you implement "
  const ImplementClosing: string := " in your daily routine."
  const PrinciplesOpening: string := "Based on the principles from "
  const PrinciplesClosing: string := ", this action creates lasting change."
  const ConsistencySentence: string := "Consistency with this practice leads to substantial improvements over time."
  const ReadersSentence: string := "Many readers have reported that this specific technique leads to measurable results."
  const AuthorSentence: string := "The author identifies this as a key principle for success in this area."
  const TakeawayOpening: string := "The core lesson is to "
  const TakeawayClosing: string := " with intention and consistency."

  /** The five explanation sentences of a catalog step: two built around the step, three fixed. */
  function DetailSentences(step: string, chapter: string): (sentences: seq<string>)
    ensures |sentences| == 5
  {
    [ ImplementOpening + "\"" + step + "\"" + ImplementClosing,
      PrinciplesOpening + chapter + PrinciplesClosing,
      ConsistencySentence, ReadersSentence, AuthorSentence ]
  }

  /** One step with its generated details. */
  function WithDetails(s: ActionableStep): (r: ActionableStep)
    ensures r.day == s.day && r.step == s.step && r.chapter == s.chapter
    ensures r.details.Some? && |r.details.value.sentences| == 5
    ensures Contains(r.details.value.sentences[0], "\"" + s.step + "\"")
    ensures Contains(r.details.value.sentences[1], s.chapter)
    ensures r.details.value.keyTakeaway == TakeawayOpening + Lower(s.step) + TakeawayClosing
  {
    var quoted := "\"" + s.step + "\"";
    assert DetailSentences(s.step, s.chapter)[0] == ImplementOpening + quoted + ImplementClosing;
    ContainsSelf(quoted);
    ContainsInfix(ImplementOpening, quoted, ImplementClosing, quoted);
    ContainsSelf(s.chapter);
    ContainsInfix(PrinciplesOpening, s.chapter, PrinciplesClosing, s.chapter);
    var takeaway := TakeawayOpening + Lower(s.step) + TakeawayClosing;
    s.(details := Some(StepDetails(DetailSentences(s.step, s.chapter), takeaway)))
  }

  /**
   * `addDetailedSteps`: the same steps in the same order, each keeping its
   * day, text and chapter and gaining five sentences (the first quoting the
   * step, the second naming the chapter) and the key takeaway.
   */
  function AddDetailedSteps(steps: seq<ActionableStep>): (r: seq<ActionableStep>)
    ensures |r| == |steps|
    ensures forall i :: 0 <= i < |steps| ==> r[i] == WithDetails(steps[i])
  {
    seq(|steps|, i requires 0 <= i < |steps| => WithDetails(steps[i]))
  }

  // ---------------------------------------------------------------------
  // Clean-up of the AI reply
  // ---------------------------------------------------------------------

  const Fence: string := "```"
  const JsonFence: string := "```json"

  /** `.replace(/```$/, '')`: a closing fence at the very end is dropped. */
  function DropTrailingFence(s: string): (r: string)
    ensures EndsWith(s, Fence) ==> r == s[..|s| - 3]
    ensures !EndsWith(s, Fence) ==> r == s
  {
    if EndsWith(s, Fence) then s[..|s| - 3] else s
  }

  /**
   * The fence strip of lines 196-200: only a text that starts with the
   * fence marker is touched; "```json" is removed whole, else "```".
   */
  function StripFence(t: string): (r: string)
    ensures !StartsWith(t, Fence) ==> r == t
  {
    JsonFenceIsFenced(t);
    if StartsWith(t, JsonFence) then Trim(DropTrailingFence(t[|JsonFence|..]))
    else if StartsWith(t, Fence) then Trim(DropTrailingFence(t[|Fence|..]))
    else t
  }

  lemma JsonFenceIsFenced(t: string)
    ensures StartsWith(t, JsonFence) ==> StartsWith(t, Fence)
  {
    if StartsWith(t, JsonFence) {
      assert t[..3] == t[..7][..3];
    }
  }

  /** Wrapping a trimmed JSON text in a "```json" fence and stripping it gives the text back. */
  lemma StripFenceUndoesFence(j: string)
    requires j == [] || (!IsWhitespace(j[0]) && !IsWhitespace(j[|j| - 1]))
    ensures StripFence(JsonFence + "\n" + j + "\n" + Fence) == j
  {
    var t := JsonFence + "\n" + j + "\n" + Fence;
    assert t[..|JsonFence|] == JsonFence;
    var body := t[|JsonFence|..];
    assert body == "\n" + j + "\n" + Fence;
    assert body[|body| - 3..] == Fence;
    assert DropTrailingFence(body) == "\n" + j + "\n";
    if j == [] {
      assert AllWhitespace("\n\n");
      TrimEmptyIff("\n\n");
      assert "\n" + j + "\n" == "\n\n";
    } else {
      TrimStartWhitespacePrefix("\n", j + "\n");
      assert "\n" + j + "\n" == "\n" + (j + "\n");
      TrimEndWhitespaceSuffix(j, "\n");
    }
  }

  predicate IsClose(c: char) {
    c == '}' || c == ']'
  }

  /** The end of the whitespace run starting at `i` (the `\s*` of the pattern). */
  function SkipWhitespace(s: string, i: nat): (j: nat)
    requires i <= |s|
    ensures i <= j <= |s|
    ensures forall k :: i <= k < j ==> IsWhitespace(s[k])
    ensures j == |s| || !IsWhitespace(s[j])
    decreases |s| - i
  {
    if i < |s| && IsWhitespace(s[i]) then SkipWhitespace(s, i + 1) else i
  }

  /** The characters other than commas and whitespace: what the comma repair must never touch. */
  function Significant(s: string): string {
    if s == [] then []
    else (if s[0] == ',' || IsWhitespace(s[0]) then [] else [s[0]]) + Significant(s[1..])
  }

  lemma {:induction false} SignificantSkipsWhitespace(s: string, i: nat, j: nat)
    requires i <= j <= |s|
    requires forall k :: i <= k < j ==> IsWhitespace(s[k])
    ensures Significant(s[i..]) == Significant(s[j..])
    decreases j - i
  {
    if i < j {
      assert s[i..][1..] == s[i + 1..];
      SignificantSkipsWhitespace(s, i + 1, j);
    }
  }

  /**
   * `.replace(/,\s*([}\]])/g, '$1')`: one left-to-right pass; a comma
   * followed by optional whitespace and a closing bracket is replaced by the
   * bracket, and the scan resumes after the bracket.  Only commas and
   * whitespace are ever removed.
   */
  function RemoveCommaBeforeClose(s: string): (r: string)
    ensures |r| <= |s|
    ensures Significant(r) == Significant(s)
    ensures ',' !in s ==> r == s
    decreases |s|
  {
    if s == [] then []
    else
      var j := SkipWhitespace(s, 1);
      if s[0] == ',' && j < |s| && IsClose(s[j]) then
        var rest := RemoveCommaBeforeClose(s[j + 1..]);
        assert Significant(s) == Significant(s[1..]);
        SignificantSkipsWhitespace(s, 1, j);
        assert s[j..][1..] == s[j + 1..];
        [s[j]] + rest
      else
        [s[0]] + RemoveCommaBeforeClose(s[1..])
  }

  /** Position `i` holds a comma that the pattern `,\s*[}\]]` matches: whitespace, then a closing bracket. */
  predicate CommaBeforeClose(s: string, i: nat)
    requires i < |s|
  {
    s[i] == ',' && SkipWhitespace(s, i + 1) < |s| && IsClose(s[SkipWhitespace(s, i + 1)])
  }

  /** Skipping whitespace in a suffix is skipping it in the whole text, shifted by one. */
  lemma {:induction false} SkipWhitespaceShift(s: string, i: nat)
    requires 1 <= i <= |s|
    ensures SkipWhitespace(s[1..], i - 1) + 1 == SkipWhitespace(s, i)
    decreases |s| - i
  {
    if i < |s| && IsWhitespace(s[i]) {
      assert s[1..][i - 1] == s[i];
      SkipWhitespaceShift(s, i + 1);
    }
  }

  /** A match one position into the text is a match of the text without its first character. */
  lemma ShiftedMatch(s: string, i: nat)
    requires 1 <= i < |s|
    ensures CommaBeforeClose(s, i) <==> CommaBeforeClose(s[1..], i - 1)
  {
    var t := s[1..];
    SkipWhitespaceShift(s, i + 1);
    assert t[i - 1] == s[i];
    if SkipWhitespace(s, i + 1) < |s| {
      assert t[SkipWhitespace(t, i)] == s[SkipWhitespace(s, i + 1)];
    }
  }

  /** Text where no comma precedes a closing bracket is left as it is. */
  lemma {:induction false} RepairKeepsUnmatched(s: string)
    requires forall i :: 0 <= i < |s| ==> !CommaBeforeClose(s, i)
    ensures RemoveCommaBeforeClose(s) == s
    decreases |s|
  {
    if s != [] {
      assert !CommaBeforeClose(s, 0);
      var t := s[1..];
      forall k | 0 <= k < |t|
        ensures !CommaBeforeClose(t, k)
      {
        ShiftedMatch(s, k + 1);
      }
      RepairKeepsUnmatched(t);
      assert s == [s[0]] + t;
    }
  }

  /** A comma that precedes a closing bracket is removed, so the text gets shorter. */
  lemma {:induction false} RepairShortensMatched(s: string, i: nat)
    requires i < |s| && CommaBeforeClose(s, i)
    ensures |RemoveCommaBeforeClose(s)| < |s|
    decreases |s|
  {
    if !CommaBeforeClose(s, 0) {
      ShiftedMatch(s, i);
      RepairShortensMatched(s[1..], i - 1);
    }
  }

  /**
   * The repair changes the text exactly when some comma is followed, after
   * optional whitespace, by a closing bracket; it then makes it shorter.
   */
  lemma RepairChangesIff(s: string)
    ensures RemoveCommaBeforeClose(s) == s <==> forall i :: 0 <= i < |s| ==> !CommaBeforeClose(s, i)
    ensures (exists i :: 0 <= i < |s| && CommaBeforeClose(s, i)) ==> |RemoveCommaBeforeClose(s)| < |s|
  {
    if i :| 0 <= i < |s| && CommaBeforeClose(s, i) {
      RepairShortensMatched(s, i);
    } else {
      RepairKeepsUnmatched(s);
    }
  }

  /** A comma, spaces and a brace collapse to the brace. */
  lemma CommaSpaceBraceRepaired()
    ensures RemoveCommaBeforeClose(", }") == "}"
  {
    var s := ", }";
    assert SkipWhitespace(s, 2) == 2;
    assert SkipWhitespace(s, 1) == 2;
    assert s[3..] == [];
  }

  /** A doubled comma before a brace keeps one comma: the pass does not rescan its output. */
  lemma DoubleCommaBraceKeepsOne()
    ensures RemoveCommaBeforeClose(",,}") == ",}"
  {
    var s := ",,}";
    assert SkipWhitespace(s, 1) == 1;
    assert s[1..] == ",}";
    assert SkipWhitespace(",}", 1) == 1;
    assert ",}"[2..] == [];
  }

  /** `s` with every `c` removed. */
  function RemoveChar(s: string, c: char): (r: string)
    ensures c !in r
    ensures c !in s ==> r == s
  {
    if s == [] then []
    else (if s[0] == c then [] else [s[0]]) + RemoveChar(s[1..], c)
  }

  /** Exactly the `c`s go: every other character is kept as often as it occurs. */
  lemma {:induction false} RemoveCharCounts(s: string, c: char)
    ensures multiset(RemoveChar(s, c)) == multiset(s)[c := 0]
  {
    if s != [] {
      RemoveCharCounts(s[1..], c);
      assert s == [s[0]] + s[1..];
    }
  }

  /**
   * Removal works piece by piece, so the characters kept stay in their
   * order: with `RemoveCharCounts`, this pins the result down to the
   * subsequence of the characters other than `c`.
   */
  lemma {:induction false} RemoveCharConcat(a: string, b: string, c: char)
    ensures RemoveChar(a + b, c) == RemoveChar(a, c) + RemoveChar(b, c)
  {
    if a == [] {
      assert a + b == b;
    } else {
      var head: string := if a[0] == c then [] else [a[0]];
      calc {
        RemoveChar(a + b, c);
        { assert (a + b)[0] == a[0] && (a + b)[1..] == a[1..] + b; }
        head + RemoveChar(a[1..] + b, c);
        { RemoveCharConcat(a[1..], b, c); }
        head + (RemoveChar(a[1..], c) + RemoveChar(b, c));
        (head + RemoveChar(a[1..], c)) + RemoveChar(b, c);
        RemoveChar(a, c) + RemoveChar(b, c);
      }
    }
  }

  function DropLeadingCommas(s: string): (r: string)
    ensures |r| <= |s|
  {
    if s != [] && s[0] == ',' then DropLeadingCommas(s[1..]) else s
  }

  /** Dropping leading commas leaves a suffix that does not begin with a comma, after nothing but commas. */
  lemma {:induction false} DropLeadingCommasShape(s: string)
    ensures var r := DropLeadingCommas(s);
      && r == s[|s| - |r|..]
      && (r == [] || r[0] != ',')
      && forall k :: 0 <= k < |s| - |r| ==> s[k] == ','
  {
    if s != [] && s[0] == ',' {
      var t := s[1..];
      var r := DropLeadingCommas(t);
      DropLeadingCommasShape(t);
      assert s[|s| - |r|..] == t[|t| - |r|..];
      forall k | 1 <= k < |s| - |r|
        ensures s[k] == ','
      {
        assert s[k] == t[k - 1];
      }
    }
  }

  /** What `DropLeadingCommas` keeps ends as its input does; what it empties was all commas. */
  lemma DropLeadingCommasEnd(s: string)
    ensures var r := DropLeadingCommas(s);
      && (r != [] ==> r[|r| - 1] == s[|s| - 1])
      && (r == [] && s != [] ==> s[|s| - 1] == ',')
  {
    var r := DropLeadingCommas(s);
    DropLeadingCommasShape(s);
    if r != [] {
      assert r[|r| - 1] == s[|s| - |r|..][|r| - 1];
    }
  }

  lemma {:induction false} RemoveCommaOfLeadingCommas(s: string)
    ensures RemoveChar(DropLeadingCommas(s), ',') == RemoveChar(s, ',')
  {
    if s != [] && s[0] == ',' {
      RemoveCommaOfLeadingCommas(s[1..]);
    }
  }

  /** `.replace(/,+/g, ',')`, one run of commas at a time. */
  function CollapseCommas(s: string): (r: string)
    ensures |r| <= |s|
    ensures r == [] <==> s == []
    decreases |s|
  {
    if s == [] then []
    else if s[0] == ',' then
      [','] + CollapseCommas(DropLeadingCommas(s[1..]))
    else
      [s[0]] + CollapseCommas(s[1..])
  }

  /**
   * After the collapse no two commas are adjacent, the text without its
   * commas is unchanged, and the first character is kept.
   */
  lemma {:induction false} CollapseCommasShape(s: string)
    ensures var r := CollapseCommas(s);
      && (forall k :: 0 <= k < |r| - 1 ==> !(r[k] == ',' && r[k + 1] == ','))
      && RemoveChar(r, ',') == RemoveChar(s, ',')
      && (r == []) == (s == []) && (r != [] ==> r[0] == s[0])
    decreases |s|
  {
    if s != [] {
      if s[0] == ',' {
        var rest := DropLeadingCommas(s[1..]);
        DropLeadingCommasShape(s[1..]);
        RemoveCommaOfLeadingCommas(s[1..]);
        CollapseCommasShape(rest);
        RemoveCharConcat([','], CollapseCommas(rest), ',');
      } else {
        CollapseCommasShape(s[1..]);
        RemoveCharConcat([s[0]], CollapseCommas(s[1..]), ',');
        assert s == [s[0]] + s[1..];
        RemoveCharConcat([s[0]], s[1..], ',');
      }
    }
  }

  /** `n` commas in a row. */
  function Commas(n: nat): (r: string)
    ensures |r| == n && forall k :: 0 <= k < n ==> r[k] == ','
  {
    if n == 0 then [] else [','] + Commas(n - 1)
  }

  /** A string without commas passes the collapse unchanged. */
  lemma {:induction false} CollapseCommaFree(w: string)
    requires ',' !in w
    ensures CollapseCommas(w) == w
  {
    if w != [] {
      assert w[0] in w;
      assert forall ch :: ch in w[1..] ==> ch in w;
      CollapseCommaFree(w[1..]);
      assert w == [w[0]] + w[1..];
    }
  }

  /** A non-empty run made only of commas collapses to a single comma. */
  lemma CollapseCommaRun(n: nat)
    requires n > 0
    ensures CollapseCommas(Commas(n)) == ","
  {
    var s := Commas(n);
    var tail := s[1..];
    DropLeadingCommasShape(tail);
    var rest := DropLeadingCommas(tail);
    assert rest == [];
    assert CollapseCommas(s) == [','] + CollapseCommas(rest);
  }

  /**
   * Dropping the leading commas of `x + y` drops those of `x`, and those of
   * `y` only when `x` is all commas.
   */
  lemma {:induction false} DropLeadingCommasConcat(x: string, y: string)
    requires DropLeadingCommas(x) != [] || y == [] || y[0] != ','
    ensures DropLeadingCommas(x + y) == DropLeadingCommas(x) + y
  {
    if x == [] {
      assert x + y == y;
    } else if x[0] == ',' {
      assert (x + y)[1..] == x[1..] + y;
      DropLeadingCommasConcat(x[1..], y);
    } else {
      assert (x + y)[0] == x[0];
    }
  }

  /**
   * The collapse works piece by piece wherever the cut does not split a
   * run of commas.
   */
  lemma {:induction false} CollapseCommasConcat(x: string, y: string)
    requires x == [] || y == [] || x[|x| - 1] != ',' || y[0] != ','
    ensures CollapseCommas(x + y) == CollapseCommas(x) + CollapseCommas(y)
    decreases |x|, 1
  {
    if x == [] {
      assert x + y == y;
    } else if x[0] != ',' {
      var xy := x + y;
      assert xy[0] == x[0] && xy[1..] == x[1..] + y;
      CollapseCommasConcat(x[1..], y);
      calc {
        CollapseCommas(xy);
        [x[0]] + CollapseCommas(x[1..] + y);
        [x[0]] + (CollapseCommas(x[1..]) + CollapseCommas(y));
        ([x[0]] + CollapseCommas(x[1..])) + CollapseCommas(y);
      }
    } else {
      CollapseCommasConcatAtComma(x, y);
    }
  }

  /** `CollapseCommasConcat` when `x` begins a run of commas. */
  lemma {:induction false} CollapseCommasConcatAtComma(x: string, y: string)
    requires x != [] && x[0] == ','
    requires y == [] || x[|x| - 1] != ',' || y[0] != ','
    ensures CollapseCommas(x + y) == CollapseCommas(x) + CollapseCommas(y)
    decreases |x|, 0
  {
    var xy := x + y;
    var tail := x[1..];
    assert xy[0] == ',' && xy[1..] == tail + y;
    var rest := DropLeadingCommas(tail);
    DropLeadingCommasEnd(tail);
    DropLeadingCommasConcat(tail, y);
    CollapseCommasConcat(rest, y);
    var collapsedRest, collapsedY := CollapseCommas(rest), CollapseCommas(y);
    assert CollapseCommas(x) == [','] + collapsedRest;
    assert CollapseCommas(xy) == [','] + (collapsedRest + collapsedY) by {
      assert DropLeadingCommas(xy[1..]) == rest + y;
    }
    assert [','] + (collapsedRest + collapsedY) == ([','] + collapsedRest) + collapsedY;
  }

  /**
   * `.replace(/,+/g, ',')` as the regular expression promises it: a maximal
   * run of commas (a non-comma or an end of the text on either side)
   * becomes exactly one comma, and what stands on either side is collapsed
   * on its own.
   */
  lemma MaximalCommaRunBecomesOne(a: string, n: nat, b: string)
    requires n > 0
    requires a == [] || a[|a| - 1] != ','
    requires b == [] || b[0] != ','
    ensures CollapseCommas(a + Commas(n) + b) == CollapseCommas(a) + "," + CollapseCommas(b)
  {
    var run := Commas(n);
    var runB := run + b;
    assert runB[0] == ',';
    CollapseCommasConcat(a, runB);
    CollapseCommasConcat(run, b);
    CollapseCommaRun(n);
    var ca, cb := CollapseCommas(a), CollapseCommas(b);
    assert CollapseCommas(runB) == "," + cb;
    assert a + run + b == a + runB;
    assert CollapseCommas(a + runB) == ca + ("," + cb);
    assert ca + ("," + cb) == ca + "," + cb;
  }

  /** The whole clean-up of lines 195-205, as one function of the raw reply. */
  function Cleaned(raw: string): (r: string)
    ensures '`' !in r
  {
    RemoveChar(CollapseCommas(RemoveCommaBeforeClose(StripFence(Trim(raw)))), '`')
  }

  lemma {:induction false} SignificantConcat(a: string, b: string)
    ensures Significant(a + b) == Significant(a) + Significant(b)
  {
    if a == [] {
      assert a + b == b;
    } else {
      var ab := a + b;
      assert ab[0] == a[0] && ab[1..] == a[1..] + b;
      SignificantConcat(a[1..], b);
    }
  }

  /** Commas never reach `Significant`, so removing them first changes nothing. */
  lemma {:induction false} SignificantIgnoresCommas(s: string)
    ensures Significant(RemoveChar(s, ',')) == Significant(s)
  {
    if s != [] {
      var head: string := if s[0] == ',' then [] else [s[0]];
      var rest := RemoveChar(s[1..], ',');
      assert RemoveChar(s, ',') == head + rest;
      SignificantConcat(head, rest);
      SignificantIgnoresCommas(s[1..]);
      assert Significant(head) == Significant([s[0]]) by {
        assert [s[0]][1..] == [];
      }
      assert s == [s[0]] + s[1..];
      SignificantConcat([s[0]], s[1..]);
    }
  }

  /** Removing a character and keeping the significant ones can be done in either order. */
  lemma {:induction false} SignificantRemoveChar(s: string, c: char)
    ensures Significant(RemoveChar(s, c)) == RemoveChar(Significant(s), c)
  {
    if s != [] {
      var h := s[0];
      var head: string := if h == c then [] else [h];
      var rest := RemoveChar(s[1..], c);
      assert RemoveChar(s, c) == head + rest;
      SignificantConcat(head, rest);
      SignificantRemoveChar(s[1..], c);
      var sigHead: string := if h == ',' || IsWhitespace(h) then [] else [h];
      assert Significant(s) == sigHead + Significant(s[1..]);
      RemoveCharConcat(sigHead, Significant(s[1..]), c);
      assert Significant(head) == RemoveChar(sigHead, c) by {
        assert [h][1..] == [];
        if h != c {
          assert Significant(head) == sigHead + Significant([]);
        }
      }
    }
  }

  /** The comma repair is the identity on text without commas. */
  lemma {:induction false} CommaRepairCommaFree(s: string)
    requires ',' !in s
    ensures RemoveCommaBeforeClose(s) == s
  {
    if s != [] {
      assert s[0] in s;
      assert forall ch :: ch in s[1..] ==> ch in s;
      CommaRepairCommaFree(s[1..]);
      assert s == [s[0]] + s[1..];
    }
  }

  /**
   * What the clean-up removes: apart from commas and whitespace, the cleaned
   * content is the unfenced, trimmed reply with its backticks deleted; and a
   * reply without commas and backticks comes through exactly as unfenced.
   */
  lemma CleanedKeepsText(raw: string)
    ensures Significant(Cleaned(raw)) == RemoveChar(Significant(StripFence(Trim(raw))), '`')
    ensures var u := StripFence(Trim(raw)); ',' !in u && '`' !in u ==> Cleaned(raw) == u
  {
    var u := StripFence(Trim(raw));
    var repaired := RemoveCommaBeforeClose(u);
    var collapsed := CollapseCommas(repaired);
    CollapseCommasShape(repaired);
    SignificantIgnoresCommas(collapsed);
    SignificantIgnoresCommas(repaired);
    assert Significant(collapsed) == Significant(u);
    SignificantRemoveChar(collapsed, '`');
    if ',' !in u && '`' !in u {
      CommaRepairCommaFree(u);
      CollapseCommaFree(u);
    }
  }

  /**
   * The clean-up as the service performs it, reassigning `content` step by
   * step; afterwards no backtick is left anywhere, inside string values too.
   */
  method CleanUpContent(raw: string) returns (content: string)
    ensures content == Cleaned(raw)
    ensures '`' !in content
  {
    content := Trim(raw);
    if StartsWith(content, JsonFence) {
      content := Trim(DropTrailingFence(content[|JsonFence|..]));
    } else if StartsWith(content, Fence) {
      content := Trim(DropTrailingFence(content[|Fence|..]));
    }
    content := RemoveCommaBeforeClose(content);
    content := CollapseCommas(content);
    content := RemoveChar(content, '`');
  }

  lemma TrimOfCommaTick()
    ensures Trim(",`,x") == ",`,x"
  {
    var s := ",`,x";
    assert !IsWhitespace(s[0]) && !IsWhitespace(s[3]);
    assert TrimStart(s) == s;
    assert TrimEnd(s) == s;
  }

  lemma CommaRepairOfCommaTick()
    ensures RemoveCommaBeforeClose(",`,x") == ",`,x"
  {
    var s := ",`,x";
    assert SkipWhitespace(s, 1) == 1;
    assert s[1..] == "`,x";
    assert "`,x"[1..] == ",x";
    assert SkipWhitespace(",x", 1) == 1;
    assert ",x"[1..] == "x";
    assert RemoveCommaBeforeClose("x") == "x";
  }

  lemma CollapseOfCommaTick()
    ensures CollapseCommas(",`,x") == ",`,x"
  {
    assert "x"[1..] == [];
    assert CollapseCommas("x") == "x" + CollapseCommas([]);
    assert DropLeadingCommas("x") == "x";
    assert ",x"[1..] == "x";
    assert CollapseCommas(",x") == [','] + CollapseCommas("x");
    assert "`,x"[1..] == ",x";
    assert CollapseCommas("`,x") == ['`'] + CollapseCommas(",x");
    assert DropLeadingCommas("`,x") == "`,x";
    assert ",`,x"[1..] == "`,x";
  }

  /** Removing backticks last can join two commas the comma collapse already passed over. */
  lemma RemoveTickOfCommaTick()
    ensures RemoveChar(",`,x", '`') == ",,x"
  {
    assert "x"[1..] == [];
    assert RemoveChar("x", '`') == "x" + RemoveChar([], '`');
    assert ",x"[1..] == "x";
    assert RemoveChar(",x", '`') == [','] + RemoveChar("x", '`');
    assert "`,x"[1..] == ",x";
    assert RemoveChar("`,x", '`') == RemoveChar(",x", '`');
    assert ",`,x"[1..] == "`,x";
    assert RemoveChar(",`,x", '`') == [','] + RemoveChar("`,x", '`');
  }

  lemma StripFenceOfCommaTick()
    ensures StripFence(",`,x") == ",`,x"
  {
    var s := ",`,x";
    assert s[..3] != Fence by {
      assert s[..3][0] != Fence[0];
    }
  }

  lemma CleanedCanKeepDoubleComma()
    ensures Cleaned(",`,x") == ",,x"
  {
    TrimOfCommaTick();
    StripFenceOfCommaTick();
    CommaRepairOfCommaTick();
    CollapseOfCommaTick();
    RemoveTickOfCommaTick();
  }

  // ---------------------------------------------------------------------
  // Validation and analysis
  // ---------------------------------------------------------------------

  /** What the chat-completions request produced: a thrown request, or the first choice's content. */
  datatype ApiReply = RequestFailed | Reply(content: Option<string>)

  /**
   * The lenient check of lines 209-221: an object with non-empty title,
   * author and summary and an array of steps, of any length and shape.  The
   * accepted book keeps every parsed field except the cover, which is
   * recomputed from ISBN and title.
   */
  function Accept(data: Json): (r: Option<Book>)
    ensures r.Some? <==>
      data.Object? && data.title != "" && data.author != "" && data.summary != "" && data.actionableSteps.Some?
    ensures r.Some? ==>
      r.value.title == data.title && r.value.author == data.author && r.value.summary == data.summary
      && r.value.actionableSteps == data.actionableSteps.value
      && r.value.isbn == data.isbn && r.value.publishedYear == data.publishedYear && r.value.genre == data.genre
    ensures r.Some? ==> r.value.coverImageUrl == Some(GenerateCoverImageUrl(data.isbn, Some(data.title)))
    ensures r.Some? ==> r.value.coverImageUrl != Some("")
  {
    match data
    case NotAnObject => None
    case Object(title, author, summary, steps, _, year, genre, isbn) =>
      if title == "" || author == "" || summary == "" || steps.None? then None
      else Some(Book(title, author, summary, steps.value, Some(GenerateCoverImageUrl(isbn, Some(title))), year, genre, isbn))
  }

  /** `getApiKey`: the stored key; a failing read counts as no key. */
  function GetApiKey(store: Store, readFails: bool): (r: Option<string>)
    reads store
    ensures r.Some? <==> !readFails && ApiKeyStorageKey in store.items
    ensures r.Some? ==> r.value == store.items[ApiKeyStorageKey]
  {
    if readFails then None else store.GetItem(ApiKeyStorageKey)
  }

  /**
   * The outcome of `generateBookAnalysis`: a book only when there is a key,
   * the request succeeded with non-empty content, the cleaned content parses
   * and the parsed value is accepted; every failure is `None`.
   */
  function Analysis(apiKey: Option<string>, reply: ApiReply, parse: string -> Option<Json>): (r: Option<Book>)
    ensures r.Some? ==> Present(apiKey) && reply.Reply? && Present(reply.content)
    ensures r.Some? ==> parse(Cleaned(reply.content.value)).Some? && r == Accept(parse(Cleaned(reply.content.value)).value)
    ensures Present(apiKey) && reply.Reply? && Present(reply.content) && parse(Cleaned(reply.content.value)).Some? ==>
      r == Accept(parse(Cleaned(reply.content.value)).value)
  {
    if !Present(apiKey) then None
    else if reply.RequestFailed? || !Present(reply.content) then None
    else
      match parse(Cleaned(reply.content.value))
      case None => None
      case Some(data) => Accept(data)
  }

  /** `generateBookAnalysis`, step by step. */
  method GenerateBookAnalysis(store: Store, keyReadFails: bool, reply: ApiReply, parse: string -> Option<Json>)
    returns (book: Option<Book>)
    ensures book == Analysis(GetApiKey(store, keyReadFails), reply, parse)
  {
    var apiKey := GetApiKey(store, keyReadFails);
    if !Present(apiKey) {
      return None;
    }
    if reply.RequestFailed? || !Present(reply.content) {
      return None;
    }
    var content := CleanUpContent(reply.content.value);
    var data := parse(content);
    if data.None? {
      return None;
    }
    book := Accept(data.value);
  }

  /** A reply of any number of steps is accepted once title, author and summary are set. */
  lemma AnyStepCountAccepted(steps: seq<ActionableStep>, title: string, author: string, summary: string)
    requires title != "" && author != "" && summary != ""
    ensures Accept(Object(title, author, summary, Some(steps), None, None, None, None)).Some?
  {
  }

  // ---------------------------------------------------------------------
  // searchBook
  // ---------------------------------------------------------------------

  const ContentPolicyMessage: string := "Sorry, we cannot process this book title due to our content policy."

  function CouldNotAnalyzeMessage(title: string): string {
    "Sorry, we couldn't find or analyze \"" + title + "\". Please try a different book title or check the spelling."
  }

  /** `title.toLowerCase().trim()`. */
  function Normalize(title: string): (r: string)
    ensures r == [] || (!IsWhitespace(r[0]) && !IsWhitespace(r[|r| - 1]))
    ensures forall k :: 0 <= k < |r| ==> !IsAsciiUpper(r[k])
  {
    var t := Trim(Lower(title));
    LowerPieceHasNoUpper(title, t);
    t
  }

  /** A piece of a lower-cased text holds no upper-case ASCII letter. */
  lemma LowerPieceHasNoUpper(s: string, piece: string)
    requires Contains(Lower(s), piece)
    ensures forall k :: 0 <= k < |piece| ==> !IsAsciiUpper(piece[k])
  {
    var i :| 0 <= i <= |Lower(s)| && OccursAt(Lower(s), piece, i);
    forall k | 0 <= k < |piece| ensures !IsAsciiUpper(piece[k]) {
      assert piece[k] == Lower(s)[i + k];
    }
  }

  /** Surrounding whitespace never changes what a title normalises to. */
  lemma NormalizeIgnoresPadding(before: string, core: string, after: string)
    requires AllWhitespace(before) && AllWhitespace(after)
    requires core != [] && !IsWhitespace(core[0]) && !IsWhitespace(core[|core| - 1])
    ensures Normalize(before + core + after) == Lower(core)
  {
    LowerConcat(before + core, after);
    LowerConcat(before, core);
    LowerWhitespace(before);
    LowerWhitespace(after);
    assert !IsWhitespace(Lower(core)[0]) && !IsWhitespace(Lower(core)[|core| - 1]);
    TrimPadded(before, Lower(core), after);
  }

  /**
   * `searchBook`: the content policy first, then the catalog (exact key,
   * then first partial key), then the AI with the title as typed.  `askedAi`
   * records whether the AI request was made.
   */
  method SearchBook(
    title: string, store: Store, keyReadFails: bool, reply: ApiReply, parse: string -> Option<Json>)
    returns (result: BookSearchResult, askedAi: bool)
    ensures Uniform(result)
    ensures !IsAppropriateTitle(Normalize(title)) ==> result == Failed(ContentPolicyMessage) && !askedAi
    ensures IsAppropriateTitle(Normalize(title)) ==> (askedAi <==> Lookup(FallbackCatalog, Normalize(title)).None?)
    ensures IsAppropriateTitle(Normalize(title)) && Lookup(FallbackCatalog, Normalize(title)).Some?
      ==> result == Found(Lookup(FallbackCatalog, Normalize(title)).value)
    ensures askedAi ==>
      var analysis := Analysis(GetApiKey(store, keyReadFails), reply, parse);
      result == if analysis.Some? then Found(analysis.value) else Failed(CouldNotAnalyzeMessage(title))
  {
    var normalizedTitle := Normalize(title);
    if !IsAppropriateTitle(normalizedTitle) {
      return Failed(ContentPolicyMessage), false;
    }
    var hit := Lookup(FallbackCatalog, normalizedTitle);
    if hit.Some? {
      return Found(hit.value), false;
    }
    var aiGeneratedBook := GenerateBookAnalysis(store, keyReadFails, reply, parse);
    if aiGeneratedBook.Some? {
      return Found(aiGeneratedBook.value), true;
    }
    return Failed(CouldNotAnalyzeMessage(title)), true;
  }

  /** `getTrendingBooks`: the catalog books, in order, reduced to title, author, cover and ISBN. */
  function GetTrendingBooks(): (r: seq<TrendingBook>)
    ensures |r| == |FallbackCatalog|
    ensures forall i :: 0 <= i < |r| ==>
      var b := FallbackCatalog[i].value;
      r[i] == TrendingBook(b.title, b.author, b.coverImageUrl, b.isbn)
  {
    seq(|FallbackCatalog|, i requires 0 <= i < |FallbackCatalog| =>
      var b := FallbackCatalog[i].value;
      TrendingBook(b.title, b.author, b.coverImageUrl, b.isbn))
  }

  /** The catalog keys are distinct, so an exact key always wins. */
  lemma CatalogKeysDistinct()
    ensures DistinctKeys(FallbackCatalog)
  {
  }

  /** Every catalog book has seven steps, Monday to Sunday, each with generated details. */
  lemma CatalogStepsWeek()
    ensures forall i :: 0 <= i < |FallbackCatalog| ==>
      |FallbackCatalog[i].value.actionableSteps| == 7
      && forall k :: 0 <= k < 7 ==> FallbackCatalog[i].value.actionableSteps[k].details.Some?
  {
  }

  /** A blank query resolves to the first catalog book. */
  lemma BlankQueryFindsFirstBook()
    ensures Lookup(FallbackCatalog, Normalize("   ")) == Some(FallbackCatalog[0].value)
  {
    BlankNormalizesToEmpty();
    CatalogKeysNonEmpty();
    EmptyQueryMatchesFirst(FallbackCatalog);
  }

  lemma BlankNormalizesToEmpty()
    ensures Normalize("   ") == ""
  {
    assert Lower("   ") == "   ";
    assert AllWhitespace("   ");
    TrimEmptyIff("   ");
  }

  lemma CatalogKeysNonEmpty()
    ensures |FallbackCatalog| > 0 && forall j :: 0 <= j < |FallbackCatalog| ==> FallbackCatalog[j].key != ""
  {
  }

  /** The built-in books (`fallbackBooks`), keyed by lower-case title, in declaration order. */
  const FallbackCatalog: seq<Entry<Book>> := [
    Entry("atomic habits",
      Book(
        "Atomic Habits",
        "James Clear",
        "Atomic Habits presents a revolutionary approach to habit formation based on the principle that small changes can yield remarkable results when compounded over time. James Clear argues that we often overestimate the importance of one defining moment and underestimate the value of making small improvements on a daily basis. The book introduces the concept that if you get one percent better each day for one year, you will end up thirty-seven times better by the time you are done, demonstrating the mathematical power of marginal gains in personal development.\n\nThe core framework of the book revolves around the Four Laws of Behavior Change: make it obvious, make it attractive, make it easy, and make it satisfying. Clear systematically breaks down how habits work at a neurological level, explaining the habit loop of cue, craving, response, and reward. He demonstrates how environmental design plays a crucial role in habit formation, showing that motivation is often overrated while environment and systems design are underrated factors in creating lasting behavioral change.\n\nThe practical applications extend beyond personal development to professional growth, relationships, and health, with Clear introducing powerful techniques such as habit stacking, the two-minute rule, and environment design strategies. The book provides numerous real-world examples and case studies, from how the British cycling team dominated international competition through marginal gains to how businesses and individuals have transformed their lives through systematic habit design.",
        AddDetailedSteps([
          ActionableStep(Some("Monday"), "Start with habits so small they seem almost ridiculous (2-minute rule)", "Chapter 11: Walk Slowly, but Never Backward", None),
          ActionableStep(Some("Tuesday"), "Stack new habits onto existing ones using habit stacking", "Chapter 5: The Best Way to Start a New Habit", None),
          ActionableStep(Some("Wednesday"), "Design your environment to make good habits obvious and bad habits invisible", "Chapter 6: Motivation Is Overrated; Environment Often Matters More", None),
          ActionableStep(Some("Thursday"), "Track your habits daily using a simple habit tracker", "Chapter 16: How to Stick with Good Habits Every Day", None),
          ActionableStep(Some("Friday"), "Focus on identity-based habits: \"I am the type of person who...\"", "Chapter 2: How Your Habits Shape Your Identity", None),
          ActionableStep(Some("Saturday"), "Use the two-day rule: never miss twice in a row", "Chapter 15: The Cardinal Rule of Behavior Change", None),
          ActionableStep(Some("Sunday"), "Celebrate small wins immediately after completing a habit", "Chapter 15: The Cardinal Rule of Behavior Change", None)
        ]),
        Some("https://covers.openlibrary.org/b/isbn/9780735211292-L.jpg"),
        Some(2018),
        Some("Self-Help"),
        Some("9780735211292"))),
    Entry("think and grow rich",
      Book(
        "Think and Grow Rich",
        "Napoleon Hill",
        "Think and Grow Rich emerged from Napoleon Hill\'s twenty-year study of over 500 successful individuals, including Andrew Carnegie, Henry Ford, and Thomas Edison. The book presents thirteen fundamental principles for achieving wealth and success, based on Hill\'s analysis of what separates those who accumulate wealth from those who struggle financially.\n\nThe book introduces revolutionary concepts such as the \"Master Mind\" principle, which Hill defines as the coordination of knowledge and effort between two or more people working toward a definite purpose. He demonstrates how the most successful individuals surrounded themselves with advisors, mentors, and like-minded individuals who could provide specialized knowledge and support.\n\nThe lasting impact of Think and Grow Rich lies in its emphasis on personal responsibility and mental conditioning, with Hill arguing that circumstances do not make the person but rather reveal their character and mental attitude. The book provides a complete philosophy of personal achievement that extends beyond financial success to encompass happiness, health, and fulfillment.",
        AddDetailedSteps([
          ActionableStep(Some("Monday"), "Define your definite major purpose with specific financial goals", "Chapter 2: Desire", None),
          ActionableStep(Some("Tuesday"), "Develop burning desire by writing down exactly what you want", "Chapter 2: Desire", None),
          ActionableStep(Some("Wednesday"), "Build unwavering faith through auto-suggestion and visualization", "Chapter 3: Faith", None),
          ActionableStep(Some("Thursday"), "Acquire specialized knowledge in your chosen field", "Chapter 5: Specialized Knowledge", None),
          ActionableStep(Some("Friday"), "Use your imagination to create detailed plans for achieving your goals", "Chapter 6: Imagination", None),
          ActionableStep(Some("Saturday"), "Make quick, firm decisions and stick to them", "Chapter 8: Decision", None),
          ActionableStep(Some("Sunday"), "Develop persistence by never giving up on your major purpose", "Chapter 9: Persistence", None)
        ]),
        Some("https://covers.openlibrary.org/b/isbn/9781585424337-L.jpg"),
        Some(1937),
        Some("Personal Finance"),
        Some("9781585424337"))),
    Entry("the 7 habits of highly effective people",
      Book(
        "The 7 Habits of Highly Effective People",
        "Stephen R. Covey",
        "The 7 Habits of Highly Effective People presents a principle-centered approach to personal and professional effectiveness that has transformed millions of lives. Stephen Covey introduces a paradigm shift from the \"Personality Ethic\" that focuses on quick-fix techniques and manipulation tactics to the \"Character Ethic\" that emphasizes fundamental principles and character development.\n\nThe first three habits focus on achieving private victory and personal mastery: Be Proactive (taking responsibility for your choices), Begin with the End in Mind (defining your values and life mission), and Put First Things First (managing yourself according to your priorities). The next three habits address public victory and effective interpersonal relationships.\n\nWhat makes this book enduringly powerful is its emphasis on inside-out change, starting with self-mastery before attempting to influence others, demonstrating that quick fixes are superficial unless based on solid character and correct principles.",
        AddDetailedSteps([
          ActionableStep(Some("Monday"), "Be proactive: Focus on what you can control and take responsibility", "Habit 1: Be Proactive", None),
          ActionableStep(Some("Tuesday"), "Begin with the end in mind: Define your personal mission statement", "Habit 2: Begin with the End in Mind", None),
          ActionableStep(Some("Wednesday"), "Put first things first: Prioritize important over urgent tasks", "Habit 3: Put First Things First", None),
          ActionableStep(Some("Thursday"), "Think win-win: Seek mutual benefit in all interactions", "Habit 4: Think Win-Win", None),
          ActionableStep(Some("Friday"), "Seek first to understand, then to be understood: Practice empathetic listening", "Habit 5: Seek First to Understand, Then to Be Understood", None),
          ActionableStep(Some("Saturday"), "Synergize: Value differences and work collaboratively", "Habit 6: Synergize", None),
          ActionableStep(Some("Sunday"), "Sharpen the saw: Continuously improve in all four dimensions of life", "Habit 7: Sharpen the Saw", None)
        ]),
        Some("https://covers.openlibrary.org/b/isbn/9781982137274-L.jpg"),
        Some(1989),
        Some("Self-Help"),
        Some("9781982137274")))
  ]
}

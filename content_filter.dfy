/** The title denylist (src/utils/contentFilter.ts). */
module ContentFilter {
  import opened Text

  const InappropriateWords: seq<string> := ["f*ck", "fuck", "shit", "damn", "ass", "bitch", "crap"]

  /** Some word of `words` occurs in `s`. */
  predicate SomeWordIn(s: string, words: seq<string>) {
    exists k :: 0 <= k < |words| && Contains(s, words[k])
  }

  function AnyContained(s: string, words: seq<string>): (found: bool)
    ensures found <==> SomeWordIn(s, words)
  {
    if words == [] then false
    else if Contains(s, words[0]) then true
    else
      var found := AnyContained(s, words[1..]);
      assert SomeWordIn(s, words) <==> Contains(s, words[0]) || SomeWordIn(s, words[1..]) by {
        if SomeWordIn(s, words) && !Contains(s, words[0]) {
          var k :| 0 <= k < |words| && Contains(s, words[k]);
          assert words[1..][k - 1] == words[k];
        }
      }
      found
  }

  /** `isAppropriateTitle`: no denylisted word occurs in the lower-cased title, with no word boundaries. */
  function IsAppropriateTitle(title: string): (ok: bool)
    ensures ok <==> forall k :: 0 <= k < |InappropriateWords| ==> !Contains(Lower(title), InappropriateWords[k])
  {
    !AnyContained(Lower(title), InappropriateWords)
  }

  /** A title and its lower-cased form get the same verdict. */
  lemma CaseInsensitive(title: string)
    ensures IsAppropriateTitle(Lower(title)) == IsAppropriateTitle(title)
  {
    LowerIdempotent(title);
  }

  /** Any text containing a rejected title is rejected too. */
  lemma RejectionIsMonotone(s: string, t: string)
    requires Contains(s, t) && !IsAppropriateTitle(t)
    ensures !IsAppropriateTitle(s)
  {
    var k :| 0 <= k < |InappropriateWords| && Contains(Lower(t), InappropriateWords[k]);
    ContainsLower(s, t);
    ContainsTransitive(Lower(s), Lower(t), InappropriateWords[k]);
  }

  /** "The Compass" is rejected: it contains "ass". */
  lemma CompassRejected()
    ensures !IsAppropriateTitle("The Compass")
  {
    assert Lower("The Compass") == "the compass";
    assert OccursAt("the compass", "ass", 8);
  }

  /** The empty title is appropriate. */
  lemma EmptyTitleAppropriate()
    ensures IsAppropriateTitle("")
  {
    assert Lower("") == "";
    forall k | 0 <= k < |InappropriateWords| ensures !Contains("", InappropriateWords[k]) {
      assert |InappropriateWords[k]| > 0;
    }
  }
}

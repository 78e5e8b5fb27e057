/**
 * The JavaScript string built-ins the application relies on, over `string`
 * (a sequence of Unicode scalar values): `trim`, `toLowerCase` (ASCII letters
 * only), `includes`, `startsWith`, `split`/`join` on a literal separator,
 * `Number.prototype.toString`, `parseInt(s, 10)`, `padStart` and
 * `encodeURIComponent`.
 */
module Text {
  import opened Wrappers

  // ---------------------------------------------------------------------
  // Whitespace and trim
  // ---------------------------------------------------------------------

  /** ECMAScript WhiteSpace and LineTerminator code points (used by `trim` and `\s`). */
  predicate IsWhitespace(c: char) {
    c == ' ' || c == '\t' || c == '\n' || c == '\r' || c == '\U{B}' || c == '\U{C}'
    || c == '\U{A0}' || c == '\U{1680}' || ('\U{2000}' <= c <= '\U{200A}')
    || c == '\U{2028}' || c == '\U{2029}' || c == '\U{202F}' || c == '\U{205F}'
    || c == '\U{3000}' || c == '\U{FEFF}'
  }

  predicate AllWhitespace(s: string) {
    forall k :: 0 <= k < |s| ==> IsWhitespace(s[k])
  }

  /** Drops leading whitespace; the result is a suffix of `s`. */
  function TrimStart(s: string): (r: string)
    ensures |r| <= |s| && r == s[|s| - |r|..]
    ensures r == [] || !IsWhitespace(r[0])
    ensures AllWhitespace(s[..|s| - |r|])
  {
    if s != [] && IsWhitespace(s[0]) then
      var r := TrimStart(s[1..]);
      assert s[1..][..|s[1..]| - |r|] == s[1..|s| - |r|];
      r
    else s
  }

  /** Drops trailing whitespace; the result is a prefix of `s`. */
  function TrimEnd(s: string): (r: string)
    ensures |r| <= |s| && r == s[..|r|]
    ensures r == [] || !IsWhitespace(r[|r| - 1])
    ensures AllWhitespace(s[|r|..])
  {
    if s != [] && IsWhitespace(s[|s| - 1]) then
      var r := TrimEnd(s[..|s| - 1]);
      assert s[..|s| - 1][|r|..] + [s[|s| - 1]] == s[|r|..];
      r
    else s
  }

  /** `String.prototype.trim`. */
  function Trim(s: string): (r: string)
    ensures r == [] || (!IsWhitespace(r[0]) && !IsWhitespace(r[|r| - 1]))
    ensures Contains(s, r)
  {
    var t := TrimStart(s);
    var r := TrimEnd(t);
    assert OccursAt(s, r, |s| - |t|) by {
      assert s[|s| - |t|..|s| - |t| + |r|] == r;
    }
    r
  }

  lemma TrimIdempotent(s: string)
    ensures Trim(Trim(s)) == Trim(s)
  {
  }

  /** A string trims to the empty string exactly when it is all whitespace. */
  lemma TrimEmptyIff(s: string)
    ensures Trim(s) == [] <==> AllWhitespace(s)
  {
  }

  lemma {:induction false} TrimStartWhitespacePrefix(w: string, j: string)
    requires AllWhitespace(w)
    requires j == [] || !IsWhitespace(j[0])
    ensures TrimStart(w + j) == j
    decreases |w|
  {
    if w != [] {
      assert (w + j)[1..] == w[1..] + j;
      TrimStartWhitespacePrefix(w[1..], j);
    } else {
      assert w + j == j;
    }
  }

  lemma {:induction false} TrimEndWhitespaceSuffix(j: string, w: string)
    requires AllWhitespace(w)
    requires j == [] || !IsWhitespace(j[|j| - 1])
    ensures TrimEnd(j + w) == j
    decreases |w|
  {
    if w != [] {
      assert (j + w)[..|j + w| - 1] == j + w[..|w| - 1];
      TrimEndWhitespaceSuffix(j, w[..|w| - 1]);
    } else {
      assert j + w == j;
    }
  }

  /** Whitespace around a text with non-blank ends is exactly what `trim` removes. */
  lemma TrimPadded(before: string, core: string, after: string)
    requires AllWhitespace(before) && AllWhitespace(after)
    requires core != [] && !IsWhitespace(core[0]) && !IsWhitespace(core[|core| - 1])
    ensures Trim(before + core + after) == core
  {
    assert before + core + after == before + (core + after);
    TrimStartWhitespacePrefix(before, core + after);
    TrimEndWhitespaceSuffix(core, after);
  }

  // ---------------------------------------------------------------------
  // Case mapping (ASCII)
  // ---------------------------------------------------------------------

  predicate IsAsciiUpper(c: char) { 'A' <= c <= 'Z' }
  predicate IsAsciiLower(c: char) { 'a' <= c <= 'z' }
  predicate IsDigit(c: char) { '0' <= c <= '9' }
  predicate IsAsciiAlnum(c: char) { IsAsciiUpper(c) || IsAsciiLower(c) || IsDigit(c) }

  function LowerChar(c: char): (r: char)
    ensures !IsAsciiUpper(r)
    ensures IsAsciiUpper(c) || r == c
  {
    if IsAsciiUpper(c) then (c as int - 'A' as int + 'a' as int) as char else c
  }

  /** `String.prototype.toLowerCase`, restricted to the ASCII letters. */
  function Lower(s: string): (r: string)
    ensures |r| == |s|
    ensures forall k :: 0 <= k < |s| ==> r[k] == LowerChar(s[k])
  {
    seq(|s|, k requires 0 <= k < |s| => LowerChar(s[k]))
  }

  lemma LowerIdempotent(s: string)
    ensures Lower(Lower(s)) == Lower(s)
  {
  }

  lemma LowerConcat(a: string, b: string)
    ensures Lower(a + b) == Lower(a) + Lower(b)
  {
  }

  /** Lower-casing leaves whitespace alone. */
  lemma LowerWhitespace(w: string)
    requires AllWhitespace(w)
    ensures Lower(w) == w
  {
  }

  lemma LowerSlice(s: string, i: nat, j: nat)
    requires i <= j <= |s|
    ensures Lower(s)[i..j] == Lower(s[i..j])
  {
  }

  // ---------------------------------------------------------------------
  // includes / startsWith / endsWith
  // ---------------------------------------------------------------------

  /** `s.includes(m)`: `m` occurs in `s` as a contiguous block. */
  predicate Contains(s: string, m: string) {
    exists i :: 0 <= i <= |s| && OccursAt(s, m, i)
  }

  /** `m` occurs in `s` starting at index `i`. */
  predicate OccursAt(s: string, m: string, i: int) {
    0 <= i && i + |m| <= |s| && s[i..i + |m|] == m
  }

  predicate StartsWith(s: string, p: string) {
    |p| <= |s| && s[..|p|] == p
  }

  predicate EndsWith(s: string, p: string) {
    |p| <= |s| && s[|s| - |p|..] == p
  }

  lemma ContainsEmpty(s: string)
    ensures Contains(s, "")
  {
    assert OccursAt(s, "", 0);
  }

  lemma ContainsSelf(s: string)
    ensures Contains(s, s)
  {
    assert OccursAt(s, s, 0);
  }

  lemma ContainsAt(s: string, m: string, i: nat)
    requires OccursAt(s, m, i)
    ensures Contains(s, m)
  {
  }

  /** Containment is transitive. */
  lemma ContainsTransitive(a: string, b: string, c: string)
    requires Contains(a, b) && Contains(b, c)
    ensures Contains(a, c)
  {
    var i :| 0 <= i <= |a| && OccursAt(a, b, i);
    var j :| 0 <= j <= |b| && OccursAt(b, c, j);
    forall k | 0 <= k < |c| ensures a[i + j + k] == c[k] {
      assert a[i + j + k] == a[i..i + |b|][j + k];
      assert b[j + k] == b[j..j + |c|][k];
    }
    assert a[i + j..i + j + |c|] == c;
    assert OccursAt(a, c, i + j);
  }

  /** Lower-casing preserves containment. */
  lemma ContainsLower(s: string, m: string)
    requires Contains(s, m)
    ensures Contains(Lower(s), Lower(m))
  {
    var i :| 0 <= i <= |s| && OccursAt(s, m, i);
    LowerSlice(s, i, i + |m|);
    assert OccursAt(Lower(s), Lower(m), i);
  }

  /** A string with no ASCII capital is unchanged by `Lower`. */
  lemma LowerOfLower(s: string)
    requires forall k :: 0 <= k < |s| ==> !IsAsciiUpper(s[k])
    ensures Lower(s) == s
  {
  }

  /** A block that occurs in `a` also occurs in `x + a + y`. */
  lemma ContainsInfix(x: string, a: string, y: string, m: string)
    requires Contains(a, m)
    ensures Contains(x + a + y, m)
  {
    var i :| 0 <= i <= |a| && OccursAt(a, m, i);
    assert (x + a + y)[|x| + i..|x| + i + |m|] == a[i..i + |m|];
    assert OccursAt(x + a + y, m, |x| + i);
  }

  lemma ContainsChar(s: string, m: string, k: nat)
    requires Contains(s, m) && k < |m|
    ensures m[k] in s
  {
    var i :| 0 <= i <= |s| && OccursAt(s, m, i);
    assert s[i + k] == s[i..i + |m|][k];
  }

  // ---------------------------------------------------------------------
  // split / join on a literal separator
  // ---------------------------------------------------------------------

  /** Index of the first occurrence of `sep` in `s` at or after `from`. */
  function IndexOfFrom(s: string, sep: string, from: nat): (r: Option<nat>)
    requires |sep| > 0
    ensures r.Some? ==> from <= r.value && r.value + |sep| <= |s|
    decreases |s| - from
  {
    if from + |sep| > |s| then None
    else if s[from..from + |sep|] == sep then Some(from)
    else IndexOfFrom(s, sep, from + 1)
  }

  /** `IndexOfFrom` reports the first occurrence at or after `from`, and `None` only when there is none. */
  lemma {:induction false} IndexOfFromIsFirst(s: string, sep: string, from: nat)
    requires |sep| > 0
    ensures var r := IndexOfFrom(s, sep, from);
      && (r.Some? ==> OccursAt(s, sep, r.value))
      && (r.Some? ==> forall k :: from <= k < r.value ==> !OccursAt(s, sep, k))
      && (r.None? ==> forall k :: from <= k ==> !OccursAt(s, sep, k))
    decreases |s| - from
  {
    if from + |sep| <= |s| && s[from..from + |sep|] != sep {
      IndexOfFromIsFirst(s, sep, from + 1);
    }
  }

  /** `s.split(sep)` for a non-empty literal separator. */
  function Split(s: string, sep: string): (parts: seq<string>)
    requires |sep| > 0
    ensures |parts| >= 1
    ensures forall k :: 0 <= k < |parts| ==> !Contains(parts[k], sep)
    decreases |s|
  {
    IndexOfFromIsFirst(s, sep, 0);
    match IndexOfFrom(s, sep, 0)
    case None => [s]
    case Some(i) =>
      var head := s[..i];
      assert !Contains(head, sep) by {
        forall k | OccursAt(head, sep, k) ensures false {
          assert head[k..k + |sep|] == s[k..k + |sep|];
          assert OccursAt(s, sep, k);
        }
      }
      [head] + Split(s[i + |sep|..], sep)
  }

  /** `parts.join(sep)`. */
  function Join(parts: seq<string>, sep: string): string {
    if |parts| == 0 then ""
    else if |parts| == 1 then parts[0]
    else parts[0] + sep + Join(parts[1..], sep)
  }

  /** Splitting and joining again gives back the original string. */
  lemma {:induction false} SplitJoin(s: string, sep: string)
    requires |sep| > 0
    ensures Join(Split(s, sep), sep) == s
    decreases |s|
  {
    var found := IndexOfFrom(s, sep, 0);
    IndexOfFromIsFirst(s, sep, 0);
    if found.Some? {
      var i := found.value;
      var rest := s[i + |sep|..];
      var tail := Split(rest, sep);
      SplitJoin(rest, sep);
      var parts := [s[..i]] + tail;
      assert Split(s, sep) == parts;
      assert parts[1..] == tail;
      assert Join(parts, sep) == s[..i] + sep + Join(tail, sep);
      assert s[..i] + sep + rest == s;
    }
  }

  /** Where part k of a split starts in the original string. */
  function PartStart(parts: seq<string>, sepLength: nat, k: nat): nat
    requires k <= |parts|
  {
    if k == 0 then 0 else PartStart(parts, sepLength, k - 1) + |parts[k - 1]| + sepLength
  }

  /**
   * `part` sits at `start` in `s`, and the search for `sep` from `start`
   * finds its first occurrence right after the part, or none at all when
   * the part is the last one.
   */
  predicate PartAt(s: string, sep: string, part: string, start: nat, last: bool)
    requires |sep| > 0
  {
    && start + |part| <= |s| && (forall j :: 0 <= j < |part| ==> s[start + j] == part[j])
    && IndexOfFrom(s, sep, start) == if last then None else Some(start + |part|)
  }

  lemma {:induction false} PartStartCons(parts: seq<string>, sepLength: nat, k: nat)
    requires 0 < k <= |parts|
    ensures PartStart(parts, sepLength, k) == |parts[0]| + sepLength + PartStart(parts[1..], sepLength, k - 1)
  {
    if k > 1 {
      PartStartCons(parts, sepLength, k - 1);
      assert parts[1..][k - 2] == parts[k - 1];
    }
  }

  /** A position found in a suffix, as a position in the whole string. */
  function ShiftBy(found: Option<nat>, off: nat): Option<nat> {
    match found
    case None => None
    case Some(i) => Some(off + i)
  }

  /** Searching a suffix of `s` is searching `s` from the shifted place. */
  lemma {:induction false} IndexOfFromShift(s: string, sep: string, off: nat, from: nat)
    requires |sep| > 0 && off <= |s|
    ensures IndexOfFrom(s, sep, off + from) == ShiftBy(IndexOfFrom(s[off..], sep, from), off)
    decreases |s| - off - from
  {
    var t := s[off..];
    var here := IndexOfFrom(s, sep, off + from);
    var there := IndexOfFrom(t, sep, from);
    if off + from + |sep| <= |s| {
      var window := s[off + from..off + from + |sep|];
      assert window == t[from..from + |sep|];
      if window == sep {
        assert here == Some(off + from) && there == Some(from);
      } else {
        IndexOfFromShift(s, sep, off, from + 1);
        assert here == IndexOfFrom(s, sep, off + (from + 1));
        assert there == IndexOfFrom(t, sep, from + 1);
      }
    } else {
      assert here == None && there == None;
    }
  }

  /** A part found in a suffix of `s` sits at the shifted place in `s`. */
  lemma PartAtShift(s: string, sep: string, part: string, start: nat, last: bool, off: nat)
    requires |sep| > 0 && off <= |s| && PartAt(s[off..], sep, part, start, last)
    ensures PartAt(s, sep, part, off + start, last)
  {
    IndexOfFromShift(s, sep, off, start);
  }

  /**
   * `split` cuts at the leftmost occurrences: each part runs from where the
   * previous separator ended up to the next occurrence of `sep`, and the
   * last part holds no occurrence at all.
   */
  lemma SplitLeftmost(s: string, sep: string)
    requires |sep| > 0
    ensures forall k :: 0 <= k < |Split(s, sep)| ==>
      PartAt(s, sep, Split(s, sep)[k], PartStart(Split(s, sep), |sep|, k), k == |Split(s, sep)| - 1)
  {
    forall k | 0 <= k < |Split(s, sep)|
      ensures PartAt(s, sep, Split(s, sep)[k], PartStart(Split(s, sep), |sep|, k), k == |Split(s, sep)| - 1)
    {
      SplitPartAt(s, sep, Split(s, sep), k);
    }
  }

  lemma WholePartAt(s: string, sep: string)
    requires |sep| > 0 && IndexOfFrom(s, sep, 0).None?
    ensures PartAt(s, sep, s, 0, true)
  {
    IndexOfFromIsFirst(s, sep, 0);
  }

  lemma FirstPartAt(s: string, sep: string, i: nat)
    requires |sep| > 0 && IndexOfFrom(s, sep, 0) == Some(i)
    ensures PartAt(s, sep, s[..i], 0, false)
  {
  }

  lemma {:induction false} SplitPartAt(s: string, sep: string, parts: seq<string>, k: nat)
    requires |sep| > 0 && parts == Split(s, sep) && k < |parts|
    ensures PartAt(s, sep, parts[k], PartStart(parts, |sep|, k), k == |parts| - 1)
    decreases |s|
  {
    var found := IndexOfFrom(s, sep, 0);
    if found.None? {
      assert parts == [s] && k == 0;
      WholePartAt(s, sep);
      assert PartAt(s, sep, parts[k], 0, true);
    } else {
      var i := found.value;
      var off := i + |sep|;
      var rest := s[off..];
      var tail := Split(rest, sep);
      assert parts == [s[..i]] + tail;
      if k == 0 {
        FirstPartAt(s, sep, i);
        assert PartAt(s, sep, parts[k], 0, false);
      } else {
        SplitPartAt(rest, sep, tail, k - 1);
        LaterPartAt(s, sep, parts, off, tail, k);
      }
    }
  }

  /** Part k of a split is part k - 1 of the split of what follows the first separator, shifted. */
  lemma LaterPartAt(s: string, sep: string, parts: seq<string>, off: nat, tail: seq<string>, k: nat)
    requires |sep| > 0 && off <= |s| && 0 < k < |parts| && |parts| >= 1
    requires parts[1..] == tail && off == |parts[0]| + |sep|
    requires PartAt(s[off..], sep, tail[k - 1], PartStart(tail, |sep|, k - 1), k - 1 == |tail| - 1)
    ensures PartAt(s, sep, parts[k], PartStart(parts, |sep|, k), k == |parts| - 1)
  {
    var start := PartStart(tail, |sep|, k - 1);
    var last := k - 1 == |tail| - 1;
    PartStartCons(parts, |sep|, k);
    assert PartStart(parts, |sep|, k) == off + start;
    assert parts[k] == tail[k - 1] && (k == |parts| - 1) == last;
    PartAtShift(s, sep, tail[k - 1], start, last, off);
  }

  /** The first occurrence of `sep` is the one `IndexOfFrom` reports. */
  lemma IndexOfFirstOccurrence(s: string, sep: string, i: nat)
    requires |sep| > 0 && OccursAt(s, sep, i)
    requires forall k :: 0 <= k < i ==> !OccursAt(s, sep, k)
    ensures IndexOfFrom(s, sep, 0) == Some(i)
  {
    IndexOfFromIsFirst(s, sep, 0);
  }

  /** A text without the separator character splits into itself alone. */
  lemma SplitWithout(a: string, c: char)
    requires c !in a
    ensures Split(a, [c]) == [a]
  {
    forall k | 0 <= k ensures !OccursAt(a, [c], k) {
      assert k + 1 > |a| || a[k..k + 1] == [a[k]];
    }
    IndexOfFromIsFirst(a, [c], 0);
  }

  /** Splitting `a + c + b` on `c`, when `a` has no `c`, peels off `a`. */
  lemma SplitAtFirst(a: string, c: char, b: string)
    requires c !in a
    ensures Split(a + [c] + b, [c]) == [a] + Split(b, [c])
  {
    var s := a + [c] + b;
    assert s[|a|..|a| + 1] == [c];
    forall k | 0 <= k < |a| ensures !OccursAt(s, [c], k) {
      assert s[k..k + 1] == [a[k]];
    }
    IndexOfFirstOccurrence(s, [c], |a|);
    assert s[..|a|] == a;
    assert s[|a| + 1..] == b;
  }

  /** Joining pieces free of the separator character and splitting again gives the pieces back. */
  lemma {:induction false} JoinSplit(parts: seq<string>, c: char)
    requires |parts| >= 1
    requires forall k :: 0 <= k < |parts| ==> c !in parts[k]
    ensures Split(Join(parts, [c]), [c]) == parts
  {
    if |parts| == 1 {
      SplitWithout(parts[0], c);
    } else {
      JoinSplit(parts[1..], c);
      SplitAtFirst(parts[0], c, Join(parts[1..], [c]));
    }
  }

  // ---------------------------------------------------------------------
  // Numbers as decimal text
  // ---------------------------------------------------------------------

  function DigitChar(d: nat): (c: char)
    requires d < 10
    ensures IsDigit(c)
  {
    ('0' as int + d) as char
  }

  function DigitValue(c: char): (d: nat)
    requires IsDigit(c)
    ensures d < 10 && DigitChar(d) == c
  {
    c as int - '0' as int
  }

  lemma DigitValueOfDigitChar(d: nat)
    requires d < 10
    ensures DigitValue(DigitChar(d)) == d
  {
  }

  /** `parseInt` of a non-empty run of digits is the value of those digits. */
  lemma ParseDigits(s: string)
    requires |s| > 0 && forall k :: 0 <= k < |s| ==> IsDigit(s[k])
    ensures ParseInt(s) == Some(DigitsValue(s))
  {
    assert !IsWhitespace(s[0]);
    assert TrimStart(s) == s;
    assert s[0] != '-' && s[0] != '+';
    LeadingDigitsOfDigits(s);
  }

  /** `Number.prototype.toString()` of a non-negative integer. */
  function NatToString(n: nat): (r: string)
    ensures |r| >= 1
    ensures forall k :: 0 <= k < |r| ==> IsDigit(r[k])
    ensures n < 10 <==> |r| == 1
  {
    if n < 10 then [DigitChar(n)] else NatToString(n / 10) + [DigitChar(n % 10)]
  }

  /** `Number.prototype.toString()` of an integer (a leading `-` when negative). */
  function IntToString(i: int): (r: string)
    ensures |r| >= 1 && (r[0] == '-' <==> i < 0)
  {
    if i < 0 then "-" + NatToString(-i) else NatToString(i)
  }

  /** Four-digit numbers print as four characters. */
  lemma NatToStringFourDigits(n: nat)
    requires 1000 <= n <= 9999
    ensures |NatToString(n)| == 4
  {
    var a := n / 10;
    var b := a / 10;
    var c := b / 10;
    assert 1 <= c < 10;
    assert |NatToString(b)| == 2;
    assert |NatToString(a)| == 3;
  }

  /** Value of a string of decimal digits, most significant first. */
  function DigitsValue(ds: string): nat
    requires forall k :: 0 <= k < |ds| ==> IsDigit(ds[k])
  {
    if ds == [] then 0 else DigitsValue(ds[..|ds| - 1]) * 10 + DigitValue(ds[|ds| - 1])
  }

  /** The longest prefix of decimal digits. */
  function LeadingDigits(s: string): (ds: string)
    ensures |ds| <= |s| && ds == s[..|ds|]
    ensures forall k :: 0 <= k < |ds| ==> IsDigit(ds[k])
    ensures |ds| < |s| ==> !IsDigit(s[|ds|])
  {
    if s != [] && IsDigit(s[0]) then [s[0]] + LeadingDigits(s[1..]) else []
  }

  /** `parseInt(s, 10)`: `None` stands for `NaN`. */
  function ParseInt(s: string): (r: Option<int>)
    ensures TrimStart(s) == [] ==> r.None?
    ensures r.Some? && r.value < 0 ==> TrimStart(s)[0] == '-'
  {
    var t := TrimStart(s);
    var negative := t != [] && t[0] == '-';
    var body := if t != [] && (t[0] == '-' || t[0] == '+') then t[1..] else t;
    var ds := LeadingDigits(body);
    var v: int := if ds == [] then 0 else DigitsValue(ds);
    if ds == [] then None
    else if negative then Some(-v)
    else Some(v)
  }

  lemma {:induction false} DigitsValueOfNatToString(n: nat)
    ensures DigitsValue(NatToString(n)) == n
  {
    if n >= 10 {
      DigitsValueOfNatToString(n / 10);
      var r := NatToString(n);
      assert r[..|r| - 1] == NatToString(n / 10);
    }
  }

  lemma {:induction false} LeadingDigitsOfDigits(s: string)
    requires forall k :: 0 <= k < |s| ==> IsDigit(s[k])
    ensures LeadingDigits(s) == s
  {
    if s != [] {
      LeadingDigitsOfDigits(s[1..]);
    }
  }

  /** A `-` followed by digits parses to the negated digit value. */
  lemma ParseNegativeDigits(digits: string)
    requires |digits| > 0 && forall k :: 0 <= k < |digits| ==> IsDigit(digits[k])
    ensures ParseInt("-" + digits) == Some(0 - DigitsValue(digits) as int)
  {
    var r := "-" + digits;
    LeadingDigitsOfDigits(digits);
    assert !IsWhitespace(r[0]);
    assert TrimStart(r) == r;
    assert r[1..] == digits;
  }

  /** `parseInt(String(n), 10) == n` for every integer. */
  lemma ParseIntOfIntToString(n: int)
    ensures ParseInt(IntToString(n)) == Some(n)
  {
    var m: nat := if n < 0 then -n else n;
    DigitsValueOfNatToString(m);
    if n < 0 {
      ParseNegativeDigits(NatToString(m));
    } else {
      ParseDigits(NatToString(m));
    }
  }

  /** `s.padStart(width, fill)` for a one-character fill. */
  function PadStart(s: string, width: nat, fill: char): (r: string)
    ensures |s| >= width ==> r == s
    ensures |s| < width ==> |r| == width && r[width - |s|..] == s
    ensures |s| < width ==> forall k :: 0 <= k < width - |s| ==> r[k] == fill
  {
    if |s| >= width then s else seq(width - |s|, _ => fill) + s
  }

  // ---------------------------------------------------------------------
  // encodeURIComponent
  // ---------------------------------------------------------------------

  /** Characters `encodeURIComponent` leaves as they are. */
  predicate IsUnreserved(c: char) {
    IsAsciiAlnum(c) || c == '-' || c == '_' || c == '.' || c == '!' || c == '~'
    || c == '*' || c == '\'' || c == '(' || c == ')'
  }

  function HexDigit(d: nat): (c: char)
    requires d < 16
    ensures IsAsciiAlnum(c)
  {
    if d < 10 then DigitChar(d) else ('A' as int + d - 10) as char
  }

  /** The UTF-8 encoding of a Unicode scalar value. */
  function Utf8Bytes(cp: nat): (bytes: seq<nat>)
    requires cp < 0x11_0000
    ensures 1 <= |bytes| <= 4
    ensures forall k :: 0 <= k < |bytes| ==> bytes[k] < 256
  {
    if cp < 0x80 then [cp]
    else if cp < 0x800 then [0xC0 + cp / 64, 0x80 + cp % 64]
    else if cp < 0x1_0000 then [0xE0 + cp / 4096, 0x80 + (cp / 64) % 64, 0x80 + cp % 64]
    else [0xF0 + cp / 262144, 0x80 + (cp / 4096) % 64, 0x80 + (cp / 64) % 64, 0x80 + cp % 64]
  }

  /** `%XX` for every byte, upper-case hexadecimal. */
  function PercentBytes(bytes: seq<nat>): (r: string)
    requires forall k :: 0 <= k < |bytes| ==> bytes[k] < 256
    ensures |r| == 3 * |bytes|
    ensures forall k :: 0 <= k < |r| ==> IsUnreserved(r[k]) || r[k] == '%'
  {
    if bytes == [] then ""
    else ['%', HexDigit(bytes[0] / 16), HexDigit(bytes[0] % 16)] + PercentBytes(bytes[1..])
  }

  function EncodeChar(c: char): (r: string)
    ensures forall k :: 0 <= k < |r| ==> IsUnreserved(r[k]) || r[k] == '%'
  {
    if IsUnreserved(c) then [c] else PercentBytes(Utf8Bytes(c as int))
  }

  /**
   * `encodeURIComponent(s)`: every character of the result is unreserved or
   * the `%` of an escape, so no space, `/`, `&`, `?`, `:` or `=` survives.
   */
  function EncodeUriComponent(s: string): (r: string)
    ensures forall k :: 0 <= k < |r| ==> IsUnreserved(r[k]) || r[k] == '%'
  {
    if s == [] then "" else EncodeChar(s[0]) + EncodeUriComponent(s[1..])
  }

  /** Text made only of unreserved characters is not changed by the encoding. */
  lemma {:induction false} EncodeUnreserved(s: string)
    requires forall k :: 0 <= k < |s| ==> IsUnreserved(s[k])
    ensures EncodeUriComponent(s) == s
  {
    if s != [] {
      EncodeUnreserved(s[1..]);
      assert s == [s[0]] + s[1..];
    }
  }

  lemma EncodedHasNo(s: string, c: char)
    requires !IsUnreserved(c) && c != '%'
    ensures c !in EncodeUriComponent(s)
  {
  }
}

/**
 * The Foundation string operations the app relies on, written out over
 * `seq<char>`: character classes, trimming, ASCII lower-casing, prefix and
 * substring search, `replacingOccurrences(of:with: "")`, splitting, joining
 * and decimal formatting of integers.
 */
module Text {
  import opened Wrappers

  type String = seq<char>

  // ---------------------------------------------------------------------
  // Character classes
  // ---------------------------------------------------------------------

  /** Foundation's `.newlines` character set. */
  predicate IsNewline(c: char) {
    c == '\n' || c == '\r' || c == '\U{000B}' || c == '\U{000C}'
    || c == '\U{0085}' || c == '\U{2028}' || c == '\U{2029}'
  }

  /** Foundation's `.whitespacesAndNewlines`, restricted to the common code points. */
  predicate IsWhitespace(c: char) {
    c == ' ' || c == '\t' || c == '\U{00A0}' || c == '\U{3000}' || IsNewline(c)
  }

  /** An ASCII decimal digit: `\d` in the step-number pattern, `.decimalDigits`. */
  predicate IsDigit(c: char) {
    '0' <= c <= '9'
  }

  /** ASCII case folding, standing in for `lowercased()`. */
  function ToLower(c: char): char {
    if 'A' <= c <= 'Z' then (c as int + 32) as char else c
  }

  function Lower(s: String): (r: String)
    ensures |r| == |s|
    ensures forall i :: 0 <= i < |s| ==> r[i] == ToLower(s[i])
  {
    seq(|s|, i requires 0 <= i < |s| => ToLower(s[i]))
  }

  /** Every character is whitespace; this is `trimmingCharacters(in:).isEmpty`. */
  predicate IsBlank(s: String) {
    forall i :: 0 <= i < |s| ==> IsWhitespace(s[i])
  }

  // ---------------------------------------------------------------------
  // Trimming
  // ---------------------------------------------------------------------

  /** Drops the leading run of whitespace. */
  function TrimStart(s: String): (r: String)
    ensures |r| <= |s| && r == s[|s| - |r|..]
    ensures forall i :: 0 <= i < |s| - |r| ==> IsWhitespace(s[i])
    ensures r == [] || !IsWhitespace(r[0])
  {
    if |s| > 0 && IsWhitespace(s[0]) then
      var r := TrimStart(s[1..]);
      assert forall i :: 1 <= i < |s| ==> s[i] == s[1..][i - 1];
      r
    else s
  }

  /** Drops the trailing run of whitespace. */
  function TrimEnd(s: String): (r: String)
    ensures |r| <= |s| && r == s[..|r|]
    ensures forall i :: |r| <= i < |s| ==> IsWhitespace(s[i])
    ensures r == [] || !IsWhitespace(r[|r| - 1])
  {
    if |s| > 0 && IsWhitespace(s[|s| - 1]) then TrimEnd(s[..|s| - 1]) else s
  }

  /** `trimmingCharacters(in: .whitespacesAndNewlines)`. */
  function Trim(s: String): (r: String)
    ensures r == [] <==> IsBlank(s)
    ensures r == [] || (!IsWhitespace(r[0]) && !IsWhitespace(r[|r| - 1]))
  {
    var t := TrimStart(s);
    assert t != [] ==> t[0] == s[|s| - |t|];
    TrimEnd(t)
  }

  // ---------------------------------------------------------------------
  // Search
  // ---------------------------------------------------------------------

  /** `s.starts(with: p)`. */
  predicate StartsWith(s: String, p: String) {
    |p| <= |s| && s[..|p|] == p
  }

  /** `p` occurs in `s` starting at index `i`. */
  predicate OccursAt(s: String, p: String, i: nat) {
    i + |p| <= |s| && s[i..i + |p|] == p
  }

  /** `s.contains(p)`. */
  predicate Contains(s: String, p: String) {
    exists i: nat | i <= |s| :: OccursAt(s, p, i)
  }

  /** The first occurrence of `p` in `s` at or after index `i`. */
  function FindFrom(s: String, p: String, i: nat): (r: Option<nat>)
    requires i <= |s|
    ensures r.Some? ==> i <= r.value && OccursAt(s, p, r.value)
    ensures r.Some? ==> forall k :: i <= k < r.value ==> !OccursAt(s, p, k)
    ensures r.None? ==> forall k :: i <= k <= |s| ==> !OccursAt(s, p, k)
    decreases |s| - i
  {
    if OccursAt(s, p, i) then Some(i)
    else if i == |s| then None
    else FindFrom(s, p, i + 1)
  }

  /** `s.range(of: p)?.lowerBound`. */
  function Find(s: String, p: String): (r: Option<nat>)
    ensures r.Some? ==> OccursAt(s, p, r.value)
    ensures r.Some? ==> forall k :: 0 <= k < r.value ==> !OccursAt(s, p, k)
    ensures r.None? <==> !Contains(s, p)
  {
    FindFrom(s, p, 0)
  }

  /** An occurrence inside a prefix of `s` is an occurrence in `s`. */
  lemma OccursInPrefix(s: String, p: String, k: nat, i: nat)
    requires k <= |s| && OccursAt(s[..k], p, i)
    ensures OccursAt(s, p, i)
  {
    assert s[..k][i..i + |p|] == s[i..i + |p|];
  }

  // ---------------------------------------------------------------------
  // Replacing and splitting
  // ---------------------------------------------------------------------

  /**
   * `s.replacingOccurrences(of: p, with: "")`: every non-overlapping
   * occurrence, scanning left to right, is removed.
   */
  function RemoveAll(s: String, p: String): (r: String)
    ensures |r| <= |s|
    ensures !Contains(s, p) ==> r == s
    decreases |s|
  {
    if |p| == 0 then s
    else match Find(s, p)
      case None => s
      case Some(k) => s[..k] + RemoveAll(s[k + |p|..], p)
  }

  /** Removing a pattern from a text that starts with it drops that leading copy. */
  lemma RemoveAllLeading(p: String, s: String)
    requires |p| > 0
    ensures RemoveAll(p + s, p) == RemoveAll(s, p)
  {
    assert OccursAt(p + s, p, 0);
    assert (p + s)[|p|..] == s;
  }

  /**
   * `s.components(separatedBy: sep)`, which for a one-character separator is
   * also `s.split(separator: c, omittingEmptySubsequences: false)`.
   */
  function SplitOn(s: String, sep: String): (r: seq<String>)
    requires |sep| > 0
    ensures |r| >= 1
    ensures forall i :: 0 <= i < |r| ==> !Contains(r[i], sep)
    decreases |s|
  {
    match Find(s, sep)
    case None => [s]
    case Some(k) =>
      var head := s[..k];
      assert !Contains(head, sep) by {
        forall i: nat | i <= |head| && OccursAt(head, sep, i)
          ensures false
        {
          OccursInPrefix(s, sep, k, i);
        }
      }
      [head] + SplitOn(s[k + |sep|..], sep)
  }

  /** `parts.joined(separator: sep)`. */
  function Join(parts: seq<String>, sep: String): String {
    if |parts| == 0 then []
    else if |parts| == 1 then parts[0]
    else parts[0] + sep + Join(parts[1..], sep)
  }

  /** `parts.joined()`. */
  function Concat(parts: seq<String>): String {
    if |parts| == 0 then [] else parts[0] + Concat(parts[1..])
  }

  /** Splitting and re-joining with the same separator gives the text back. */
  lemma {:induction false} JoinSplit(s: String, sep: String)
    requires |sep| > 0
    ensures Join(SplitOn(s, sep), sep) == s
    decreases |s|
  {
    match Find(s, sep)
    case None =>
    case Some(k) =>
      JoinSplit(s[k + |sep|..], sep);
      var rest := SplitOn(s[k + |sep|..], sep);
      assert SplitOn(s, sep) == [s[..k]] + rest;
      assert s == s[..k] + sep + s[k + |sep|..];
  }

  /** A one-character pattern occurs exactly when the character does. */
  lemma ContainsChar(s: String, c: char)
    ensures Contains(s, [c]) <==> c in s
  {
    if c in s {
      var k :| 0 <= k < |s| && s[k] == c;
      assert s[k..k + 1] == [c];
      assert OccursAt(s, [c], k);
    }
    if Contains(s, [c]) {
      var i: nat :| i <= |s| && OccursAt(s, [c], i);
      assert s[i] == s[i..i + 1][0];
    }
  }

  /** A separator whose first character is absent from `a` is first found right after `a`. */
  lemma FindAfter(a: String, sep: String, b: String)
    requires |sep| > 0 && sep[0] !in a
    ensures Find(a + sep + b, sep) == Some(|a|)
  {
    var s := a + sep + b;
    assert s[|a|..|a| + |sep|] == sep;
    assert OccursAt(s, sep, |a|);
    forall k | 0 <= k < |a|
      ensures !OccursAt(s, sep, k)
    {
      assert s[k] == a[k];
    }
  }

  /** A separator whose first character is absent from `a` is not found in `a`. */
  lemma FindAbsent(a: String, sep: String)
    requires |sep| > 0 && sep[0] !in a
    ensures Find(a, sep) == None
  {
    forall i: nat | i <= |a|
      ensures !OccursAt(a, sep, i)
    {
      if i < |a| {
        assert a[i] in a;
      }
    }
  }

  /**
   * Joining pieces that do not contain the first character of a separator
   * and splitting the result at the separator gives the pieces back.
   */
  lemma {:induction false} SplitJoin(parts: seq<String>, sep: String)
    requires |parts| >= 1 && |sep| > 0
    requires forall i :: 0 <= i < |parts| ==> sep[0] !in parts[i]
    ensures SplitOn(Join(parts, sep), sep) == parts
    decreases |parts|
  {
    if |parts| == 1 {
      FindAbsent(parts[0], sep);
    } else {
      var head, tail := parts[0], parts[1..];
      var rest := Join(tail, sep);
      assert Join(parts, sep) == head + sep + rest;
      assert sep[0] !in head;
      FindAfter(head, sep, rest);
      SplitAfter(head, sep, rest);
      forall i | 0 <= i < |tail|
        ensures sep[0] !in tail[i]
      {
        assert tail[i] == parts[i + 1];
      }
      SplitJoin(tail, sep);
      assert parts == [head] + tail;
    }
  }

  /** Once the first separator is known to follow `head`, splitting peels `head` off. */
  lemma SplitAfter(head: String, sep: String, rest: String)
    requires |sep| > 0 && Find(head + sep + rest, sep) == Some(|head|)
    ensures SplitOn(head + sep + rest, sep) == [head] + SplitOn(rest, sep)
  {
    var s := head + sep + rest;
    assert s[..|head|] == head;
    assert s[|head| + |sep|..] == rest;
  }

  /** No proper suffix of `sep` is also a prefix of it, so two occurrences can never overlap. */
  predicate Borderless(sep: String) {
    forall m :: 0 < m < |sep| ==> sep[m..] != sep[..|sep| - m]
  }

  /** A borderless separator that does not occur in `a` is first found right after `a`. */
  lemma FindAfterBorderless(a: String, sep: String, b: String)
    requires |sep| > 0 && Borderless(sep) && !Contains(a, sep)
    ensures Find(a + sep + b, sep) == Some(|a|)
  {
    var s := a + sep + b;
    assert s[|a|..|a| + |sep|] == sep;
    assert OccursAt(s, sep, |a|);
    forall k | 0 <= k < |a|
      ensures !OccursAt(s, sep, k)
    {
      if k + |sep| <= |a| {
        assert s[k..k + |sep|] == a[k..k + |sep|];
        assert !OccursAt(a, sep, k);
      } else {
        var m := |a| - k;
        assert sep[m..] != sep[..|sep| - m];
        assert s[|a|..k + |sep|] == sep[..|sep| - m];
        assert s[k..k + |sep|][m..] == s[|a|..k + |sep|];
      }
    }
  }

  /**
   * Joining pieces in which a borderless separator does not occur and
   * splitting the result at the separator gives the pieces back.
   */
  lemma {:induction false} SplitJoinBorderless(parts: seq<String>, sep: String)
    requires |parts| >= 1 && |sep| > 0 && Borderless(sep)
    requires forall i :: 0 <= i < |parts| ==> !Contains(parts[i], sep)
    ensures SplitOn(Join(parts, sep), sep) == parts
    decreases |parts|
  {
    if |parts| > 1 {
      var rest := Join(parts[1..], sep);
      assert Join(parts, sep) == parts[0] + sep + rest;
      FindAfterBorderless(parts[0], sep, rest);
      SplitAfter(parts[0], sep, rest);
      SplitJoinBorderless(parts[1..], sep);
      assert parts == [parts[0]] + parts[1..];
    }
  }

  /** The non-empty members of `xs`, in order: `split(separator:)` with empty pieces dropped. */
  function NonEmpty(xs: seq<String>): (r: seq<String>)
    ensures |r| <= |xs|
    ensures forall i :: 0 <= i < |r| ==> r[i] != [] && r[i] in xs
    ensures forall x :: x in xs && x != [] ==> x in r
  {
    if |xs| == 0 then []
    else if xs[0] == [] then NonEmpty(xs[1..])
    else [xs[0]] + NonEmpty(xs[1..])
  }

  /** `s.components(separatedBy: .newlines)`: a split at every newline character. */
  function SplitLines(s: String): (r: seq<String>)
    ensures |r| >= 1
    ensures forall k, j :: 0 <= k < |r| && 0 <= j < |r[k]| ==> !IsNewline(r[k][j])
  {
    if |s| == 0 then [""]
    else if IsNewline(s[0]) then [""] + SplitLines(s[1..])
    else
      var rest := SplitLines(s[1..]);
      [[s[0]] + rest[0]] + rest[1..]
  }

  // ---------------------------------------------------------------------
  // Integers
  // ---------------------------------------------------------------------

  function DigitChar(d: nat): (c: char)
    requires d < 10
    ensures IsDigit(c)
  {
    ('0' as int + d) as char
  }

  /** Decimal rendering of a natural number, as string interpolation writes it. */
  function NatToString(n: nat): (r: String)
    ensures |r| >= 1
    ensures forall i :: 0 <= i < |r| ==> IsDigit(r[i])
  {
    if n < 10 then [DigitChar(n)] else NatToString(n / 10) + [DigitChar(n % 10)]
  }

  /** Decimal rendering of an `Int`, with a leading minus sign when negative. */
  function IntToString(i: int): (r: String)
    ensures i >= 0 ==> r == NatToString(i)
    ensures i < 0 ==> |r| >= 2 && r[0] == '-'
  {
    if i < 0 then "-" + NatToString(-i) else NatToString(i)
  }
}

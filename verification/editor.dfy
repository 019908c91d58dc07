/**
 * The text-editor helpers shared by the new-recipe and recipe-detail screens:
 * a bullet in front of every non-empty ingredient and note line, and a step
 * number in front of every non-blank step line, plus the two display-time
 * inverses that strip them again.
 *
 * Every helper splits the text at "\n" keeping empty lines, rewrites each line
 * on its own and joins the lines again with "\n".
 */
module Editor {
  import opened Text

  /** `split(separator: "\n", omittingEmptySubsequences: false)`. */
  function Lines(text: String): (r: seq<String>)
    ensures |r| >= 1
    ensures forall i :: 0 <= i < |r| ==> '\n' !in r[i]
  {
    var r := SplitOn(text, "\n");
    forall i | 0 <= i < |r|
      ensures '\n' !in r[i]
    {
      ContainsChar(r[i], '\n');
    }
    r
  }

  /** `lines.joined(separator: "\n")`. */
  function Unlines(lines: seq<String>): String {
    Join(lines, "\n")
  }

  /** The bullet the older detail screen starts with: "•" read through the wrong encoding. */
  const MisencodedBullet: String := "â€¢"

  /** The bullet the new-recipe screen starts with. */
  const DefaultBullet: String := "•"

  /** The first step number every screen starts with. */
  const DefaultStepNumber: int := 1

  // ---------------------------------------------------------------------
  // Bullets
  // ---------------------------------------------------------------------

  /** One line of `addBulletPoints` / `updateBulletPoints`. */
  function BulletLine(bullet: String, line: String): (r: String)
    ensures line == [] ==> r == []
    ensures line != [] ==> StartsWith(r, bullet)
    ensures StartsWith(line, bullet) ==> r == line
  {
    if line == [] || StartsWith(line, bullet) then line
    else bullet + " " + line
  }

  /** `addBulletPoints` / `updateBulletPoints` on one text (ingredients or notes). */
  function AddBullets(bullet: String, text: String): String {
    var ls := Lines(text);
    Unlines(seq(|ls|, i requires 0 <= i < |ls| => BulletLine(bullet, ls[i])))
  }

  /**
   * The `^<bullet>\s*` replacement applied to one displayed note line: the
   * bullet and the whitespace after it are dropped.
   */
  function RemoveBullet(bullet: String, line: String): (r: String)
    ensures |r| <= |line|
    ensures !StartsWith(line, bullet) ==> r == line
    ensures r == line[|line| - |r|..]
    ensures StartsWith(line, bullet) ==> |r| <= |line| - |bullet| && (r == [] || !IsWhitespace(r[0]))
  {
    if StartsWith(line, bullet) then TrimStart(line[|bullet|..]) else line
  }

  /** The lines of a bulleted text are the original lines, each bulleted. */
  lemma AddBulletsLines(bullet: String, text: String)
    requires '\n' !in bullet
    ensures Lines(AddBullets(bullet, text)) ==
      seq(|Lines(text)|, i requires 0 <= i < |Lines(text)| => BulletLine(bullet, Lines(text)[i]))
  {
    var ls := Lines(text);
    var out := seq(|ls|, i requires 0 <= i < |ls| => BulletLine(bullet, ls[i]));
    forall i | 0 <= i < |out|
      ensures '\n' !in out[i]
    {
      assert '\n' !in ls[i];
    }
    SplitJoin(out, "\n");
  }

  /**
   * After bulleting, the text has as many lines as before, every non-empty
   * line starts with the bullet, empty lines stay empty, and lines that
   * already carried the bullet are untouched.
   */
  lemma AddBulletsShape(bullet: String, text: String)
    requires '\n' !in bullet
    ensures |Lines(AddBullets(bullet, text))| == |Lines(text)|
    ensures forall i :: 0 <= i < |Lines(text)| ==>
      var before := Lines(text)[i];
      var after := Lines(AddBullets(bullet, text))[i];
      && (before == [] <==> after == [])
      && (before != [] ==> StartsWith(after, bullet))
      && (StartsWith(before, bullet) ==> after == before)
  {
    AddBulletsLines(bullet, text);
  }

  /** Bulleting twice is bulleting once: editing the text again adds no second bullet. */
  lemma AddBulletsIdempotent(bullet: String, text: String)
    requires '\n' !in bullet
    ensures AddBullets(bullet, AddBullets(bullet, text)) == AddBullets(bullet, text)
  {
    var ls := Lines(text);
    var once := seq(|ls|, i requires 0 <= i < |ls| => BulletLine(bullet, ls[i]));
    AddBulletsLines(bullet, text);
    var ls2 := Lines(AddBullets(bullet, text));
    assert ls2 == once;
    var twice := seq(|ls2|, i requires 0 <= i < |ls2| => BulletLine(bullet, ls2[i]));
    assert twice == once;
  }

  /**
   * Displaying a line the editor bulleted gives back the line as typed,
   * without its leading whitespace.
   */
  lemma RemoveBulletUndoesBullet(bullet: String, line: String)
    requires line != [] && !StartsWith(line, bullet)
    ensures RemoveBullet(bullet, BulletLine(bullet, line)) == TrimStart(line)
  {
    var b := bullet + " " + line;
    assert BulletLine(bullet, line) == b;
    assert b[..|bullet|] == bullet;
    assert b[|bullet|..] == [' '] + line;
    assert TrimStart([' '] + line) == TrimStart(line) by {
      assert ([' '] + line)[1..] == line;
    }
  }

  // ---------------------------------------------------------------------
  // Step numbers
  // ---------------------------------------------------------------------

  /** The length of the run of digits `line` starts with. */
  function LeadingDigits(line: String): (n: nat)
    ensures n <= |line|
    ensures forall i :: 0 <= i < n ==> IsDigit(line[i])
    ensures n < |line| ==> !IsDigit(line[n])
  {
    if |line| > 0 && IsDigit(line[0]) then 1 + LeadingDigits(line[1..]) else 0
  }

  /** The line starts with `^\d+\. `: digits, a full stop and a space. */
  predicate HasNumber(line: String) {
    var n := LeadingDigits(line);
    n >= 1 && n + 2 <= |line| && line[n] == '.' && line[n + 1] == ' '
  }

  /** `removeNumbering(from:)`, also the first pass of `addStepNumbers`. */
  function RemoveNumbering(line: String): (r: String)
    ensures HasNumber(line) ==> |r| < |line| && line[|line| - |r|..] == r
    ensures !HasNumber(line) ==> r == line
  {
    if HasNumber(line) then line[LeadingDigits(line) + 2..] else line
  }

  /** The second pass of `addStepNumbers` on line `index`: blank lines keep no number. */
  function NumberLine(first: int, index: nat, line: String): String {
    if IsBlank(line) then line
    else IntToString(first + index) + ". " + line
  }

  /** `addStepNumbers` / `updateStepNumbers` starting from step number `first`. */
  function AddStepNumbers(first: int, text: String): String {
    var ls := Lines(text);
    Unlines(seq(|ls|, i requires 0 <= i < |ls| => NumberLine(first, i, RemoveNumbering(ls[i]))))
  }

  lemma LeadingDigitsAppend(digits: String, rest: String)
    requires forall i :: 0 <= i < |digits| ==> IsDigit(digits[i])
    requires rest == [] || !IsDigit(rest[0])
    ensures LeadingDigits(digits + rest) == |digits|
  {
    if |digits| > 0 {
      assert (digits + rest)[1..] == digits[1..] + rest;
      LeadingDigitsAppend(digits[1..], rest);
    }
  }

  /** Stripping the number of a numbered line gives back exactly the line. */
  lemma RemoveNumberingOfNumbered(n: nat, line: String)
    ensures RemoveNumbering(NatToString(n) + ". " + line) == line
  {
    RemoveNumberingOfDigits(NatToString(n), line);
  }

  /** The same for any non-empty run of digits. */
  lemma RemoveNumberingOfDigits(d: String, line: String)
    requires |d| >= 1 && forall i :: 0 <= i < |d| ==> IsDigit(d[i])
    ensures RemoveNumbering(d + ". " + line) == line
  {
    var tail := ". " + line;
    var s := d + tail;
    assert d + ". " + line == s;
    LeadingDigitsAppend(d, tail);
    assert s[|d|] == tail[0] == '.' && s[|d| + 1] == tail[1] == ' ';
    assert s[|d| + 2..] == tail[2..] == line;
  }

  /** A blank line has no number to strip. */
  lemma RemoveNumberingOfBlank(line: String)
    requires IsBlank(line)
    ensures RemoveNumbering(line) == line
  {
    if |line| > 0 {
      assert IsWhitespace(line[0]);
    }
  }

  /** Stripping after numbering (from a non-negative first number) undoes the numbering. */
  lemma RemoveNumberingUndoesNumber(first: int, index: nat, line: String)
    requires first >= 0
    ensures RemoveNumbering(NumberLine(first, index, line)) == line
  {
    if IsBlank(line) {
      RemoveNumberingOfBlank(line);
    } else {
      RemoveNumberingOfNumbered(first + index, line);
    }
  }

  lemma NumberLineNoNewline(first: int, index: nat, line: String)
    requires '\n' !in line
    ensures '\n' !in NumberLine(first, index, RemoveNumbering(line))
  {
    var x := RemoveNumbering(line);
    assert forall k :: 0 <= k < |x| ==> x[k] in line by {
      if HasNumber(line) {
        forall k | 0 <= k < |x|
          ensures x[k] in line
        {
          assert x[k] == line[|line| - |x| + k];
        }
      }
    }
    var s := IntToString(first + index);
    assert forall k :: 0 <= k < |s| ==> s[k] != '\n';
  }

  /** The lines of a numbered text are the original lines, each stripped and renumbered. */
  lemma AddStepNumbersLines(first: int, text: String)
    ensures Lines(AddStepNumbers(first, text)) ==
      seq(|Lines(text)|, i requires 0 <= i < |Lines(text)| =>
        NumberLine(first, i, RemoveNumbering(Lines(text)[i])))
  {
    var ls := Lines(text);
    var out := seq(|ls|, i requires 0 <= i < |ls| => NumberLine(first, i, RemoveNumbering(ls[i])));
    forall i | 0 <= i < |out|
      ensures '\n' !in out[i]
    {
      NumberLineNoNewline(first, i, ls[i]);
    }
    SplitJoin(out, "\n");
  }

  /**
   * Renumbering a numbered text from another first number is the same as
   * numbering the original text from that number: the old numbers vanish.
   */
  lemma AddStepNumbersRenumber(first: int, again: int, text: String)
    requires first >= 0
    ensures AddStepNumbers(again, AddStepNumbers(first, text)) == AddStepNumbers(again, text)
  {
    var ls := Lines(text);
    AddStepNumbersLines(first, text);
    var ls2 := Lines(AddStepNumbers(first, text));
    forall i | 0 <= i < |ls|
      ensures RemoveNumbering(ls2[i]) == RemoveNumbering(ls[i])
    {
      RemoveNumberingUndoesNumber(first, i, RemoveNumbering(ls[i]));
    }
    var lhs := seq(|ls2|, i requires 0 <= i < |ls2| => NumberLine(again, i, RemoveNumbering(ls2[i])));
    var rhs := seq(|ls|, i requires 0 <= i < |ls| => NumberLine(again, i, RemoveNumbering(ls[i])));
    assert lhs == rhs;
  }

  /** Numbering is stable: every edit renumbers, and renumbering a numbered text changes nothing. */
  lemma AddStepNumbersIdempotent(first: int, text: String)
    requires first >= 0
    ensures AddStepNumbers(first, AddStepNumbers(first, text)) == AddStepNumbers(first, text)
  {
    AddStepNumbersRenumber(first, first, text);
  }

  lemma Join3(x: String, y: String, z: String, sep: String)
    ensures Join([x, y, z], sep) == x + sep + y + sep + z
  {
    assert [x, y, z][1..] == [y, z];
    assert [y, z][1..] == [z];
    assert Join([y, z], sep) == y + sep + z;
  }

  /** Splitting a text with an empty middle line keeps the empty line. */
  lemma LinesWithEmptyMiddle(a: String, b: String)
    requires '\n' !in a && '\n' !in b
    ensures Lines(a + "\n\n" + b) == [a, "", b]
  {
    var parts: seq<String> := [a, "", b];
    Join3(a, "", b, "\n");
    assert Join(parts, "\n") == a + "\n\n" + b;
    forall i | 0 <= i < 3
      ensures '\n' !in parts[i]
    {
    }
    SplitJoin(parts, "\n");
  }

  /**
   * A line's number is its position among all lines, blank ones included, so
   * a blank line between two steps leaves a gap in the numbering: the steps
   * come out as 1 and 3.
   */
  lemma NumberingCountsBlankLines(a: String, b: String)
    requires '\n' !in a && '\n' !in b
    requires !IsBlank(a) && !IsBlank(b) && !HasNumber(a) && !HasNumber(b)
    ensures AddStepNumbers(1, a + "\n\n" + b) == "1. " + a + "\n\n3. " + b
  {
    var ls := Lines(a + "\n\n" + b);
    LinesWithEmptyMiddle(a, b);
    var out := seq(|ls|, i requires 0 <= i < |ls| => NumberLine(1, i, RemoveNumbering(ls[i])));
    assert IntToString(1) == "1";
    assert IntToString(3) == "3";
    assert !HasNumber("") && IsBlank("");
    assert out[0] == "1. " + a by {
      assert "1" + ". " == "1. ";
    }
    assert out[2] == "3. " + b by {
      assert "3" + ". " == "3. ";
    }
    assert out == ["1. " + a, "", "3. " + b];
    Join3("1. " + a, "", "3. " + b, "\n");
  }
}

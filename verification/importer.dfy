/**
 * The clipboard recipe importer: a line-by-line state machine whose state is
 * the section being filled (none, ingredients, steps, notes, url).
 *
 * The app has two dialects of it. `Abbreviated` is the short-tag format of
 * Extensions/ImportRecipe.swift (`T:`, `PT:`, `GLTNF:` ...); `Verbose` is the
 * labelled format of Views/NewRecipeView.swift (`Title:`, `Prep Time:` ...).
 * Both are one `if / else if` chain over `line.starts(with:)`, so a dialect
 * is an ordered tag table and the first tag the line starts with wins.
 */
module Importer {
  import opened Wrappers
  import opened Text
  import opened Recipes

  /** The parser's current section; `NoSection` is Swift's `nil`. */
  datatype Section = NoSection | InIngredients | InSteps | InNotes | InUrl

  /** The single-line text fields a tag line can set. */
  datatype Scalar = TitleField | PrepTimeField | CookTimeField | CuisineField

  /** What a recognised tag line does. */
  datatype TagKind =
    | SetScalar(field: Scalar)
    | SetFlag(badge: Badge)
    | Enter(section: Section)

  datatype Tag = Tag(prefix: String, kind: TagKind)

  /** The tags in the order the `if / else if` chain tests them. */
  type Dialect = seq<Tag>

  const Abbreviated: Dialect := [
    Tag("T:", SetScalar(TitleField)),
    Tag("PT:", SetScalar(PrepTimeField)),
    Tag("CT:", SetScalar(CookTimeField)),
    Tag("GLTNF:", SetFlag(GlutenFree)),
    Tag("SGF:", SetFlag(SugarFree)),
    Tag("DARYF:", SetFlag(DairyFree)),
    Tag("GMOF:", SetFlag(GmoFree)),
    Tag("O:", SetFlag(Organic)),
    Tag("V:", SetFlag(Vegetarian)),
    Tag("PNTF:", SetFlag(PeanutFree)),
    Tag("NUTF:", SetFlag(NutFree)),
    Tag("EGGF:", SetFlag(EggFree)),
    Tag("NTF:", SetFlag(NoTransFat)),
    Tag("CRNF:", SetFlag(CornFree)),
    Tag("SOYF:", SetFlag(SoyFree)),
    Tag("Cuisine:", SetScalar(CuisineField)),
    Tag("Ingredients:", Enter(InIngredients)),
    Tag("Steps:", Enter(InSteps)),
    Tag("Notes:", Enter(InNotes)),
    Tag("URL:", Enter(InUrl))
  ]

  const Verbose: Dialect := [
    Tag("Title:", SetScalar(TitleField)),
    Tag("Prep Time:", SetScalar(PrepTimeField)),
    Tag("Cook Time:", SetScalar(CookTimeField)),
    Tag("Gluten-Free:", SetFlag(GlutenFree)),
    Tag("Sugar-Free:", SetFlag(SugarFree)),
    Tag("Dairy-Free:", SetFlag(DairyFree)),
    Tag("GMO-Free:", SetFlag(GmoFree)),
    Tag("Organic:", SetFlag(Organic)),
    Tag("Vegetarian:", SetFlag(Vegetarian)),
    Tag("Cuisine:", SetScalar(CuisineField)),
    Tag("Ingredients:", Enter(InIngredients)),
    Tag("Steps:", Enter(InSteps)),
    Tag("Notes:", Enter(InNotes)),
    Tag("URL:", Enter(InUrl))
  ]

  /** The fields an import produces (the `imported...` locals). */
  datatype Imported = Imported(
    title: String,
    prepTime: String,
    cookTime: String,
    cuisine: String,
    badges: set<Badge>,
    ingredients: String,
    steps: String,
    notes: String,
    url: String)

  const NothingImported: Imported := Imported("", "", "", "", {}, "", "", "", "")

  datatype ParseState = ParseState(fields: Imported, section: Section)

  const Start: ParseState := ParseState(NothingImported, NoSection)

  // ---------------------------------------------------------------------
  // One line
  // ---------------------------------------------------------------------

  /** The first tag of `d`, from index `i` on, that `line` starts with. */
  function ClassifyFrom(d: Dialect, line: String, i: nat): (r: Option<nat>)
    requires i <= |d|
    ensures r.Some? ==> i <= r.value < |d| && StartsWith(line, d[r.value].prefix)
    ensures r.Some? ==> forall k :: i <= k < r.value ==> !StartsWith(line, d[k].prefix)
    ensures r.None? ==> forall k :: i <= k < |d| ==> !StartsWith(line, d[k].prefix)
    decreases |d| - i
  {
    if i == |d| then None
    else if StartsWith(line, d[i].prefix) then Some(i)
    else ClassifyFrom(d, line, i + 1)
  }

  /** The tag whose branch of the chain handles `line`, if any. */
  function Classify(d: Dialect, line: String): (r: Option<Tag>)
    ensures r.None? <==> forall k :: 0 <= k < |d| ==> !StartsWith(line, d[k].prefix)
    ensures r.Some? ==> StartsWith(line, r.value.prefix)
    ensures r.Some? ==> r.value in d
  {
    match ClassifyFrom(d, line, 0)
    case Some(i) => Some(d[i])
    case None => None
  }

  /** The text a tag line carries: the line with every copy of the tag removed, trimmed. */
  function TagValue(line: String, prefix: String): String {
    Trim(RemoveAll(line, prefix))
  }

  /** `value.lowercased() == "yes"` on an already trimmed value. */
  predicate IsYes(value: String) {
    Lower(value) == "yes"
  }

  function ScalarOf(f: Imported, field: Scalar): String {
    match field
    case TitleField => f.title
    case PrepTimeField => f.prepTime
    case CookTimeField => f.cookTime
    case CuisineField => f.cuisine
  }

  function WithScalar(f: Imported, field: Scalar, v: String): Imported {
    match field
    case TitleField => f.(title := v)
    case PrepTimeField => f.(prepTime := v)
    case CookTimeField => f.(cookTime := v)
    case CuisineField => f.(cuisine := v)
  }

  /** The buffer a section accumulates into. */
  function BufferOf(f: Imported, s: Section): String {
    match s
    case NoSection => ""
    case InIngredients => f.ingredients
    case InSteps => f.steps
    case InNotes => f.notes
    case InUrl => f.url
  }

  /** What follows each accumulated line: a newline, except in the URL. */
  function Terminator(s: Section): String {
    if s == InUrl then "" else "\n"
  }

  function Append(f: Imported, s: Section, line: String): Imported {
    match s
    case NoSection => f
    case InIngredients => f.(ingredients := f.ingredients + line + Terminator(s))
    case InSteps => f.(steps := f.steps + line + Terminator(s))
    case InNotes => f.(notes := f.notes + line + Terminator(s))
    case InUrl => f.(url := f.url + line + Terminator(s))
  }

  /** What a recognised tag line does to the state, given the value it carries. */
  function ApplyTag(st: ParseState, kind: TagKind, v: String): ParseState {
    match kind
    case SetScalar(field) =>
      ParseState(WithScalar(st.fields, field, v),
                 if field == TitleField then NoSection else st.section)
    case SetFlag(b) =>
      var badges := if IsYes(v) then st.fields.badges + {b} else st.fields.badges - {b};
      st.(fields := st.fields.(badges := badges))
    case Enter(s) =>
      st.(section := s)
  }

  /** The body of the `for line in ...` loop. */
  function Step(d: Dialect, st: ParseState, line: String): ParseState {
    match Classify(d, line)
    case Some(tag) => ApplyTag(st, tag.kind, TagValue(line, tag.prefix))
    case None =>
      if line == [] then st
      else st.(fields := Append(st.fields, st.section, line))
  }

  /** The whole loop, as a left fold over the lines. */
  function Parse(d: Dialect, lines: seq<String>): ParseState
    decreases |lines|
  {
    if |lines| == 0 then Start
    else Step(d, Parse(d, lines[..|lines| - 1]), lines[|lines| - 1])
  }

  /** The labelled dialect has tags for the first six badges only. */
  lemma VerboseFlags(t: Tag)
    requires t in Verbose && t.kind.SetFlag?
    ensures t.kind.badge in FirstSix
  {
    var i :| 0 <= i < |Verbose| && Verbose[i] == t;
  }

  /** A recipe was found: title, ingredients and steps are all non-empty. */
  predicate Found(f: Imported) {
    f.title != [] && f.ingredients != [] && f.steps != []
  }

  /** The clipboard text split into lines and parsed. */
  function ParseClipboard(d: Dialect, text: String): Imported {
    Parse(d, SplitLines(text)).fields
  }

  // ---------------------------------------------------------------------
  // Reference descriptions of the result
  // ---------------------------------------------------------------------

  /** The kind of the tag that handles `line`, if any. */
  function KindOf(d: Dialect, line: String): Option<TagKind> {
    match Classify(d, line)
    case Some(t) => Some(t.kind)
    case None => None
  }

  /** The value a tag line carries, or "" for an untagged line. */
  function LineValue(d: Dialect, line: String): String {
    match Classify(d, line)
    case Some(t) => TagValue(line, t.prefix)
    case None => ""
  }

  /** Which tag lines a search is after. */
  datatype Selector =
    | KindIs(kind: TagKind)
    /** A line that fixes the section: the title line or a section header. */
    | Marker

  predicate Selects(sel: Selector, k: TagKind) {
    match sel
    case KindIs(kind) => k == kind
    case Marker => k == SetScalar(TitleField) || k.Enter?
  }

  predicate Tagged(d: Dialect, line: String, sel: Selector) {
    KindOf(d, line).Some? && Selects(sel, KindOf(d, line).value)
  }

  /** The index of the last line the selector picks out. */
  function LastTagged(d: Dialect, lines: seq<String>, sel: Selector): (r: Option<nat>)
    ensures r.Some? ==> r.value < |lines| && Tagged(d, lines[r.value], sel)
    ensures r.Some? ==> forall k :: r.value < k < |lines| ==> !Tagged(d, lines[k], sel)
    ensures r.None? ==> forall k :: 0 <= k < |lines| ==> !Tagged(d, lines[k], sel)
    decreases |lines|
  {
    if |lines| == 0 then None
    else if Tagged(d, lines[|lines| - 1], sel) then Some(|lines| - 1)
    else LastTagged(d, lines[..|lines| - 1], sel)
  }

  /** The section that is active after reading `lines`, read off the last marker line. */
  function SectionAfter(d: Dialect, lines: seq<String>): Section {
    match LastTagged(d, lines, Marker)
    case None => NoSection
    case Some(i) => MarkedSection(d, lines[i])
  }

  /** Line `i` is a non-empty untagged line read while section `s` is active. */
  predicate GatheredInto(d: Dialect, lines: seq<String>, i: nat, s: Section)
    requires i < |lines|
  {
    KindOf(d, lines[i]).None? && lines[i] != [] && s != NoSection
    && SectionAfter(d, lines[..i]) == s
  }

  /** What line `i` adds to the buffer of section `s`. */
  function Contribution(d: Dialect, lines: seq<String>, i: nat, s: Section): String
    requires i < |lines|
  {
    if GatheredInto(d, lines, i, s) then lines[i] + Terminator(s) else []
  }

  /** The concatenation, in order, of every line's contribution to section `s`. */
  function Gathered(d: Dialect, lines: seq<String>, s: Section): String {
    Concat(seq(|lines|, i requires 0 <= i < |lines| => Contribution(d, lines, i, s)))
  }

  // ---------------------------------------------------------------------
  // Properties
  // ---------------------------------------------------------------------

  /** Reading one more line is one more step. */
  lemma ParseSnoc(d: Dialect, lines: seq<String>, line: String)
    ensures Parse(d, lines + [line]) == Step(d, Parse(d, lines), line)
  {
    assert (lines + [line])[..|lines|] == lines;
  }

  lemma ApplyScalar(st: ParseState, kind: TagKind, v: String, field: Scalar)
    ensures ScalarOf(ApplyTag(st, kind, v).fields, field) ==
      if kind == SetScalar(field) then v else ScalarOf(st.fields, field)
  {
  }

  lemma AppendScalar(f: Imported, s: Section, line: String, field: Scalar)
    ensures ScalarOf(Append(f, s, line), field) == ScalarOf(f, field)
  {
  }

  lemma StepScalar(d: Dialect, st: ParseState, line: String, field: Scalar)
    ensures ScalarOf(Step(d, st, line).fields, field) ==
      if Tagged(d, line, KindIs(SetScalar(field))) then LineValue(d, line)
      else ScalarOf(st.fields, field)
  {
    match Classify(d, line)
    case None =>
      assert !Tagged(d, line, KindIs(SetScalar(field)));
      AppendScalar(st.fields, st.section, line, field);
    case Some(tag) =>
      var v := TagValue(line, tag.prefix);
      assert Step(d, st, line) == ApplyTag(st, tag.kind, v);
      assert KindOf(d, line) == Some(tag.kind) && LineValue(d, line) == v;
      ApplyScalar(st, tag.kind, v, field);
  }

  lemma ApplyBadge(st: ParseState, kind: TagKind, v: String, b: Badge)
    ensures b in ApplyTag(st, kind, v).fields.badges <==>
      if kind == SetFlag(b) then IsYes(v) else b in st.fields.badges
  {
  }

  lemma StepBadge(d: Dialect, st: ParseState, line: String, b: Badge)
    ensures b in Step(d, st, line).fields.badges <==>
      if Tagged(d, line, KindIs(SetFlag(b))) then IsYes(LineValue(d, line))
      else b in st.fields.badges
  {
    match Classify(d, line)
    case None =>
      assert !Tagged(d, line, KindIs(SetFlag(b)));
      assert Append(st.fields, st.section, line).badges == st.fields.badges;
    case Some(tag) =>
      var v := TagValue(line, tag.prefix);
      assert Step(d, st, line) == ApplyTag(st, tag.kind, v);
      assert KindOf(d, line) == Some(tag.kind) && LineValue(d, line) == v;
      ApplyBadge(st, tag.kind, v, b);
  }

  lemma ApplyBuffer(st: ParseState, kind: TagKind, v: String, s: Section)
    ensures BufferOf(ApplyTag(st, kind, v).fields, s) == BufferOf(st.fields, s)
  {
  }

  lemma AppendBuffer(f: Imported, section: Section, line: String, s: Section)
    ensures BufferOf(Append(f, section, line), s) ==
      if s == section && s != NoSection then BufferOf(f, s) + line + Terminator(s)
      else BufferOf(f, s)
  {
  }

  lemma StepBuffer(d: Dialect, st: ParseState, line: String, s: Section)
    ensures BufferOf(Step(d, st, line).fields, s) ==
      if KindOf(d, line).None? && line != [] && s != NoSection && st.section == s
      then BufferOf(st.fields, s) + line + Terminator(s)
      else BufferOf(st.fields, s)
  {
    match Classify(d, line)
    case None =>
      assert KindOf(d, line).None?;
      AppendBuffer(st.fields, st.section, line, s);
    case Some(tag) =>
      var v := TagValue(line, tag.prefix);
      assert KindOf(d, line) == Some(tag.kind);
      assert Step(d, st, line) == ApplyTag(st, tag.kind, v);
      ApplyBuffer(st, tag.kind, v, s);
  }

  /** A scalar field holds the value of its last tag line, or "" when there is none. */
  lemma {:induction false} ParseScalar(d: Dialect, lines: seq<String>, field: Scalar)
    ensures ScalarOf(Parse(d, lines).fields, field) ==
      match LastTagged(d, lines, KindIs(SetScalar(field)))
      case None => ""
      case Some(i) => LineValue(d, lines[i])
    decreases |lines|
  {
    if |lines| > 0 {
      var n := |lines| - 1;
      var pre := lines[..n];
      ParseScalar(d, pre, field);
      ParseScalarStep(d, lines, field);
    }
  }

  /** One step of the induction above. */
  lemma ParseScalarStep(d: Dialect, lines: seq<String>, field: Scalar)
    requires |lines| > 0
    requires ScalarOf(Parse(d, lines[..|lines| - 1]).fields, field) ==
      match LastTagged(d, lines[..|lines| - 1], KindIs(SetScalar(field)))
      case None => ""
      case Some(i) => LineValue(d, lines[..|lines| - 1][i])
    ensures ScalarOf(Parse(d, lines).fields, field) ==
      match LastTagged(d, lines, KindIs(SetScalar(field)))
      case None => ""
      case Some(i) => LineValue(d, lines[i])
  {
    var n := |lines| - 1;
    StepScalar(d, Parse(d, lines[..n]), lines[n], field);
    LastValueSnoc(d, lines, KindIs(SetScalar(field)));
  }

  /** The value of the last selected line, given the value for all lines but the last. */
  lemma LastValueSnoc(d: Dialect, lines: seq<String>, sel: Selector)
    requires |lines| > 0
    ensures
      var n := |lines| - 1;
      (match LastTagged(d, lines, sel) case None => "" case Some(i) => LineValue(d, lines[i])) ==
      if Tagged(d, lines[n], sel) then LineValue(d, lines[n])
      else match LastTagged(d, lines[..n], sel) case None => "" case Some(i) => LineValue(d, lines[..n][i])
  {
    var n := |lines| - 1;
    if !Tagged(d, lines[n], sel) {
      match LastTagged(d, lines[..n], sel)
      case None =>
      case Some(i) => assert lines[i] == lines[..n][i];
    }
  }

  /**
   * A badge is set exactly when its last tag line says "yes" (in any case,
   * around any whitespace); with no tag line it stays unset.
   */
  lemma {:induction false} ParseBadge(d: Dialect, lines: seq<String>, b: Badge)
    ensures b in Parse(d, lines).fields.badges <==>
      match LastTagged(d, lines, KindIs(SetFlag(b)))
      case None => false
      case Some(i) => IsYes(LineValue(d, lines[i]))
    decreases |lines|
  {
    if |lines| > 0 {
      var n := |lines| - 1;
      var pre := lines[..n];
      ParseBadge(d, pre, b);
      ParseBadgeStep(d, lines, b);
    }
  }

  /** One step of the induction above. */
  lemma ParseBadgeStep(d: Dialect, lines: seq<String>, b: Badge)
    requires |lines| > 0
    requires b in Parse(d, lines[..|lines| - 1]).fields.badges <==>
      match LastTagged(d, lines[..|lines| - 1], KindIs(SetFlag(b)))
      case None => false
      case Some(i) => IsYes(LineValue(d, lines[..|lines| - 1][i]))
    ensures b in Parse(d, lines).fields.badges <==>
      match LastTagged(d, lines, KindIs(SetFlag(b)))
      case None => false
      case Some(i) => IsYes(LineValue(d, lines[i]))
  {
    var n := |lines| - 1;
    StepBadge(d, Parse(d, lines[..n]), lines[n], b);
    if !Tagged(d, lines[n], KindIs(SetFlag(b))) {
      match LastTagged(d, lines[..n], KindIs(SetFlag(b)))
      case None =>
      case Some(i) => assert lines[i] == lines[..n][i];
    }
  }

  /**
   * The section after any prefix of the input is fixed by the last title or
   * header line: scalar and badge tags leave it alone.
   */
  lemma {:induction false} ParseSection(d: Dialect, lines: seq<String>)
    ensures Parse(d, lines).section == SectionAfter(d, lines)
    decreases |lines|
  {
    if |lines| > 0 {
      var n := |lines| - 1;
      ParseSection(d, lines[..n]);
      StepSection(d, Parse(d, lines[..n]), lines[n]);
      SectionAfterSnoc(d, lines);
    }
  }

  /** The section a marker line leaves active. */
  function MarkedSection(d: Dialect, line: String): Section
    requires Tagged(d, line, Marker)
  {
    var k := KindOf(d, line).value;
    if k.Enter? then k.section else NoSection
  }

  lemma StepSection(d: Dialect, st: ParseState, line: String)
    ensures Step(d, st, line).section ==
      if Tagged(d, line, Marker) then MarkedSection(d, line) else st.section
  {
    match Classify(d, line)
    case None =>
      assert KindOf(d, line).None? && !Tagged(d, line, Marker);
    case Some(tag) =>
      var v := TagValue(line, tag.prefix);
      assert KindOf(d, line) == Some(tag.kind);
      assert Step(d, st, line) == ApplyTag(st, tag.kind, v);
      ApplySection(st, tag.kind, v);
  }

  lemma ApplySection(st: ParseState, kind: TagKind, v: String)
    ensures ApplyTag(st, kind, v).section ==
      if Selects(Marker, kind) then (if kind.Enter? then kind.section else NoSection) else st.section
  {
  }

  lemma SectionAfterSnoc(d: Dialect, lines: seq<String>)
    requires |lines| > 0
    ensures SectionAfter(d, lines) ==
      if Tagged(d, lines[|lines| - 1], Marker) then MarkedSection(d, lines[|lines| - 1])
      else SectionAfter(d, lines[..|lines| - 1])
  {
    var pre := lines[..|lines| - 1];
    if !Tagged(d, lines[|lines| - 1], Marker) {
      match LastTagged(d, pre, Marker)
      case None =>
      case Some(i) => assert lines[i] == pre[i];
    }
  }

  lemma ConcatSnoc(parts: seq<String>, x: String)
    ensures Concat(parts + [x]) == Concat(parts) + x
  {
    if |parts| > 0 {
      assert (parts + [x])[1..] == parts[1..] + [x];
      ConcatSnoc(parts[1..], x);
    }
  }

  /** A concatenation is empty exactly when every part is. */
  lemma {:induction false} ConcatEmpty(parts: seq<String>)
    ensures Concat(parts) == [] <==> forall i :: 0 <= i < |parts| ==> parts[i] == []
    decreases |parts|
  {
    if |parts| > 0 {
      var tail := parts[1..];
      ConcatEmpty(tail);
      assert Concat(parts) == parts[0] + Concat(tail);
      assert forall i :: 1 <= i < |parts| ==> parts[i] == tail[i - 1];
      assert (forall i :: 0 <= i < |parts| ==> parts[i] == []) <==>
        parts[0] == [] && forall j :: 0 <= j < |tail| ==> tail[j] == [];
    }
  }

  lemma GatheredSnoc(d: Dialect, lines: seq<String>, s: Section)
    requires |lines| > 0
    ensures Gathered(d, lines, s) ==
      Gathered(d, lines[..|lines| - 1], s) + Contribution(d, lines, |lines| - 1, s)
  {
    var n := |lines| - 1;
    var pre := lines[..n];
    var all := seq(|lines|, i requires 0 <= i < |lines| => Contribution(d, lines, i, s));
    var front := seq(|pre|, i requires 0 <= i < |pre| => Contribution(d, pre, i, s));
    forall i | 0 <= i < n
      ensures all[i] == front[i]
    {
      assert pre[i] == lines[i];
      assert pre[..i] == lines[..i];
    }
    assert all == front + [all[n]];
    ConcatSnoc(front, all[n]);
  }

  /**
   * Each section's buffer is exactly the concatenation, in input order, of
   * the non-empty untagged lines read while that section was active, each
   * followed by a newline (nothing for the URL). Empty lines and lines read
   * with no active section are dropped.
   */
  lemma {:induction false} ParseBuffer(d: Dialect, lines: seq<String>, s: Section)
    requires s != NoSection
    ensures BufferOf(Parse(d, lines).fields, s) == Gathered(d, lines, s)
    decreases |lines|
  {
    if |lines| > 0 {
      var n := |lines| - 1;
      var pre := lines[..n];
      ParseBuffer(d, pre, s);
      ParseSection(d, pre);
      ParseBufferStep(d, lines, s);
    } else {
      assert Gathered(d, lines, s) == Concat([]);
    }
  }

  /** One step of the induction above. */
  lemma ParseBufferStep(d: Dialect, lines: seq<String>, s: Section)
    requires |lines| > 0 && s != NoSection
    requires BufferOf(Parse(d, lines[..|lines| - 1]).fields, s) == Gathered(d, lines[..|lines| - 1], s)
    requires Parse(d, lines[..|lines| - 1]).section == SectionAfter(d, lines[..|lines| - 1])
    ensures BufferOf(Parse(d, lines).fields, s) == Gathered(d, lines, s)
  {
    var n := |lines| - 1;
    var st := Parse(d, lines[..n]);
    var line := lines[n];
    assert Parse(d, lines) == Step(d, st, line);
    StepBuffer(d, st, line, s);
    GatheredSnoc(d, lines, s);
    var cond := KindOf(d, line).None? && line != [] && s != NoSection && st.section == s;
    assert Contribution(d, lines, n, s) == if cond then line + Terminator(s) else [];
    AppendIf(BufferOf(st.fields, s), line, Terminator(s), cond);
  }

  lemma AppendIf(before: String, line: String, t: String, cond: bool)
    ensures (if cond then before + line + t else before) == before + (if cond then line + t else [])
  {
    if cond {
      assert before + line + t == before + (line + t);
    }
  }

  /** A section's buffer is non-empty exactly when some line was gathered into it. */
  lemma BufferNonEmpty(d: Dialect, lines: seq<String>, s: Section)
    requires s != NoSection
    ensures BufferOf(Parse(d, lines).fields, s) != [] <==>
      exists i :: 0 <= i < |lines| && GatheredInto(d, lines, i, s)
  {
    ParseBuffer(d, lines, s);
    var parts := seq(|lines|, i requires 0 <= i < |lines| => Contribution(d, lines, i, s));
    assert BufferOf(Parse(d, lines).fields, s) == Concat(parts);
    ConcatEmpty(parts);
    forall i | 0 <= i < |lines|
      ensures parts[i] != [] <==> GatheredInto(d, lines, i, s)
    {
      if GatheredInto(d, lines, i, s) {
        assert |parts[i]| >= |lines[i]| > 0;
      }
    }
  }

  /**
   * The import reports a recipe exactly when the last title line carries a
   * non-empty value, and at least one non-empty untagged line was read under
   * `Ingredients:` and one under `Steps:`.
   */
  lemma FoundCharacterised(d: Dialect, lines: seq<String>)
    ensures Found(Parse(d, lines).fields) <==>
      && (match LastTagged(d, lines, KindIs(SetScalar(TitleField)))
          case None => false
          case Some(i) => LineValue(d, lines[i]) != [])
      && (exists i :: 0 <= i < |lines| && GatheredInto(d, lines, i, InIngredients))
      && (exists i :: 0 <= i < |lines| && GatheredInto(d, lines, i, InSteps))
  {
    ParseScalar(d, lines, TitleField);
    BufferNonEmpty(d, lines, InIngredients);
    BufferNonEmpty(d, lines, InSteps);
  }

  /** A field of the import, named so that "nothing else changes" can be stated. */
  datatype FieldName = ScalarName(scalar: Scalar) | BadgeName(badge: Badge) | BufferName(section: Section)

  /** `a` and `b` agree on every field, except possibly `except`. */
  predicate SameExcept(a: Imported, b: Imported, except: Option<FieldName>) {
    && (forall f: Scalar :: except != Some(ScalarName(f)) ==> ScalarOf(a, f) == ScalarOf(b, f))
    && (forall x: Badge :: except != Some(BadgeName(x)) ==> (x in a.badges <==> x in b.badges))
    && (forall s: Section :: except != Some(BufferName(s)) ==> BufferOf(a, s) == BufferOf(b, s))
  }

  /** The one field a line may change, given the section it is read in. */
  function Touched(d: Dialect, section: Section, line: String): Option<FieldName> {
    match KindOf(d, line)
    case Some(SetScalar(f)) => Some(ScalarName(f))
    case Some(SetFlag(b)) => Some(BadgeName(b))
    case Some(Enter(_)) => None
    case None => if line == [] || section == NoSection then None else Some(BufferName(section))
  }

  /**
   * Because the tag tests form one first-match chain, a line changes at most
   * one field: a header line changes none, and the section changes only on a
   * title or header line.
   */
  lemma StepTouchesOneField(d: Dialect, st: ParseState, line: String)
    ensures SameExcept(st.fields, Step(d, st, line).fields, Touched(d, st.section, line))
    ensures Step(d, st, line).section != st.section ==> Tagged(d, line, Marker)
  {
    var r := Step(d, st, line);
    var t := Touched(d, st.section, line);
    forall f: Scalar | t != Some(ScalarName(f))
      ensures ScalarOf(st.fields, f) == ScalarOf(r.fields, f)
    {
      StepScalar(d, st, line, f);
    }
    forall x: Badge | t != Some(BadgeName(x))
      ensures x in st.fields.badges <==> x in r.fields.badges
    {
      StepBadge(d, st, line, x);
    }
    forall s: Section | t != Some(BufferName(s))
      ensures BufferOf(st.fields, s) == BufferOf(r.fields, s)
    {
      StepBuffer(d, st, line, s);
    }
    match Classify(d, line)
    case None =>
    case Some(tag) =>
  }

  /** The title line sets the title from its value and closes the current section. */
  lemma TitleLine(d: Dialect, st: ParseState, line: String)
    requires KindOf(d, line) == Some(SetScalar(TitleField))
    ensures Step(d, st, line).fields.title == LineValue(d, line)
    ensures Step(d, st, line).section == NoSection
  {
  }

  /** With the abbreviated tags, a `T:` line's title drops every `T:` in the line, not just the first. */
  lemma AbbreviatedTitleValue(line: String)
    requires StartsWith(line, "T:")
    ensures KindOf(Abbreviated, line) == Some(SetScalar(TitleField))
    ensures LineValue(Abbreviated, line) == Trim(RemoveAll(line[2..], "T:"))
  {
    assert line == "T:" + line[2..];
    RemoveAllLeading("T:", line[2..]);
  }
}

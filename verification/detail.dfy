/**
 * The recipe detail screen: the edit state loaded from a stored recipe, the
 * save that writes it back, the two section headers, and the rows the
 * display shows for notes and steps.
 *
 * Views/Recipe/RecipeDetailView.swift edits all twelve badges;
 * Views/RecipeDetailView.swift (the `Six*` members) edits only the first six
 * and starts with the misencoded bullet.
 */
module Detail {
  import opened Wrappers
  import opened Text
  import opened Recipes
  import Editor

  /**
   * The `updated...` state of the screen. `image` stands for the selected
   * picture, named by the data it was decoded from (or picked as); it is
   * encoded again only when the recipe is saved.
   */
  datatype Edit = Edit(
    title: String,
    image: Option<Bytes>,
    prepTime: String,
    cookTime: String,
    badges: set<Badge>,
    cuisineIndex: int,
    ingredients: String,
    steps: String,
    notes: String,
    recipeURL: String)

  /** The picker position for a stored cuisine: its index, or 0 when it is missing or unknown. */
  function CuisineSelection(cuisine: Option<String>): (i: int)
    ensures 0 <= i < |CuisineOptions|
    ensures cuisine.GetOr("") in CuisineOptions ==> CuisineOptions[i] == cuisine.GetOr("")
    ensures cuisine.GetOr("") !in CuisineOptions ==> i == 0
  {
    match CuisineIndexOf(cuisine.GetOr(""))
    case Some(i) => i
    case None => 0
  }

  /**
   * `init(recipe:)` of the twelve-badge screen. `decodes` says whether
   * `UIImage(data:)` accepts the stored data; data it rejects loads no picture.
   */
  function InitEdit(r: Recipe, decodes: Bytes -> bool): (e: Edit)
    ensures 0 <= e.cuisineIndex < |CuisineOptions|
    ensures e.badges == r.badges
    ensures e.image.Some? <==> r.imageData.Some? && decodes(r.imageData.value)
    ensures e.image.Some? ==> e.image == r.imageData
  {
    var picture := if r.imageData.Some? && decodes(r.imageData.value) then r.imageData else None;
    Edit(r.title.GetOr(""), picture, r.prepTime.GetOr(""), r.cookTime.GetOr(""),
         r.badges, CuisineSelection(r.cuisine), r.ingredients.GetOr(""),
         r.steps.GetOr(""), r.notes.GetOr(""), r.recipeURL.GetOr(""))
  }

  /** The data stored for the selected picture: its `jpegData(compressionQuality: 0.8)`, or nil with no picture. */
  function StoredImage(image: Option<Bytes>, jpeg: Bytes -> Option<Bytes>): (d: Option<Bytes>)
    ensures image.None? ==> d.None?
    ensures image.Some? ==> d == jpeg(image.value)
  {
    match image
    case None => None
    case Some(picture) => jpeg(picture)
  }

  /**
   * `updateRecipe` of the twelve-badge screen: every edited field is written
   * back, and the picture is re-encoded by `jpeg` (JPEG at quality 0.8).
   */
  function UpdateRecipe(r: Recipe, e: Edit, jpeg: Bytes -> Option<Bytes>): (u: Recipe)
    requires 0 <= e.cuisineIndex < |CuisineOptions|
    ensures u.id == r.id && u.imageURL == r.imageURL
    ensures u.title == Some(e.title) && u.prepTime == Some(e.prepTime) && u.cookTime == Some(e.cookTime)
    ensures u.ingredients == Some(e.ingredients) && u.steps == Some(e.steps)
    ensures u.notes == Some(e.notes) && u.recipeURL == Some(e.recipeURL)
    ensures u.cuisine == Some(CuisineOptions[e.cuisineIndex])
    ensures u.badges == e.badges
    ensures e.image.None? ==> u.imageData.None?
    ensures e.image.Some? ==> u.imageData == jpeg(e.image.value)
  {
    r.(title := Some(e.title), prepTime := Some(e.prepTime), cookTime := Some(e.cookTime),
       ingredients := Some(e.ingredients), cuisine := Some(CuisineOptions[e.cuisineIndex]),
       badges := e.badges, steps := Some(e.steps), notes := Some(e.notes),
       recipeURL := Some(e.recipeURL), imageData := StoredImage(e.image, jpeg))
  }

  /**
   * Saving without editing keeps every badge and every text (an unset text
   * becomes ""), but a cuisine outside the list becomes the first option,
   * and the image is not kept as stored: data that decodes is replaced by its
   * re-encoding, and data that does not decode is dropped.
   */
  lemma SaveUnchangedEdit(r: Recipe, decodes: Bytes -> bool, jpeg: Bytes -> Option<Bytes>)
    ensures var u := UpdateRecipe(r, InitEdit(r, decodes), jpeg);
      && u.badges == r.badges
      && u.title == Some(r.title.GetOr("")) && u.steps == Some(r.steps.GetOr(""))
      && u.ingredients == Some(r.ingredients.GetOr("")) && u.notes == Some(r.notes.GetOr(""))
      && u.cuisine == Some(if r.cuisine.GetOr("") in CuisineOptions then r.cuisine.GetOr("") else CuisineOptions[0])
      && u.imageData == (if r.imageData.Some? && decodes(r.imageData.value) then jpeg(r.imageData.value) else None)
  {
  }

  /** An untouched save changes the stored image whenever the encoder does not reproduce the stored data. */
  lemma SaveUnchangedRewritesImage(r: Recipe, decodes: Bytes -> bool, jpeg: Bytes -> Option<Bytes>)
    requires r.imageData.Some?
    requires !decodes(r.imageData.value) || jpeg(r.imageData.value) != r.imageData
    ensures UpdateRecipe(r, InitEdit(r, decodes), jpeg).imageData != r.imageData
  {
    SaveUnchangedEdit(r, decodes, jpeg);
  }

  /** A recipe with no cuisine, or one not in the list, is saved as "Mexican". */
  lemma UnknownCuisineSavedAsMexican(r: Recipe, decodes: Bytes -> bool, jpeg: Bytes -> Option<Bytes>)
    requires r.cuisine.GetOr("") !in CuisineOptions
    ensures UpdateRecipe(r, InitEdit(r, decodes), jpeg).cuisine == Some("Mexican")
  {
  }

  /** `init(recipe:)` of the six-badge screen: only the first six flags are loaded. */
  function SixInitEdit(r: Recipe, decodes: Bytes -> bool): (e: Edit)
    ensures 0 <= e.cuisineIndex < |CuisineOptions|
    ensures e.badges == r.badges * FirstSix
    ensures e.(badges := r.badges) == InitEdit(r, decodes)
  {
    InitEdit(r, decodes).(badges := r.badges * FirstSix)
  }

  /** `updateRecipe` of the six-badge screen: only the first six flags are written. */
  function SixUpdateRecipe(r: Recipe, e: Edit, jpeg: Bytes -> Option<Bytes>): (u: Recipe)
    requires 0 <= e.cuisineIndex < |CuisineOptions|
    ensures u.(badges := r.badges) == UpdateRecipe(r, e, jpeg).(badges := r.badges)
    ensures forall b :: b in FirstSix ==> (b in u.badges <==> b in e.badges)
    ensures forall b :: b !in FirstSix ==> (b in u.badges <==> b in r.badges)
  {
    UpdateRecipe(r, e, jpeg).(badges := (r.badges - FirstSix) + e.badges * FirstSix)
  }

  /** Saving on the six-badge screen never changes the other six badges, whatever was edited. */
  lemma SixSaveKeepsOtherBadges(r: Recipe, e: Edit, decodes: Bytes -> bool, jpeg: Bytes -> Option<Bytes>)
    requires 0 <= e.cuisineIndex < |CuisineOptions|
    ensures SixUpdateRecipe(r, e, jpeg).badges - FirstSix == r.badges - FirstSix
    ensures SixUpdateRecipe(r, SixInitEdit(r, decodes), jpeg).badges == r.badges
  {
    var u := SixUpdateRecipe(r, SixInitEdit(r, decodes), jpeg);
    assert forall b :: b in u.badges <==> b in r.badges;
  }

  // ---------------------------------------------------------------------
  // Headers
  // ---------------------------------------------------------------------

  /** `prepAndCookTimeHeader`. */
  function PrepAndCookTimeHeader(prepTime: String, cookTime: String): (h: String)
    ensures h == [] <==> prepTime == [] && cookTime == []
  {
    if prepTime != [] && cookTime != [] then "Prep & Cook Time"
    else if prepTime != [] then "Prep Time"
    else if cookTime != [] then "Cook Time"
    else ""
  }

  /** The header names the non-empty times, joined with " & ", followed by " Time"; "" when neither is set. */
  lemma PrepAndCookTimeHeaderNames(prepTime: String, cookTime: String)
    ensures var names := (if prepTime != [] then ["Prep"] else []) + (if cookTime != [] then ["Cook"] else []);
      PrepAndCookTimeHeader(prepTime, cookTime) == if names == [] then "" else Join(names, " & ") + " Time"
  {
    if prepTime != [] && cookTime != [] {
      assert (["Prep"] + ["Cook"])[1..] == ["Cook"];
    }
  }

  /** The badge row of the twelve-badge screen is shown when any of the twelve flags is set. */
  predicate BadgeRowShown(badges: set<Badge>) {
    GlutenFree in badges || SugarFree in badges || DairyFree in badges || GmoFree in badges
    || Organic in badges || Vegetarian in badges || PeanutFree in badges || NutFree in badges
    || EggFree in badges || NoTransFat in badges || CornFree in badges || SoyFree in badges
  }

  /** The badge row of the six-badge screen looks at the first six flags only. */
  predicate SixBadgeRowShown(badges: set<Badge>) {
    GlutenFree in badges || SugarFree in badges || DairyFree in badges || GmoFree in badges
    || Organic in badges || Vegetarian in badges
  }

  /** `nutritionHeader`, the same on both screens: it looks at the first six flags only. */
  function NutritionHeader(badges: set<Badge>): (h: String)
    ensures h == "Nutrition & Cuisine" <==> badges * FirstSix != {}
    ensures h != "Nutrition & Cuisine" ==> h == "Cuisine"
  {
    FirstSixMeets(badges);
    if GlutenFree in badges || SugarFree in badges || DairyFree in badges || GmoFree in badges
       || Organic in badges || Vegetarian in badges
    then "Nutrition & Cuisine"
    else "Cuisine"
  }

  lemma FirstSixMember(badges: set<Badge>)
    ensures SixBadgeRowShown(badges) <==> badges * FirstSix != {}
  {
    FirstSixMeets(badges);
  }

  /**
   * On the twelve-badge screen the header says "Nutrition & Cuisine" exactly
   * when a first-six flag is set, while the row shows for any flag: a recipe
   * whose only flags are among the last six shows badges under "Cuisine".
   */
  lemma NutritionHeaderMismatch(badges: set<Badge>)
    ensures BadgeRowShown(badges) <==> badges != {}
    ensures NutritionHeader(badges) == "Nutrition & Cuisine" <==> badges * FirstSix != {}
    ensures BadgeRowShown(badges) && NutritionHeader(badges) == "Cuisine" <==>
      badges != {} && badges * FirstSix == {}
  {
    FirstSixMember(badges);
    if badges != {} {
      var b :| b in badges;
      assert BadgeRowShown(badges) by {
        match b
        case GlutenFree => case SugarFree => case DairyFree => case GmoFree =>
        case Organic => case Vegetarian => case PeanutFree => case NutFree =>
        case EggFree => case NoTransFat => case CornFree => case SoyFree =>
      }
    }
  }

  /** Only soy-free: a badge is shown under the plain "Cuisine" header. */
  lemma SoyFreeOnlyShowsCuisineHeader()
    ensures BadgeRowShown({SoyFree}) && NutritionHeader({SoyFree}) == "Cuisine"
  {
    NutritionHeaderMismatch({SoyFree});
    assert {SoyFree} * FirstSix == {};
  }

  /** On the six-badge screen the header and the badge row always agree. */
  lemma SixHeaderMatchesRow(badges: set<Badge>)
    ensures NutritionHeader(badges) == "Nutrition & Cuisine" <==> SixBadgeRowShown(badges)
    ensures NutritionHeader(badges) == "Nutrition & Cuisine" <==> badges * FirstSix != {}
  {
    FirstSixMember(badges);
  }

  // ---------------------------------------------------------------------
  // Editing and display of notes and steps
  // ---------------------------------------------------------------------

  /** `updateBulletPoints`: both ingredients and notes are re-bulleted on any edit. */
  function UpdateBulletPoints(bullet: String, e: Edit): (r: Edit)
    ensures r.(ingredients := e.ingredients, notes := e.notes) == e
    ensures r.ingredients == Editor.AddBullets(bullet, e.ingredients)
    ensures r.notes == Editor.AddBullets(bullet, e.notes)
  {
    e.(ingredients := Editor.AddBullets(bullet, e.ingredients), notes := Editor.AddBullets(bullet, e.notes))
  }

  /** `updateStepNumbers`. */
  function UpdateStepNumbers(first: int, e: Edit): (r: Edit)
    ensures r.(steps := e.steps) == e
    ensures r.steps == Editor.AddStepNumbers(first, e.steps)
  {
    e.(steps := Editor.AddStepNumbers(first, e.steps))
  }

  /**
   * An edit of the ingredients also normalises the notes: whatever the notes
   * held, after the hook they are bulleted, and a second run changes nothing.
   */
  lemma UpdateBulletPointsNormalises(bullet: String, e: Edit)
    requires '\n' !in bullet
    ensures UpdateBulletPoints(bullet, UpdateBulletPoints(bullet, e)) == UpdateBulletPoints(bullet, e)
    ensures forall i :: 0 <= i < |Editor.Lines(UpdateBulletPoints(bullet, e).notes)| ==>
      var line := Editor.Lines(UpdateBulletPoints(bullet, e).notes)[i];
      line == [] || StartsWith(line, bullet)
  {
    Editor.AddBulletsIdempotent(bullet, e.ingredients);
    Editor.AddBulletsIdempotent(bullet, e.notes);
    Editor.AddBulletsShape(bullet, e.notes);
  }

  /** The three-character misencoded bullet bullets idempotently too. */
  lemma MisencodedBulletIdempotent(text: String)
    ensures |Editor.MisencodedBullet| == 3
    ensures Editor.AddBullets(Editor.MisencodedBullet, Editor.AddBullets(Editor.MisencodedBullet, text))
         == Editor.AddBullets(Editor.MisencodedBullet, text)
  {
    Editor.AddBulletsIdempotent(Editor.MisencodedBullet, text);
  }

  /** `split(separator: "\n")` with empty pieces dropped. */
  function NonEmptyLines(text: String): seq<String> {
    NonEmpty(Editor.Lines(text))
  }

  /** The note rows: each non-empty line with its bullet removed. */
  function NoteRows(bullet: String, notes: String): (rows: seq<String>)
    ensures |rows| == |NonEmptyLines(notes)|
    ensures rows == UndoAll(Some(bullet), NonEmptyLines(notes))
  {
    var ne := NonEmptyLines(notes);
    seq(|ne|, i requires 0 <= i < |ne| => Editor.RemoveBullet(bullet, ne[i]))
  }

  /** The step rows: each non-empty line with its number removed. */
  function StepRows(steps: String): (rows: seq<String>)
    ensures |rows| == |NonEmptyLines(steps)|
    ensures rows == UndoAll(None, NonEmptyLines(steps))
  {
    var ne := NonEmptyLines(steps);
    seq(|ne|, i requires 0 <= i < |ne| => Editor.RemoveNumbering(ne[i]))
  }

  /** The entries of `target` at the positions where `src` is non-empty, in order. */
  function Kept(src: seq<String>, target: seq<String>): seq<String>
    requires |src| == |target|
  {
    if |src| == 0 then []
    else (if src[0] != [] then [target[0]] else []) + Kept(src[1..], target[1..])
  }

  lemma {:induction false} KeptSelf(xs: seq<String>)
    ensures Kept(xs, xs) == NonEmpty(xs)
    decreases |xs|
  {
    if |xs| > 0 {
      KeptSelf(xs[1..]);
    }
  }

  /** The display-side inverse: `RemoveBullet` for a bullet, `RemoveNumbering` otherwise. */
  function Undo(bullet: Option<String>, line: String): String {
    match bullet
    case Some(b) => Editor.RemoveBullet(b, line)
    case None => Editor.RemoveNumbering(line)
  }

  /** `Undo` applied to every line. */
  function UndoAll(undo: Option<String>, xs: seq<String>): (r: seq<String>)
    ensures |r| == |xs|
    ensures forall i :: 0 <= i < |xs| ==> r[i] == Undo(undo, xs[i])
  {
    if |xs| == 0 then [] else [Undo(undo, xs[0])] + UndoAll(undo, xs[1..])
  }

  /**
   * Dropping the empty lines of a rewritten text and undoing the rewrite on
   * the rest is the same as keeping, for each non-empty source line, what the
   * undo gives for it.
   */
  lemma {:induction false} StripAfterFilter(done: seq<String>, src: seq<String>, target: seq<String>, undo: Option<String>)
    requires |done| == |src| == |target|
    requires forall i :: 0 <= i < |done| ==> (done[i] == [] <==> src[i] == [])
    requires forall i :: 0 <= i < |done| && done[i] != [] ==> Undo(undo, done[i]) == target[i]
    ensures UndoAll(undo, NonEmpty(done)) == Kept(src, target)
    decreases |done|
  {
    if |done| > 0 {
      StripAfterFilter(done[1..], src[1..], target[1..], undo);
      if done[0] != [] {
        assert UndoAll(undo, [done[0]] + NonEmpty(done[1..]))
            == [target[0]] + UndoAll(undo, NonEmpty(done[1..]));
      }
    }
  }

  /**
   * The step rows of a numbered text (from a non-negative first number) are
   * the typed lines with their own number stripped, empty ones left out: the
   * numbers the editor adds never show.
   */
  lemma StepRowsOfNumbered(first: int, text: String)
    requires first >= 0
    ensures var ls := Editor.Lines(text);
      StepRows(Editor.AddStepNumbers(first, text)) ==
      NonEmpty(seq(|ls|, i requires 0 <= i < |ls| => Editor.RemoveNumbering(ls[i])))
  {
    var ls := Editor.Lines(text);
    var plain := seq(|ls|, i requires 0 <= i < |ls| => Editor.RemoveNumbering(ls[i]));
    Editor.AddStepNumbersLines(first, text);
    var done := Editor.Lines(Editor.AddStepNumbers(first, text));
    forall i | 0 <= i < |done|
      ensures done[i] == [] <==> plain[i] == []
      ensures done[i] != [] ==> Undo(None, done[i]) == plain[i]
    {
      Editor.RemoveNumberingUndoesNumber(first, i, plain[i]);
    }
    StripAfterFilter(done, plain, plain, None);
    KeptSelf(plain);
    assert StepRows(Editor.AddStepNumbers(first, text)) == UndoAll(None, NonEmpty(done));
  }

  /**
   * The note rows of a bulleted text show one row per non-empty typed line:
   * the line bulleted and then stripped, which for a line that did not carry
   * the bullet is the line without its leading whitespace.
   */
  lemma NoteRowsOfBulleted(bullet: String, text: String)
    requires '\n' !in bullet
    ensures var ls := Editor.Lines(text);
      NoteRows(bullet, Editor.AddBullets(bullet, text)) ==
      Kept(ls, seq(|ls|, i requires 0 <= i < |ls| => Editor.RemoveBullet(bullet, Editor.BulletLine(bullet, ls[i]))))
    ensures forall line :: line != [] && !StartsWith(line, bullet) ==>
      Editor.RemoveBullet(bullet, Editor.BulletLine(bullet, line)) == TrimStart(line)
  {
    var ls := Editor.Lines(text);
    var shown := seq(|ls|, i requires 0 <= i < |ls| => Editor.RemoveBullet(bullet, Editor.BulletLine(bullet, ls[i])));
    Editor.AddBulletsLines(bullet, text);
    var done := Editor.Lines(Editor.AddBullets(bullet, text));
    StripAfterFilter(done, ls, shown, Some(bullet));
    assert NoteRows(bullet, Editor.AddBullets(bullet, text)) == UndoAll(Some(bullet), NonEmpty(done));
    forall line | line != [] && !StartsWith(line, bullet)
      ensures Editor.RemoveBullet(bullet, Editor.BulletLine(bullet, line)) == TrimStart(line)
    {
      Editor.RemoveBulletUndoesBullet(bullet, line);
    }
  }
}

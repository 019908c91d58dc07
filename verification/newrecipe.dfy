/**
 * The new-recipe form: its manual and imported halves, the import button,
 * the bullet and step-number buffer switch, and the three generations of
 * the add-recipe flow.
 *
 * - `Current*`: Views/Tabs/NewRecipeView.swift with its extensions
 *   Extensions/AddRecipe.swift and Extensions/ImportRecipe.swift (twelve
 *   badges, abbreviated import tags).
 * - `Labelled*`: Views/NewRecipeView.swift (six badges, labelled import).
 * - `Original*`: NewRecipeView.swift (no import, separate cuisine check).
 */
module NewRecipe {
  import opened Wrappers
  import opened Text
  import opened Recipes
  import Importer
  import Editor

  /** What the user typed or toggled by hand. */
  datatype Manual = Manual(
    title: String,
    prepTime: String,
    cookTime: String,
    badges: set<Badge>,
    ingredients: String,
    steps: String,
    notes: String,
    recipeURL: String)

  const EmptyManual: Manual := Manual("", "", "", {}, "", "", "", "")

  /**
   * The form of the import-capable screens. `cuisineIndex` is the picker
   * selection, -1 for "Select"; `image` stands for what
   * `jpegData(compressionQuality: 1.0)` makes of the selected photo, `None`
   * when there is no photo or the encoding fails.
   */
  datatype Form = Form(
    manual: Manual,
    cuisineIndex: int,
    imported: Importer.Imported,
    isImportingData: bool,
    image: Option<Bytes>)

  /** Every badge off, no cuisine, nothing typed, nothing imported. */
  const InitialForm: Form := Form(EmptyManual, -1, Importer.NothingImported, false, None)

  // ---------------------------------------------------------------------
  // Import button
  // ---------------------------------------------------------------------

  /** `dataButtonDisabled`: the import button is off once anything was entered by hand. */
  predicate DataButtonDisabled(f: Form) {
    var m := f.manual;
    m.title != [] || m.prepTime != [] || m.cookTime != []
    || GlutenFree in m.badges || SugarFree in m.badges || DairyFree in m.badges
    || GmoFree in m.badges || Organic in m.badges || Vegetarian in m.badges
    || f.cuisineIndex != -1
    || m.ingredients != [] || m.steps != [] || m.notes != [] || m.recipeURL != []
  }

  /**
   * The import button is enabled exactly when the manual half, with only the
   * first six badges looked at, is still untouched and no cuisine is picked:
   * the last six badges do not count as input.
   */
  lemma DataButtonDisabledIff(f: Form)
    ensures DataButtonDisabled(f) <==>
      f.manual.(badges := f.manual.badges * FirstSix) != EmptyManual || f.cuisineIndex != -1
  {
    var m := f.manual;
    var six := GlutenFree in m.badges || SugarFree in m.badges || DairyFree in m.badges
               || GmoFree in m.badges || Organic in m.badges || Vegetarian in m.badges;
    FirstSixMeets(m.badges);
    assert m.badges * FirstSix != {} <==> six;
  }

  /** The notice an import shows. */
  datatype Notice = RecipeImported | NoRecipeFound | ClipboardEmpty | NoNotice

  datatype ImportOutcome = ImportOutcome(form: Form, notice: Notice)

  /**
   * The picker's `onChange(of: importedCuisine)`: when the imported cuisine
   * changes to one of the options, the picker selects it.
   */
  function SyncCuisine(f: Form, previous: String): (r: Form)
    ensures r.(cuisineIndex := f.cuisineIndex) == f
    ensures r.cuisineIndex != f.cuisineIndex ==>
      f.imported.cuisine != previous && 0 <= r.cuisineIndex < |CuisineOptions|
      && CuisineOptions[r.cuisineIndex] == f.imported.cuisine
  {
    if f.imported.cuisine == previous then f
    else match CuisineIndexOf(f.imported.cuisine)
      case Some(i) => f.(cuisineIndex := i)
      case None => f
  }

  /** The clipboard holds a string: parse it, store every parsed field, switch to the imported buffers. */
  function ImportText(d: Importer.Dialect, f: Form, text: String): (r: ImportOutcome)
    ensures r.form.isImportingData
    ensures r.form.imported == Importer.ParseClipboard(d, text)
    ensures r.form.manual == f.manual && r.form.image == f.image
    ensures r.notice == RecipeImported || r.notice == NoRecipeFound
    ensures r.notice == RecipeImported <==> Importer.Found(r.form.imported)
  {
    var parsed := Importer.ParseClipboard(d, text);
    var stored := SyncCuisine(f.(imported := parsed, isImportingData := true), f.imported.cuisine);
    ImportOutcome(stored, if Importer.Found(parsed) then RecipeImported else NoRecipeFound)
  }

  /** `importData` of the current screen: an absent clipboard string only shows "The clipboard is empty.". */
  function CurrentImport(f: Form, clipboard: Option<String>): (r: ImportOutcome)
    ensures clipboard.None? ==> r == ImportOutcome(f, ClipboardEmpty)
    ensures clipboard.Some? ==> r.form.isImportingData && r.notice != ClipboardEmpty
  {
    match clipboard
    case None => ImportOutcome(f, ClipboardEmpty)
    case Some(text) => ImportText(Importer.Abbreviated, f, text)
  }

  /** `importData` of the labelled screen: an absent clipboard string does nothing at all. */
  function LabelledImport(f: Form, clipboard: Option<String>): (r: ImportOutcome)
    ensures clipboard.None? ==> r == ImportOutcome(f, NoNotice)
    ensures clipboard.Some? ==> r.form.isImportingData && r.notice != NoNotice
  {
    match clipboard
    case None => ImportOutcome(f, NoNotice)
    case Some(text) => ImportText(Importer.Verbose, f, text)
  }

  /** The labelled screen's import can set only the six flags it has labels for. */
  lemma LabelledImportSetsFirstSix(f: Form, text: String)
    ensures LabelledImport(f, Some(text)).form.imported.badges <= FirstSix
  {
    var lines := SplitLines(text);
    var d := Importer.Verbose;
    forall b | b in Importer.Parse(d, lines).fields.badges
      ensures b in FirstSix
    {
      Importer.ParseBadge(d, lines, b);
      var i := Importer.LastTagged(d, lines, Importer.KindIs(Importer.SetFlag(b))).value;
      Importer.VerboseFlags(Importer.Classify(d, lines[i]).value);
    }
  }

  // ---------------------------------------------------------------------
  // The editor buffer switch
  // ---------------------------------------------------------------------

  /** `addBulletPoints`: bullets the ingredients and notes of whichever half is shown. */
  function BulletForm(bullet: String, f: Form): (r: Form)
    ensures r.isImportingData == f.isImportingData && r.cuisineIndex == f.cuisineIndex && r.image == f.image
    ensures f.isImportingData ==>
      && r.manual == f.manual
      && r.imported == f.imported.(ingredients := Editor.AddBullets(bullet, f.imported.ingredients),
                                   notes := Editor.AddBullets(bullet, f.imported.notes))
    ensures !f.isImportingData ==>
      && r.imported == f.imported
      && r.manual == f.manual.(ingredients := Editor.AddBullets(bullet, f.manual.ingredients),
                               notes := Editor.AddBullets(bullet, f.manual.notes))
  {
    if f.isImportingData then
      var i := f.imported;
      f.(imported := i.(ingredients := Editor.AddBullets(bullet, i.ingredients),
                        notes := Editor.AddBullets(bullet, i.notes)))
    else
      var m := f.manual;
      f.(manual := m.(ingredients := Editor.AddBullets(bullet, m.ingredients),
                      notes := Editor.AddBullets(bullet, m.notes)))
  }

  /** `addStepNumbers`: numbers the steps of whichever half is shown. */
  function NumberForm(first: int, f: Form): (r: Form)
    ensures r.isImportingData == f.isImportingData && r.cuisineIndex == f.cuisineIndex && r.image == f.image
    ensures f.isImportingData ==>
      r.manual == f.manual && r.imported == f.imported.(steps := Editor.AddStepNumbers(first, f.imported.steps))
    ensures !f.isImportingData ==>
      r.imported == f.imported && r.manual == f.manual.(steps := Editor.AddStepNumbers(first, f.manual.steps))
  {
    if f.isImportingData then f.(imported := f.imported.(steps := Editor.AddStepNumbers(first, f.imported.steps)))
    else f.(manual := f.manual.(steps := Editor.AddStepNumbers(first, f.manual.steps)))
  }

  /** Re-running the editor hooks on an unchanged form changes nothing. */
  lemma EditorHooksIdempotent(bullet: String, first: int, f: Form)
    requires '\n' !in bullet && first >= 0
    ensures BulletForm(bullet, BulletForm(bullet, f)) == BulletForm(bullet, f)
    ensures NumberForm(first, NumberForm(first, f)) == NumberForm(first, f)
  {
    if f.isImportingData {
      Editor.AddBulletsIdempotent(bullet, f.imported.ingredients);
      Editor.AddBulletsIdempotent(bullet, f.imported.notes);
      Editor.AddStepNumbersIdempotent(first, f.imported.steps);
    } else {
      Editor.AddBulletsIdempotent(bullet, f.manual.ingredients);
      Editor.AddBulletsIdempotent(bullet, f.manual.notes);
      Editor.AddStepNumbersIdempotent(first, f.manual.steps);
    }
  }

  // ---------------------------------------------------------------------
  // Validation messages
  // ---------------------------------------------------------------------

  /** The imported value when there is one, else the typed one. */
  function Merge(imported: String, typed: String): (r: String)
    ensures r == imported || r == typed
    ensures r == [] <==> imported == [] && typed == []
  {
    if imported != [] then imported else typed
  }

  /** "Please fill in X." for one missing field, "Please fill in A, B and C." for several. */
  function MissingMessage(missing: seq<String>): (r: String)
    requires |missing| >= 1
    ensures StartsWith(r, "Please fill in ") && r[|r| - 1] == '.'
  {
    if |missing| == 1 then "Please fill in " + missing[0] + "."
    else "Please fill in " + Join(missing[..|missing| - 1], ", ") + " and " + missing[|missing| - 1] + "."
  }

  const SelectCuisineMessage: String := "Please select a cuisine."

  /** No missing-field message is the select-a-cuisine message. */
  lemma MissingMessageIsNotSelectCuisine(missing: seq<String>)
    requires |missing| >= 1
    ensures MissingMessage(missing) != SelectCuisineMessage
  {
    var r := MissingMessage(missing);
    assert r[7] == 'f';
    assert SelectCuisineMessage[7] == 's';
  }

  /** The field names in the order they are checked. */
  const FieldOrder: seq<String> := ["Title", "Cuisine", "Ingredients", "Steps"]

  /** The missing-field list of the current and labelled screens. */
  function Missing(title: String, cuisineIndex: int, ingredients: String, steps: String): (r: seq<String>)
    ensures "Title" in r <==> title == []
    ensures "Cuisine" in r <==> cuisineIndex == -1
    ensures "Ingredients" in r <==> ingredients == []
    ensures "Steps" in r <==> steps == []
    ensures forall i :: 0 <= i < |r| - 1 ==> Position(r[i]) < Position(r[i + 1])
  {
    FieldPositions();
    (if title == [] then ["Title"] else [])
    + (if cuisineIndex == -1 then ["Cuisine"] else [])
    + (if ingredients == [] then ["Ingredients"] else [])
    + (if steps == [] then ["Steps"] else [])
  }

  /** Where a field name stands in `FieldOrder`. */
  function Position(name: String): int {
    if name == "Title" then 0
    else if name == "Cuisine" then 1
    else if name == "Ingredients" then 2
    else if name == "Steps" then 3
    else 4
  }

  lemma FieldPositions()
    ensures Position("Title") == 0 && Position("Cuisine") == 1
    ensures Position("Ingredients") == 2 && Position("Steps") == 3
  {
  }

  /** The message listing every field: commas between all but the last two, then "and". */
  lemma MissingMessageFieldOrder()
    ensures MissingMessage(FieldOrder) == "Please fill in " + "Title, Cuisine, Ingredients" + " and " + "Steps" + "."
  {
    var front: seq<String> := ["Title", "Cuisine", "Ingredients"];
    assert FieldOrder[..3] == front;
    assert front[1..] == ["Cuisine", "Ingredients"];
    assert front[1..][1..] == ["Ingredients"];
  }

  /**
   * A list of names in English, read from the front: "A", "A and B",
   * "A, B and C", and so on.
   */
  function NameList(names: seq<String>): String
    requires |names| >= 1
    decreases |names|
  {
    if |names| == 1 then names[0]
    else if |names| == 2 then names[0] + " and " + names[1]
    else names[0] + ", " + NameList(names[1..])
  }

  /** A list of two or more names ends with " and " and the last name, after a comma list of the rest. */
  lemma {:induction false} NameListJoin(names: seq<String>)
    requires |names| >= 2
    ensures NameList(names) == Join(names[..|names| - 1], ", ") + " and " + names[|names| - 1]
    decreases |names|
  {
    var n := |names|;
    if n > 2 {
      var tail := names[1..];
      NameListJoin(tail);
      assert tail[..|tail| - 1] == names[..n - 1][1..];
      assert tail[|tail| - 1] == names[n - 1];
      var front := names[..n - 1];
      assert Join(front, ", ") == front[0] + ", " + Join(front[1..], ", ");
    }
  }

  /** The message names every missing field, in order, as an English list. */
  lemma MissingMessageList(missing: seq<String>)
    requires |missing| >= 1
    ensures MissingMessage(missing) == "Please fill in " + NameList(missing) + "."
  {
    if |missing| >= 2 {
      var p, j, last := "Please fill in ", Join(missing[..|missing| - 1], ", "), missing[|missing| - 1];
      NameListJoin(missing);
      assert MissingMessage(missing) == p + j + " and " + last + ".";
      Regroup(p, j, " and ", last, ".");
    }
  }

  lemma Regroup(a: String, b: String, c: String, d: String, e: String)
    ensures a + b + c + d + e == a + (b + c + d) + e
  {
  }

  /** The message for one missing field names it alone. */
  lemma MissingMessageOne(name: String)
    ensures MissingMessage([name]) == "Please fill in " + name + "."
  {
  }

  // ---------------------------------------------------------------------
  // Add recipe: the current screen
  // ---------------------------------------------------------------------

  /** What pressing the add button produces. `Trapped` is a Swift runtime trap. */
  datatype AddOutcome = Rejected(message: String) | Inserted(recipe: Recipe) | Trapped

  /** `finalCuisine`: the picked option, or "" for an index outside the list. */
  function FinalCuisine(cuisineIndex: int): (r: String)
    ensures 0 <= cuisineIndex < |CuisineOptions| ==> r == CuisineOptions[cuisineIndex]
    ensures !(0 <= cuisineIndex < |CuisineOptions|) ==> r == []
  {
    if 0 <= cuisineIndex < |CuisineOptions| then CuisineOptions[cuisineIndex] else ""
  }

  function CurrentMissing(f: Form): seq<String> {
    Missing(Merge(f.imported.title, f.manual.title), f.cuisineIndex,
            Merge(f.imported.ingredients, f.manual.ingredients),
            Merge(f.imported.steps, f.manual.steps))
  }

  /** `addRecipe` of Extensions/AddRecipe.swift; `id` is the fresh UUID string. */
  function CurrentAdd(f: Form, id: String): AddOutcome {
    var i := f.imported;
    var m := f.manual;
    var missing := CurrentMissing(f);
    if missing != [] || f.cuisineIndex == -1 then
      Rejected(if missing != [] then MissingMessage(missing) else SelectCuisineMessage)
    else
      Inserted(Recipe(
        id := Some(id),
        title := Some(Merge(i.title, m.title)),
        imageData := f.image,
        imageURL := None,
        prepTime := Some(Merge(i.prepTime, m.prepTime)),
        cookTime := Some(Merge(i.cookTime, m.cookTime)),
        cuisine := Some(FinalCuisine(f.cuisineIndex)),
        ingredients := Some(Merge(i.ingredients, m.ingredients)),
        steps := Some(Merge(i.steps, m.steps)),
        notes := Some(Merge(i.notes, m.notes)),
        recipeURL := Some(Merge(i.url, m.recipeURL)),
        badges := i.badges + m.badges))
  }

  /**
   * A recipe is inserted exactly when a title, ingredients and steps are
   * present in either half and a cuisine is picked; otherwise the message
   * lists what is missing, and never asks only for a cuisine.
   */
  lemma CurrentAddValidation(f: Form, id: String)
    ensures CurrentAdd(f, id).Inserted? <==>
      && (f.imported.title != [] || f.manual.title != [])
      && f.cuisineIndex != -1
      && (f.imported.ingredients != [] || f.manual.ingredients != [])
      && (f.imported.steps != [] || f.manual.steps != [])
    ensures !CurrentAdd(f, id).Trapped?
    ensures CurrentAdd(f, id).Rejected? ==>
      CurrentMissing(f) != [] && CurrentAdd(f, id).message == MissingMessage(CurrentMissing(f))
    ensures CurrentAdd(f, id) != Rejected(SelectCuisineMessage)
  {
    var missing := CurrentMissing(f);
    if missing != [] {
      MissingMessageIsNotSelectCuisine(missing);
    } else {
      assert "Cuisine" !in missing;
    }
  }

  /**
   * An inserted recipe takes each text field from the imported half when it
   * is non-empty, else from the typed half; a badge is set when it is set in
   * either half; the cuisine is the picked option.
   */
  lemma CurrentAddMerges(f: Form, id: String)
    requires CurrentAdd(f, id).Inserted?
    ensures var r := CurrentAdd(f, id).recipe;
      && r.id == Some(id)
      && r.title.Some? && r.title.value != []
      && (r.title.value == f.imported.title || (f.imported.title == [] && r.title.value == f.manual.title))
      && r.ingredients.Some? && r.ingredients.value != []
      && r.steps.Some? && r.steps.value != []
      && (r.notes == Some(f.imported.notes) || (f.imported.notes == [] && r.notes == Some(f.manual.notes)))
      && (forall b: Badge :: b in r.badges <==> b in f.imported.badges || b in f.manual.badges)
      && (0 <= f.cuisineIndex < |CuisineOptions| ==> r.cuisine == Some(CuisineOptions[f.cuisineIndex]))
      && r.imageData == f.image
  {
    CurrentAddValidation(f, id);
  }

  /** `clearAllFields`: both halves, the badges, the cuisine and the image are reset. */
  function ClearAllFields(f: Form): (r: Form)
    ensures r.(isImportingData := false) == InitialForm
    ensures r.isImportingData == f.isImportingData
  {
    Form(Manual("", "", "", {}, "", "", "", ""), -1,
         Importer.Imported("", "", "", "", {}, "", "", "", ""),
         f.isImportingData, None)
  }

  /** The form after pressing add: cleared only when a recipe was inserted and the save succeeded. */
  function CurrentAfterAdd(f: Form, id: String, saveSucceeds: bool): (r: Form)
    ensures CurrentAdd(f, id).Inserted? && saveSucceeds ==> r == ClearAllFields(f)
    ensures !(CurrentAdd(f, id).Inserted? && saveSucceeds) ==> r == f
  {
    if CurrentAdd(f, id).Inserted? && saveSucceeds then ClearAllFields(f) else f
  }

  /** After a successful save the form is blank again: adding once more asks for every field. */
  lemma AddAfterSaveAsksForEverything(f: Form, id: String, again: String)
    requires CurrentAdd(f, id).Inserted?
    ensures CurrentAdd(CurrentAfterAdd(f, id, true), again) == Rejected(MissingMessage(FieldOrder))
  {
    ClearedFormAsksForEverything(ClearAllFields(f), again);
  }

  /** A blank form, whatever its import flag, is missing every field. */
  lemma ClearedFormAsksForEverything(g: Form, again: String)
    requires g.(isImportingData := false) == InitialForm
    ensures CurrentAdd(g, again) == Rejected(MissingMessage(FieldOrder))
  {
    assert g.manual == EmptyManual && g.imported == Importer.NothingImported && g.cuisineIndex == -1;
    assert CurrentMissing(g) == Missing("", -1, "", "");
    assert Missing("", -1, "", "") == ["Title"] + ["Cuisine"] + ["Ingredients"] + ["Steps"];
    assert CurrentMissing(g) == FieldOrder;
  }

  // ---------------------------------------------------------------------
  // Add recipe: the labelled screen
  // ---------------------------------------------------------------------

  function LabelledMissing(f: Form): seq<String> {
    CurrentMissing(f)
  }

  /** The recipe the labelled screen inserts: only six flags are written. */
  function LabelledRecipe(f: Form, id: String, cuisine: String): Recipe {
    var i := f.imported;
    var m := f.manual;
    Recipe(
      id := Some(id),
      title := Some(Merge(i.title, m.title)),
      imageData := f.image,
      imageURL := None,
      prepTime := Some(Merge(i.prepTime, m.prepTime)),
      cookTime := Some(Merge(i.cookTime, m.cookTime)),
      cuisine := Some(cuisine),
      ingredients := Some(Merge(i.ingredients, m.ingredients)),
      steps := Some(Merge(i.steps, m.steps)),
      notes := Some(Merge(i.notes, m.notes)),
      recipeURL := Some(Merge(i.url, m.recipeURL)),
      badges := (i.badges + m.badges) * FirstSix)
  }

  /**
   * `addRecipe` of Views/NewRecipeView.swift as written: the cuisine is
   * looked up before validation, so with no imported cuisine and no picked
   * cuisine the lookup `cuisineOptions[-1]` traps.
   */
  function LabelledAddAsWritten(f: Form, id: String): (r: AddOutcome)
    ensures r.Trapped? <==> f.imported.cuisine == [] && !(0 <= f.cuisineIndex < |CuisineOptions|)
  {
    if f.imported.cuisine == [] && !(0 <= f.cuisineIndex < |CuisineOptions|) then Trapped
    else
      var cuisine := if f.imported.cuisine != [] then f.imported.cuisine else CuisineOptions[f.cuisineIndex];
      var missing := LabelledMissing(f);
      if missing != [] then Rejected(MissingMessage(missing))
      else Inserted(LabelledRecipe(f, id, cuisine))
  }

  /** Pressing add on the untouched labelled form traps instead of listing the four missing fields. */
  lemma LabelledBlankFormTraps(id: String)
    ensures LabelledAddAsWritten(InitialForm, id) == Trapped
    ensures LabelledAdd(InitialForm, id) == Rejected(MissingMessage(FieldOrder))
  {
    assert LabelledMissing(InitialForm) == FieldOrder;
  }

  /** The labelled `addRecipe` with validation first, so no lookup happens for an unpicked cuisine. */
  function LabelledAdd(f: Form, id: String): (r: AddOutcome)
    ensures !r.Trapped?
    ensures r.Inserted? <==> LabelledMissing(f) == []
    ensures r.Rejected? ==> r.message == MissingMessage(LabelledMissing(f))
    ensures r.Inserted? ==> r.recipe.badges <= FirstSix
  {
    var missing := LabelledMissing(f);
    if missing != [] then Rejected(MissingMessage(missing))
    else Inserted(LabelledRecipe(f, id, Merge(f.imported.cuisine, FinalCuisine(f.cuisineIndex))))
  }

  /** Wherever the labelled flow as written does not trap, the corrected flow does the same. */
  lemma LabelledAddAgrees(f: Form, id: String)
    requires !LabelledAddAsWritten(f, id).Trapped?
    ensures LabelledAdd(f, id) == LabelledAddAsWritten(f, id)
  {
  }

  // ---------------------------------------------------------------------
  // Add recipe: the original screen
  // ---------------------------------------------------------------------

  /** The original form: no import, six flags, and an image URL field. */
  datatype PlainForm = PlainForm(
    title: String,
    ingredients: String,
    prepTime: String,
    cookTime: String,
    cuisineIndex: int,
    badges: set<Badge>,
    steps: String,
    notes: String,
    recipeURL: String,
    imageURL: String,
    image: Option<Bytes>)

  function OriginalMissing(f: PlainForm): (r: seq<String>)
    ensures "the Title" in r <==> f.title == []
    ensures "Ingredients" in r <==> f.ingredients == []
    ensures "Steps" in r <==> f.steps == []
    ensures |r| <= 3
  {
    (if f.title == [] then ["the Title"] else [])
    + (if f.ingredients == [] then ["Ingredients"] else [])
    + (if f.steps == [] then ["Steps"] else [])
  }

  function OriginalRecipe(f: PlainForm, notes: Option<String>): Recipe
    requires 0 <= f.cuisineIndex < |CuisineOptions|
  {
    Recipe(
      id := None,
      title := Some(f.title),
      imageData := f.image,
      imageURL := Some(f.imageURL),
      prepTime := Some(f.prepTime),
      cookTime := Some(f.cookTime),
      cuisine := Some(CuisineOptions[f.cuisineIndex]),
      ingredients := Some(f.ingredients),
      steps := Some(f.steps),
      notes := notes,
      recipeURL := Some(f.recipeURL),
      badges := f.badges * FirstSix)
  }

  /** `addRecipe` of the original screen as written: the notes field is never stored. */
  function OriginalAddAsWritten(f: PlainForm): AddOutcome {
    var missing := OriginalMissing(f);
    if missing != [] then Rejected(MissingMessage(missing))
    else if f.cuisineIndex == -1 then Rejected(SelectCuisineMessage)
    else if !(0 <= f.cuisineIndex < |CuisineOptions|) then Trapped
    else Inserted(OriginalRecipe(f, None))
  }

  /** Typed notes are lost: the inserted recipe has no notes whatever was typed. */
  lemma OriginalAddDropsNotes(f: PlainForm)
    requires OriginalAddAsWritten(f).Inserted?
    ensures OriginalAddAsWritten(f).recipe.notes == None
  {
  }

  /** A concrete form whose typed notes vanish on save. */
  lemma OriginalAddDropsNotesExample()
    ensures var f := PlainForm("Soup", "Water", "", "", 0, {}, "Boil", "Serve hot", "", "", None);
      OriginalAddAsWritten(f).Inserted? && OriginalAddAsWritten(f).recipe.notes != Some(f.notes)
  {
    var f := PlainForm("Soup", "Water", "", "", 0, {}, "Boil", "Serve hot", "", "", None);
    assert OriginalMissing(f) == [];
  }

  /** The original `addRecipe` with the typed notes stored. */
  function OriginalAdd(f: PlainForm): (r: AddOutcome)
    ensures r.Inserted? ==> r.recipe.notes == Some(f.notes)
    ensures r.Inserted? ==>
      r.recipe.title == Some(f.title) && f.title != [] && f.ingredients != [] && f.steps != []
    ensures r.Inserted? ==>
      0 <= f.cuisineIndex < |CuisineOptions| && r.recipe.cuisine == Some(CuisineOptions[f.cuisineIndex])
  {
    var missing := OriginalMissing(f);
    if missing != [] then Rejected(MissingMessage(missing))
    else if f.cuisineIndex == -1 then Rejected(SelectCuisineMessage)
    else if !(0 <= f.cuisineIndex < |CuisineOptions|) then Trapped
    else Inserted(OriginalRecipe(f, Some(f.notes)))
  }

  /**
   * The original flow checks the cuisine only after the three text fields
   * pass, so here "Please select a cuisine." is reachable; the corrected flow
   * differs from the one as written in the notes alone.
   */
  lemma OriginalAddValidation(f: PlainForm)
    ensures OriginalAdd(f) == Rejected(SelectCuisineMessage) <==>
      f.title != [] && f.ingredients != [] && f.steps != [] && f.cuisineIndex == -1
    ensures OriginalAddAsWritten(f).Inserted? <==> OriginalAdd(f).Inserted?
    ensures OriginalAdd(f).Inserted? ==>
      OriginalAdd(f).recipe == OriginalAddAsWritten(f).recipe.(notes := Some(f.notes))
  {
    var missing := OriginalMissing(f);
    if missing != [] {
      MissingMessageIsNotSelectCuisine(missing);
    }
  }

  /** `deletePhoto`: both the picked image and the image URL are cleared, nothing else. */
  function DeletePhoto(f: PlainForm): (r: PlainForm)
    ensures r.image.None? && r.imageURL == []
    ensures r.(image := f.image, imageURL := f.imageURL) == f
  {
    f.(image := None, imageURL := "")
  }
}

/**
 * `shareRecipe`: the plain-text rendering of a recipe handed to the share
 * sheet, and which image, if any, goes with it. Downloading, writing the
 * temporary file and presenting the sheet are not modelled; whether the
 * stored image URL parses, whether the stored image data decodes and what
 * `jpegData(compressionQuality: 1.0)` makes of it are parameters.
 */
module Share {
  import opened Wrappers
  import opened Text
  import opened Recipes
  import Importer

  /** `(field?.isEmpty ?? true) ? placeholder : field`. */
  function OrPlaceholder(field: Option<String>, placeholder: String): (r: String)
    ensures field.Some? && field.value != [] ==> r == field.value
    ensures field.None? || field.value == [] ==> r == placeholder
  {
    if field.None? || field.value == [] then placeholder else field.value
  }

  /** The six flags the share text lists, in order, with their labels. */
  const SharedBadges: seq<(String, Badge)> := [
    ("Gluten-Free", GlutenFree), ("Sugar-Free", SugarFree), ("Dairy-Free", DairyFree),
    ("GMO-Free", GmoFree), ("Organic", Organic), ("Vegetarian", Vegetarian)]

  function YesNo(on: bool): String {
    if on then "Yes" else "No"
  }

  /** The text before the flag lines: the header, the three blocks and a final newline. */
  function Body(r: Recipe): String {
    "Recipe: " + OrPlaceholder(r.title, "Untitled Recipe")
    + "\nCuisine: " + OrPlaceholder(r.cuisine, "N/A")
    + "\nPrep Time: " + OrPlaceholder(r.prepTime, "N/A")
    + "\nCook Time: " + OrPlaceholder(r.cookTime, "N/A")
    + "\n\nIngredients:\n" + OrPlaceholder(r.ingredients, "No ingredients provided")
    + "\n\nSteps:\n" + OrPlaceholder(r.steps, "No steps provided")
    + "\n\nNotes:\n" + OrPlaceholder(r.notes, "No notes available")
    + "\n"
  }

  /** The flag lines from entry `i` of `SharedBadges` on, each "\nLabel: Yes|No". */
  function BadgeLines(badges: set<Badge>, i: nat): String
    requires i <= |SharedBadges|
    decreases |SharedBadges| - i
  {
    if i == |SharedBadges| then []
    else "\n" + SharedBadges[i].0 + ": " + YesNo(SharedBadges[i].1 in badges) + BadgeLines(badges, i + 1)
  }

  /** The share text. */
  function ShareText(r: Recipe): String {
    Body(r) + BadgeLines(r.badges, 0)
  }

  /** The flags listed are exactly the first six badges. */
  lemma SharedBadgesAreFirstSix()
    ensures forall i :: 0 <= i < |SharedBadges| ==> SharedBadges[i].1 in FirstSix
    ensures forall b :: b in FirstSix ==> exists i :: 0 <= i < |SharedBadges| && SharedBadges[i].1 == b
  {
    forall b | b in FirstSix
      ensures exists i :: 0 <= i < |SharedBadges| && SharedBadges[i].1 == b
    {
      if b == GlutenFree { assert SharedBadges[0].1 == b; }
      else if b == SugarFree { assert SharedBadges[1].1 == b; }
      else if b == DairyFree { assert SharedBadges[2].1 == b; }
      else if b == GmoFree { assert SharedBadges[3].1 == b; }
      else if b == Organic { assert SharedBadges[4].1 == b; }
      else { assert SharedBadges[5].1 == b; }
    }
  }

  lemma {:induction false} BadgeLinesFirstSix(badges: set<Badge>, i: nat)
    requires i <= |SharedBadges|
    ensures BadgeLines(badges, i) == BadgeLines(badges * FirstSix, i)
    decreases |SharedBadges| - i
  {
    if i < |SharedBadges| {
      SharedBadgesAreFirstSix();
      BadgeLinesFirstSix(badges, i + 1);
    }
  }

  /**
   * The share text depends only on the shown fields and the first six
   * flags: the other six flags, the recipe URL, the image and the
   * identifier are never shared, and an unset field reads like an empty one.
   */
  lemma ShareTextOmits(r: Recipe, id: Option<String>, imageData: Option<Bytes>, imageURL: Option<String>, recipeURL: Option<String>, others: set<Badge>)
    ensures ShareText(r) == ShareText(r.(id := id, imageData := imageData, imageURL := imageURL,
                                         recipeURL := recipeURL, badges := r.badges * FirstSix + (others - FirstSix)))
  {
    var b := r.badges * FirstSix + (others - FirstSix);
    assert b * FirstSix == r.badges * FirstSix;
    BadgeLinesFirstSix(r.badges, 0);
    BadgeLinesFirstSix(b, 0);
  }

  lemma PlaceholdersLookLikeValues(r: Recipe)
    ensures ShareText(r.(title := None)) == ShareText(r.(title := Some(""))) == ShareText(r.(title := Some("Untitled Recipe")))
    ensures ShareText(r.(cuisine := None)) == ShareText(r.(cuisine := Some("N/A")))
  {
  }

  /** `t` ends with `suffix`. */
  predicate EndsWith(t: String, suffix: String) {
    |suffix| <= |t| && t[|t| - |suffix|..] == suffix
  }

  lemma EndsWithPrepend(front: String, t: String, suffix: String)
    requires EndsWith(t, suffix)
    ensures EndsWith(front + t, suffix)
  {
    assert (front + t)[|front + t| - |suffix|..] == t[|t| - |suffix|..];
  }

  lemma {:induction false} BadgeLinesEndWithVegetarian(badges: set<Badge>, i: nat)
    requires i < |SharedBadges|
    ensures EndsWith(BadgeLines(badges, i), "\nVegetarian: " + YesNo(Vegetarian in badges))
    decreases |SharedBadges| - i
  {
    if i == |SharedBadges| - 1 {
      assert BadgeLines(badges, i) == "\nVegetarian: " + YesNo(Vegetarian in badges);
    } else {
      BadgeLinesEndWithVegetarian(badges, i + 1);
      var head := "\n" + SharedBadges[i].0 + ": " + YesNo(SharedBadges[i].1 in badges);
      EndsWithPrepend(head, BadgeLines(badges, i + 1), "\nVegetarian: " + YesNo(Vegetarian in badges));
    }
  }

  /** The text ends with the vegetarian line, which says "Yes" exactly when that flag is set. */
  lemma ShareTextEndsWithVegetarian(r: Recipe)
    ensures EndsWith(ShareText(r), "\nVegetarian: " + YesNo(Vegetarian in r.badges))
  {
    BadgeLinesEndWithVegetarian(r.badges, 0);
    EndsWithPrepend(Body(r), BadgeLines(r.badges, 0), "\nVegetarian: " + YesNo(Vegetarian in r.badges));
  }

  // ---------------------------------------------------------------------
  // No way back through the importer
  // ---------------------------------------------------------------------

  lemma NoTagStartsWithR(d: Importer.Dialect)
    requires d == Importer.Abbreviated || d == Importer.Verbose
    ensures forall k :: 0 <= k < |d| ==> |d[k].prefix| > 0 && d[k].prefix[0] != 'R'
  {
  }

  /**
   * The first line of the share text, "Recipe: ...", is a tag line in
   * neither import dialect, so importing it from the start changes nothing:
   * the title of a shared recipe is never imported.
   */
  lemma ShareTitleLineNotImported(d: Importer.Dialect, title: String)
    requires d == Importer.Abbreviated || d == Importer.Verbose
    ensures Importer.Classify(d, "Recipe: " + title) == None
    ensures Importer.Step(d, Importer.Start, "Recipe: " + title) == Importer.Start
  {
    NoTagStartsWithR(d);
    var line := "Recipe: " + title;
    match Importer.ClassifyFrom(d, line, 0)
    case Some(i) =>
      assert false;
    case None =>
  }

  // ---------------------------------------------------------------------
  // The attachment
  // ---------------------------------------------------------------------

  /**
   * What `shareRecipe` presents: the text with a downloaded image, the text
   * with the re-encoded stored image, the text alone, or nothing at all when
   * the stored image decodes but cannot be encoded again.
   */
  datatype Attachment = DownloadedImage(url: String) | StoredImage(data: Bytes) | TextOnly | NothingShared

  /**
   * The branch `shareRecipe` takes: a stored image URL that parses wins over
   * stored image data that decodes; that image is attached as its
   * `jpegData(compressionQuality: 1.0)` (`jpeg`), and when that is nil the
   * share sheet is never presented. With neither only the text is shared.
   */
  function ShareAttachment(r: Recipe, urlParses: String -> bool, imageDecodes: Bytes -> bool,
                           jpeg: Bytes -> Option<Bytes>): (a: Attachment)
    ensures a.DownloadedImage? <==> r.imageURL.Some? && urlParses(r.imageURL.value)
    ensures a.DownloadedImage? ==> a.url == r.imageURL.value
    ensures a.StoredImage? <==>
      && !(r.imageURL.Some? && urlParses(r.imageURL.value))
      && r.imageData.Some? && imageDecodes(r.imageData.value) && jpeg(r.imageData.value).Some?
    ensures a.StoredImage? ==> Some(a.data) == jpeg(r.imageData.value)
    ensures a.NothingShared? <==>
      && !(r.imageURL.Some? && urlParses(r.imageURL.value))
      && r.imageData.Some? && imageDecodes(r.imageData.value) && jpeg(r.imageData.value).None?
    ensures a.TextOnly? <==>
      !(r.imageURL.Some? && urlParses(r.imageURL.value)) && !(r.imageData.Some? && imageDecodes(r.imageData.value))
  {
    if r.imageURL.Some? && urlParses(r.imageURL.value) then DownloadedImage(r.imageURL.value)
    else if r.imageData.Some? && imageDecodes(r.imageData.value) then
      match jpeg(r.imageData.value)
      case Some(data) => StoredImage(data)
      case None => NothingShared
    else TextOnly
  }

  /** The attachment never looks at the text fields or the flags. */
  lemma AttachmentIgnoresContent(r: Recipe, s: Recipe, urlParses: String -> bool, imageDecodes: Bytes -> bool,
                                 jpeg: Bytes -> Option<Bytes>)
    requires r.imageURL == s.imageURL && r.imageData == s.imageData
    ensures ShareAttachment(r, urlParses, imageDecodes, jpeg) == ShareAttachment(s, urlParses, imageDecodes, jpeg)
  {
  }
}

/**
 * The persisted `Recipe` record, its twelve nutrition badges and the fixed
 * list of cuisine names offered by the cuisine picker.
 */
module Recipes {
  import opened Wrappers
  import opened Text

  /** The twelve independent nutrition flags, in the order the app lists them. */
  datatype Badge =
    | GlutenFree | SugarFree | DairyFree | GmoFree | Organic | Vegetarian
    | PeanutFree | NutFree | EggFree | NoTransFat | CornFree | SoyFree

  /** The six flags of the older screens, the share text and the verbose import labels. */
  const FirstSix: set<Badge> := {GlutenFree, SugarFree, DairyFree, GmoFree, Organic, Vegetarian}

  /** Some first-six flag is set exactly when one of the six is, named one by one. */
  lemma FirstSixMeets(badges: set<Badge>)
    ensures badges * FirstSix != {} <==>
      (GlutenFree in badges || SugarFree in badges || DairyFree in badges
       || GmoFree in badges || Organic in badges || Vegetarian in badges)
  {
    if badges * FirstSix != {} {
      var b :| b in badges * FirstSix;
      assert b in FirstSix;
      assert b == GlutenFree || b == SugarFree || b == DairyFree || b == GmoFree || b == Organic || b == Vegetarian;
    }
    if GlutenFree in badges {
      assert GlutenFree in badges * FirstSix;
    } else if SugarFree in badges {
      assert SugarFree in badges * FirstSix;
    } else if DairyFree in badges {
      assert DairyFree in badges * FirstSix;
    } else if GmoFree in badges {
      assert GmoFree in badges * FirstSix;
    } else if Organic in badges {
      assert Organic in badges * FirstSix;
    } else if Vegetarian in badges {
      assert Vegetarian in badges * FirstSix;
    }
  }

  newtype Byte = x: int | 0 <= x < 256

  /**
   * Encoded image bytes (`Data`). Whether `UIImage(data:)` decodes them and
   * what `jpegData(compressionQuality:)` makes of the picture are passed in
   * by the operations that use them.
   */
  type Bytes = seq<Byte>

  /**
   * A stored recipe. Every text attribute of the persistent store is optional;
   * the badges are the set of flags that are true.
   */
  datatype Recipe = Recipe(
    id: Option<String>,
    title: Option<String>,
    imageData: Option<Bytes>,
    imageURL: Option<String>,
    prepTime: Option<String>,
    cookTime: Option<String>,
    cuisine: Option<String>,
    ingredients: Option<String>,
    steps: Option<String>,
    notes: Option<String>,
    recipeURL: Option<String>,
    badges: set<Badge>)

  /** A freshly inserted store object: every attribute unset. */
  const BlankRecipe: Recipe :=
    Recipe(None, None, None, None, None, None, None, None, None, None, None, {})

  /** The cuisine picker's options, in picker order. */
  const CuisineOptions: seq<String> := [
    "Mexican", "Cuban", "American", "Italian", "Chinese", "BBQ (Barbecue)",
    "Brazilian", "Cajun/Creole", "Caribbean", "Ethiopian", "Filipino", "French",
    "German", "Greek", "Hawaiian", "Indian", "Irish", "Jamaican", "Japanese",
    "Jewish (deli food)", "Korean", "Lebanese", "Mediterranean", "Middle Eastern",
    "Moroccan", "Peruvian", "Polish", "Russian", "Southern (Soul Food)", "Spanish",
    "Tex-Mex", "Thai", "Turkish", "Vietnamese"
  ]

  /** `cuisineOptions.firstIndex(of: name)`. */
  function CuisineIndexOf(name: String): (r: Option<nat>)
    ensures r.Some? ==> r.value < |CuisineOptions| && CuisineOptions[r.value] == name
    ensures r.Some? ==> forall k :: 0 <= k < r.value ==> CuisineOptions[k] != name
    ensures r.None? <==> name !in CuisineOptions
  {
    FirstIndex(CuisineOptions, name, 0)
  }

  function FirstIndex(xs: seq<String>, x: String, from: nat): (r: Option<nat>)
    requires from <= |xs|
    ensures r.Some? ==> from <= r.value < |xs| && xs[r.value] == x
    ensures r.Some? ==> forall k :: from <= k < r.value ==> xs[k] != x
    ensures r.None? ==> forall k :: from <= k < |xs| ==> xs[k] != x
    decreases |xs| - from
  {
    if from == |xs| then None
    else if xs[from] == x then Some(from)
    else FirstIndex(xs, x, from + 1)
  }
}

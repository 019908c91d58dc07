/**
 * The recipe list: the search filter over the stored recipes and the
 * delete-by-offset path behind each row's delete action.
 *
 * The store is the fetched `recipes` array, in fetch order; its objects are
 * distinct by identity, which the model states as `Distinct` where it is
 * needed.
 */
module RecipeList {
  import opened Wrappers
  import opened Text
  import opened Recipes
  import opened Seqs

  /**
   * `field?.localizedCaseInsensitiveContains(search) == true`, with ASCII
   * case folding. Foundation finds no occurrence of an empty search string,
   * so an unset field or an empty search never matches here.
   */
  predicate FieldMatches(field: Option<String>, search: String) {
    field.Some? && search != [] && Contains(Lower(field.value), Lower(search))
  }

  /** The search predicate of `filteredRecipes`: only title, cuisine and the two times are searched. */
  predicate Matches(search: String, r: Recipe) {
    search == []
    || FieldMatches(r.title, search) || FieldMatches(r.cuisine, search)
    || FieldMatches(r.prepTime, search) || FieldMatches(r.cookTime, search)
  }

  /** `filteredRecipes`. */
  function FilteredRecipes(recipes: seq<Recipe>, search: String): (r: seq<Recipe>)
    ensures IsSubsequence(r, recipes)
    ensures forall i :: 0 <= i < |r| ==> r[i] in recipes && Matches(search, r[i])
    ensures forall i :: 0 <= i < |recipes| && Matches(search, recipes[i]) ==> recipes[i] in r
  {
    Filter(x => Matches(search, x), recipes)
  }

  lemma FilteredCons(recipes: seq<Recipe>, search: String)
    requires |recipes| > 0
    ensures FilteredRecipes(recipes, search) ==
      (if Matches(search, recipes[0]) then [recipes[0]] else []) + FilteredRecipes(recipes[1..], search)
  {
  }

  /** An empty search shows every recipe, in store order. */
  lemma EmptySearchShowsAll(recipes: seq<Recipe>)
    ensures FilteredRecipes(recipes, "") == recipes
  {
    FilterAll(x => Matches("", x), recipes);
  }

  /** Ingredients, steps and notes are never searched: changing them never changes whether a recipe shows. */
  lemma SearchIgnoresBody(search: String, r: Recipe, ingredients: Option<String>, steps: Option<String>, notes: Option<String>)
    ensures Matches(search, r) == Matches(search, r.(ingredients := ingredients, steps := steps, notes := notes))
  {
  }

  /** The search ignores case in both the field and the search text. */
  lemma SearchIgnoresCase(search: String, r: Recipe, title: String)
    requires r.title == Some(title)
    requires search != [] && Contains(Lower(title), Lower(search))
    ensures Matches(search, r) && Matches(Lower(search), r)
  {
    assert Lower(Lower(search)) == Lower(search);
  }

  // ---------------------------------------------------------------------
  // Deleting
  // ---------------------------------------------------------------------

  /** `xs` without the entries whose index (counted from `base`) is in `offsets`. */
  function RemoveAt<T(==)>(xs: seq<T>, offsets: set<nat>, base: nat): (r: seq<T>)
    ensures IsSubsequence(r, xs)
    ensures forall k :: 0 <= k < |r| ==> r[k] in xs
    ensures forall i :: 0 <= i < |xs| && base + i !in offsets ==> xs[i] in r
    decreases |xs|
  {
    if |xs| == 0 then []
    else
      var rest := RemoveAt(xs[1..], offsets, base + 1);
      if base in offsets then
        rest
      else
        assert ([xs[0]] + rest)[1..] == rest;
        [xs[0]] + rest
  }

  /** Removing from a sequence of distinct values drops exactly the values at the removed indices. */
  lemma {:induction false} RemoveAtDrops<T>(xs: seq<T>, offsets: set<nat>, base: nat)
    requires Distinct(xs)
    ensures forall i :: 0 <= i < |xs| && base + i in offsets ==> xs[i] !in RemoveAt(xs, offsets, base)
    decreases |xs|
  {
    if |xs| > 0 {
      RemoveAtDrops(xs[1..], offsets, base + 1);
      var rest := RemoveAt(xs[1..], offsets, base + 1);
      assert xs[0] !in rest by {
        forall k | 0 <= k < |rest|
          ensures rest[k] != xs[0]
        {
          var j :| 0 <= j < |xs[1..]| && xs[1..][j] == rest[k];
          assert xs[j + 1] == rest[k];
        }
      }
      forall i | 1 <= i < |xs| && base + i in offsets
        ensures xs[i] !in RemoveAt(xs, offsets, base)
      {
        assert xs[1..][i - 1] == xs[i];
        assert xs[i] != xs[0];
      }
    }
  }

  /** The outcome of `performRecipeDeletion`: the remaining store, or a trap on an index past its end. */
  datatype Deletion = Deleted(remaining: seq<Recipe>) | Trapped

  /** `performRecipeDeletion(offsets:)`: deletes `recipes[o]` for every offset `o`, trapping when one is out of range. */
  function PerformRecipeDeletion(recipes: seq<Recipe>, offsets: set<nat>): (d: Deletion)
    ensures d.Trapped? <==> exists o :: o in offsets && o >= |recipes|
    ensures d.Deleted? ==> IsSubsequence(d.remaining, recipes)
    ensures d.Deleted? ==> forall i :: 0 <= i < |recipes| && i !in offsets ==> recipes[i] in d.remaining
  {
    if exists o :: o in offsets && o >= |recipes| then Trapped
    else Deleted(RemoveAt(recipes, offsets, 0))
  }

  /** Deleting from distinct recipes removes exactly those at the given offsets. */
  lemma DeletionRemovesOffsets(recipes: seq<Recipe>, offsets: set<nat>)
    requires Distinct(recipes)
    requires forall o :: o in offsets ==> o < |recipes|
    ensures var d := PerformRecipeDeletion(recipes, offsets);
      && d.Deleted?
      && (forall i :: 0 <= i < |recipes| ==> (recipes[i] in d.remaining <==> i !in offsets))
  {
    RemoveAtDrops(recipes, offsets, 0);
  }

  /**
   * A row's delete action as written: the offset is the row's position in
   * the filtered list, and it is used to index the whole store.
   */
  function DeleteRowAsWritten(recipes: seq<Recipe>, search: String, row: nat): (d: Deletion)
    requires row < |FilteredRecipes(recipes, search)|
    ensures d.Deleted?
  {
    SubsequenceLength(FilteredRecipes(recipes, search), recipes);
    PerformRecipeDeletion(recipes, {row})
  }

  /** The row's delete action as intended: the offset is the tapped recipe's position in the store. */
  function DeleteRow(recipes: seq<Recipe>, search: String, row: nat): (d: Deletion)
    requires row < |FilteredRecipes(recipes, search)|
    ensures d.Deleted?
  {
    var tapped := FilteredRecipes(recipes, search)[row];
    PerformRecipeDeletion(recipes, {IndexOf(recipes, tapped)})
  }

  lemma {:induction false} SubsequenceLength<T>(a: seq<T>, b: seq<T>)
    requires IsSubsequence(a, b)
    ensures |a| <= |b|
    decreases |b|
  {
    if |a| > 0 {
      if a[0] == b[0] && IsSubsequence(a[1..], b[1..]) {
        SubsequenceLength(a[1..], b[1..]);
      } else {
        SubsequenceLength(a, b[1..]);
      }
    }
  }

  /** The corrected action deletes the tapped recipe and nothing else. */
  lemma DeleteRowDeletesTapped(recipes: seq<Recipe>, search: String, row: nat)
    requires Distinct(recipes)
    requires row < |FilteredRecipes(recipes, search)|
    ensures var tapped := FilteredRecipes(recipes, search)[row];
      var d := DeleteRow(recipes, search, row);
      && tapped !in d.remaining
      && (forall i :: 0 <= i < |recipes| && recipes[i] != tapped ==> recipes[i] in d.remaining)
  {
    var tapped := FilteredRecipes(recipes, search)[row];
    DeletionRemovesOffsets(recipes, {IndexOf(recipes, tapped)});
  }

  /**
   * As written, the recipe deleted is the one at the row's position in the
   * whole store; with an empty search that is the tapped recipe, so both
   * actions agree.
   */
  lemma DeleteRowAsWrittenWithoutSearch(recipes: seq<Recipe>, row: nat)
    requires Distinct(recipes)
    requires row < |recipes|
    ensures FilteredRecipes(recipes, "") == recipes
      && DeleteRowAsWritten(recipes, "", row) == DeleteRow(recipes, "", row)
  {
    EmptySearchShowsAll(recipes);
    assert IndexOf(recipes, recipes[row]) == row;
  }

  /**
   * With a search that hides the first stored recipe, tapping delete on
   * the only row shown deletes the hidden recipe and keeps the tapped one.
   */
  lemma DeleteRowAsWrittenDeletesWrongRecipe()
    ensures var hidden := BlankRecipe.(id := Some("1"));
      var shown := BlankRecipe.(id := Some("2"), title := Some("Soup"));
      && FilteredRecipes([hidden, shown], "Soup") == [shown]
      && DeleteRowAsWritten([hidden, shown], "Soup", 0) == Deleted([shown])
      && DeleteRow([hidden, shown], "Soup", 0) == Deleted([hidden])
  {
    var hidden := BlankRecipe.(id := Some("1"));
    var shown := BlankRecipe.(id := Some("2"), title := Some("Soup"));
    assert OccursAt(Lower("Soup"), Lower("Soup"), 0);
    assert Matches("Soup", shown);
    assert !Matches("Soup", hidden);
    var store := [hidden, shown];
    assert store[1..] == [shown];
    FilteredCons(store, "Soup");
    FilteredCons([shown], "Soup");
    assert FilteredRecipes(store, "Soup") == [shown];
    assert RemoveAt(store, {0}, 0) == [shown];
    assert IndexOf(store, shown) == 1;
    assert RemoveAt(store, {1}, 0) == [hidden];
  }
}

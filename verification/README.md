# RecipeRealm text and list logic in Dafny

RecipeRealm is a SwiftUI recipe-keeping app. Most of it is view layout and
Core Data plumbing. Spread through its screens, and copied across several
generations of the same screen, are small pure routines that decide what is
stored and what is shown. This project models those routines as immutable
datatypes and pure functions over `seq<char>` and proves what they promise.

- **Clipboard import** (`Importer`): a line-by-line state machine with the sections
  none, ingredients, steps, notes and url. It comes in two dialects. The
  abbreviated one uses short tags (`T:`, `PT:`, `GLTNF:` ... `SOYF:`). The
  verbose one uses labels (`Title:`, `Prep Time:`, `Gluten-Free:` ...). A
  dialect is an ordered tag table, and the first tag a line starts with wins.
  The result is characterised by reference definitions: the last tag line wins,
  and each buffer is the concatenation of the lines gathered into its section.
- **Editor helpers** (`Editor`): bullet prefixing and step renumbering, each
  with its display-side inverse.
- **New-recipe screens** (`NewRecipe`): the import button, the import notices,
  the imported/typed buffer switch, and the three generations of `addRecipe`
  with merge, missing-field validation and messages. Also `clearAllFields` and
  `deletePhoto`.
- **Recipe detail screens** (`Detail`): loading a recipe into the edit state,
  saving it back, the two section headers, and the rows shown for notes and
  steps.
- **Web scan** (`WebScan`): the `|~|` payload parser of the four-list browser,
  the keyword parser and line filter of the older browser, what a scan shows,
  and the scan button's enabled state.
- **Recipe list** (`RecipeList`): the search filter and delete-by-offset.
- **Recipe assistant chat** (`Chat`): the daily quota, sending a message,
  merging streamed deltas by response id, and splitting a stream chunk on
  `data:`.
- **Extras**: the share text and attachment choice (`Share`), the deep-link
  handler (`DeepLink`) and the Fisher–Yates shuffle used for previews (`Shuffle`).

Shared modules:
- `Wrappers` holds `Option`.
- `Text` holds the string toolkit: trim, ASCII lowercase, find, split, join,
  replace-all and integer printing.
- `Seqs` holds subsequence, filter and distinctness.
- `Recipes` holds the `Recipe` record, the twelve badges and the 34 cuisine
  options.

Swift runtime traps, such as an array index out of range or a force-unwrap of
nil, are modelled as an explicit `Trapped` outcome rather than as
preconditions. Platform calls become parameters:
- the day number and the clock;
- fresh UUID strings;
- the random picks of the shuffle;
- whether a URL string parses and whether image data decodes;
- the JSON decoder of stream chunks;
- the iteration order of a Swift dictionary;
- whether a Core Data save succeeds.

## Model

| member | source | states |
|---|---|---|
| Recipes.CuisineIndexOf | RecipeRealm/App/RecipeAppSharedData.swift:87-122 | `firstIndex(of:)` on the 34 cuisine options: the first position holding the name, and `None` exactly when the name is not an option |
| Importer.ClassifyFrom | RecipeRealm/Extensions/ImportRecipe.swift:49-90 | the `if / else if` chain: the tag chosen is the first one in table order that the line starts with, and no tag is chosen only when the line starts with none |
| Importer.Classify | RecipeRealm/Extensions/ImportRecipe.swift:49-90 | a line is untagged exactly when it starts with no tag of the dialect; a chosen tag is a prefix of the line |
| Importer.VerboseFlags | RecipeRealm/Views/NewRecipeView.swift:486-497 | the labelled dialect can set only the first six badges |
| Importer.ParseSnoc | RecipeRealm/Extensions/ImportRecipe.swift:49 | the parse is a left fold: reading one more line is one more loop step |
| Importer.Parse | RecipeRealm/Extensions/ImportRecipe.swift:49-106 | the `for line in` loop as a left fold of the loop body over the lines; what it yields is stated by the rows below |
| Importer.ParseClipboard | RecipeRealm/Extensions/ImportRecipe.swift:49 | the clipboard text split at every newline character and parsed |
| Importer.StepScalar | RecipeRealm/Extensions/ImportRecipe.swift:50-56 | one line changes a scalar field only when it is that field's tag line, and then sets it to the line's value |
| Importer.StepBadge | RecipeRealm/Extensions/ImportRecipe.swift:57-80 | one line changes a badge only when it is that badge's tag line, and then sets it iff the value lowercases to "yes" |
| Importer.StepBuffer | RecipeRealm/Extensions/ImportRecipe.swift:91-106 | one line grows a section's buffer only when it is non-empty, untagged and read in that section: by the line plus "\n", or plus nothing for the URL |
| Importer.ParseScalar | RecipeRealm/Extensions/ImportRecipe.swift:50-82 | title, times and cuisine each hold the value of their last tag line, and "" when there is none |
| Importer.ParseBadge | RecipeRealm/Extensions/ImportRecipe.swift:57-80 | a badge is set iff its last tag line's trimmed, lowercased value is "yes"; with no tag line it stays unset |
| Importer.ParseSection | RecipeRealm/Extensions/ImportRecipe.swift:50-90 | the active section is fixed by the last title or section-header line; other tags leave it alone |
| Importer.ParseBuffer | RecipeRealm/Extensions/ImportRecipe.swift:91-106 | each section's buffer is the in-order concatenation of the non-empty untagged lines read while that section was active, each with its terminator |
| Importer.BufferNonEmpty | RecipeRealm/Extensions/ImportRecipe.swift:91-106 | a buffer is non-empty exactly when some line was gathered into its section |
| Importer.FoundCharacterised | RecipeRealm/Extensions/ImportRecipe.swift:132-134 | a recipe is reported found iff the last title line has a non-empty value and at least one line each was gathered under Ingredients and Steps |
| Importer.Found | RecipeRealm/Extensions/ImportRecipe.swift:132-134 | the "recipe found" test on the parsed fields; characterised against the input lines by `Importer.FoundCharacterised` |
| Importer.StepTouchesOneField | RecipeRealm/Extensions/ImportRecipe.swift:49-106 | one line changes at most one field, and changes the section only if it is a title or section-header line |
| Importer.TitleLine | RecipeRealm/Extensions/ImportRecipe.swift:50-52 | a title line sets the title to its value and resets the section to none |
| Importer.AbbreviatedTitleValue | RecipeRealm/Extensions/ImportRecipe.swift:51 | a `T:` line's title is the rest of the line with every `T:` removed, not just the leading one, and then trimmed |
| Editor.Lines | RecipeRealm/Views/NewRecipeView.swift:288 | splitting at "\n" while keeping empty pieces gives at least one piece, and no piece contains a newline |
| Editor.BulletLine | RecipeRealm/Views/NewRecipeView.swift:291-298 | an empty line stays empty, a non-empty line ends up starting with the bullet, and a line that already starts with it is untouched |
| Editor.RemoveBullet | RecipeRealm/Views/Recipe/RecipeDetailView.swift:622-627 | a line not starting with the bullet is unchanged; otherwise what is left is a suffix of the line after the bullet, with no leading whitespace |
| Editor.AddBulletsLines | RecipeRealm/Views/NewRecipeView.swift:288-310 | the lines of the bulleted text are the original lines, each bulleted |
| Editor.AddBullets | RecipeRealm/Views/NewRecipeView.swift:288-310 | `addBulletPoints`: split into lines, bullet each, join; its lines, shape and idempotence are stated by the neighbouring rows |
| Editor.AddBulletsShape | RecipeRealm/Views/Tabs/NewRecipeView.swift:363-385 | bulleting keeps the line count, keeps empty lines empty, bullets every other line and leaves already-bulleted lines alone |
| Editor.AddBulletsIdempotent | RecipeRealm/Views/Tabs/NewRecipeView.swift:363-385 | bulleting twice is bulleting once |
| Editor.RemoveBulletUndoesBullet | RecipeRealm/Views/Recipe/RecipeDetailView.swift:622-627 | for a non-empty line without the bullet, stripping `bullet + " " + line` gives the line without its leading whitespace |
| Editor.LeadingDigits | RecipeRealm/Views/Recipe/RecipeDetailView.swift:679 | the `\d+` part of the number pattern: the longest run of digits at the start of the line |
| Editor.RemoveNumbering | RecipeRealm/Views/Recipe/RecipeDetailView.swift:678-683 | a line with a leading "<digits>. " loses exactly that prefix and keeps the rest; any other line is unchanged |
| Editor.LeadingDigitsAppend | RecipeRealm/Views/Recipe/RecipeDetailView.swift:679 | the digit run of a number followed by a non-digit is exactly the number |
| Editor.RemoveNumberingOfNumbered | RecipeRealm/Views/Recipe/RecipeDetailView.swift:678-683 | for every n >= 0, stripping `n + ". " + s` gives back exactly s |
| Editor.RemoveNumberingOfBlank | RecipeRealm/Views/Recipe/RecipeDetailView.swift:678-683 | a blank line carries no number to strip |
| Editor.RemoveNumberingUndoesNumber | RecipeRealm/Views/NewRecipeView.swift:344-350 | stripping after numbering from a non-negative base gives the line back |
| Editor.NumberLineNoNewline | RecipeRealm/Views/NewRecipeView.swift:337-350 | numbering a line never introduces a newline, so the line structure survives |
| Editor.AddStepNumbersLines | RecipeRealm/Views/NewRecipeView.swift:335-352 | the lines of the numbered text are the original lines, each stripped of its old number and numbered with base + its 0-based line index, except blank lines |
| Editor.AddStepNumbers | RecipeRealm/Views/NewRecipeView.swift:335-352 | `addStepNumbers`: split into lines, strip and renumber each, join; stated by the neighbouring rows |
| Editor.AddStepNumbersRenumber | RecipeRealm/Views/Tabs/NewRecipeView.swift:417-430 | for a non-negative base b1, numbering the output for b1 with any base b2 equals numbering the original with b2 |
| Editor.AddStepNumbersIdempotent | RecipeRealm/Views/NewRecipeView.swift:337-350 | with a non-negative base, numbering twice is numbering once |
| Editor.LinesWithEmptyMiddle | RecipeRealm/Views/NewRecipeView.swift:335 | (helper) a text with an empty middle line splits into three lines, the middle one empty |
| Editor.NumberingCountsBlankLines | RecipeRealm/Views/NewRecipeView.swift:344-350 | a blank line keeps its number slot: two unnumbered steps around an empty line come out numbered 1 and 3 |
| NewRecipe.DataButtonDisabledIff | RecipeRealm/Extensions/ImportRecipe.swift:15-17 | the import button is disabled iff a text field was typed in, a cuisine is picked, or one of the first six badges is set; the last six badges are ignored |
| NewRecipe.DataButtonDisabled | RecipeRealm/Extensions/ImportRecipe.swift:15-17 | `dataButtonDisabled`; characterised by `NewRecipe.DataButtonDisabledIff` |
| NewRecipe.SyncCuisine | RecipeRealm/Views/Tabs/NewRecipeView.swift:295-299 | a changed imported cuisine that is an option moves the picker to it; nothing else changes |
| NewRecipe.ImportText | RecipeRealm/Extensions/ImportRecipe.swift:109-152 | with a clipboard string, every parsed field is stored and the form switches to the imported half, whether or not a recipe was found; "Recipe Imported" shows iff one was found |
| NewRecipe.CurrentImport | RecipeRealm/Extensions/ImportRecipe.swift:153-161 | with no clipboard string the form is unchanged and only "The clipboard is empty." shows |
| NewRecipe.LabelledImport | RecipeRealm/Views/NewRecipeView.swift:458-545 | with no clipboard string nothing at all happens; otherwise the form switches to the imported half and a notice shows |
| NewRecipe.LabelledImportSetsFirstSix | RecipeRealm/Views/NewRecipeView.swift:486-497 | the labelled import can set only the six badges it has labels for |
| NewRecipe.BulletForm | RecipeRealm/Views/Tabs/NewRecipeView.swift:360-393 | only the ingredients and notes of the half on screen, imported or typed, are bulleted; everything else is unchanged |
| NewRecipe.NumberForm | RecipeRealm/Views/Tabs/NewRecipeView.swift:413-438 | only the steps of the half on screen are renumbered; everything else is unchanged |
| NewRecipe.EditorHooksIdempotent | RecipeRealm/Views/Tabs/NewRecipeView.swift:360-438 | re-running either editor hook on its own output changes nothing |
| NewRecipe.Merge | RecipeRealm/Extensions/AddRecipe.swift:17-36 | the merged value is the imported or the typed one, and it is empty only when both are |
| NewRecipe.MissingMessage | RecipeRealm/Extensions/AddRecipe.swift:46-53 | the message starts with "Please fill in " and ends with a full stop; its full wording is stated by `NewRecipe.MissingMessageList` |
| NewRecipe.MissingMessageIsNotSelectCuisine | RecipeRealm/Extensions/AddRecipe.swift:46-56 | no missing-field message equals "Please select a cuisine." |
| NewRecipe.Missing | RecipeRealm/Extensions/AddRecipe.swift:38-41 | each of Title, Cuisine, Ingredients and Steps is listed iff it is missing, and they appear in that order |
| NewRecipe.MissingMessageFieldOrder | RecipeRealm/Extensions/AddRecipe.swift:50-52 | (example) with all four fields missing the message reads "Please fill in Title, Cuisine, Ingredients and Steps." |
| NewRecipe.NameListJoin | RecipeRealm/Extensions/AddRecipe.swift:50-52 | for two or more names, the English list "A, B and C" is all but the last joined with ", ", then " and " and the last |
| NewRecipe.MissingMessageList | RecipeRealm/Extensions/AddRecipe.swift:46-53 | for any non-empty list of missing fields the message is "Please fill in " followed by the fields as an English list ("A", "A and B", "A, B and C") and a full stop |
| NewRecipe.MissingMessageOne | RecipeRealm/Extensions/AddRecipe.swift:47-48 | (example) with one field missing, the message names it alone |
| NewRecipe.FinalCuisine | RecipeRealm/Extensions/AddRecipe.swift:32 | the picked option when the index is within the list, and "" otherwise, with no out-of-range access |
| NewRecipe.CurrentAddValidation | RecipeRealm/Extensions/AddRecipe.swift:38-59 | a recipe is inserted iff title, ingredients and steps are present in either half and a cuisine is picked; otherwise the missing-field message is set; it never traps and never asks only for a cuisine |
| NewRecipe.CurrentAdd | RecipeRealm/Extensions/AddRecipe.swift:17-86 | `addRecipe` of the current screen; its validation and the recipe it builds are stated by `NewRecipe.CurrentAddValidation` and `NewRecipe.CurrentAddMerges` |
| NewRecipe.CurrentAddMerges | RecipeRealm/Extensions/AddRecipe.swift:17-86 | the inserted recipe takes each text from the imported half when non-empty, else the typed one; each of the twelve badges is the OR of both halves; the cuisine is the picked option |
| NewRecipe.ClearAllFields | RecipeRealm/Extensions/AddRecipe.swift:111-142 | both halves, all badges, the cuisine index and the image are reset to the initial form; only the imported/typed switch is kept |
| NewRecipe.CurrentAfterAdd | RecipeRealm/Extensions/AddRecipe.swift:88-91 | the form is cleared exactly when a recipe was inserted and the save succeeded |
| NewRecipe.AddAfterSaveAsksForEverything | RecipeRealm/Extensions/AddRecipe.swift:111-142 | after a successful save, pressing add again lists all four fields as missing |
| NewRecipe.LabelledAddAsWritten | RecipeRealm/Views/NewRecipeView.swift:391-412 | the labelled add traps iff there is no imported cuisine and the picked index is outside the list, because the lookup runs before validation |
| NewRecipe.LabelledBlankFormTraps | RecipeRealm/Views/NewRecipeView.swift:391-398 | on the untouched form the flow as written traps, while the corrected flow lists all four missing fields |
| NewRecipe.LabelledAdd | RecipeRealm/Views/NewRecipeView.swift:382-412 | with validation first: never traps, inserts iff nothing is missing, and otherwise shows the missing-field message; only the first six badges are stored |
| NewRecipe.LabelledAddAgrees | RecipeRealm/Views/NewRecipeView.swift:379-412 | wherever the flow as written does not trap, the corrected flow gives the same outcome |
| NewRecipe.OriginalMissing | RecipeRealm/NewRecipeView.swift:186-188 | "the Title", "Ingredients" and "Steps" are listed iff the field is empty |
| NewRecipe.OriginalAddDropsNotes | RecipeRealm/NewRecipeView.swift:207-224 | the recipe the original flow inserts never has notes |
| NewRecipe.OriginalAddAsWritten | RecipeRealm/NewRecipeView.swift:190-224 | the original add flow as written; stated by `NewRecipe.OriginalAddDropsNotes` and `NewRecipe.OriginalAddValidation` |
| NewRecipe.OriginalAddDropsNotesExample | RecipeRealm/NewRecipeView.swift:207-224 | a concrete form with typed notes is saved without them |
| NewRecipe.OriginalAdd | RecipeRealm/NewRecipeView.swift:183-224 | the corrected original flow stores the typed notes along with the other typed fields |
| NewRecipe.OriginalAddValidation | RecipeRealm/NewRecipeView.swift:190-205 | "Please select a cuisine." shows iff the three text fields are filled and no cuisine is picked; both flows insert in the same cases and differ only in the notes |
| NewRecipe.DeletePhoto | RecipeRealm/NewRecipeView.swift:234-237 | the picked image and the image URL are cleared and nothing else changes |
| Detail.CuisineSelection | RecipeRealm/Views/Recipe/RecipeDetailView.swift:62-67 | a known cuisine selects its own position; a missing or unknown one selects 0 |
| Detail.InitEdit | RecipeRealm/Views/Recipe/RecipeDetailView.swift:55-70 | the edit state has a valid cuisine index and all twelve badges of the recipe; a picture is loaded iff image data is stored and `UIImage(data:)` decodes it |
| Detail.UpdateRecipe | RecipeRealm/Views/Recipe/RecipeDetailView.swift:726-752 | every text field and all twelve badges are overwritten from the edit state; the cuisine is the picked option; the image data is the picture's JPEG encoding at quality 0.8, or nil with no picture; id and image URL are kept |
| Detail.SaveUnchangedEdit | RecipeRealm/Views/Recipe/RecipeDetailView.swift:726-752 | saving an untouched edit keeps the badges and the texts, with an unset text becoming ""; a cuisine outside the list becomes the first option; the image becomes the re-encoding of the stored data when that decodes, and nil when it does not |
| Detail.SaveUnchangedRewritesImage | RecipeRealm/Views/Recipe/RecipeDetailView.swift:747-752 | an untouched save changes the stored image data whenever it does not decode or its re-encoding differs from it |
| Detail.UnknownCuisineSavedAsMexican | RecipeRealm/Views/Recipe/RecipeDetailView.swift:62-67 | a recipe whose cuisine is missing or not an option is saved as "Mexican" |
| Detail.SixInitEdit | RecipeRealm/Views/RecipeDetailView.swift:55-62 | the older screen loads only the first six badges, with a valid cuisine index |
| Detail.SixUpdateRecipe | RecipeRealm/Views/RecipeDetailView.swift:527-547 | the older screen writes the same fields as the newer one except the badges, where only the first six come from the edit state |
| Detail.SixSaveKeepsOtherBadges | RecipeRealm/Views/RecipeDetailView.swift:527-547 | saving on the older screen never changes the last six badges, and an untouched edit keeps all badges |
| Detail.PrepAndCookTimeHeaderNames | RecipeRealm/Views/Recipe/RecipeDetailView.swift:423-433 | the header names the non-empty times joined by " & " and followed by " Time", and is "" when neither is set |
| Detail.PrepAndCookTimeHeader | RecipeRealm/Views/Recipe/RecipeDetailView.swift:423-433 | the header is empty iff neither time is set |
| Detail.FirstSixMember | RecipeRealm/Views/RecipeDetailView.swift:282 | the older badge row shows iff one of the first six badges is set |
| Detail.NutritionHeaderMismatch | RecipeRealm/Views/Recipe/RecipeDetailView.swift:447-515 | the row shows iff any badge is set, the header says "Nutrition & Cuisine" iff one of the first six is, so "Cuisine" heads a badge row exactly when only last-six badges are set |
| Detail.NutritionHeader | RecipeRealm/Views/Recipe/RecipeDetailView.swift:509-515 | "Nutrition & Cuisine" iff one of the first six badges is set, else "Cuisine" |
| Detail.SoyFreeOnlyShowsCuisineHeader | RecipeRealm/Views/Recipe/RecipeDetailView.swift:447-515 | with only soy-free set, a badge is shown under the header "Cuisine" |
| Detail.SixHeaderMatchesRow | RecipeRealm/Views/RecipeDetailView.swift:282-331 | on the older screen the header says "Nutrition & Cuisine" iff the badge row is shown |
| Detail.UpdateBulletPoints | RecipeRealm/Views/Recipe/RecipeDetailView.swift:594-621 | the ingredients and the notes both become their bulleted texts, whichever was edited; nothing else changes |
| Detail.UpdateStepNumbers | RecipeRealm/Views/Recipe/RecipeDetailView.swift:654-677 | the steps become their renumbered text from the given first number; nothing else changes |
| Detail.UpdateBulletPointsNormalises | RecipeRealm/Views/Recipe/RecipeDetailView.swift:594-621 | re-bulleting changes nothing, and after any edit every non-empty note line starts with the bullet, whichever field was edited |
| Detail.MisencodedBulletIdempotent | RecipeRealm/Views/RecipeDetailView.swift:395-422 | the older screen's default bullet "â€¢" is three characters long and still bullets idempotently |
| Detail.NoteRows | RecipeRealm/Views/Recipe/RecipeDetailView.swift:688-689 | one row per non-empty note line, and each row is that line with the bullet stripped by `Editor.RemoveBullet` (the inverse used in `Detail.NoteRowsOfBulleted`) |
| Detail.StepRows | RecipeRealm/Views/Recipe/RecipeDetailView.swift:632-638 | one row per non-empty step line, and each row is that line with its number removed by `Editor.RemoveNumbering` (the inverse used in `Detail.StepRowsOfNumbered`) |
| Detail.UndoAll | RecipeRealm/Views/Recipe/RecipeDetailView.swift:638-689 | every displayed line has its bullet or number removed, position by position |
| Detail.StripAfterFilter | RecipeRealm/Views/Recipe/RecipeDetailView.swift:632-689 | when the editor keeps empty lines empty and the display strip undoes it, stripping the non-empty edited lines gives the original entries at the non-empty positions |
| Detail.StepRowsOfNumbered | RecipeRealm/Views/Recipe/RecipeDetailView.swift:632-683 | the step rows of a numbered text are the non-empty original lines without any number the user typed |
| Detail.NoteRowsOfBulleted | RecipeRealm/Views/Recipe/RecipeDetailView.swift:594-689 | the note rows of a bulleted text are the non-empty original lines, bulleted and then stripped; a line typed without the bullet displays without its leading whitespace |
| WebScan.Texts | RecipeRealm/UIViews/WKWebView.swift:189 | the displayed pieces are the entries' extracted texts, in order |
| WebScan.ScanShown | RecipeRealm/UIViews/WKWebView.swift:183-191 | the text is shown iff the script succeeded and the parse found entries; a successful script with no entries shows "No keywords found on the webpage." |
| WebScan.Unwrap | RecipeRealm/UIViews/WKWebView.swift:228 | a result is the text between the heading and the closing blank line |
| WebScan.UnwrapWrapped | RecipeRealm/UIViews/WKWebView.swift:228 | unwrapping a wrapped text gives the text back |
| WebScan.Component | RecipeRealm/UIViews/WKWebView.swift:226 | the i-th component when there is one, otherwise "" |
| WebScan.ParseLists | RecipeRealm/UIViews/WKWebView.swift:220-234 | always four entries, keyed ingredients, steps, instructions and directions in that order |
| WebScan.ListEntryInverse | RecipeRealm/UIViews/WKWebView.swift:227-231 | a non-empty component can be read back from its "Here's the k list:" entry; an empty one gives the "NOT found" entry |
| WebScan.SplitPayloadPrefix | RecipeRealm/UIViews/WKWebView.swift:222 | components without a bar character, joined with the separator, split back into themselves, followed by the split of the rest |
| WebScan.ParsePayload | RecipeRealm/UIViews/WKWebView.swift:222-233 | four lists without a bar character, joined with the separator, give four entries whose texts read back as those lists, or "NOT found" for an empty one |
| WebScan.ExtraComponentsIgnored | RecipeRealm/UIViews/WKWebView.swift:225-226 | components after the fourth do not change the result |
| WebScan.MissingComponentsAreEmpty | RecipeRealm/UIViews/WKWebView.swift:226 | a payload without a separator fills the first list and reports the other three as not found |
| WebScan.ListScanShowsAllFour | RecipeRealm/UIViews/WKWebView.swift:183-191 | a successful scan always shows the four entries concatenated; the "No keywords found" branch is never taken |
| WebScan.RunEndsSynced | RecipeRealm/UIViews/WKWebView.swift:41-163 | after any load or navigation event the button is enabled iff no page is loading |
| WebScan.OnEvent | RecipeRealm/UIViews/WKWebView.swift:41-163 | a load or navigation event leaves the button enabled iff no page is loading; a tap disables it and a completed scan enables it, without touching the loading flag |
| WebScan.ScanRestoresButton | RecipeRealm/UIViews/WKWebView.swift:175-180 | (example) the button starts disabled, a finished load enables it, and a completed scan leaves it enabled |
| WebScan.FindKeyword | RecipeRealm/UIViews/SarfariView+WKWebView.swift:313 | the first case-insensitive occurrence of the keyword, and none exactly when it does not occur in any case |
| WebScan.ParseKeywords | RecipeRealm/UIViews/SarfariView+WKWebView.swift:308-321 | always three entries, keyed ingredients, instructions and nutrition in that order |
| WebScan.KeywordEntryInverse | RecipeRealm/UIViews/SarfariView+WKWebView.swift:313-317 | a found keyword's entry reads back as the text after its first occurrence; a missing one gives "The word 'k' was NOT found" |
| WebScan.KeywordFoundInAnyCase | RecipeRealm/UIViews/SarfariView+WKWebView.swift:313-315 | when the keyword occurs first, in any case, after a prefix, the entry is the heading followed by everything after that occurrence |
| WebScan.KeywordScanShowsAllThree | RecipeRealm/UIViews/SarfariView+WKWebView.swift:268-276 | a successful scan always shows the three entries; the error branch is never taken |
| WebScan.SectionLines | RecipeRealm/UIViews/SarfariView+WKWebView.swift:325 | the sections' lines with empty lines dropped: none is empty and none holds a newline; what it contains, and in which order, is stated by the three lemmas below |
| WebScan.SectionLinesSingle | RecipeRealm/UIViews/SarfariView+WKWebView.swift:325 | one section gives its own newline-split pieces with the empty ones dropped, in order |
| WebScan.SectionLinesAppend | RecipeRealm/UIViews/SarfariView+WKWebView.swift:325 | the lines of two runs of sections are the lines of the first run followed by those of the second, as `flatMap` promises |
| WebScan.SectionLinesMembers | RecipeRealm/UIViews/SarfariView+WKWebView.swift:325 | a line is produced iff it is non-empty and a newline-split piece of some section |
| WebScan.FilterTextLines | RecipeRealm/UIViews/SarfariView+WKWebView.swift:323-331 | the kept lines are, in order, exactly the relevant lines; the output is empty iff none is kept, and otherwise splits back into the kept lines |
| WebScan.FilterText | RecipeRealm/UIViews/SarfariView+WKWebView.swift:323-331 | `filterText`; stated by `WebScan.FilterTextLines` |
| RecipeList.FilteredRecipes | RecipeRealm/Extensions/ManageRecipe.swift:14-22 | an order-preserving subsequence of the recipes holding exactly those that match the search |
| RecipeList.Matches | RecipeRealm/Extensions/ManageRecipe.swift:14-22 | the search predicate: an empty search matches everything, otherwise one of title, cuisine, prep time or cook time must contain it; stated by `RecipeList.EmptySearchShowsAll` and `RecipeList.SearchIgnoresBody` |
| RecipeList.FieldMatches | RecipeRealm/Extensions/ManageRecipe.swift:17 | `localizedCaseInsensitiveContains` on an optional field; stated by `RecipeList.SearchIgnoresCase` |
| RecipeList.FilteredCons | RecipeRealm/Extensions/ManageRecipe.swift:15 | filtering decides the first recipe and then filters the rest |
| RecipeList.EmptySearchShowsAll | RecipeRealm/Extensions/ManageRecipe.swift:16 | an empty search shows every recipe in its original order |
| RecipeList.SearchIgnoresBody | RecipeRealm/Extensions/ManageRecipe.swift:16-20 | ingredients, steps and notes never affect whether a recipe matches |
| RecipeList.SearchIgnoresCase | RecipeRealm/Extensions/ManageRecipe.swift:17 | a title containing the search in another case matches, as does the lower-cased search |
| RecipeList.RemoveAt | RecipeRealm/Extensions/ManageRecipe.swift:39-41 | the result is a subsequence of the list that keeps every entry whose position is not an offset |
| RecipeList.RemoveAtDrops | RecipeRealm/Extensions/ManageRecipe.swift:39-41 | with distinct entries, the entry at each offset is gone |
| RecipeList.PerformRecipeDeletion | RecipeRealm/Extensions/ManageRecipe.swift:37-41 | it traps iff some offset is out of range; otherwise the remaining list is a subsequence keeping every recipe not at an offset |
| RecipeList.DeletionRemovesOffsets | RecipeRealm/Extensions/ManageRecipe.swift:37-41 | with distinct recipes and offsets in range, a recipe remains iff its position is not an offset |
| RecipeList.DeleteRowAsWritten | RecipeRealm/Views/RecipeListGroup/RecipeList+FolderView.swift:55 | the row's position in the filtered list is passed on as the offset into the unfiltered list, which never traps |
| RecipeList.DeleteRow | RecipeRealm/Views/RecipeListGroup/RecipeList+FolderView.swift:55 | the corrected action passes the tapped recipe's position in the unfiltered list |
| RecipeList.SubsequenceLength | RecipeRealm/Extensions/ManageRecipe.swift:15 | the filtered list is never longer than the list |
| RecipeList.DeleteRowDeletesTapped | RecipeRealm/Extensions/ManageRecipe.swift:37-41 | the corrected action deletes the tapped recipe and keeps every other one |
| RecipeList.DeleteRowAsWrittenWithoutSearch | RecipeRealm/Views/RecipeListGroup/RecipeList+FolderView.swift:55 | with an empty search, both actions delete the tapped recipe |
| RecipeList.DeleteRowAsWrittenDeletesWrongRecipe | RecipeRealm/Extensions/ManageRecipe.swift:37-41 | a hidden recipe before the tapped one is deleted instead of the tapped one |
| Chat.InitialMessages | RecipeRealm/Views/RecipeChat/ChatViewModel.swift:14 | the conversation starts as a single system message with id "prompt" |
| Chat.ReadCountAsWritten | RecipeRealm/Views/RecipeChat/ChatViewModel.swift:19-31 | the getter resets the count and stores today only when a reset day is stored and differs from today; otherwise it returns the stored count |
| Chat.ReadCount | RecipeRealm/Views/RecipeChat/ChatViewModel.swift:19-31 | the corrected getter resets whenever the stored reset day is not today, including when none is stored, and then today is stored |
| Chat.WriteCount | RecipeRealm/Views/RecipeChat/ChatViewModel.swift:32-34 | the setter stores the count and leaves the reset day alone |
| Chat.SendMessageEffect | RecipeRealm/Views/RecipeChat/ChatViewModel.swift:37-54 | at 12 or more nothing changes and nothing is sent; below that, exactly one user message with the current text is appended, the text is cleared and the count goes up by one |
| Chat.SendMessageAsWritten | RecipeRealm/Views/RecipeChat/ChatViewModel.swift:37-54 | `sendMessage` with the getter as written; stated by `Chat.SendMessageEffect` and `Chat.FreshInstallLocksForever` |
| Chat.SendMessage | RecipeRealm/Views/RecipeChat/ChatViewModel.swift:37-54 | `sendMessage` with the corrected getter; stated by `Chat.SendMessageEffect`, `Chat.NewDayStartsOver` and `Chat.DailyLimit` |
| Chat.NoResetDayIsNeverWritten | RecipeRealm/Views/RecipeChat/ChatViewModel.swift:24-30 | with no stored reset day, the getter returns the stored count and sending never stores a reset day |
| Chat.FreshInstallLocksForever | RecipeRealm/Views/RecipeChat/ChatViewModel.swift:24-38 | once 12 messages were sent with no reset day stored, the send as written is refused on every day, while the corrected send goes through |
| Chat.NewDayStartsOver | RecipeRealm/Views/RecipeChat/ChatViewModel.swift:24-54 | on a new day the corrected send goes through and leaves the count at 1 |
| Chat.SendAll | RecipeRealm/Views/RecipeChat/ChatViewModel.swift:37-54 | repeated sends within one day keep that day as the reset day |
| Chat.DailyLimit | RecipeRealm/Views/RecipeChat/ChatViewModel.swift:18-54 | from a fresh day the count after n <= 12 sends is n, and the thirteenth send is refused |
| Chat.SendAllLast | RecipeRealm/Views/RecipeChat/ChatViewModel.swift:37-54 | n sends are n-1 sends followed by one more |
| Chat.LastIndexOfId | RecipeRealm/Views/RecipeChat/ChatViewModel.swift:69 | the last message with the response's id, or none when no message has it |
| Chat.MergeDelta | RecipeRealm/Views/RecipeChat/ChatViewModel.swift:65-76 | a response without choices is ignored; the list grows by at most one, with a new assistant message at the end; messages with other ids are unchanged |
| Chat.LastIndexAppend | RecipeRealm/Views/RecipeChat/ChatViewModel.swift:69-71 | after appending a message, the last message with an id is the new one if it has that id |
| Chat.LastIndexUpdate | RecipeRealm/Views/RecipeChat/ChatViewModel.swift:74-75 | replacing a message by one with the same id does not move any id's last position |
| Chat.MergeDeltaContent | RecipeRealm/Views/RecipeChat/ChatViewModel.swift:66-75 | one merge adds the response's delta to the content of its id and nothing to other ids |
| Chat.MergeAllContent | RecipeRealm/Views/RecipeChat/ChatViewModel.swift:65-76 | an id's content is its old content followed by all its deltas in arrival order |
| Chat.MergeAll | RecipeRealm/Views/RecipeChat/ChatViewModel.swift:65-76 | the `forEach` over one chunk's responses; stated by `Chat.MergeAllContent` and `Chat.MergeAllGrows` |
| Chat.MergeAllGrows | RecipeRealm/Views/RecipeChat/ChatViewModel.swift:65-76 | merging n responses adds at most n messages and removes none |
| Chat.DataMarkerBorderless | RecipeRealm/Views/RecipeChat/ChatViewModel.swift:87 | no proper suffix of "data:" is a prefix of it, so its occurrences cannot overlap |
| Chat.TrimAll | RecipeRealm/Views/RecipeChat/ChatViewModel.swift:87 | every piece is trimmed, position by position |
| Chat.CompactMap | RecipeRealm/Views/RecipeChat/ChatViewModel.swift:91-97 | the result is never longer than the input; every response comes from some piece that decodes to it, and every piece that decodes contributes its response |
| Chat.ParseFrames | RecipeRealm/Views/RecipeChat/ChatViewModel.swift:86-98 | a chunk built by joining marker-free pieces with "data:" is cut exactly at the markers; the pieces are trimmed, empty ones dropped and the rest decoded in order |
| Chat.ParseStreamData | RecipeRealm/Views/RecipeChat/ChatViewModel.swift:86-98 | split at "data:", trim, drop empty pieces, decode; stated by `Chat.ParseFrames` |
| Chat.CompactMapTotal | RecipeRealm/Views/RecipeChat/ChatViewModel.swift:91-97 | when every piece decodes, none is dropped: the i-th response is the decoding of the i-th piece |
| Chat.CompactMapAppend | RecipeRealm/Views/RecipeChat/ChatViewModel.swift:91-97 | `compactMap` over two runs of pieces gives the first run's responses followed by the second's |
| Share.OrPlaceholder | RecipeRealm/UIViews/ShareView.swift:14-20 | a present, non-empty field is used as is; a nil or empty one is replaced by its placeholder |
| Share.SharedBadgesAreFirstSix | RecipeRealm/UIViews/ShareView.swift:38-45 | the six shared badge lines are exactly the first six badges |
| Share.BadgeLinesFirstSix | RecipeRealm/UIViews/ShareView.swift:38-48 | the badge lines depend only on the first six badges |
| Share.ShareTextOmits | RecipeRealm/UIViews/ShareView.swift:21-48 | the id, the image, the recipe URL and the last six badges never change the share text |
| Share.ShareText | RecipeRealm/UIViews/ShareView.swift:21-48 | the share text: header, times, the three blocks and six flag lines; stated by `Share.ShareTextOmits` and `Share.ShareTextEndsWithVegetarian` |
| Share.PlaceholdersLookLikeValues | RecipeRealm/UIViews/ShareView.swift:14-15 | a nil, empty or literally "Untitled Recipe" title gives the same text, as do a nil and an "N/A" cuisine |
| Share.EndsWithPrepend | RecipeRealm/UIViews/ShareView.swift:46-47 | text in front does not change how the share text ends |
| Share.BadgeLinesEndWithVegetarian | RecipeRealm/UIViews/ShareView.swift:44-48 | the badge lines always end with the vegetarian line |
| Share.ShareTextEndsWithVegetarian | RecipeRealm/UIViews/ShareView.swift:21-48 | the share text always ends with "\nVegetarian: Yes" or "\nVegetarian: No" |
| Share.NoTagStartsWithR | RecipeRealm/Extensions/ImportRecipe.swift:50-90 | (helper) no import tag, in either dialect, starts with 'R' |
| Share.ShareTitleLineNotImported | RecipeRealm/UIViews/ShareView.swift:22 | the shared "Recipe: " title line is an untagged line to both importers, and at the start of a paste it is ignored, so shared text does not import its title |
| Share.ShareAttachment | RecipeRealm/UIViews/ShareView.swift:50-93 | a parseable image URL wins; otherwise stored image data that decodes is attached as its JPEG encoding at quality 1.0, and when that encoding fails nothing is shared at all; with neither only the text is shared |
| Share.AttachmentIgnoresContent | RecipeRealm/UIViews/ShareView.swift:50-73 | the attachment depends only on the image URL and the image data |
| DeepLink.LastNamed | RecipeRealm/App/RecipeRealmApp.swift:39-41 | the last query item with a given name, or none |
| DeepLink.FoldQueryLastWins | RecipeRealm/App/RecipeRealmApp.swift:38-41 | a name is in the map iff some item has it, and it maps to the value of its last item, with a missing value read as "" |
| DeepLink.FoldQuery | RecipeRealm/App/RecipeRealmApp.swift:38-41 | the dictionary the query loop builds; stated by `DeepLink.FoldQueryLastWins` |
| DeepLink.ClipboardLines | RecipeRealm/App/RecipeRealmApp.swift:44-47 | one line per key visited, the i-th reading "key: value" for the i-th key, so every visited key has its line |
| DeepLink.TerminatedIsJoin | RecipeRealm/App/RecipeRealmApp.swift:46 | terminating every line with "\n" is joining the lines followed by an empty one |
| DeepLink.DistinctCardinality | RecipeRealm/App/RecipeRealmApp.swift:44 | a visiting order without repeats has as many entries as the set of its keys |
| DeepLink.ClipboardOneLinePerName | RecipeRealm/App/RecipeRealmApp.swift:43-47 | there is exactly one line per distinct name; every name has its "name: value" line and every line is the "name: value" line of some name; when names and values hold no newline, the string splits back into those lines followed by an empty piece |
| DeepLink.ClipboardLinesCoverKeys | RecipeRealm/App/RecipeRealmApp.swift:44-47 | every name of the dictionary has its "name: value" line, and every line is the line of some name |
| DeepLink.ClipboardSplitsBack | RecipeRealm/App/RecipeRealmApp.swift:43-47 | when no name or value holds a newline, splitting the clipboard string at newlines gives the lines and a final empty piece |
| DeepLink.ClipboardString | RecipeRealm/App/RecipeRealmApp.swift:43-47 | the clipboard string built from the dictionary; stated by `DeepLink.ClipboardOneLinePerName` |
| DeepLink.HandleUrl | RecipeRealm/App/RecipeRealmApp.swift:31-61 | it has an effect iff the URL parses and its scheme, host and path match; then it always opens the new-recipe screen and copies the clipboard string, with the image iff "Image" decodes |
| DeepLink.AcceptedLinkAlwaysOpens | RecipeRealm/App/RecipeRealmApp.swift:49 | an accepted link without a query still opens the new-recipe screen, and copies an empty string |
| Shuffle.Swap | RecipeRealm/App/Persistence.swift:15 | `swapAt` exchanges the two positions and leaves the rest alone |
| Shuffle.SwapPermutes | RecipeRealm/App/Persistence.swift:15 | a swap keeps the multiset of elements |
| Shuffle.ShuffleDown | RecipeRealm/App/Persistence.swift:12-17 | the loop from the top index down to 1 keeps the length |
| Shuffle.ShuffleDownKeepsAbove | RecipeRealm/App/Persistence.swift:12-17 | the steps for indices up to i never touch positions above i |
| Shuffle.ShuffleDownPermutes | RecipeRealm/App/Persistence.swift:12-17 | every prefix of the loop keeps the multiset of elements |
| Shuffle.ShuffledPermutes | RecipeRealm/App/Persistence.swift:10-19 | the shuffle returns a permutation of its input, and arrays of length 0 or 1 come back unchanged |
| Shuffle.Shuffled | RecipeRealm/App/Persistence.swift:10-19 | the functional shuffle keeps the length; that it is a permutation is `Shuffle.ShuffledPermutes` |
| Shuffle.SwapSelf | RecipeRealm/App/Persistence.swift:14 | (helper) swapping a position with itself changes nothing, so skipping the swap when j = i is harmless |
| Shuffle.ShuffleDownIdentity | RecipeRealm/App/Persistence.swift:13-16 | when every pick j equals its i, nothing moves |
| Shuffle.ShuffleInPlace | RecipeRealm/App/Persistence.swift:10-19 | the in-place loop computes the functional shuffle and keeps the multiset of elements |

## Left out

- Importer.ClassifyFrom: Swift's `starts(with:)` compares Characters, and the model compares code units. A line whose tag is followed by a combining mark, such as "T:" then U+0301, is a title line in the model but untagged in Swift, because ":" and the mark form one Character there. `Importer.Classify` calls it and inherits the same difference. Lines without combining marks after the tag are classified alike.
- Editor.RemoveBullet: the source removes matches of the regular expression `^<bullet>\s*` with `.anchorsMatchLines`, so `^` also matches after a lone "\r", U+0085, U+2028 or U+2029 inside a row, and "a\r• b" becomes "a\rb" in Swift. The model only strips the bullet at the start of the row and keeps the rest as it is. The pattern escapes only the bullet's first character, so a bullet whose later characters are regular-expression syntax matches other text in Swift; the model treats the whole bullet as literal text. Rows with no such separator and the app's one-character bullets agree.
- Importer.Classify: the first-match rule is stated on `Importer.ClassifyFrom`, which it calls; its own contract only states that a tag is chosen iff the line starts with one, and that a chosen tag is a prefix of the line.
- The importers split as Swift does: both use `components(separatedBy: .newlines)`, which cuts at every newline code unit, so "a\r\nb" gives "a", "", "b" in Swift and in the model alike. Only the `split(separator: "\n")` call sites keep "\r\n" whole; they are listed below.
- Editor.Lines: Swift's `split(separator: "\n")` works on Characters, and "\r\n" is a single Character, so Swift does not split a text at a "\r\n" break. The model splits at every "\n" code unit. Texts containing "\r\n" are therefore cut differently; texts with plain "\n" breaks agree.
- Editor.BulletLine: `starts(with:)` compares Characters; the model compares code units, which differs only when the bullet ends in a character that combines with the next one.
- Editor.AddBullets: built on `Editor.Lines`, so it differs from Swift on texts containing "\r\n".
- Editor.AddStepNumbers: built on `Editor.Lines`, so it differs from Swift on texts containing "\r\n".
- Detail.NoteRows: built on `Editor.Lines`, so the rows differ from Swift's on texts containing "\r\n".
- Detail.StepRows: built on `Editor.Lines`, so the rows differ from Swift's on texts containing "\r\n".
- WebScan.SectionLines: splits at every "\n" code unit, while Swift's Character split keeps a "\r\n" break whole; sections containing "\r\n" are cut differently.
- Whitespace, decimal digits and lowercasing are hand-written ASCII-based definitions, with a few Unicode space characters added. Foundation's full Unicode tables are not modelled.
- RecipeList.FieldMatches: `localizedCaseInsensitiveContains` is modelled as ASCII case folding plus substring search. Locale-dependent folding is not modelled, and an empty needle never matches.
- WebScan.FilterTextLines: Swift counts grapheme clusters in `line.count`; the model counts code units. Nothing in the app calls `filterText`.
- The JavaScript scan scripts and `evaluateJavaScript` are left out; the script result is a parameter. The re-enable callback of the scan button runs after an asynchronous script, and its ordering against navigation events is not modelled.
- Clipboard image import (`importImageFromClipboard`) is left out: it only looks up UIKit image types on pasteboard items.
- Platform I/O is left out: UIPasteboard, the photo picker, the camera, image cropping, the share sheet, URLSession downloads, temporary files, UserDefaults storage and `UIApplication.open`. The clipboard string, the stored defaults and the decode/parse outcomes are parameters.
- The OpenAI/Alamofire request and JSON decoding are left out. Decoding is an uninterpreted function parameter. Dates are day numbers, and the message timestamp is a plain integer.
- Share.ShareAttachment: a download or temporary-file failure after the branch is chosen is not modelled.
- DeepLink.HandleUrl: URL parsing and base64/image decoding are parameters, and the dictionary's iteration order is a parameter too.
- NewRecipe.CurrentAfterAdd: whether the Core Data save succeeds is a parameter. The message banners and dismissing the screen are not modelled.
- NewRecipe.CurrentAdd, NewRecipe.LabelledAdd, NewRecipe.OriginalAdd and their as-written variants: the form's photo is taken as the bytes `jpegData(compressionQuality: 1.0)` already produced. When that encoding returns nil the source stores no image data, which the model shows as a form without a photo; the encoding itself is not modelled.
- NewRecipe.ClearAllFields: it does not reset the imported/typed switch, which matches the source. The contract states that.
- Core Data persistence is left out (store loading, previews, folders and saving). A recipe list is a `seq<Recipe>`.
- SwiftUI view bodies, layout, fonts, navigation and tapped-row highlighting are left out.

## Findings

| source | as written | input that shows it | evidently intended | confidence | as-written member | corrected member |
|---|---|---|---|---|---|---|
| RecipeRealm/Views/NewRecipeView.swift:391 | `cuisineOptions[selectedCuisineIndex]` is evaluated before validation whenever no cuisine was imported | the untouched form: no imported cuisine and picker index -1, then pressing add | validate first, and list the four missing fields | not executed | NewRecipe.LabelledBlankFormTraps | NewRecipe.LabelledAdd |
| RecipeRealm/NewRecipeView.swift:207-224 | the new recipe is built without `notes` | title "Soup", ingredients "Water", steps "Boil", notes "Serve hot", a cuisine picked | the typed notes are stored with the recipe | not executed | NewRecipe.OriginalAddDropsNotesExample | NewRecipe.OriginalAddValidation |
| RecipeRealm/Extensions/ManageRecipe.swift:37-41 | the offset the row passes is its position in the filtered list, but `recipes[offset]` indexes the unfiltered list | recipes [A untitled, B titled "Soup"], search "Soup", tap row 0 (B) | delete the tapped recipe | not executed | RecipeList.DeleteRowAsWrittenDeletesWrongRecipe | RecipeList.DeleteRowDeletesTapped |
| RecipeRealm/Views/RecipeChat/ChatViewModel.swift:24-30 | the count resets only when a reset date is stored, and the date is written only inside that branch | a fresh install that sends 12 messages | the quota resets every day | not executed | Chat.FreshInstallLocksForever | Chat.NewDayStartsOver |

Two branches can never be taken:
- "Please select a cuisine." in RecipeRealm/Extensions/AddRecipe.swift:54-56, as `NewRecipe.CurrentAddValidation` shows.
- "No keywords found on the webpage." in both web views, as `WebScan.ListScanShowsAllFour` and `WebScan.KeywordScanShowsAllThree` show.

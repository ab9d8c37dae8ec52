# Cocktail Explorer, modelled in Dafny

Cocktail Explorer is a browser client for TheCocktailDB catalog. A user searches the remote
catalog by name and sees the matching recipes as a paged grid of cards. They can open a recipe,
and they can create, edit and delete their own recipes. User-created recipes live in one
local-storage slot (key `custom_cocktails`) as a list. Reading a recipe, or the list, parses
the whole slot. Adding, removing and updating read the whole list, change it and write it all
back; removing and updating write nothing when no entry has the id.

This project models the core of the client and proves properties of the model:

- `storage.dfy` (module `Storage`): the custom-recipe store. Pure functions give what reading
  the slot yields, the list a removal or an update writes, or nothing when no entry has the id
  (`Removed`, `Updated`), and the record an add appends (`NewCustomCocktail`).
  A `CustomStore` class holds the slot and a possible write failure. Its methods are proved
  equal to those functions. Lemmas cover the round trip of writing and then reading, that an
  added recipe is found, that a removed id is gone, and that an update keeps every identity.
- `api.dfy` (module `Api`): the normalisation of the catalog's fixed fifteen-slot records into
  recipes (`formatCocktail`, including its loop), and the two lookups over an abstract response.
- `use_cocktails.dfy` (module `UseCocktails`): the home-screen hook. It merges the matching
  custom recipes with the catalog results.
- `home_screen.dfy` (module `HomeScreen`): the grid the home screen renders from the hook's
  state, with its title.
- `recipe_screen.dfy` (module `RecipeScreen`): the detail screen. An id is resolved locally or
  remotely, and the screen has delete and edit handlers.
- `cocktail_form.dfy` (module `CocktailForm`): the create/edit form. It covers field and row
  handlers, the validity effect, `validateForm`, and both save paths of `handleSubmit`.
- `cocktail_grid.dfy` (module `CocktailGrid`): pagination and the render priorities of the grid.
- `cocktail_card.dfy` (module `CocktailCard`): the card's image check, chips and route.
- `seqs.dfy` and `text.dfy` model the JavaScript array and string functions the code relies on:
  - `filter`, `map`, `some`, `findIndex`, `find`, `slice` with its index clamping;
  - `trim` with ECMAScript's whitespace set, `toLowerCase`, `includes`, `startsWith` and
    `endsWith`;
  - decimal rendering of a number.
- `types.dfy` holds the record shapes, and `wrappers.dfy` holds `Option`/`Result`.

Behaviours of the code that a reader may not expect, all of which the model keeps:

- A `custom-` id that is not in the store is still looked up in the remote catalog. The code
  falls through to the catalog request; it does not stop at "not found" (`Resolve`).
- Nothing checks that recipe ids are unique. The id is `custom-` followed by the clock reading,
  and two adds at the same millisecond give the same id. The model takes the clock reading as a
  parameter. Its lookup lemmas therefore assume the new id is fresh instead of claiming it.
- A failed write is swallowed by removal and update: they return false and the slot keeps its
  old list (src/utils/storage.ts:61-64 and 83-86). Only adding rethrows the failure.
- A failed search keeps the previous results in the hook's state, but the grid shows the error
  message instead of any list (src/hooks/useCocktails.ts:48-50): an error outranks the cards
  (src/components/CocktailGrid/CocktailGrid.tsx:57-65). The error is cleared only when a search
  starts (src/hooks/useCocktails.ts:37). Clearing the query never starts one, since a blank
  query returns first (src/hooks/useCocktails.ts:31-34). So the user's own recipes stay hidden
  behind the message until a search for some non-blank query succeeds, or until the home screen
  is left and opened again: each route mounts its own screen
  (src/navigation/Navigation.tsx:12-14), and a new hook starts with no error
  (src/hooks/useCocktails.ts:22). `HomeScreen.FailedSearchOutlastsClearing` shows the effect
  within one mounted hook; `HomeScreen.Remount` shows a fresh hook handing the grid the custom
  list.

`isFormValid` is recomputed by an effect after every change of the fields it depends on. The
model runs `SyncValidity` at the end of each field handler. The component does not recompute
validity inside `handleSubmit`, so the model does not either.

## Model

| member | source | states |
|---|---|---|
| `Seqs.Filter` | src/utils/storage.ts:48-50 | `filter` never lengthens the list, and every kept element satisfies the predicate |
| `Seqs.FilterMembers` | src/hooks/useCocktails.ts:43-45 | an element is kept exactly when it is in the list and satisfies the predicate |
| `Seqs.FilterKeepsAll` | src/utils/storage.ts:52-54 | filtering keeps the length exactly when every element satisfies the predicate, and then the list is unchanged |
| `Seqs.FilterAppend` | src/hooks/useCocktails.ts:43-45 | filtering a concatenation is the concatenation of the filtered parts, so order is kept |
| `Seqs.FilterEmptyIffNone` | src/components/CocktailForm/CocktailForm.tsx:131-134 | the filtered list is empty exactly when `some` would answer false |
| `Seqs.Map` | src/utils/storage.ts:13-16 | `map` keeps the length and applies the function at every index |
| `Seqs.Any` | src/components/CocktailForm/CocktailForm.tsx:82 | `some` is true exactly when some index satisfies the predicate |
| `Seqs.FindIndex` | src/utils/storage.ts:70 | `findIndex` gives the first satisfying index, and -1 (`None`) exactly when no element satisfies |
| `Seqs.Find` | src/utils/storage.ts:92 | `find` gives a satisfying element with no earlier satisfying one, and undefined (`None`) exactly when none satisfies |
| `Seqs.FindSkipsMisses` | src/utils/storage.ts:92 | a prefix with no satisfying element is passed over: `find` on the whole list answers as on the rest |
| `Seqs.Slice` | src/components/CocktailGrid/CocktailGrid.tsx:44-47 | `slice` is the plain subsequence for in-range bounds; an end past the length is cut to the length, and a start at or past the length gives the empty list |
| `Text.Trim` | src/components/CocktailForm/CocktailForm.tsx:78 | `trim` is empty exactly when the string is all whitespace; otherwise it starts and ends with non-whitespace |
| `Text.TrimCutsBlankEnds` | src/components/CocktailForm/CocktailForm.tsx:78 | `trim` keeps a contiguous part of the string with a blank run cut on each side; with `Trim`'s non-whitespace ends this fixes its value |
| `Text.ToLower` | src/hooks/useCocktails.ts:44 | lower-casing keeps the length and maps every character |
| `Text.ContainsIffOccurs` | src/hooks/useCocktails.ts:44 | `includes` holds exactly when the needle occurs at some index |
| `Text.StartsWith` | src/screens/RecipeScreen/RecipeScreen.tsx:52 | `startsWith` holds exactly when `s` is the prefix followed by some string, that is, when the prefix occurs at index 0 |
| `Text.EndsWith` | src/screens/RecipeScreen/RecipeScreen.tsx:172-173 | `endsWith` holds exactly when `s` is some string followed by the suffix, that is, when the suffix occurs at the last index it fits at |
| `Text.Contains` | src/hooks/useCocktails.ts:44 | `includes` needs a needle no longer than the string; the empty needle and the string itself are always included |
| `Text.NatToString` | src/utils/storage.ts:31 | the rendered number is at least one digit, all digits, without a leading zero |
| `Text.DecimalRoundTrip` | src/utils/storage.ts:31 | reading the digits back gives the number |
| `Text.NatToStringInjective` | src/utils/storage.ts:31 | distinct timestamps render to distinct digit strings |
| `Types.WithIdentity` | src/components/CocktailForm/CocktailForm.tsx:168-172 | `{...data, id, isCustom}` keeps every data field and sets the id and the flag |
| `Storage.Stamp` | src/utils/storage.ts:13-16 | marking a record custom keeps its id and every recipe field; a record already marked is unchanged |
| `Storage.GetCustomCocktails` | src/utils/storage.ts:5-21 | every recipe read is marked custom; a stored list is read entry by entry with only the flag changed; an absent or corrupt slot reads as the empty list |
| `Storage.GetCustomCocktailById` | src/utils/storage.ts:89-98 | the result is the first stored recipe with the id, marked custom, and `null` exactly when no stored recipe has it |
| `Storage.CustomId` | src/utils/storage.ts:31 | the id starts with `custom-`, and the rest is the decimal digits of the timestamp |
| `Storage.NewCustomCocktail` | src/utils/storage.ts:29-33 | the new record carries the draft unchanged, the timestamp id and the custom flag |
| `Storage.Removed` | src/utils/storage.ts:45-55 | nothing is written exactly when no entry has the id; otherwise the written list is exactly the stored entries without the id, in stored order, and it is strictly shorter |
| `Storage.Updated` | src/utils/storage.ts:67-80 | nothing is written exactly when no entry has the id; otherwise only the first entry with the id is replaced, by the record marked custom |
| `Storage.RereadStored` | src/utils/storage.ts:13-16 | reading back a written list whose entries are all marked custom gives the same list |
| `Storage.AddedIsFound` | src/utils/storage.ts:35-36 | after appending a recipe with a fresh id, a lookup of that id returns it |
| `Storage.RemovedIsGone` | src/utils/storage.ts:48-59 | after a removal, a lookup of the removed id returns `null` |
| `Storage.FirstMatchReplaced` | src/utils/storage.ts:70-79 | replacing the first entry with an id makes the replacement the one a lookup finds |
| `Storage.UpdateKeepsIdentities` | src/utils/storage.ts:67-82 | an update keeps the list's length and the id at every position, and a lookup then returns the updated record |
| `Storage.ReplacedAt` | src/utils/storage.ts:76-81 | the same, for an explicit first index with the id |
| `Storage.CustomStore.constructor` | src/utils/storage.ts:3 | the store starts with the given slot and write behaviour |
| `Storage.CustomStore.SetItem` | src/utils/storage.ts:36 | a write replaces the slot, or throws with its message and leaves the slot as it was |
| `Storage.CustomStore.AddCustomCocktail` | src/utils/storage.ts:23-43 | on success the new record is returned and the slot holds the re-read list plus it; a failed write is rethrown and the slot is unchanged |
| `Storage.CustomStore.RemoveCustomCocktail` | src/utils/storage.ts:45-65 | true exactly when some entry has the id and the write succeeds, and then the slot holds `Removed`; otherwise the slot is unchanged |
| `Storage.CustomStore.UpdateCustomCocktail` | src/utils/storage.ts:67-87 | true exactly when some entry has the id and the write succeeds, and then the slot holds `Updated`; otherwise the slot is unchanged |
| `Api.SlotIngredient` | src/utils/api.ts:45-48 | the pushed ingredient: the slot's name, and its measure or "" when the measure is not truthy; `SlotIngredientsAreFilteredSlots` states which slots push one |
| `Api.SlotIngredients` | src/utils/api.ts:40-50 | after scanning n slots at most n ingredients were pushed, each with a non-empty name |
| `Api.Formatted` | src/utils/api.ts:37-62 | the id and name are copied; every other scalar is its value when truthy and "" otherwise; at most fifteen ingredients, all named; not marked custom |
| `Api.FormatCocktail` | src/utils/api.ts:37-62 | the loop over slots 1 to 15 builds exactly `Formatted` |
| `Api.SlotIngredientsAreFilteredSlots` | src/utils/api.ts:40-50 | the loop's list equals the reference definition: keep the populated slot pairs in order, then turn each into an ingredient |
| `Api.FormattedIngredients` | src/utils/api.ts:37-62 | the whole record's ingredients follow that reference definition |
| `Api.EmptySlotsAddNothing` | src/utils/api.ts:42-47 | slots whose ingredient is not truthy add nothing |
| `Api.GapsAreSkipped` | src/utils/api.ts:42-47 | a record with only slots 1, 3 and 5 filled gives exactly those three ingredients, in order |
| `Api.SearchCocktails` | src/utils/api.ts:6-19 | a failure is rethrown; `drinks: null` is the empty result; otherwise one formatted recipe per record, in order |
| `Api.GetCocktailById` | src/utils/api.ts:21-34 | a failure is rethrown; `drinks: null` is "not found"; otherwise the first record is formatted, and an empty array throws |
| `Api.LookupIsFirstSearchResult` | src/utils/api.ts:25-29 | a found lookup is the first search result for the same response; "not found" pairs with the empty search; the lookup fails exactly when the search fails or the array is empty |
| `UseCocktails.MatchesQuery` | src/hooks/useCocktails.ts:43-45 | a recipe matches when its lower-cased name includes the lower-cased, untrimmed query; `QueryMatching` states its consequences |
| `UseCocktails.QueryMatching` | src/hooks/useCocktails.ts:43-45 | a match needs a name at least as long as the query; a name equal to the query up to case matches; the empty query matches every recipe |
| `UseCocktails.MergeResults` | src/hooks/useCocktails.ts:42-47 | the results are the matching custom recipes in stored order, followed by every catalog result unchanged, without deduplication |
| `UseCocktails.NewRecipeLeadsSearch` | src/hooks/useCocktails.ts:42-47 | in a fresh store, after one add, a query its name matches lists that recipe first, ahead of the catalog results |
| `UseCocktails.Hook.constructor` | src/hooks/useCocktails.ts:18-22 | the hook starts with empty lists, no query, not loading and no error |
| `UseCocktails.Hook.FetchCustomCocktails` | src/hooks/useCocktails.ts:24-27 | the list is what the store reads |
| `UseCocktails.Hook.SetSearchQuery` | src/hooks/useCocktails.ts:20 | the query becomes the given text |
| `UseCocktails.Hook.DisplayData` | src/screens/HomeScreen/HomeScreen.tsx:16 | the list handed to the grid is the search results while the untrimmed query is non-empty and the custom list otherwise; `PerformSearch` states that for a non-empty blank query it is empty |
| `UseCocktails.Hook.PerformSearch` | src/hooks/useCocktails.ts:30-54 | a blank query clears the results and changes nothing else, error included, and for a non-empty blank query the list handed to the grid is empty; otherwise loading ends false, a failure keeps the results and sets the message, and success clears the error and stores `MergeResults` |
| `HomeScreen.Title` | src/screens/HomeScreen/HomeScreen.tsx:17-19 | "Custom Cocktails" for the empty query; otherwise "Search Results for" and the untrimmed query in quotes, from which the query reads back |
| `HomeScreen.View` | src/screens/HomeScreen/HomeScreen.tsx:16-40 | the grid gets the display list, the loading flag and the search error; a set error is shown whatever the list; cards show the current page of the display list under the title |
| `HomeScreen.FailedSearchOutlastsClearing` | src/hooks/useCocktails.ts:30-50 | after a failed search and then a cleared query, the grid is handed the custom list but still shows "Search failed. Please try again."; this holds within one mounted hook |
| `HomeScreen.Remount` | src/hooks/useCocktails.ts:18-65 | a newly mounted hook has no search error and an empty query, and after its two mount effects (the blank search, then the store read) the grid is rendered from the stored custom list, not loading, with no error, under "Custom Cocktails" |
| `RecipeScreen.Resolve` | src/screens/RecipeScreen/RecipeScreen.tsx:52-66 | the store answers exactly for a `custom-` id it holds, with that recipe; every other id gets the catalog's lookup |
| `RecipeScreen.HasValidImage` | src/screens/RecipeScreen/RecipeScreen.tsx:169-173 | the picture is shown exactly when the image is non-empty, "placeholder" occurs nowhere in it, and it ends in neither "null" nor "undefined" |
| `RecipeScreen.AddedRecipeResolvesLocally` | src/screens/RecipeScreen/RecipeScreen.tsx:52-58 | a freshly added recipe's id resolves from the store, whatever the catalog answers |
| `RecipeScreen.Screen.constructor` | src/screens/RecipeScreen/RecipeScreen.tsx:37-42 | the screen starts loading, with no recipe, no error, no dialog and not editing |
| `RecipeScreen.Screen.FetchCocktail` | src/screens/RecipeScreen/RecipeScreen.tsx:45-73 | without an id nothing changes; otherwise loading ends false, a resolved recipe is shown without error, and "not found" and a failure set their messages and keep the shown recipe |
| `RecipeScreen.Screen.HandleOpenDeleteDialog` | src/screens/RecipeScreen/RecipeScreen.tsx:78-80 | the dialog is shown |
| `RecipeScreen.Screen.HandleDelete` | src/screens/RecipeScreen/RecipeScreen.tsx:86-98 | without an id the missing-id message is set and nothing is removed; otherwise the store does `Removed`, and the screen goes home exactly when the removal took effect, else it sets the failure message |
| `RecipeScreen.Screen.HandleCloseDeleteDialog` | src/screens/RecipeScreen/RecipeScreen.tsx:100-103 | the dialog is hidden and its error cleared |
| `RecipeScreen.Screen.HandleEdit` | src/screens/RecipeScreen/RecipeScreen.tsx:105-107 | edit mode is entered |
| `RecipeScreen.Screen.HandleEditSubmit` | src/screens/RecipeScreen/RecipeScreen.tsx:109-112 | the saved recipe is shown and edit mode is left |
| `RecipeScreen.Screen.HandleCancelEdit` | src/screens/RecipeScreen/RecipeScreen.tsx:114-116 | edit mode is left |
| `CocktailForm.FormValid` | src/components/CocktailForm/CocktailForm.tsx:77-87 | the validity predicate; `ValidityIsTrimmedChecks` states it as the effect's trimmed checks |
| `CocktailForm.FieldErrors` | src/components/CocktailForm/CocktailForm.tsx:122-135 | the error map of `validateForm`'s five checks in order; `FieldErrorsRecordFailedChecks` states its keys and messages |
| `CocktailForm.FieldErrorsRecordFailedChecks` | src/components/CocktailForm/CocktailForm.tsx:122-135 | each key is present exactly when its check fails, carries that check's message, and no other key appears |
| `CocktailForm.WithError` | src/components/CocktailForm/CocktailForm.tsx:125-134 | a failed check records its message under its key; a passing check changes nothing |
| `CocktailForm.ValidateAgreesWithValidity` | src/components/CocktailForm/CocktailForm.tsx:122-137 | `validateForm`'s error map is empty exactly when the validity effect's predicate holds |
| `CocktailForm.ValidityIsTrimmedChecks` | src/components/CocktailForm/CocktailForm.tsx:77-87 | the validity predicate is exactly the conjunction of the trimmed checks the effect writes |
| `CocktailForm.CocktailData` | src/components/CocktailForm/CocktailForm.tsx:153-163 | the text fields are saved as typed; the ingredients are exactly the named rows, in row order; an empty category becomes "Custom" and an empty preview the placeholder image |
| `CocktailForm.Submitted` | src/components/CocktailForm/CocktailForm.tsx:140-214 | the outcome of a valid submit: a recipe is handed on exactly when no error is reported, and only on success |
| `CocktailForm.SubmittedSavesPayload` | src/components/CocktailForm/CocktailForm.tsx:153-210 | a successful save hands on exactly the payload, marked custom, under the edited id or the timestamp id, with no error; a create clears the fields and an edit keeps them; a failed one keeps the values, slot and success flag and reports an error starting "Failed to save cocktail: ". An edit succeeds exactly when the write succeeds and the store has an entry with the edited id, and otherwise reports "Failed to save cocktail: Failed to update cocktail"; a create succeeds exactly when the write succeeds, and otherwise reports the write's message after the prefix |
| `CocktailForm.SubmittedRecipeIsStored` | src/components/CocktailForm/CocktailForm.tsx:167-186 | after a successful edit a lookup finds the saved recipe and the count is kept; after a create the count grows by one, and a fresh id is found |
| `CocktailForm.Form.constructor` | src/components/CocktailForm/CocktailForm.tsx:40-54 | the form starts empty with one empty row, no errors, not submitting and not valid |
| `CocktailForm.Form.SyncValidity` | src/components/CocktailForm/CocktailForm.tsx:77-87 | `isFormValid` equals the validity predicate of the current fields |
| `CocktailForm.Form.LoadInitialCocktail` | src/components/CocktailForm/CocktailForm.tsx:56-75 | the recipe's fields are copied; no ingredients gives one empty row; the preview is taken only from a non-empty image; without a recipe nothing changes |
| `CocktailForm.Form.EditField` | src/components/CocktailForm/CocktailForm.tsx:229 | the chosen field takes the value and the other fields keep theirs |
| `CocktailForm.Form.HandleAddIngredient` | src/components/CocktailForm/CocktailForm.tsx:89-91 | one empty row is appended |
| `CocktailForm.Form.HandleRemoveIngredient` | src/components/CocktailForm/CocktailForm.tsx:93-97 | exactly the row at the index goes, and the rows before and after keep their order; an index past the end removes nothing |
| `CocktailForm.Form.HandleIngredientChange` | src/components/CocktailForm/CocktailForm.tsx:112-120 | one field of one row takes the value, and every other row is kept; an index past the end changes nothing |
| `CocktailForm.Form.ValidateForm` | src/components/CocktailForm/CocktailForm.tsx:122-138 | the error map is recorded; the result is true exactly when it is empty, which is exactly when the validity predicate holds |
| `CocktailForm.Form.Reset` | src/components/CocktailForm/CocktailForm.tsx:189-198 | every field is emptied and one empty row is left |
| `CocktailForm.Form.SubmitEdit` | src/components/CocktailForm/CocktailForm.tsx:167-182 | the edit path ends not submitting, as `Submitted` describes |
| `CocktailForm.Form.SubmitCreate` | src/components/CocktailForm/CocktailForm.tsx:184-198 | the create path ends not submitting, as `Submitted` describes |
| `CocktailForm.Form.HandleSubmit` | src/components/CocktailForm/CocktailForm.tsx:140-214 | the error map is recorded; an invalid form changes nothing else; a valid one ends not submitting, as `Submitted` describes |
| `CocktailGrid.TotalPages` | src/components/CocktailGrid/CocktailGrid.tsx:42 | `Math.ceil(length / 12)`: the smallest page count that covers the list, zero exactly for an empty list |
| `CocktailGrid.PageItems` | src/components/CocktailGrid/CocktailGrid.tsx:43-47 | at most twelve items; each page from 1 to the total is a non-empty contiguous run starting at its start index; later pages are empty |
| `CocktailGrid.PagesUpToIsPrefix` | src/components/CocktailGrid/CocktailGrid.tsx:42-47 | the first k pages in a row are the first 12k items, or the whole list when it is shorter |
| `CocktailGrid.AllPagesAreTheList` | src/components/CocktailGrid/CocktailGrid.tsx:42-47 | pages 1 to the total, in a row, are exactly the list |
| `CocktailGrid.PagerIffMoreThanOnePage` | src/components/CocktailGrid/CocktailGrid.tsx:101 | the pager shows exactly when the list is longer than one page |
| `CocktailGrid.Heading` | src/components/CocktailGrid/CocktailGrid.tsx:77-81 | an omitted title shows "Cocktails"; an empty one shows nothing; any other title is shown as given |
| `CocktailGrid.Render` | src/components/CocktailGrid/CocktailGrid.tsx:49-111 | the spinner shows exactly while loading, then a non-empty error, then the empty-list message; otherwise the current page of cards, with a pager exactly when there is more than one page |
| `CocktailGrid.Grid.constructor` | src/components/CocktailGrid/CocktailGrid.tsx:28 | the grid starts on page 1 |
| `CocktailGrid.Grid.Receive` | src/components/CocktailGrid/CocktailGrid.tsx:30-32 | a new list puts the grid back on page 1 |
| `CocktailGrid.Grid.HandlePageChange` | src/components/CocktailGrid/CocktailGrid.tsx:34-40 | the page becomes the chosen one |
| `CocktailGrid.FreshListShowsFirstPage` | src/components/CocktailGrid/CocktailGrid.tsx:30-47 | right after a new list arrives, an idle grid shows its first twelve items |
| `CocktailCard.HasValidImage` | src/components/CocktailCard/CocktailCard.tsx:27-31 | the card decides exactly as the recipe screen: it shows the picture under the same four conditions |
| `CocktailCard.DefaultImageShowsPlaceholder` | src/components/CocktailCard/CocktailCard.tsx:29 | the form's default image fails the check, so a recipe saved without a picture shows the placeholder |
| `CocktailCard.MissingThumbnailShowsPlaceholder` | src/components/CocktailCard/CocktailCard.tsx:28 | a remote record without a thumbnail fails the check |
| `CocktailCard.RecipePath` | src/components/CocktailCard/CocktailCard.tsx:23-25 | the target is `/recipe/` followed by the id, unchanged |
| `CocktailCard.RecipePathInjective` | src/components/CocktailCard/CocktailCard.tsx:24 | different ids give different targets |
| `CocktailCard.Card` | src/components/CocktailCard/CocktailCard.tsx:33-90 | the picture shows exactly when the image passes the check; the Custom chip shows exactly for a recipe marked custom; the alcoholic chip shows exactly when that text is non-empty; the name, glass and target are shown |
| `CocktailCard.CustomChipMarksStoredRecipes` | src/components/CocktailCard/CocktailCard.tsx:62-70 | every recipe read from the store carries the Custom chip, and no formatted remote record does |

## Left out

- Network requests: the URLs, axios and the unencoded query text are not modelled. The catalog's answer is an abstract `Api.Response` parameter.
- The JSON encoding of the slot is not modelled. A slot is `Absent`, `Corrupt` or `Stored(list)`; `Corrupt` stands for text that does not parse, or that parses to something other than an array.
- localStorage exceptions are not modelled as such. A failing `setItem` is a `writeError` message on the store.
- `Date.now()` is not modelled. The clock reading is a `timestamp` parameter, and id uniqueness is assumed where a lemma needs it rather than proved.
- Concurrency, promises, the 300 ms search debounce and its cancellation are not modelled: `PerformSearch` runs one search to completion.
- Console logging is left out.
- `handleFileChange` is not modelled: the `FileReader` upload and `selectedFile` are browser I/O. `previewUrl` is a plain field.
- `window.scrollTo` in the page handler is not modelled.
- Navigation is recorded as a path on the screen; the router itself is not modelled.
- MUI rendering is not modelled. The grid's and the card's output are abstract views (`CocktailGrid.View`, `CocktailCard.CardView`). The detail screen's render branches and the form's markup are not modelled.
- Text.ToLower: maps only ASCII letters. JavaScript's full Unicode case mapping is not modelled.
- `HandleIngredientChange` and `LoadInitialCocktail` work on values. The component shallow-copies the row array and then mutates row objects in place, and those objects are shared with the initial recipe. That aliasing is not captured. Its visible effect is missing too: rows edited in the form and then cancelled stay changed in the recipe the detail screen shows. So `RecipeScreen.Screen.HandleCancelEdit` keeps the shown recipe only as a reference; its rows may have changed.
- `CocktailForm.Form.HandleIngredientChange`: an index past the end is modelled as changing nothing. The component throws a TypeError there, because it writes a field of an undefined row, and that exception is not modelled.
- `CocktailGrid.Grid.Receive`: resets the page for every list it is given. React's effect fires on a new array identity, which a value model cannot tell apart from an equal array.
- `CocktailForm.Form.HandleSubmit`: does not re-run the validity effect after the create path clears the fields. The component runs that effect after the handler returns; here it is a following `SyncValidity` call.
- The presentation-only files are not part of this model: `Header`, `SearchBar`, `DeleteCocktailDialog`, `AddCocktailScreen`, `NotFoundScreen`, `Navigation` and `App`. From `HomeScreen` the display list, the title and the props handed to the grid are modelled (`UseCocktails.Hook.DisplayData`, `HomeScreen.Title`, `HomeScreen.View`); its banner and search bar are not.
- The form's select options (the glass and alcoholic lists) are not modelled, since the handlers accept any text.
- `onSuccess` is not modelled as a callback: the saved recipe is the handler's result.

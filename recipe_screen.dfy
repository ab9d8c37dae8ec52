/** The recipe detail screen: resolving the id in the URL, deleting, editing, and the image
    predicate. */
module RecipeScreen {
  import opened Wrappers
  import opened Types
  import Text
  import Storage
  import Api

  const NotFoundMessage := "Cocktail not found"
  const LoadFailedMessage := "Failed to load cocktail details"
  const MissingIdMessage := "Cocktail ID is missing"
  const DeleteFailedMessage := "Failed to delete cocktail"
  const HomePath := "/"

  /** Where a recipe came from: the local store, or the catalog's reply to a lookup. */
  datatype Resolution = Local(cocktail: Cocktail) | Remote(reply: Result<Option<Cocktail>, string>)

  /** The id dispatch of `fetchCocktail`: a `custom-` id found in the store is taken from the
      store without asking the catalog; every other id, a `custom-` id missing from the store
      included, is looked up in the catalog. */
  function Resolve(id: string, slot: Storage.Slot, lookup: Api.Response): (r: Resolution)
    ensures r.Local? <==> Text.StartsWith(id, Storage.CustomIdPrefix) && Storage.GetCustomCocktailById(slot, id).Some?
    ensures r.Local? ==> r.cocktail.id == id && r.cocktail == Storage.GetCustomCocktailById(slot, id).value
    ensures r.Remote? ==> r.reply == Api.GetCocktailById(lookup)
  {
    if Text.StartsWith(id, Storage.CustomIdPrefix) && Storage.GetCustomCocktailById(slot, id).Some? then
      Local(Storage.GetCustomCocktailById(slot, id).value)
    else
      Remote(Api.GetCocktailById(lookup))
  }

  /** The recipe and the message the screen shows for a resolution, given the recipe it showed
      before: a found recipe replaces it and clears the message; "not found" and a failure keep
      it and set their messages. */
  function Shown(r: Resolution, before: Option<Cocktail>): (Option<Cocktail>, Option<string>) {
    match r
    case Local(c) => (Some(c), None)
    case Remote(Ok(Some(c))) => (Some(c), None)
    case Remote(Ok(None)) => (before, Some(NotFoundMessage))
    case Remote(Err(_)) => (before, Some(LoadFailedMessage))
  }

  /** The scenario after an add: the new recipe's id resolves from the store, whatever the
      catalog would answer. */
  lemma AddedRecipeResolvesLocally(before: Storage.Slot, d: Draft, timestamp: nat, lookup: Api.Response)
    requires forall x :: x in Storage.GetCustomCocktails(before) ==> x.id != Storage.CustomId(timestamp)
    ensures var c := Storage.NewCustomCocktail(d, timestamp);
      Resolve(c.id, Storage.Stored(Storage.GetCustomCocktails(before) + [c]), lookup) == Local(c)
  {
    var c := Storage.NewCustomCocktail(d, timestamp);
    Storage.AddedIsFound(Storage.GetCustomCocktails(before), c);
  }

  /** `hasValidImage`: a non-empty image with no "placeholder" in it that does not end with
      "null" or "undefined". */
  predicate HasValidImage(image: string)
    ensures HasValidImage(image) <==>
      image != "" && (forall i :: !Text.OccursAt(image, "placeholder", i))
      && !Text.EndsWith(image, "null") && !Text.EndsWith(image, "undefined")
  {
    Text.ContainsIffOccurs(image, "placeholder");
    image != ""
    && !Text.Contains(image, "placeholder")
    && !Text.EndsWith(image, "null")
    && !Text.EndsWith(image, "undefined")
  }

  /** The screen's state; `id` is the route parameter, absent when the route gives none. */
  class Screen {
    const id: Option<string>
    var loading: bool
    var error: Option<string>
    var cocktail: Option<Cocktail>
    var isEditMode: bool
    var showDeleteDialog: bool
    var deleteError: Option<string>
    /** The path the screen navigated to, if it did. */
    var navigatedTo: Option<string>

    constructor (id: Option<string>)
      ensures this.id == id && loading && error == None && cocktail == None
      ensures !isEditMode && !showDeleteDialog && deleteError == None && navigatedTo == None
    {
      this.id := id;
      loading, error, cocktail := true, None, None;
      isEditMode, showDeleteDialog, deleteError, navigatedTo := false, false, None, None;
    }

    /** `fetchCocktail`, with `lookup` as the catalog's answer for the id. Without an id nothing
        happens. Otherwise the resolved recipe is shown; "not found" and a failure set their
        messages and keep whatever recipe was shown; loading ends false in every case. */
    method FetchCocktail(store: Storage.CustomStore, lookup: Api.Response)
      modifies this`loading, this`error, this`cocktail
      ensures (id.None? || id.value == "") ==>
        loading == old(loading) && error == old(error) && cocktail == old(cocktail)
      ensures id.Some? && id.value != "" ==>
        !loading && (cocktail, error) == Shown(Resolve(id.value, store.slot, lookup), old(cocktail))
    {
      if id.None? || id.value == "" {
        return;
      }
      var recipeId := id.value;
      loading := true;
      error := None;
      if Text.StartsWith(recipeId, Storage.CustomIdPrefix) {
        var customCocktail := Storage.GetCustomCocktailById(store.slot, recipeId);
        if customCocktail.Some? {
          assert Resolve(recipeId, store.slot, lookup) == Local(customCocktail.value);
          cocktail := customCocktail;
          loading := false;
          return;
        }
      }
      var apiCocktail := Api.GetCocktailById(lookup);
      assert Resolve(recipeId, store.slot, lookup) == Remote(apiCocktail);
      match apiCocktail {
        case Ok(Some(c)) => cocktail := Some(c);
        case Ok(None) => error := Some(NotFoundMessage);
        case Err(_) => error := Some(LoadFailedMessage);
      }
      loading := false;
    }

    method HandleOpenDeleteDialog()
      modifies this`showDeleteDialog
      ensures showDeleteDialog
    {
      showDeleteDialog := true;
    }

    /** `handleDelete`: without an id, report it and remove nothing; otherwise remove the id from
        the store and go home on success or report the failure. */
    method HandleDelete(store: Storage.CustomStore)
      modifies this`deleteError, this`navigatedTo, store`slot
      ensures (id.None? || id.value == "") ==>
        deleteError == Some(MissingIdMessage) && store.slot == old(store.slot) && navigatedTo == old(navigatedTo)
      ensures id.Some? && id.value != "" ==>
        var next := Storage.Removed(old(store.slot), id.value);
        var removed := next.Some? && store.writeError.None?;
        store.slot == (if removed then Storage.Stored(next.value) else old(store.slot))
        && (removed ==> navigatedTo == Some(HomePath) && deleteError == old(deleteError))
        && (!removed ==> deleteError == Some(DeleteFailedMessage) && navigatedTo == old(navigatedTo))
    {
      if id.None? || id.value == "" {
        deleteError := Some(MissingIdMessage);
        return;
      }
      var cocktailRemoved := store.RemoveCustomCocktail(id.value);
      if cocktailRemoved {
        navigatedTo := Some(HomePath);
      } else {
        deleteError := Some(DeleteFailedMessage);
      }
    }

    /** `handleCloseDeleteDialog`: hides the dialog and clears its error. */
    method HandleCloseDeleteDialog()
      modifies this`showDeleteDialog, this`deleteError
      ensures !showDeleteDialog && deleteError == None
    {
      showDeleteDialog := false;
      deleteError := None;
    }

    method HandleEdit()
      modifies this`isEditMode
      ensures isEditMode
    {
      isEditMode := true;
    }

    /** `handleEditSubmit`: shows the saved recipe and leaves edit mode. */
    method HandleEditSubmit(updated: Cocktail)
      modifies this`cocktail, this`isEditMode
      ensures cocktail == Some(updated) && !isEditMode
    {
      cocktail := Some(updated);
      isEditMode := false;
    }

    /** `handleCancelEdit`: leaves edit mode; the shown recipe value is not touched (row edits
        the form made in place on the shared row objects are not modelled). */
    method HandleCancelEdit()
      modifies this`isEditMode
      ensures !isEditMode
    {
      isEditMode := false;
    }
  }
}

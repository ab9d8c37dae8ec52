/** The create/edit form: field state, ingredient rows, validation and the saved payload. */
module CocktailForm {
  import opened Wrappers
  import opened Types
  import Seqs
  import Text
  import Storage

  const EmptyRow := Ingredient("", "")
  const DefaultCategory := "Custom"
  const DefaultImage := "/placeholder-cocktail.jpg"
  const SaveFailedPrefix := "Failed to save cocktail: "
  const UpdateFailedMessage := "Failed to update cocktail"

  // The keys and messages of the validation error map.
  const NameKey := "name"
  const AlcoholicKey := "alcoholic"
  const GlassKey := "glass"
  const InstructionsKey := "instructions"
  const IngredientsKey := "ingredients"
  const NameRequired := "Name is required"
  const TypeRequired := "Type is required"
  const GlassRequired := "Glass type is required"
  const InstructionsRequired := "Instructions are required"
  const IngredientsRequired := "At least one ingredient is required"

  /** A row counts as an ingredient when its trimmed name is non-empty, that is, when the name
      is not blank (`Text.Trim` is empty exactly on blank strings). */
  predicate HasName(row: Ingredient) {
    !Text.IsBlank(row.name)
  }

  /** The validity effect: a non-blank name, a type and a glass (not trimmed), non-blank
      instructions, and some row with a non-blank name. */
  predicate FormValid(name: string, alcoholic: string, glass: string, instructions: string, rows: seq<Ingredient>) {
    !Text.IsBlank(name) && alcoholic != "" && glass != "" && !Text.IsBlank(instructions)
    && Seqs.Any(rows, HasName)
  }

  /** `errors` with `message` recorded under `key` when the check `failed`. */
  function WithError(errors: map<string, string>, failed: bool, key: string, message: string): (r: map<string, string>)
    ensures failed ==> key in r && r[key] == message
    ensures !failed ==> r == errors
    ensures forall k :: k in r <==> k in errors || (failed && k == key)
  {
    if failed then errors[key := message] else errors
  }

  /** The error map `validateForm` builds, one entry per missing field. */
  function FieldErrors(name: string, alcoholic: string, glass: string, instructions: string, rows: seq<Ingredient>): map<string, string> {
    var e1 := WithError(map[], Text.IsBlank(name), NameKey, NameRequired);
    var e2 := WithError(e1, alcoholic == "", AlcoholicKey, TypeRequired);
    var e3 := WithError(e2, glass == "", GlassKey, GlassRequired);
    var e4 := WithError(e3, Text.IsBlank(instructions), InstructionsKey, InstructionsRequired);
    WithError(e4, |Seqs.Filter(rows, HasName)| == 0, IngredientsKey, IngredientsRequired)
  }

  /** The error map built check by check, from the outcomes of the five checks in order. */
  lemma FieldErrorsFromChecks(name: string, alcoholic: string, glass: string, instructions: string, rows: seq<Ingredient>,
                              nameMissing: bool, instructionsMissing: bool, noIngredients: bool)
    requires nameMissing == Text.IsBlank(name) && instructionsMissing == Text.IsBlank(instructions)
    requires noIngredients == (|Seqs.Filter(rows, HasName)| == 0)
    ensures FieldErrors(name, alcoholic, glass, instructions, rows) ==
      var e1 := WithError(map[], nameMissing, NameKey, NameRequired);
      var e2 := WithError(e1, alcoholic == "", AlcoholicKey, TypeRequired);
      var e3 := WithError(e2, glass == "", GlassKey, GlassRequired);
      var e4 := WithError(e3, instructionsMissing, InstructionsKey, InstructionsRequired);
      WithError(e4, noIngredients, IngredientsKey, IngredientsRequired)
  {
  }

  /** Each failing check of `validateForm` records its key, with its own message, and no other
      key appears. */
  lemma FieldErrorsRecordFailedChecks(name: string, alcoholic: string, glass: string, instructions: string, rows: seq<Ingredient>)
    ensures var e := FieldErrors(name, alcoholic, glass, instructions, rows);
      (NameKey in e <==> Text.IsBlank(name))
      && (AlcoholicKey in e <==> alcoholic == "")
      && (GlassKey in e <==> glass == "")
      && (InstructionsKey in e <==> Text.IsBlank(instructions))
      && (IngredientsKey in e <==> !Seqs.Any(rows, HasName))
      && e.Keys <= {NameKey, AlcoholicKey, GlassKey, InstructionsKey, IngredientsKey}
    ensures var e := FieldErrors(name, alcoholic, glass, instructions, rows);
      (NameKey in e ==> e[NameKey] == NameRequired)
      && (AlcoholicKey in e ==> e[AlcoholicKey] == TypeRequired)
      && (GlassKey in e ==> e[GlassKey] == GlassRequired)
      && (InstructionsKey in e ==> e[InstructionsKey] == InstructionsRequired)
      && (IngredientsKey in e ==> e[IngredientsKey] == IngredientsRequired)
  {
    Seqs.FilterEmptyIffNone(rows, HasName);
  }

  /** `validateForm` succeeds (its error map is empty) exactly when the validity effect holds
      for the same fields. */
  lemma ValidateAgreesWithValidity(name: string, alcoholic: string, glass: string, instructions: string, rows: seq<Ingredient>)
    ensures |FieldErrors(name, alcoholic, glass, instructions, rows)| == 0 <==> FormValid(name, alcoholic, glass, instructions, rows)
  {
    var named := Seqs.Filter(rows, HasName);
    Seqs.FilterEmptyIffNone(rows, HasName);
    var e := FieldErrors(name, alcoholic, glass, instructions, rows);
    assert Text.IsBlank(name) ==> NameKey in e;
    assert alcoholic == "" ==> AlcoholicKey in e;
    assert glass == "" ==> GlassKey in e;
    assert Text.IsBlank(instructions) ==> InstructionsKey in e;
    assert |named| == 0 ==> IngredientsKey in e;
  }

  /** The validity predicate is the conjunction of the trimmed checks the component writes. */
  lemma ValidityIsTrimmedChecks(name: string, alcoholic: string, glass: string, instructions: string, rows: seq<Ingredient>)
    ensures FormValid(name, alcoholic, glass, instructions, rows) <==>
      Text.Trim(name) != "" && alcoholic != "" && glass != "" && Text.Trim(instructions) != ""
      && exists i :: 0 <= i < |rows| && Text.Trim(rows[i].name) != ""
  {
    assert forall i :: 0 <= i < |rows| ==> (HasName(rows[i]) <==> Text.Trim(rows[i].name) != "");
  }

  /** The `cocktailData` payload of `handleSubmit`. Text fields are saved as typed (untrimmed);
      the saved ingredients are exactly the named rows, in row order; an empty category becomes
      "Custom" and a missing preview the placeholder image. */
  function CocktailData(name: string, glass: string, alcoholic: string, category: string, instructions: string,
                        rows: seq<Ingredient>, previewUrl: string): (d: Draft)
    ensures d.name == name && d.glass == glass && d.alcoholic == alcoholic && d.instructions == instructions
    ensures d.ingredients == Seqs.Filter(rows, HasName)
    ensures forall row :: row in d.ingredients <==> row in rows && HasName(row)
    ensures category != "" ==> d.category == category
    ensures category == "" ==> d.category == DefaultCategory
    ensures previewUrl != "" ==> d.image == previewUrl
    ensures previewUrl == "" ==> d.image == DefaultImage
  {
    Seqs.FilterMembers(rows, HasName);
    Draft(
      name,
      if previewUrl != "" then previewUrl else DefaultImage,
      if category != "" then category else DefaultCategory,
      alcoholic,
      glass,
      instructions,
      Seqs.Filter(rows, HasName))
  }

  /** The values the form's inputs hold. */
  datatype Values = Values(
    name: string,
    glass: string,
    alcoholic: string,
    category: string,
    instructions: string,
    ingredients: seq<Ingredient>,
    previewUrl: string)

  /** The values after a successful create: every field empty and one empty row. */
  const Cleared := Values("", "", "", "", "", [EmptyRow], "")

  /** The payload the form's values produce. */
  function PayloadOf(v: Values): Draft {
    CocktailData(v.name, v.glass, v.alcoholic, v.category, v.instructions, v.ingredients, v.previewUrl)
  }

  /** What a submission that passed validation leaves behind: the form's values, the storage
      slot, the recipe handed to `onSuccess`, and the success and error states. */
  datatype Outcome = Outcome(values: Values, slot: Storage.Slot, saved: Option<Cocktail>, success: bool, error: Option<string>)

  /** The two save paths of `handleSubmit` for a valid form. Editing a recipe keeps its id and
      writes by update, reporting a false from update; otherwise the payload is added under a
      timestamp id, a failed write is reported with its message, and in create mode the
      fields are cleared. */
  function Submitted(before: Values, slot: Storage.Slot, writeError: Option<string>, success: bool,
                     isEditMode: bool, initial: Option<Cocktail>, timestamp: nat): (o: Outcome)
    ensures o.saved.Some? <==> o.error.None?
    ensures o.saved.Some? ==> o.success
  {
    var d := PayloadOf(before);
    if isEditMode && initial.Some? then
      var u := WithIdentity(d, initial.value.id, Some(true));
      var next := Storage.Updated(slot, u);
      if next.Some? && writeError.None? then Outcome(before, Storage.Stored(next.value), Some(u), true, None)
      else Outcome(before, slot, None, success, Some(SaveFailedPrefix + UpdateFailedMessage))
    else
      match writeError
      case None =>
        var c := Storage.NewCustomCocktail(d, timestamp);
        Outcome(if isEditMode then before else Cleared, Storage.Stored(Storage.GetCustomCocktails(slot) + [c]), Some(c), true, None)
      case Some(m) => Outcome(before, slot, None, success, Some(SaveFailedPrefix + m))
  }

  /** A save that succeeds hands on exactly the form's payload as a custom recipe, under the
      edited recipe's id or a fresh timestamp id, and leaves no error; one that fails keeps the
      values, the slot and the success flag and reports an error that starts with the save
      prefix. */
  lemma SubmittedSavesPayload(before: Values, slot: Storage.Slot, writeError: Option<string>, success: bool,
                              isEditMode: bool, initial: Option<Cocktail>, timestamp: nat)
    ensures var o := Submitted(before, slot, writeError, success, isEditMode, initial, timestamp);
      (o.saved.Some? ==> DraftOf(o.saved.value) == PayloadOf(before) && o.saved.value.isCustom == Some(true)
                         && o.success && o.error == None)
      && (o.saved.Some? && isEditMode && initial.Some? ==> o.saved.value.id == initial.value.id)
      && (o.saved.Some? && !(isEditMode && initial.Some?) ==> o.saved.value.id == Storage.CustomId(timestamp))
      && (o.saved.None? ==> o.values == before && o.slot == slot && o.success == success
                            && o.error.Some? && Text.StartsWith(o.error.value, SaveFailedPrefix))
    ensures var o := Submitted(before, slot, writeError, success, isEditMode, initial, timestamp);
      (o.saved.Some? && !isEditMode ==> o.values == Cleared)
      && (o.saved.Some? && isEditMode ==> o.values == before)
    ensures var o := Submitted(before, slot, writeError, success, isEditMode, initial, timestamp);
      (isEditMode && initial.Some? ==>
        (o.saved.Some? <==> writeError.None? && exists x :: x in Storage.GetCustomCocktails(slot) && x.id == initial.value.id)
        && (o.saved.None? ==> o.error == Some(SaveFailedPrefix + UpdateFailedMessage)))
      && (!(isEditMode && initial.Some?) ==>
        (o.saved.Some? <==> writeError.None?)
        && (writeError.Some? ==> o.error == Some(SaveFailedPrefix + writeError.value)))
  {
    var o := Submitted(before, slot, writeError, success, isEditMode, initial, timestamp);
    if o.saved.None? {
      var rest := o.error.value[|SaveFailedPrefix|..];
      assert o.error.value == SaveFailedPrefix + rest;
      assert o.error.value[..|SaveFailedPrefix|] == SaveFailedPrefix;
    }
  }

  /** After a successful save a lookup by the saved recipe's id finds it: always after an edit,
      and after a create when no stored recipe had the new id already. An edit keeps the number
      of stored recipes and a create adds one. */
  lemma SubmittedRecipeIsStored(before: Values, slot: Storage.Slot, writeError: Option<string>, success: bool,
                                isEditMode: bool, initial: Option<Cocktail>, timestamp: nat)
    ensures var o := Submitted(before, slot, writeError, success, isEditMode, initial, timestamp);
      o.saved.Some? ==>
        (isEditMode && initial.Some? ==>
          Storage.GetCustomCocktailById(o.slot, o.saved.value.id) == o.saved
          && |Storage.GetCustomCocktails(o.slot)| == |Storage.GetCustomCocktails(slot)|)
        && (!(isEditMode && initial.Some?) ==>
          |Storage.GetCustomCocktails(o.slot)| == |Storage.GetCustomCocktails(slot)| + 1
          && ((forall x :: x in Storage.GetCustomCocktails(slot) ==> x.id != o.saved.value.id) ==>
                Storage.GetCustomCocktailById(o.slot, o.saved.value.id) == o.saved))
  {
    var o := Submitted(before, slot, writeError, success, isEditMode, initial, timestamp);
    var d := PayloadOf(before);
    if o.saved.Some? {
      var c := o.saved.value;
      if isEditMode && initial.Some? {
        Storage.UpdateKeepsIdentities(slot, c);
        assert Storage.Stamp(c) == c;
      } else {
        var list := Storage.GetCustomCocktails(slot);
        Storage.RereadStored(list + [c]);
        if forall x :: x in list ==> x.id != c.id {
          Storage.AddedIsFound(list, c);
        }
      }
    }
  }

  datatype Field = NameField | GlassField | AlcoholicField | CategoryField | InstructionsField

  datatype RowField = RowName | RowMeasure

  class Form {
    var name: string
    var glass: string
    var alcoholic: string
    var category: string
    var instructions: string
    var ingredients: seq<Ingredient>
    var errors: map<string, string>
    var submitting: bool
    var success: bool
    var error: Option<string>
    var isFormValid: bool
    var previewUrl: string
    const initialCocktail: Option<Cocktail>
    const isEditMode: bool

    /** The validity effect has run: `isFormValid` is in step with the fields. This is a step
        relation, not an invariant other methods rely on: every handler that changes those fields
        re-establishes it, as the effect does after each render, and no contract requires it.
        Only the save button's enabled state reads `isFormValid`, and that button is not
        modelled. */
    predicate ValiditySynced()
      reads this`isFormValid, this`name, this`alcoholic, this`glass, this`instructions, this`ingredients
    {
      isFormValid == FormValid(name, alcoholic, glass, instructions, ingredients)
    }

    function CurrentValues(): Values
      reads this`name, this`glass, this`alcoholic, this`category, this`instructions, this`ingredients, this`previewUrl
    {
      Values(name, glass, alcoholic, category, instructions, ingredients, previewUrl)
    }


    constructor (initialCocktail: Option<Cocktail>, isEditMode: bool)
      ensures ValiditySynced() && CurrentValues() == Cleared && !isFormValid
      ensures errors == map[] && !submitting && !success && error == None
      ensures this.initialCocktail == initialCocktail && this.isEditMode == isEditMode
    {
      name, glass, alcoholic, category, instructions := "", "", "", "", "";
      ingredients := [EmptyRow];
      errors, submitting, success, error := map[], false, false, None;
      previewUrl := "";
      this.initialCocktail := initialCocktail;
      this.isEditMode := isEditMode;
      isFormValid := false;
    }

    /** The validity effect, run after every change of the fields it depends on. */
    method SyncValidity()
      modifies this`isFormValid
      ensures ValiditySynced()
    {
      var hasName := Text.Trim(name) != "";
      var hasAlcoholic := alcoholic != "";
      var hasGlass := glass != "";
      var hasInstructions := Text.Trim(instructions) != "";
      var hasIngredients := Seqs.Any(ingredients, HasName);
      isFormValid := hasName && hasAlcoholic && hasGlass && hasInstructions && hasIngredients;
    }

    /** The initial-cocktail effect: copies the recipe's fields into the form; a recipe without
        ingredients gets one empty row, and the preview is only taken from a non-empty image. */
    method LoadInitialCocktail()
      modifies this`name, this`glass, this`alcoholic, this`category, this`instructions,
        this`ingredients, this`previewUrl, this`isFormValid
      ensures ValiditySynced()
      ensures initialCocktail.None? ==> CurrentValues() == old(CurrentValues())
      ensures initialCocktail.Some? ==> var c := initialCocktail.value;
        name == c.name && glass == c.glass && alcoholic == c.alcoholic && category == c.category
        && instructions == c.instructions
        && ingredients == (if |c.ingredients| > 0 then c.ingredients else [EmptyRow])
        && previewUrl == (if c.image != "" then c.image else old(previewUrl))
    {
      if initialCocktail.Some? {
        var c := initialCocktail.value;
        name, glass, alcoholic, category, instructions := c.name, c.glass, c.alcoholic, c.category, c.instructions;
        ingredients := if |c.ingredients| > 0 then c.ingredients else [EmptyRow];
        if c.image != "" {
          previewUrl := c.image;
        }
      }
      SyncValidity();
    }

    /** The `onChange` handler of a text input or select. */
    method EditField(field: Field, value: string)
      modifies this`name, this`glass, this`alcoholic, this`category, this`instructions, this`isFormValid
      ensures ValiditySynced()
      ensures name == (if field == NameField then value else old(name))
      ensures glass == (if field == GlassField then value else old(glass))
      ensures alcoholic == (if field == AlcoholicField then value else old(alcoholic))
      ensures category == (if field == CategoryField then value else old(category))
      ensures instructions == (if field == InstructionsField then value else old(instructions))
    {
      match field {
        case NameField => name := value;
        case GlassField => glass := value;
        case AlcoholicField => alcoholic := value;
        case CategoryField => category := value;
        case InstructionsField => instructions := value;
      }
      SyncValidity();
    }

    /** `handleAddIngredient`: one empty row at the end. */
    method HandleAddIngredient()
      modifies this`ingredients, this`isFormValid
      ensures ValiditySynced()
      ensures ingredients == old(ingredients) + [EmptyRow]
    {
      ingredients := ingredients + [EmptyRow];
      SyncValidity();
    }

    /** `handleRemoveIngredient`: `splice(index, 1)` on a copy. Exactly the row at `index` goes
        and the others keep their order; an index past the end removes nothing. */
    method HandleRemoveIngredient(index: nat)
      modifies this`ingredients, this`isFormValid
      ensures ValiditySynced()
      ensures index < |old(ingredients)| ==>
        |ingredients| == |old(ingredients)| - 1
        && ingredients[..index] == old(ingredients)[..index]
        && ingredients[index..] == old(ingredients)[index + 1..]
      ensures index >= |old(ingredients)| ==> ingredients == old(ingredients)
    {
      var newIngredients := ingredients;
      if index < |newIngredients| {
        newIngredients := newIngredients[..index] + newIngredients[index + 1..];
      }
      ingredients := newIngredients;
      SyncValidity();
    }

    /** `handleIngredientChange`: sets one field of one row. An index past the end makes the
        handler throw before anything is set. */
    method HandleIngredientChange(index: nat, field: RowField, value: string)
      modifies this`ingredients, this`isFormValid
      ensures ValiditySynced()
      ensures index < |old(ingredients)| ==> ingredients == old(ingredients)[index :=
        if field == RowName then old(ingredients)[index].(name := value) else old(ingredients)[index].(measure := value)]
      ensures index >= |old(ingredients)| ==> ingredients == old(ingredients)
    {
      if index < |ingredients| {
        var row := ingredients[index];
        row := if field == RowName then row.(name := value) else row.(measure := value);
        ingredients := ingredients[index := row];
      }
      SyncValidity();
    }

    /** `validateForm`: records the error map and reports whether it is empty, which is the
        validity predicate of the same fields. */
    method ValidateForm() returns (ok: bool)
      modifies this`errors
      ensures errors == FieldErrors(name, alcoholic, glass, instructions, ingredients)
      ensures ok == (|errors| == 0)
      ensures ok == FormValid(name, alcoholic, glass, instructions, ingredients)
    {
      var nameMissing := Text.Trim(name) == "";
      var instructionsMissing := Text.Trim(instructions) == "";
      assert nameMissing == Text.IsBlank(name);
      assert instructionsMissing == Text.IsBlank(instructions);
      var newErrors: map<string, string> := map[];
      newErrors := WithError(newErrors, nameMissing, NameKey, NameRequired);
      newErrors := WithError(newErrors, alcoholic == "", AlcoholicKey, TypeRequired);
      newErrors := WithError(newErrors, glass == "", GlassKey, GlassRequired);
      newErrors := WithError(newErrors, instructionsMissing, InstructionsKey, InstructionsRequired);
      var validIngredients := Seqs.Filter(ingredients, HasName);
      newErrors := WithError(newErrors, |validIngredients| == 0, IngredientsKey, IngredientsRequired);
      FieldErrorsFromChecks(name, alcoholic, glass, instructions, ingredients,
                            nameMissing, instructionsMissing, |validIngredients| == 0);
      ValidateAgreesWithValidity(name, alcoholic, glass, instructions, ingredients);
      ok := |newErrors| == 0;
      assert ok == FormValid(name, alcoholic, glass, instructions, ingredients);
      errors := newErrors;
    }

    /** Clears the fields after a successful create. */
    method Reset()
      modifies this`name, this`glass, this`alcoholic, this`category, this`instructions,
        this`ingredients, this`previewUrl
      ensures CurrentValues() == Cleared
    {
      name, glass, alcoholic, category, instructions := "", "", "", "", "";
      ingredients := [EmptyRow];
      previewUrl := "";
    }

    /** The edit path of `handleSubmit` for a valid form. The edit path of `Submitted` does not
        read the clock, so any timestamp describes it; 0 is passed. */
    method SubmitEdit(store: Storage.CustomStore) returns (saved: Option<Cocktail>)
      requires isEditMode && initialCocktail.Some?
      modifies this`submitting, this`success, this`error, store`slot
      ensures !submitting
      ensures Outcome(CurrentValues(), store.slot, saved, success, error)
        == Submitted(old(CurrentValues()), old(store.slot), store.writeError, old(success), isEditMode, initialCocktail, 0)
    {
      var cocktailData := PayloadOf(CurrentValues());
      submitting := true;
      error := None;
      var updatedCocktail := WithIdentity(cocktailData, initialCocktail.value.id, Some(true));
      var done := store.UpdateCustomCocktail(updatedCocktail);
      if !done {
        error := Some(SaveFailedPrefix + UpdateFailedMessage);
        submitting := false;
        return None;
      }
      success := true;
      submitting := false;
      return Some(updatedCocktail);
    }

    /** The create path of `handleSubmit` for a valid form. */
    method SubmitCreate(store: Storage.CustomStore, timestamp: nat) returns (saved: Option<Cocktail>)
      requires !(isEditMode && initialCocktail.Some?)
      modifies this`name, this`glass, this`alcoholic, this`category, this`instructions,
        this`ingredients, this`previewUrl, this`submitting, this`success, this`error, store`slot
      ensures !submitting
      ensures Outcome(CurrentValues(), store.slot, saved, success, error)
        == Submitted(old(CurrentValues()), old(store.slot), store.writeError, old(success), isEditMode, initialCocktail, timestamp)
    {
      var cocktailData := PayloadOf(CurrentValues());
      submitting := true;
      error := None;
      var added := store.AddCustomCocktail(cocktailData, timestamp);
      if added.Err? {
        error := Some(SaveFailedPrefix + added.error);
        submitting := false;
        return None;
      }
      if !isEditMode {
        Reset();
      }
      success := true;
      submitting := false;
      return Some(added.value);
    }

    /** `handleSubmit`, with `timestamp` as the clock reading a create uses for the id. It records
        the validation errors; an invalid form changes nothing else, and a valid one ends as
        `Submitted` describes, with `submitting` cleared. The saved recipe is what `onSuccess`
        receives. Like every field change in the component, a reset is followed by the validity
        effect (`SyncValidity`), which runs after the handler. */
    method HandleSubmit(store: Storage.CustomStore, timestamp: nat) returns (saved: Option<Cocktail>)
      modifies this`name, this`glass, this`alcoholic, this`category, this`instructions,
        this`ingredients, this`previewUrl, this`errors, this`submitting,
        this`success, this`error, store`slot
      ensures errors == old(FieldErrors(name, alcoholic, glass, instructions, ingredients))
      ensures |errors| == 0 <==> old(FormValid(name, alcoholic, glass, instructions, ingredients))
      ensures |errors| != 0 ==>
        saved == None && store.slot == old(store.slot) && CurrentValues() == old(CurrentValues())
        && error == old(error) && submitting == old(submitting) && success == old(success)
      ensures |errors| == 0 ==> !submitting
      ensures |errors| == 0 ==>
        Outcome(CurrentValues(), store.slot, saved, success, error) == Submitted(old(CurrentValues()), old(store.slot), store.writeError, old(success), isEditMode, initialCocktail, timestamp)
    {
      var valid := ValidateForm();
      assert errors == old(FieldErrors(name, alcoholic, glass, instructions, ingredients));
      assert CurrentValues() == old(CurrentValues());
      assert success == old(success) && store.slot == old(store.slot);
      if valid {
        if isEditMode && initialCocktail.Some? {
          saved := SubmitEdit(store);
        } else {
          saved := SubmitCreate(store, timestamp);
        }
      } else {
        saved := None;
      }
    }
  }
}

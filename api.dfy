/** The adapter for the remote catalog: normalising its fixed-slot records into recipes, and
    the two lookups over an abstract response. */
module Api {
  import opened Wrappers
  import opened Types
  import Seqs

  /** JavaScript truthiness of a nullable string: neither null nor empty. */
  predicate Truthy(v: Option<string>) {
    v.Some? && v.value != ""
  }

  /** `v || ""`: null and the empty string both become the empty string. */
  function OrEmpty(v: Option<string>): string {
    if v.Some? then v.value else ""
  }

  /** The ingredient `{ name, measure: measure || "" }` built from slot `i` (field number
      i + 1). */
  function SlotIngredient(drink: DrinkRecord, i: nat): Ingredient
    requires i < SlotCount
  {
    Ingredient(OrEmpty(drink.strIngredient[i]), OrEmpty(drink.strMeasure[i]))
  }

  /** The ingredients the loop of `formatCocktail` has pushed after scanning the first `n`
      slots: a slot yields an ingredient exactly when its name is truthy. */
  function SlotIngredients(drink: DrinkRecord, n: nat): (r: seq<Ingredient>)
    requires n <= SlotCount
    ensures |r| <= n
    ensures forall k :: 0 <= k < |r| ==> r[k].name != ""
  {
    if n == 0 then []
    else
      SlotIngredients(drink, n - 1)
      + (if Truthy(drink.strIngredient[n - 1]) then [SlotIngredient(drink, n - 1)] else [])
  }

  /** The recipe `formatCocktail` builds from a remote record. Scalars are never null (null or
      empty becomes ""), at most fifteen ingredients come out, each with a non-empty name, and
      the record is not marked custom. */
  function Formatted(drink: DrinkRecord): (c: Cocktail)
    ensures c.id == drink.idDrink && c.name == drink.strDrink && c.isCustom == None
    ensures |c.ingredients| <= SlotCount
    ensures forall k :: 0 <= k < |c.ingredients| ==> c.ingredients[k].name != ""
    ensures Truthy(drink.strDrinkThumb) ==> c.image == drink.strDrinkThumb.value
    ensures !Truthy(drink.strDrinkThumb) ==> c.image == ""
    ensures Truthy(drink.strCategory) ==> c.category == drink.strCategory.value
    ensures !Truthy(drink.strCategory) ==> c.category == ""
    ensures Truthy(drink.strAlcoholic) ==> c.alcoholic == drink.strAlcoholic.value
    ensures !Truthy(drink.strAlcoholic) ==> c.alcoholic == ""
    ensures Truthy(drink.strGlass) ==> c.glass == drink.strGlass.value
    ensures !Truthy(drink.strGlass) ==> c.glass == ""
    ensures Truthy(drink.strInstructions) ==> c.instructions == drink.strInstructions.value
    ensures !Truthy(drink.strInstructions) ==> c.instructions == ""
  {
    Cocktail(
      drink.idDrink,
      drink.strDrink,
      OrEmpty(drink.strDrinkThumb),
      OrEmpty(drink.strCategory),
      OrEmpty(drink.strAlcoholic),
      OrEmpty(drink.strGlass),
      OrEmpty(drink.strInstructions),
      SlotIngredients(drink, SlotCount),
      None)
  }

  /** `formatCocktail`: scans slots 1 to 15 in increasing order and pushes an ingredient for
      every slot whose name is truthy. */
  method FormatCocktail(drink: DrinkRecord) returns (c: Cocktail)
    ensures c == Formatted(drink)
  {
    var ingredients: seq<Ingredient> := [];
    for i := 1 to SlotCount + 1
      invariant ingredients == SlotIngredients(drink, i - 1)
    {
      var name := drink.strIngredient[i - 1];
      if Truthy(name) {
        ingredients := ingredients + [Ingredient(name.value, OrEmpty(drink.strMeasure[i - 1]))];
      }
    }
    c := Cocktail(
      drink.idDrink,
      drink.strDrink,
      OrEmpty(drink.strDrinkThumb),
      OrEmpty(drink.strCategory),
      OrEmpty(drink.strAlcoholic),
      OrEmpty(drink.strGlass),
      OrEmpty(drink.strInstructions),
      ingredients,
      None);
  }

  /** The record's slots as (ingredient, measure) pairs, slot 1 first. */
  function Pairs(drink: DrinkRecord): (p: seq<(Option<string>, Option<string>)>)
    ensures |p| == SlotCount
    ensures forall i :: 0 <= i < SlotCount ==> p[i] == (drink.strIngredient[i], drink.strMeasure[i])
  {
    seq(SlotCount, i requires 0 <= i < SlotCount => (drink.strIngredient[i], drink.strMeasure[i]))
  }

  function Populated(pair: (Option<string>, Option<string>)): bool {
    Truthy(pair.0)
  }

  function PairIngredient(pair: (Option<string>, Option<string>)): Ingredient {
    Ingredient(OrEmpty(pair.0), OrEmpty(pair.1))
  }

  /** Reference definition of the normalised list: keep the slot pairs whose ingredient is
      truthy, in slot order, and turn each into an ingredient. */
  lemma {:induction false} SlotIngredientsAreFilteredSlots(drink: DrinkRecord, n: nat)
    requires n <= SlotCount
    ensures SlotIngredients(drink, n) == Seqs.Map(Seqs.Filter(Pairs(drink)[..n], Populated), PairIngredient)
  {
    if n > 0 {
      SlotIngredientsAreFilteredSlots(drink, n - 1);
      FilteredSlotsStep(drink, n);
    }
  }

  /** Scanning one more slot adds to the reference list exactly what the loop pushes. */
  lemma FilteredSlotsStep(drink: DrinkRecord, n: nat)
    requires 0 < n <= SlotCount
    ensures Seqs.Map(Seqs.Filter(Pairs(drink)[..n], Populated), PairIngredient)
      == Seqs.Map(Seqs.Filter(Pairs(drink)[..n - 1], Populated), PairIngredient)
         + (if Truthy(drink.strIngredient[n - 1]) then [SlotIngredient(drink, n - 1)] else [])
  {
    var p := Pairs(drink);
    var kept := Seqs.Filter([p[n - 1]], Populated);
    assert p[..n] == p[..n - 1] + [p[n - 1]];
    assert [p[n - 1]][1..] == [];
    assert kept == if Populated(p[n - 1]) then [p[n - 1]] else [];
    Seqs.FilterAppend(p[..n - 1], [p[n - 1]], Populated);
    Seqs.MapAppend(Seqs.Filter(p[..n - 1], Populated), kept, PairIngredient);
  }

  /** The normalised ingredients of a whole record, by the reference definition. */
  lemma FormattedIngredients(drink: DrinkRecord)
    ensures Formatted(drink).ingredients == Seqs.Map(Seqs.Filter(Pairs(drink), Populated), PairIngredient)
  {
    SlotIngredientsAreFilteredSlots(drink, SlotCount);
    assert Pairs(drink)[..SlotCount] == Pairs(drink);
  }

  /** Slots past the last truthy one add nothing. */
  lemma {:induction false} EmptySlotsAddNothing(drink: DrinkRecord, m: nat, n: nat)
    requires m <= n <= SlotCount
    requires forall i :: m <= i < n ==> !Truthy(drink.strIngredient[i])
    ensures SlotIngredients(drink, n) == SlotIngredients(drink, m)
  {
    if n > m {
      EmptySlotsAddNothing(drink, m, n - 1);
    }
  }

  /** A record with only slots 1, 3 and 5 filled normalises to exactly those three ingredients,
      in that order: gaps leave no placeholder. */
  lemma GapsAreSkipped(drink: DrinkRecord)
    requires forall i :: 0 <= i < SlotCount ==> (Truthy(drink.strIngredient[i]) <==> i == 0 || i == 2 || i == 4)
    ensures Formatted(drink).ingredients == [SlotIngredient(drink, 0), SlotIngredient(drink, 2), SlotIngredient(drink, 4)]
  {
    var a, b, c := SlotIngredient(drink, 0), SlotIngredient(drink, 2), SlotIngredient(drink, 4);
    assert Truthy(drink.strIngredient[0]) && !Truthy(drink.strIngredient[1]);
    assert Truthy(drink.strIngredient[2]) && !Truthy(drink.strIngredient[3]);
    assert Truthy(drink.strIngredient[4]);
    assert SlotIngredients(drink, 2) == [a];
    assert SlotIngredients(drink, 4) == [a, b];
    assert SlotIngredients(drink, 5) == [a, b, c];
    EmptySlotsAddNothing(drink, 5, SlotCount);
  }

  /** What the catalog answered: a transport or parse failure with its message, a response
      whose `drinks` is null, or a list of records. */
  datatype Response = Fail(message: string) | NoDrinks | Drinks(drinks: seq<DrinkRecord>)

  /** The error `formatCocktail(undefined)` throws when `drinks` is an empty array, in the wording
      of the V8 engine; other engines word the TypeError differently, and nothing here depends
      on the text. */
  const UndefinedRecordError := "Cannot read properties of undefined (reading 'strIngredient1')"

  /** `searchCocktails`: no drinks is an empty result, not an error; otherwise one recipe per
      record, in order; a failure is rethrown. */
  function SearchCocktails(response: Response): (r: Result<seq<Cocktail>, string>)
    ensures r.Err? <==> response.Fail?
    ensures response.Fail? ==> r.error == response.message
    ensures response.NoDrinks? ==> r == Ok([])
    ensures response.Drinks? ==> |r.value| == |response.drinks|
    ensures response.Drinks? ==> forall i :: 0 <= i < |r.value| ==> r.value[i] == Formatted(response.drinks[i])
  {
    match response
    case Fail(message) => Err(message)
    case NoDrinks => Ok([])
    case Drinks(drinks) => Ok(Seqs.Map(drinks, Formatted))
  }

  /** `getCocktailById`: no drinks is "not found" (`Ok(None)`), not an error; otherwise only the
      first record is formatted; a failure is rethrown, and so is the TypeError an empty array
      provokes. */
  function GetCocktailById(response: Response): (r: Result<Option<Cocktail>, string>)
    ensures response.Fail? ==> r == Err(response.message)
    ensures response.NoDrinks? ==> r == Ok(None)
    ensures response.Drinks? && response.drinks != [] ==> r == Ok(Some(Formatted(response.drinks[0])))
    ensures response == Drinks([]) ==> r == Err(UndefinedRecordError)
  {
    match response
    case Fail(message) => Err(message)
    case NoDrinks => Ok(None)
    case Drinks(drinks) =>
      if drinks == [] then Err(UndefinedRecordError) else Ok(Some(Formatted(drinks[0])))
  }

  /** The two lookups agree on one response: a found record is the first search result, and
      "not found" goes with an empty search result. */
  lemma LookupIsFirstSearchResult(response: Response)
    ensures GetCocktailById(response).Ok? && GetCocktailById(response).value.Some? ==>
      SearchCocktails(response).Ok? && SearchCocktails(response).value != []
      && SearchCocktails(response).value[0] == GetCocktailById(response).value.value
    ensures GetCocktailById(response) == Ok(None) ==> SearchCocktails(response) == Ok([])
    ensures GetCocktailById(response).Err? <==> SearchCocktails(response).Err? || response == Drinks([])
  {
  }
}

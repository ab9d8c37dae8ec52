/** The shared record shapes of the recipe client and its one pagination constant. */
module Types {
  import opened Wrappers

  datatype Ingredient = Ingredient(name: string, measure: string)

  /** A recipe. `isCustom` is optional: `None` when the field is absent (remote records),
      `Some(true)` on every recipe read out of local storage. */
  datatype Cocktail = Cocktail(
    id: string,
    name: string,
    image: string,
    category: string,
    alcoholic: string,
    glass: string,
    instructions: string,
    ingredients: seq<Ingredient>,
    isCustom: Option<bool>)

  /** A recipe before it has an identity: `Omit<Cocktail, "id" | "isCustom">`. */
  datatype Draft = Draft(
    name: string,
    image: string,
    category: string,
    alcoholic: string,
    glass: string,
    instructions: string,
    ingredients: seq<Ingredient>)

  /** The fields of `c` other than `id` and `isCustom`. */
  function DraftOf(c: Cocktail): Draft {
    Draft(c.name, c.image, c.category, c.alcoholic, c.glass, c.instructions, c.ingredients)
  }

  /** `{...d, id, isCustom}`: a draft given an identity. */
  function WithIdentity(d: Draft, id: string, isCustom: Option<bool>): (c: Cocktail)
    ensures DraftOf(c) == d && c.id == id && c.isCustom == isCustom
  {
    Cocktail(id, d.name, d.image, d.category, d.alcoholic, d.glass, d.instructions, d.ingredients, isCustom)
  }

  /** The number of numbered ingredient/measure fields in a remote record. */
  const SlotCount: nat := 15

  /** The values of `strIngredient1..15` (or `strMeasure1..15`); index k holds field k + 1. */
  type Slots = s: seq<Option<string>> | |s| == SlotCount
    witness [None, None, None, None, None, None, None, None, None, None, None, None, None, None, None]

  /** A record as the remote catalog sends it (`GetCocktailByIdResponse`); `None` is JSON null. */
  datatype DrinkRecord = DrinkRecord(
    idDrink: string,
    strDrink: string,
    strDrinkAlternate: Option<string>,
    strTags: Option<string>,
    strCategory: Option<string>,
    strAlcoholic: Option<string>,
    strGlass: Option<string>,
    strInstructions: Option<string>,
    strDrinkThumb: Option<string>,
    strIngredient: Slots,
    strMeasure: Slots)

  /** Cards shown per page of the grid. */
  const PageSize: nat := 12
}

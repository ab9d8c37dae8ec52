/** One recipe card: its picture check, chips and navigation target. */
module CocktailCard {
  import opened Wrappers
  import opened Types
  import Text
  import Storage
  import Api
  import CocktailForm
  import RecipeScreen

  const RecipePathPrefix := "/recipe/"

  /** `hasValidImage`: a non-empty image that does not mention "placeholder" and does not end in
      "null" or "undefined" (the text a missing value turns into inside a URL). The card and the
      recipe screen each write this check, and they decide alike. */
  predicate HasValidImage(image: string)
    ensures HasValidImage(image) == RecipeScreen.HasValidImage(image)
  {
    image != ""
    && !Text.Contains(image, "placeholder")
    && !Text.EndsWith(image, "null")
    && !Text.EndsWith(image, "undefined")
  }

  /** The form's default image is rejected, so a recipe saved without a picture shows the
      "No Image Available" placeholder. */
  lemma DefaultImageShowsPlaceholder()
    ensures !HasValidImage(CocktailForm.DefaultImage)
  {
    var image := CocktailForm.DefaultImage;
    var word := "placeholder";
    assert image == "/" + word + "-cocktail.jpg";
    assert image[1..12] == word;
    Text.ContainsAt(image, word, 1);
  }

  /** A remote record without a thumbnail is formatted with an empty image and shows the
      placeholder too. */
  lemma MissingThumbnailShowsPlaceholder(drink: DrinkRecord)
    requires !Api.Truthy(drink.strDrinkThumb)
    ensures !HasValidImage(Api.Formatted(drink).image)
  {
  }

  /** `handleClick`'s target: the recipe route followed by the id, unchanged. */
  function RecipePath(c: Cocktail): (path: string)
    ensures Text.StartsWith(path, RecipePathPrefix)
    ensures path[|RecipePathPrefix|..] == c.id
  {
    RecipePathPrefix + c.id
  }

  /** Different recipes' ids lead to different paths. */
  lemma RecipePathInjective(a: Cocktail, b: Cocktail)
    requires a.id != b.id
    ensures RecipePath(a) != RecipePath(b)
  {
    assert RecipePath(a)[|RecipePathPrefix|..] != RecipePath(b)[|RecipePathPrefix|..];
  }

  /** What a card renders. */
  datatype CardView = CardView(
    picture: Option<string>,
    title: string,
    customChip: bool,
    alcoholicChip: Option<string>,
    glass: string,
    target: string)

  /** The card of a recipe: the picture only when the image passes the check, the "Custom" chip
      when `isCustom` is truthy, the alcoholic chip when that text is non-empty. */
  function Card(c: Cocktail): (v: CardView)
    ensures v.picture.Some? <==> HasValidImage(c.image)
    ensures v.picture.Some? ==> v.picture.value == c.image
    ensures v.customChip <==> c.isCustom == Some(true)
    ensures v.alcoholicChip.Some? <==> c.alcoholic != ""
    ensures v.alcoholicChip.Some? ==> v.alcoholicChip.value == c.alcoholic
    ensures v.title == c.name && v.glass == c.glass && v.target == RecipePath(c)
  {
    CardView(
      if HasValidImage(c.image) then Some(c.image) else None,
      c.name,
      c.isCustom == Some(true),
      if c.alcoholic != "" then Some(c.alcoholic) else None,
      c.glass,
      RecipePath(c))
  }

  /** Every recipe read back from storage carries the "Custom" chip; no formatted remote record
      does. */
  lemma CustomChipMarksStoredRecipes(slot: Storage.Slot, drink: DrinkRecord)
    ensures forall c :: c in Storage.GetCustomCocktails(slot) ==> Card(c).customChip
    ensures !Card(Api.Formatted(drink)).customChip
  {
  }
}

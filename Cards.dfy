/** What the recipe grid and the detail modal show, as values rather than
    markup: the card of one recipe, the visible slice of the filtered list
    with the "show more" control, and the detail view. */
module Cards {
  import opened Seqs
  import opened Text
  import opened Recipes
  import Stars

  const IngredientSeparator: string := ", "
  const Ellipsis: string := "..."

  /** `ingredients.slice(0, 3).join(", ")`, followed by "..." when the recipe
      has more than three ingredients. */
  function IngredientSummary(ingredients: seq<string>): string
  {
    Join(Take(ingredients, 3), IngredientSeparator) + (if |ingredients| > 3 then Ellipsis else "")
  }

  /** With at most three ingredients the summary is the whole list joined;
      with more, it is the joined list cut just before the separator that
      follows the third ingredient, and "..." is appended. */
  lemma SummaryOfIngredients(ingredients: seq<string>)
    ensures |ingredients| <= 3 ==> IngredientSummary(ingredients) == Join(ingredients, IngredientSeparator)
    ensures |ingredients| > 3 ==>
      var shown := IngredientSummary(ingredients)[..|IngredientSummary(ingredients)| - |Ellipsis|];
      IngredientSummary(ingredients) == shown + Ellipsis &&
      Join(ingredients, IngredientSeparator) == shown + IngredientSeparator + Join(ingredients[3..], IngredientSeparator)
  {
    if |ingredients| > 3 {
      JoinSplit(ingredients, IngredientSeparator, 3);
    } else {
      assert Take(ingredients, 3) == ingredients;
      assert Join(ingredients, IngredientSeparator) + "" == Join(ingredients, IngredientSeparator);
    }
  }

  /** The contents of one recipe card. */
  datatype Card = Card(
    id: int,
    image: string,
    name: string,
    cuisine: string,
    cookTimeMinutes: int,
    difficulty: string,
    servings: int,
    stars: string,
    rating: real,
    reviewCount: int,
    ingredients: string)

  /** `createRecipeCard`: the star string is the one `generateStars` builds. */
  function CardOf(r: Recipe): Card
  {
    Card(r.id, r.image, r.name, r.cuisine, r.cookTimeMinutes, r.difficulty, r.servings,
         Stars.StarsAsWritten(r.rating), r.rating, r.reviewCount, IngredientSummary(r.ingredients))
  }

  /** A card's "View Full Recipe" button opens the recipe the card shows; for a
      rating in [0, 5] its stars start with `floor(rating)` filled ones and
      number five, or four when the fractional part lies strictly between 0
      and one half; its ingredient text is the summary of the recipe's list. */
  lemma CardShowsRecipe(r: Recipe)
    ensures CardOf(r).id == r.id && CardOf(r).name == r.name && CardOf(r).rating == r.rating
    ensures CardOf(r).ingredients == IngredientSummary(r.ingredients)
    ensures 0.0 <= r.rating <= 5.0 ==>
      Stars.Count(CardOf(r).stars, Stars.Filled) == Stars.Floor(r.rating) &&
      |CardOf(r).stars| == (if 0.0 < Stars.FracPart(r.rating) < 0.5 then 4 else 5)
    ensures 0.0 <= r.rating <= 5.0 ==>
      forall i :: 0 <= i < |CardOf(r).stars| ==> (CardOf(r).stars[i] == Stars.Filled <==> i < Stars.Floor(r.rating))
  {
    if 0.0 <= r.rating <= 5.0 {
      Stars.StarsAsWrittenShape(r.rating);
    }
  }

  /** The contents of the detail modal: every field of the recipe, the full
      lists in their stored order and the star string `generateStars` builds. */
  datatype Detail = Detail(
    image: string,
    name: string,
    prepTimeMinutes: int,
    cookTimeMinutes: int,
    servings: int,
    difficulty: string,
    cuisine: string,
    caloriesPerServing: int,
    stars: string,
    rating: real,
    reviewCount: int,
    ingredients: seq<string>,
    instructions: seq<string>,
    tags: seq<string>)

  function DetailOf(r: Recipe): Detail
  {
    Detail(r.image, r.name, r.prepTimeMinutes, r.cookTimeMinutes, r.servings, r.difficulty,
           r.cuisine, r.caloriesPerServing, Stars.StarsAsWritten(r.rating), r.rating, r.reviewCount,
           r.ingredients, r.instructions, r.tags)
  }

  /** The detail view shows the same stars and the same name as the recipe's
      card, and the full ingredient list of which the card shows the summary. */
  lemma DetailShowsRecipe(r: Recipe)
    ensures DetailOf(r).stars == CardOf(r).stars && DetailOf(r).name == CardOf(r).name
    ensures CardOf(r).ingredients == IngredientSummary(DetailOf(r).ingredients)
    ensures DetailOf(r).ingredients == r.ingredients && DetailOf(r).instructions == r.instructions &&
      DetailOf(r).tags == r.tags
  {
  }

  /** What the grid area shows. */
  datatype Grid =
    | Blank                                      // emptied, nothing rendered yet
    | NoResults                                  // the "No recipes found" message, show-more hidden
    | CardList(cards: seq<Card>, showMore: bool)  // the visible cards and the show-more control

  /** `renderRecipes`: an empty filtered list shows the empty-state message;
      otherwise the first `displayed` recipes (or all of them, if fewer) become
      cards, with the "show more" control. */
  function RenderList(filtered: seq<Recipe>, displayed: nat): Grid
  {
    if |filtered| == 0 then NoResults
    else
      var shown := Take(filtered, displayed);
      CardList(seq(|shown|, i requires 0 <= i < |shown| => CardOf(shown[i])), displayed < |filtered|)
  }

  /** The empty-state message appears exactly when nothing matched; otherwise
      the cards are those of the first `displayed` recipes in order, and "show
      more" is visible exactly when some recipe is left out. */
  lemma RenderListSpec(filtered: seq<Recipe>, displayed: nat)
    ensures RenderList(filtered, displayed).NoResults? <==> filtered == []
    ensures RenderList(filtered, displayed).NoResults? || RenderList(filtered, displayed).CardList?
    ensures RenderList(filtered, displayed).CardList? ==>
      |RenderList(filtered, displayed).cards| == Min(displayed, |filtered|)
    ensures RenderList(filtered, displayed).CardList? ==>
      forall i :: 0 <= i < |RenderList(filtered, displayed).cards| ==> RenderList(filtered, displayed).cards[i] == CardOf(filtered[i])
    ensures RenderList(filtered, displayed).CardList? ==>
      (RenderList(filtered, displayed).showMore <==> displayed < |filtered|)
  {
  }
}

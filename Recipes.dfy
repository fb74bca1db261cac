/** A recipe as the recipe list delivers it, and the lookup by identifier. */
module Recipes {
  import opened Seqs

  /** One entry of the recipe list; never changed once loaded. */
  datatype Recipe = Recipe(
    id: int,
    name: string,
    cuisine: string,
    ingredients: seq<string>,
    instructions: seq<string>,
    tags: seq<string>,
    prepTimeMinutes: int,
    cookTimeMinutes: int,
    servings: int,
    difficulty: string,
    caloriesPerServing: int,
    rating: real,
    reviewCount: int,
    image: string)

  predicate HasId(id: int, r: Recipe) { r.id == id }

  /** `i` is the position of the first recipe carrying `id`. */
  predicate FirstWithId(recipes: seq<Recipe>, id: int, i: int)
  {
    0 <= i < |recipes| && recipes[i].id == id && forall j :: 0 <= j < i ==> recipes[j].id != id
  }

  /** `allRecipes.find((r) => r.id === recipeId)`: the first recipe carrying
      `id`, or None when no recipe does. */
  function FindRecipe(recipes: seq<Recipe>, id: int): (r: Option<Recipe>)
    ensures r.None? <==> forall i :: 0 <= i < |recipes| ==> recipes[i].id != id
    ensures r.Some? ==> r.value.id == id
    ensures r.Some? ==> exists i :: FirstWithId(recipes, id, i) && recipes[i] == r.value
  {
    match FindFirst(recipes, r => HasId(id, r))
    case None => None
    case Some(i) => Some(recipes[i])
  }
}

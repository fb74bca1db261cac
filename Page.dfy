/** The recipes page: the page-level state (`allRecipes`, `filteredRecipes`,
    `displayedRecipes`), the values of the search box and the cuisine select,
    the pending debounced search, the grid and the detail modal, and the event
    handlers that update them. */
module Page {
  import opened Seqs
  import opened Recipes
  import opened Filters
  import opened Cards
  import Cuisines

  const RecipesPerPage: nat := 6

  class RecipesPage {
    var allRecipes: seq<Recipe>
    var filteredRecipes: seq<Recipe>
    var displayedRecipes: nat
    /** The current text of the search box. */
    var searchValue: string
    /** The current value of the cuisine select; "" is the "all cuisines" option. */
    var cuisineValue: string
    /** The options appended to the cuisine select. */
    var cuisineOptions: seq<string>
    /** A debounced search evaluation is scheduled and not yet run. */
    var searchPending: bool
    /** The load attempt is over and the input handlers are attached. */
    var listening: bool
    var grid: Grid
    /** The load-error message, an element apart from the grid, is visible. */
    var errorShown: bool
    /** The content of the detail modal, None until a recipe is opened. */
    var detail: Option<Detail>
    /** The search text `filteredRecipes` was last computed with. */
    ghost var appliedSearch: string
    /** The box holds text typed before the handlers were attached, and no
        evaluation has applied it yet. */
    ghost var staleSearch: bool

    /** Between events, once the handlers are attached: pages of six, and the
        filtered list is what the last search text applied and the selected
        cuisine pick out of the full list. */
    ghost predicate Ready()
      reads this
    {
      listening &&
      displayedRecipes % RecipesPerPage == 0 &&
      filteredRecipes == Matching(allRecipes, appliedSearch, cuisineValue)
    }

    /** The filtered list is what the two controls currently select. */
    ghost predicate InSync()
      reads this
    {
      filteredRecipes == Matching(allRecipes, searchValue, cuisineValue)
    }

    /** Before loading, the initial state, whatever has been typed into the
        box. Afterwards `Ready`; the count is 0 exactly while the grid is still
        blank (no render has run); the error message shows only over an empty
        full list; and the text in the search box has been applied unless an
        evaluation is pending or the text was typed before the handlers were
        attached. Such stale text stays unapplied, with no cuisine chosen,
        until the next keystroke or cuisine change. */
    ghost predicate Valid()
      reads this
    {
      (!listening ==>
        allRecipes == [] && filteredRecipes == [] && displayedRecipes == 0 &&
        cuisineValue == "" && appliedSearch == "" &&
        !searchPending && !staleSearch && grid == Blank && !errorShown) &&
      (listening ==>
        Ready() &&
        (displayedRecipes == 0 <==> grid == Blank) &&
        (errorShown ==> allRecipes == []) &&
        (!searchPending && !staleSearch ==> appliedSearch == searchValue) &&
        (staleSearch ==> !searchPending && appliedSearch == "" && cuisineValue == ""))
    }

    /** The page as the script finds it: empty lists, a count of zero and
        untouched controls. */
    constructor ()
      ensures Valid() && !listening
      ensures cuisineOptions == [] && detail == None
    {
      allRecipes := [];
      filteredRecipes := [];
      displayedRecipes := 0;
      searchValue := "";
      cuisineValue := "";
      cuisineOptions := [];
      searchPending := false;
      listening := false;
      grid := Blank;
      errorShown := false;
      detail := None;
      appliedSearch := "";
      staleSearch := false;
    }

    /** Text typed into the box while the recipes load: no input handler is
        attached yet, so the box changes and nothing is scheduled. */
    method OnSearchInputBeforeLoad(text: string)
      requires Valid() && !listening
      modifies this`searchValue
      ensures Valid() && !listening
      ensures searchValue == text && !searchPending
    {
      searchValue := text;
    }

    /** Once the handlers are attached, the filtered list keeps the order of
        the full list and holds exactly the recipes that match the last search
        text applied and the selected cuisine. */
    lemma FilteredFromAll(x: Recipe)
      requires Valid() && listening
      ensures IsSubsequence(filteredRecipes, allRecipes)
      ensures x in filteredRecipes <==>
        x in allRecipes && MatchesTerm(x, NormalizeTerm(appliedSearch)) && MatchesCuisine(x, cuisineValue)
    {
      StepsInOrder(allRecipes, appliedSearch, cuisineValue);
      MatchingKeeps(allRecipes, appliedSearch, cuisineValue, x);
    }

    /** Once anything has been rendered, the count is a positive multiple of
        the page size; it is 0 only while the grid is still blank, which after
        loading happens only when the load failed. */
    lemma CountPositiveOnceRendered()
      requires Valid() && listening && grid != Blank
      ensures displayedRecipes > 0 && displayedRecipes % RecipesPerPage == 0
    {
    }

    /** Between events with no evaluation pending and no stale text, the
        filtered list is what the two controls currently select. */
    lemma SettledInSync()
      requires Valid() && listening && !searchPending && !staleSearch
      ensures InSync()
    {
    }

    /** Text typed before the handlers were attached is not applied: until the
        next keystroke or cuisine change the page lists every recipe, whatever
        the box says. */
    lemma StaleShowsAll()
      requires Valid() && listening && staleSearch
      ensures filteredRecipes == allRecipes
    {
      MatchingNothingSelected(allRecipes);
    }

    /** `loadRecipes` followed by attaching the handlers. `fetched` is the
        recipe list, or None when fetching or parsing it failed. On failure the
        error message is shown and stays shown, since nothing hides it again;
        the grid stays blank. The handlers are attached either way. */
    method LoadRecipes(fetched: Option<seq<Recipe>>)
      requires Valid() && !listening
      modifies this`allRecipes, this`filteredRecipes, this`displayedRecipes, this`cuisineOptions,
        this`grid, this`listening, this`staleSearch, this`errorShown
      ensures Valid() && listening
      ensures errorShown <==> fetched.None?
      ensures staleSearch <==> searchValue != ""
      ensures fetched.Some? ==>
        allRecipes == fetched.value && filteredRecipes == fetched.value &&
        displayedRecipes == RecipesPerPage &&
        cuisineOptions == old(cuisineOptions) + Cuisines.CuisineOptions(fetched.value) &&
        grid == RenderList(filteredRecipes, displayedRecipes)
      ensures fetched.None? ==>
        allRecipes == [] && filteredRecipes == [] && displayedRecipes == 0 &&
        cuisineOptions == old(cuisineOptions) && grid == Blank
      ensures searchValue == old(searchValue) && cuisineValue == old(cuisineValue)
      ensures !searchPending && detail == old(detail)
    {
      assert appliedSearch == "" && cuisineValue == "";
      staleSearch := searchValue != "";
      match fetched
      case None =>
        errorShown := true;
        listening := true;
        assert filteredRecipes == Matching(allRecipes, appliedSearch, cuisineValue);
      case Some(recipes) =>
        allRecipes := recipes;
        filteredRecipes := recipes;
        PopulateCuisineFilter();
        displayedRecipes := RecipesPerPage;
        RenderRecipes();
        MatchingNothingSelected(recipes);
        listening := true;
        assert filteredRecipes == Matching(allRecipes, appliedSearch, cuisineValue);
    }

    /** `populateCuisineFilter`: appends one option per distinct cuisine of
        the full list, in sorted order. */
    method PopulateCuisineFilter()
      modifies this`cuisineOptions
      ensures cuisineOptions == old(cuisineOptions) + Cuisines.CuisineOptions(allRecipes)
    {
      var cuisines := Cuisines.CuisineOptions(allRecipes);
      var i := 0;
      while i < |cuisines|
        invariant 0 <= i <= |cuisines|
        invariant cuisineOptions == old(cuisineOptions) + cuisines[..i]
      {
        cuisineOptions := cuisineOptions + [cuisines[i]];
        i := i + 1;
      }
      assert cuisines[..i] == cuisines;
    }

    /** `renderRecipes`: redraws the grid from the filtered list and the count. */
    method RenderRecipes()
      modifies this`grid
      ensures grid == RenderList(filteredRecipes, displayedRecipes)
      ensures grid.NoResults? || grid.CardList?
    {
      if |filteredRecipes| == 0 {
        grid := NoResults;
        return;
      }
      var recipesToShow := Take(filteredRecipes, displayedRecipes);
      var cards := seq(|recipesToShow|, i requires 0 <= i < |recipesToShow| => CardOf(recipesToShow[i]));
      grid := CardList(cards, displayedRecipes < |filteredRecipes|);
    }

    /** A keystroke in the search box: the previous scheduled evaluation is
        cancelled and a new one is scheduled. */
    method OnSearchInput(text: string)
      requires Valid() && listening
      modifies this`searchValue, this`searchPending, this`staleSearch
      ensures Valid()
      ensures searchValue == text && searchPending && !staleSearch
    {
      searchValue := text;
      searchPending := true;
      staleSearch := false;
    }

    /** The debounce timer fires: only the scheduled evaluation that was not
        cancelled runs, and it reads the search box as it is now, so the last
        text typed is the one evaluated. */
    method OnSearchTimer()
      requires Valid() && listening
      modifies this`filteredRecipes, this`displayedRecipes, this`grid, this`searchPending, this`appliedSearch
      ensures Valid() && !searchPending
      ensures !staleSearch ==> InSync()
      ensures old(searchPending) ==>
        displayedRecipes == RecipesPerPage && grid == RenderList(filteredRecipes, displayedRecipes)
      ensures !old(searchPending) ==>
        filteredRecipes == old(filteredRecipes) && displayedRecipes == old(displayedRecipes) && grid == old(grid)
    {
      if searchPending {
        HandleSearch(searchValue);
        searchPending := false;
      }
    }

    /** `handleSearch`: search over the full list, then apply the selected
        cuisine, then reset the count to one page and redraw. */
    method HandleSearch(searchTerm: string)
      modifies this`filteredRecipes, this`displayedRecipes, this`grid, this`appliedSearch
      ensures filteredRecipes == CuisineFilter(SearchFilter(allRecipes, searchTerm), cuisineValue)
      ensures filteredRecipes == Matching(allRecipes, searchTerm, cuisineValue)
      ensures appliedSearch == searchTerm
      ensures displayedRecipes == RecipesPerPage
      ensures grid == RenderList(filteredRecipes, displayedRecipes)
      ensures listening ==> Ready()
    {
      filteredRecipes := SearchFilter(allRecipes, searchTerm);
      if cuisineValue != "" {
        filteredRecipes := KeepCuisine(filteredRecipes, cuisineValue);
      }
      displayedRecipes := RecipesPerPage;
      RenderRecipes();
      SearchThenCuisine(allRecipes, searchTerm, cuisineValue);
      appliedSearch := searchTerm;
    }

    /** A new value chosen in the cuisine select. */
    method OnCuisineChange(value: string)
      requires Valid() && listening
      modifies this`cuisineValue, this`filteredRecipes, this`displayedRecipes, this`grid, this`appliedSearch,
        this`staleSearch
      ensures Valid() && InSync() && !staleSearch
      ensures cuisineValue == value
      ensures filteredRecipes == Matching(allRecipes, searchValue, value)
      ensures displayedRecipes == RecipesPerPage
      ensures grid == RenderList(filteredRecipes, displayedRecipes)
    {
      cuisineValue := value;
      HandleCuisineFilter(value);
      staleSearch := false;
    }

    /** `handleCuisineFilter`: apply the cuisine to the full list, then the
        current text of the search box, then reset the count to one page and
        redraw. */
    method HandleCuisineFilter(cuisine: string)
      modifies this`filteredRecipes, this`displayedRecipes, this`grid, this`appliedSearch
      ensures filteredRecipes == SearchFilter(CuisineFilter(allRecipes, cuisine), searchValue)
      ensures filteredRecipes == Matching(allRecipes, searchValue, cuisine)
      ensures appliedSearch == searchValue
      ensures displayedRecipes == RecipesPerPage
      ensures grid == RenderList(filteredRecipes, displayedRecipes)
      ensures listening && cuisine == cuisineValue ==> Ready()
    {
      if cuisine == "" {
        filteredRecipes := allRecipes;
      } else {
        filteredRecipes := KeepCuisine(allRecipes, cuisine);
      }
      filteredRecipes := SearchFilter(filteredRecipes, searchValue);
      displayedRecipes := RecipesPerPage;
      RenderRecipes();
      CuisineThenSearch(allRecipes, searchValue, cuisine);
      appliedSearch := searchValue;
    }

    /** The "show more" button: one more page, same filtered list. */
    method ShowMore()
      requires Valid() && listening
      modifies this`displayedRecipes, this`grid
      ensures Valid()
      ensures displayedRecipes == old(displayedRecipes) + RecipesPerPage
      ensures grid == RenderList(filteredRecipes, displayedRecipes)
    {
      displayedRecipes := displayedRecipes + RecipesPerPage;
      RenderRecipes();
    }

    /** `showRecipeDetail`: open the modal on the recipe with that identifier;
        an identifier no recipe has changes nothing. */
    method ShowRecipeDetail(recipeId: int)
      modifies this`detail
      ensures FindRecipe(allRecipes, recipeId).None? ==> detail == old(detail)
      ensures FindRecipe(allRecipes, recipeId).Some? ==> detail == Some(DetailOf(FindRecipe(allRecipes, recipeId).value))
    {
      var recipe := FindRecipe(allRecipes, recipeId);
      if recipe.None? {
        return;
      }
      detail := Some(DetailOf(recipe.value));
    }
  }
}

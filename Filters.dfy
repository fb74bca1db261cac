/** The filter engine behind the search box and the cuisine select: two
    predicates over a recipe and the two orders in which the handlers apply
    them. */
module Filters {
  import opened Seqs
  import opened Text
  import opened Recipes

  /** `searchTerm.toLowerCase().trim()`. */
  function NormalizeTerm(searchTerm: string): string
  {
    Trim(Lower(searchTerm))
  }

  /** `xs.some((x) => x.toLowerCase().includes(term))`. */
  predicate SomeIncludes(xs: seq<string>, term: string)
  {
    exists i :: 0 <= i < |xs| && Includes(Lower(xs[i]), term)
  }

  /** The search callback: the (already normalised) term occurs in the
      lower-cased name, cuisine, some ingredient or some tag. */
  predicate MatchesTerm(r: Recipe, term: string)
  {
    Includes(Lower(r.name), term) || Includes(Lower(r.cuisine), term)
    || SomeIncludes(r.ingredients, term) || SomeIncludes(r.tags, term)
  }

  /** The cuisine condition: the empty selection means every cuisine, any
      other value must equal the recipe's cuisine exactly. */
  predicate MatchesCuisine(r: Recipe, cuisine: string)
  {
    cuisine == "" || r.cuisine == cuisine
  }

  /** `recipes.filter` with the search callback, for a non-empty term. */
  function KeepTerm(recipes: seq<Recipe>, term: string): (r: seq<Recipe>)
  {
    if recipes == [] then []
    else if MatchesTerm(recipes[0], term) then [recipes[0]] + KeepTerm(recipes[1..], term)
    else KeepTerm(recipes[1..], term)
  }

  /** `recipes.filter((recipe) => recipe.cuisine === cuisine)`. */
  function KeepCuisine(recipes: seq<Recipe>, cuisine: string): (r: seq<Recipe>)
  {
    if recipes == [] then []
    else if recipes[0].cuisine == cuisine then [recipes[0]] + KeepCuisine(recipes[1..], cuisine)
    else KeepCuisine(recipes[1..], cuisine)
  }

  /** One pass keeping the recipes that satisfy both predicates. */
  function KeepBoth(recipes: seq<Recipe>, term: string, cuisine: string): (r: seq<Recipe>)
  {
    if recipes == [] then []
    else if MatchesTerm(recipes[0], term) && MatchesCuisine(recipes[0], cuisine) then [recipes[0]] + KeepBoth(recipes[1..], term, cuisine)
    else KeepBoth(recipes[1..], term, cuisine)
  }

  /** The search step: an empty normalised term keeps the list as it is,
      otherwise the recipes the term matches are kept, in order. */
  function SearchFilter(recipes: seq<Recipe>, searchTerm: string): (r: seq<Recipe>)
    ensures NormalizeTerm(searchTerm) == "" ==> r == recipes
  {
    var term := NormalizeTerm(searchTerm);
    if term == "" then recipes
    else KeepTerm(recipes, term)
  }

  /** The cuisine step: the empty value keeps the list as it is, otherwise
      exactly the recipes of that cuisine are kept, in order. */
  function CuisineFilter(recipes: seq<Recipe>, cuisine: string): (r: seq<Recipe>)
    ensures cuisine == "" ==> r == recipes
  {
    if cuisine == "" then recipes
    else KeepCuisine(recipes, cuisine)
  }

  /** The reference definition of the filtered view: the recipes accepted by
      both the search predicate and the cuisine predicate, in order. */
  function Matching(recipes: seq<Recipe>, searchTerm: string, cuisine: string): (r: seq<Recipe>)
  {
    KeepBoth(recipes, NormalizeTerm(searchTerm), cuisine)
  }

  /** Every recipe contains the empty term, so it keeps the whole list. */
  lemma {:induction false} KeepTermEmpty(recipes: seq<Recipe>)
    ensures KeepTerm(recipes, "") == recipes
  {
    if recipes != [] {
      IncludesEmpty(Lower(recipes[0].name));
      KeepTermEmpty(recipes[1..]);
    }
  }

  /** The search filter keeps exactly the recipes the term matches. */
  lemma {:induction false} KeepTermMembers(recipes: seq<Recipe>, term: string, x: Recipe)
    ensures x in KeepTerm(recipes, term) <==> x in recipes && MatchesTerm(x, term)
  {
    if recipes != [] {
      KeepTermMembers(recipes[1..], term, x);
      assert recipes == [recipes[0]] + recipes[1..];
    }
  }

  /** The combined filter keeps exactly the recipes both predicates accept. */
  lemma {:induction false} KeepBothMembers(recipes: seq<Recipe>, term: string, cuisine: string, x: Recipe)
    ensures x in KeepBoth(recipes, term, cuisine) <==> x in recipes && MatchesTerm(x, term) && MatchesCuisine(x, cuisine)
  {
    if recipes != [] {
      KeepBothMembers(recipes[1..], term, cuisine, x);
      assert recipes == [recipes[0]] + recipes[1..];
    }
  }

  /** The cuisine filter keeps exactly the recipes of that cuisine. */
  lemma {:induction false} KeepCuisineMembers(recipes: seq<Recipe>, cuisine: string, x: Recipe)
    ensures x in KeepCuisine(recipes, cuisine) <==> x in recipes && x.cuisine == cuisine
  {
    if recipes != [] {
      KeepCuisineMembers(recipes[1..], cuisine, x);
      assert recipes == [recipes[0]] + recipes[1..];
    }
  }

  /** Each filter keeps the surviving recipes in their original order. */
  lemma {:induction false} KeepTermInOrder(recipes: seq<Recipe>, term: string)
    ensures IsSubsequence(KeepTerm(recipes, term), recipes)
  {
    if recipes == [] {
      SubsequenceEmpty(recipes);
    } else {
      var rest := KeepTerm(recipes[1..], term);
      KeepTermInOrder(recipes[1..], term);
      assert recipes == [recipes[0]] + recipes[1..];
      SubsequenceKeep(recipes[0], rest, recipes[1..]);
      SubsequenceSkip(recipes[0], rest, recipes[1..]);
    }
  }

  lemma {:induction false} KeepCuisineInOrder(recipes: seq<Recipe>, cuisine: string)
    ensures IsSubsequence(KeepCuisine(recipes, cuisine), recipes)
  {
    if recipes == [] {
      SubsequenceEmpty(recipes);
    } else {
      var rest := KeepCuisine(recipes[1..], cuisine);
      KeepCuisineInOrder(recipes[1..], cuisine);
      assert recipes == [recipes[0]] + recipes[1..];
      SubsequenceKeep(recipes[0], rest, recipes[1..]);
      SubsequenceSkip(recipes[0], rest, recipes[1..]);
    }
  }

  lemma {:induction false} KeepBothInOrder(recipes: seq<Recipe>, term: string, cuisine: string)
    ensures IsSubsequence(KeepBoth(recipes, term, cuisine), recipes)
  {
    if recipes == [] {
      SubsequenceEmpty(recipes);
    } else {
      var rest := KeepBoth(recipes[1..], term, cuisine);
      KeepBothInOrder(recipes[1..], term, cuisine);
      assert recipes == [recipes[0]] + recipes[1..];
      SubsequenceKeep(recipes[0], rest, recipes[1..]);
      SubsequenceSkip(recipes[0], rest, recipes[1..]);
    }
  }

  /** The search step and the cuisine step each keep the order of their
      input, and so does the combined view. */
  lemma StepsInOrder(recipes: seq<Recipe>, searchTerm: string, cuisine: string)
    ensures IsSubsequence(SearchFilter(recipes, searchTerm), recipes)
    ensures IsSubsequence(CuisineFilter(recipes, cuisine), recipes)
    ensures IsSubsequence(Matching(recipes, searchTerm, cuisine), recipes)
  {
    SubsequenceOfItself(recipes);
    KeepTermInOrder(recipes, NormalizeTerm(searchTerm));
    KeepCuisineInOrder(recipes, cuisine);
    KeepBothInOrder(recipes, NormalizeTerm(searchTerm), cuisine);
  }

  /** Search, then cuisine: the same as the single combined pass. */
  lemma {:induction false} KeepTermThenCuisine(recipes: seq<Recipe>, term: string, cuisine: string)
    requires cuisine != ""
    ensures KeepCuisine(KeepTerm(recipes, term), cuisine) == KeepBoth(recipes, term, cuisine)
  {
    if recipes != [] {
      var rest := KeepTerm(recipes[1..], term);
      KeepTermThenCuisine(recipes[1..], term, cuisine);
      assert ([recipes[0]] + rest)[0] == recipes[0] && ([recipes[0]] + rest)[1..] == rest;
    }
  }

  /** Cuisine, then search: the same as the single combined pass. */
  lemma {:induction false} KeepCuisineThenTerm(recipes: seq<Recipe>, term: string, cuisine: string)
    requires cuisine != ""
    ensures KeepTerm(KeepCuisine(recipes, cuisine), term) == KeepBoth(recipes, term, cuisine)
  {
    if recipes != [] {
      var rest := KeepCuisine(recipes[1..], cuisine);
      KeepCuisineThenTerm(recipes[1..], term, cuisine);
      assert ([recipes[0]] + rest)[0] == recipes[0] && ([recipes[0]] + rest)[1..] == rest;
    }
  }

  /** With no cuisine selected the combined pass is the search filter alone. */
  lemma {:induction false} KeepBothAnyCuisine(recipes: seq<Recipe>, term: string)
    ensures KeepBoth(recipes, term, "") == KeepTerm(recipes, term)
  {
    if recipes != [] {
      KeepBothAnyCuisine(recipes[1..], term);
    }
  }

  /** With an empty term the combined pass is the cuisine filter alone. */
  lemma {:induction false} KeepBothEmptyTerm(recipes: seq<Recipe>, cuisine: string)
    requires cuisine != ""
    ensures KeepBoth(recipes, "", cuisine) == KeepCuisine(recipes, cuisine)
  {
    if recipes != [] {
      IncludesEmpty(Lower(recipes[0].name));
      KeepBothEmptyTerm(recipes[1..], cuisine);
    }
  }

  /** The search step keeps exactly the recipes the normalised term matches;
      an empty term keeps them all. */
  lemma SearchFilterKeeps(recipes: seq<Recipe>, searchTerm: string, x: Recipe)
    ensures x in SearchFilter(recipes, searchTerm) <==> x in recipes && MatchesTerm(x, NormalizeTerm(searchTerm))
  {
    var term := NormalizeTerm(searchTerm);
    KeepTermEmpty(recipes);
    KeepTermMembers(recipes, term, x);
  }

  /** The cuisine step keeps exactly the recipes with that cuisine, compared
      exactly; the empty value keeps them all. */
  lemma CuisineFilterKeeps(recipes: seq<Recipe>, cuisine: string, x: Recipe)
    ensures x in CuisineFilter(recipes, cuisine) <==> x in recipes && MatchesCuisine(x, cuisine)
  {
    KeepCuisineMembers(recipes, cuisine, x);
  }

  /** The combined view keeps exactly the recipes both predicates accept. */
  lemma MatchingKeeps(recipes: seq<Recipe>, searchTerm: string, cuisine: string, x: Recipe)
    ensures x in Matching(recipes, searchTerm, cuisine) <==>
      x in recipes && MatchesTerm(x, NormalizeTerm(searchTerm)) && MatchesCuisine(x, cuisine)
  {
    KeepBothMembers(recipes, NormalizeTerm(searchTerm), cuisine, x);
  }

  /** `handleSearch` applies the search step and then the cuisine step; the
      result is the reference view. */
  lemma SearchThenCuisine(recipes: seq<Recipe>, searchTerm: string, cuisine: string)
    ensures CuisineFilter(SearchFilter(recipes, searchTerm), cuisine) == Matching(recipes, searchTerm, cuisine)
  {
    var term := NormalizeTerm(searchTerm);
    KeepTermEmpty(recipes);
    if cuisine == "" {
      KeepBothAnyCuisine(recipes, term);
    } else {
      KeepTermThenCuisine(recipes, term, cuisine);
    }
  }

  /** `handleCuisineFilter` applies the cuisine step and then the search step;
      the result is the same reference view. */
  lemma CuisineThenSearch(recipes: seq<Recipe>, searchTerm: string, cuisine: string)
    ensures SearchFilter(CuisineFilter(recipes, cuisine), searchTerm) == Matching(recipes, searchTerm, cuisine)
  {
    var term := NormalizeTerm(searchTerm);
    if cuisine == "" {
      KeepTermEmpty(recipes);
      KeepBothAnyCuisine(recipes, term);
    } else if term == "" {
      KeepBothEmptyTerm(recipes, cuisine);
    } else {
      KeepCuisineThenTerm(recipes, term, cuisine);
    }
  }

  /** The two handlers produce the same list for the same term and cuisine. */
  lemma HandlersAgree(recipes: seq<Recipe>, searchTerm: string, cuisine: string)
    ensures CuisineFilter(SearchFilter(recipes, searchTerm), cuisine) == SearchFilter(CuisineFilter(recipes, cuisine), searchTerm)
  {
    SearchThenCuisine(recipes, searchTerm, cuisine);
    CuisineThenSearch(recipes, searchTerm, cuisine);
  }

  /** The combined view holds exactly what both single-predicate views hold. */
  lemma MatchingIsIntersection(recipes: seq<Recipe>, searchTerm: string, cuisine: string, x: Recipe)
    ensures x in Matching(recipes, searchTerm, cuisine) <==> x in SearchFilter(recipes, searchTerm) && x in CuisineFilter(recipes, cuisine)
  {
    MatchingKeeps(recipes, searchTerm, cuisine, x);
    SearchFilterKeeps(recipes, searchTerm, x);
    CuisineFilterKeeps(recipes, cuisine, x);
  }

  /** With no term and no cuisine the view is the whole list, as on load. */
  lemma MatchingNothingSelected(recipes: seq<Recipe>)
    ensures Matching(recipes, "", "") == recipes
  {
    SearchThenCuisine(recipes, "", "");
    assert NormalizeTerm("") == "";
  }
}

# Recipe browser: verified model of the page logic

A Dafny model of the logic of `Modul-2/app.js`, a small browser application.
A login form checks a username and password against a fetched user list. A
recipes page loads a recipe list and supports several interactions:

- a debounced search box;
- a cuisine select;
- a grid of cards paginated six at a time with a "show more" button;
- a detail view opened by recipe identifier.

The model keeps the page state and event handlers imperative. Everything that
only computes a value is written as functions with lemmas:

- `Page.RecipesPage` is a class. Its fields are:
  - `allRecipes`, `filteredRecipes` and `displayedRecipes`;
  - the values of the search box and the cuisine select;
  - the pending debounced evaluation;
  - the rendered grid, the load-error message and the detail view.

  Each handler is a method that updates these fields as the script does.
- `Filters` holds:
  - the search predicate (trimmed, lower-cased substring search over name, cuisine, ingredients and tags);
  - the cuisine predicate (exact match, where "" means every cuisine);
  - the two orders in which the handlers apply them;
  - `Matching`, the reference view that both orders are proved to compute.
- `Stars` covers `generateStars`: its two counting loops as a method, and the string it builds as a function.
- `Cards` holds the ingredient summary, the card and detail contents, and the slice the grid shows.
- `Cuisines` holds the option list of the cuisine select: distinct cuisines, sorted.
- `Login` holds the credential check of the login form.
- `Recipes` holds the recipe record and the lookup by identifier.
- `Text` and `Seqs` hold the string and list operations of JavaScript that the page relies on: `toLowerCase`, `trim`, `includes`, `join`, the default `sort` order, `find`/`findIndex` and `slice`.

Inputs that come from the browser become parameters or fields:

- the fetched user list, with `None` standing for a failed fetch, bad JSON or a response without a `users` list;
- the fetched recipe list, with `None` standing for a failed fetch or bad JSON;
- the text of the search box;
- the value of the cuisine select.

The 300 ms debounce is modelled as follows:

- a keystroke sets the box's text and marks an evaluation as pending;
- the timer event evaluates the text as it is when the timer fires;
- superseded evaluations are never run, so only the last text typed is evaluated.

The input handlers are attached only after `await loadRecipes()` (app.js:130-139). Text typed into the box while the list loads is kept in the box, but nothing evaluates it. When loading ends, the page lists every recipe under that text. It stays that way until the next keystroke or cuisine change. The model records such text with a ghost flag `staleSearch`. The cuisine select starts on a static "all cuisines" option whose value is "". That option belongs to the page markup, not to app.js. Appending the cuisine options during loading does not change the selection, so the value is still "" when the handlers are attached.

Cards and the detail view show the star string `generateStars` builds, as written (see Findings).

## Model

| member | source | states |
|---|---|---|
| Seqs.FindFirst | Modul-2/app.js:65 | The index found satisfies the predicate and no earlier element does; None exactly when no element satisfies it |
| Seqs.FindFirstIgnoresTail | Modul-2/app.js:65 | Once an element matches, appending anything after the list leaves the result unchanged |
| Seqs.Take | Modul-2/app.js:276 | `slice(0, n)` has `min(n, length)` elements, and they are the first ones of the list in order |
| Text.Lower | Modul-2/app.js:206 | Lower-casing keeps the length and maps every character on its own (ASCII letters) |
| Text.LowerIdempotent | Modul-2/app.js:206 | Lower-casing twice is lower-casing once, and no upper-case letter remains |
| Text.TrimStartSpec | Modul-2/app.js:206 | What the leading trim drops is white space; what it keeps is a suffix not starting with white space |
| Text.TrimEndSpec | Modul-2/app.js:206 | What the trailing trim drops is white space; what it keeps is a prefix not ending with white space |
| Text.TrimSpec | Modul-2/app.js:30 | The input is white space, then the trimmed string, then white space, and the trimmed string has no white space at either end |
| Text.TrimIdempotent | Modul-2/app.js:30 | Trimming a trimmed string changes nothing |
| Text.TrimEmpty | Modul-2/app.js:208 | A string trims to "" exactly when it is all white space, so such a term counts as no term |
| Text.TrimStartAllSpace | Modul-2/app.js:208 | A string of white space only loses everything to the leading trim |
| Text.IncludesIff | Modul-2/app.js:213 | `includes` holds exactly when the term occurs at some offset of the string |
| Text.IncludesEmpty | Modul-2/app.js:208-209 | The empty term is included in every string |
| Text.JoinSplit | Modul-2/app.js:296 | Joining a list equals joining its two halves with one separator between them |
| Text.LexLessIrreflexive | Modul-2/app.js:195 | The `sort` order never puts a string before itself |
| Text.LexLessTransitive | Modul-2/app.js:195 | The `sort` order is transitive |
| Text.LexLessTotal | Modul-2/app.js:195 | Of two different strings, one comes first in the `sort` order |
| Recipes.FindRecipe | Modul-2/app.js:351-352 | None exactly when no recipe has the identifier; otherwise the first recipe carrying it |
| Filters.SearchFilter | Modul-2/app.js:206-210 | A term that is empty after lower-casing and trimming keeps the list unchanged |
| Filters.CuisineFilter | Modul-2/app.js:242-243 | The empty cuisine value keeps the list unchanged |
| Filters.KeepTermEmpty | Modul-2/app.js:211-225 | The search callback with an empty term keeps every recipe |
| Filters.KeepTermMembers | Modul-2/app.js:211-225 | The search callback keeps exactly the recipes whose lower-cased name, cuisine, some ingredient or some tag contains the term |
| Filters.KeepCuisineMembers | Modul-2/app.js:229-232 | The cuisine callback keeps exactly the recipes whose cuisine equals the value, case-sensitively |
| Filters.KeepBothMembers | Modul-2/app.js:205-261 | The combined pass keeps exactly the recipes both predicates accept |
| Filters.KeepTermInOrder | Modul-2/app.js:211-225 | The search callback's result is an order-preserving subsequence of its input |
| Filters.KeepCuisineInOrder | Modul-2/app.js:229-232 | The cuisine callback's result is an order-preserving subsequence of its input |
| Filters.KeepBothInOrder | Modul-2/app.js:205-261 | The combined pass keeps the input order |
| Filters.StepsInOrder | Modul-2/app.js:205-261 | The search step, the cuisine step and the combined view each return an order-preserving subsequence of the full list |
| Filters.KeepTermThenCuisine | Modul-2/app.js:211-232 | Search then a non-empty cuisine equals the combined pass |
| Filters.KeepCuisineThenTerm | Modul-2/app.js:242-256 | A non-empty cuisine then search equals the combined pass |
| Filters.KeepBothAnyCuisine | Modul-2/app.js:229-232 | With no cuisine selected the combined pass is the search alone |
| Filters.KeepBothEmptyTerm | Modul-2/app.js:249-256 | With an empty term the combined pass is the cuisine filter alone |
| Filters.SearchFilterKeeps | Modul-2/app.js:206-226 | The search step keeps exactly the recipes the normalised term matches |
| Filters.CuisineFilterKeeps | Modul-2/app.js:242-246 | The cuisine step keeps exactly the recipes whose cuisine equals the value; "" keeps all |
| Filters.MatchingKeeps | Modul-2/app.js:205-261 | The reference view keeps exactly the recipes accepted by both predicates |
| Filters.SearchThenCuisine | Modul-2/app.js:205-232 | `handleSearch`'s order (search, then cuisine) yields the reference view |
| Filters.CuisineThenSearch | Modul-2/app.js:238-256 | `handleCuisineFilter`'s order (cuisine, then search) yields the same reference view |
| Filters.HandlersAgree | Modul-2/app.js:205-261 | Both handlers produce the same list for the same term and cuisine |
| Filters.MatchingIsIntersection | Modul-2/app.js:205-261 | The combined view holds exactly what both single-predicate filters hold |
| Filters.MatchingNothingSelected | Modul-2/app.js:176-177 | With no term and no cuisine the view is the whole list, which is what loading sets |
| Stars.Repeat | Modul-2/app.js:334-345 | n copies of one glyph: length n, every position that glyph |
| Stars.GenerateStars | Modul-2/app.js:329-348 | The two loops and the half-star test build exactly floor(r) filled stars, the half indicator when `r % 1 >= 0.5`, and `5 - ceil(r)` hollow stars |
| Stars.CountRepeat | Modul-2/app.js:334-345 | A run of one glyph counts n of that glyph and none of any other |
| Stars.CountAppend | Modul-2/app.js:334-345 | Counting a glyph distributes over concatenation |
| Stars.WholeRatingFiveGlyphs | Modul-2/app.js:329-348 | A whole rating in [0, 5] gives five glyphs, `rating` of them filled, and no half indicator |
| Stars.HalfRatingFiveGlyphs | Modul-2/app.js:329-348 | A rating in [0, 5] with fractional part at least one half gives five glyphs, floor(r) filled |
| Stars.FourPointSeven | Modul-2/app.js:329-348 | 4.7 renders as "★★★★☆" |
| Stars.LowFractionFourGlyphs | Modul-2/app.js:342-345 | A rating whose fractional part lies strictly between 0 and one half gets only four glyphs |
| Stars.FourPointTwo | Modul-2/app.js:342-345 | 4.2 renders as "★★★★" |
| Stars.FilledThenHollowCount | Modul-2/app.js:334-345 | Filled stars followed by hollow ones count exactly the filled ones |
| Stars.FilledThenHollowShape | Modul-2/app.js:334-345 | Filled stars followed by hollow ones: position i is filled exactly when i is below the number filled |
| Stars.StarsShape | Modul-2/app.js:329-348 | The corrected string has only star glyphs; for r in [0, 5] it has five, the first floor(r) filled and the rest hollow |
| Stars.StarsAsWrittenShape | Modul-2/app.js:329-348 | For r in [0, 5], the string as written is star glyphs only, the first floor(r) filled and the rest hollow; it has five glyphs, or four when the fractional part lies strictly between 0 and one half |
| Stars.StarsAgreeWithAsWritten | Modul-2/app.js:329-348 | The correction changes nothing for whole ratings and ratings with a half star |
| Cards.SummaryOfIngredients | Modul-2/app.js:296 | With at most three ingredients the summary is the full joined list; with more, it is the full list cut right before the separator after the third ingredient, with "..." appended |
| Cards.CardShowsRecipe | Modul-2/app.js:291-327 | The card carries the recipe's identifier, which its button opens, and the recipe's name and rating. Its ingredient text is the summary of the recipe's list. For r in [0, 5], exactly its first floor(r) stars are filled, and there are five stars, or four for a low fraction |
| Cards.DetailShowsRecipe | Modul-2/app.js:350-415 | The detail view shows the same stars and name as the card, the full ingredient list that the card summarises, and the full instructions and tags in stored order |
| Cards.RenderListSpec | Modul-2/app.js:263-289 | Empty filtered list shows the message only; otherwise `min(displayed, length)` cards of the prefix in order, and show-more visible exactly when `displayed < length` |
| Cuisines.InsertSpec | Modul-2/app.js:195 | Inserting into a sorted option list keeps it sorted and adds exactly the new cuisine |
| Cuisines.InsertFrontSorted | Modul-2/app.js:195 | A string below the head of a sorted list can go in front |
| Cuisines.InsertAfterSorted | Modul-2/app.js:195 | A string above the head, inserted into the sorted tail, stays behind the head |
| Cuisines.SortedDistinctSpec | Modul-2/app.js:195 | Deduplicating and sorting yields a strictly sorted list of exactly the input's strings |
| Cuisines.CuisineOptionsSpec | Modul-2/app.js:195 | The option list is sorted, without repeats, and holds exactly the cuisines that occur in the recipes |
| Cuisines.SortedUnique | Modul-2/app.js:195 | Two strictly sorted lists with the same strings are equal |
| Cuisines.OptionsFromCuisineSet | Modul-2/app.js:195 | The option list depends only on which cuisines occur, not on recipe order or repeats |
| Login.CheckLogin | Modul-2/app.js:30-78 | Missing field exactly when the trimmed username or the password is empty; connection error exactly when the user list is unavailable; welcome exactly when the first user with that username has that exact password, and the name greeted is that user's |
| Login.Message | Modul-2/app.js:44-91 | Of the four texts the form shows, exactly the success message starts with "Welcome, " |
| Login.MessageIdentifiesOutcome | Modul-2/app.js:44-91 | Different outcomes never show the same text, and a welcome text determines the first name greeted |
| Login.FirstWithUsernameUnique | Modul-2/app.js:65 | There is only one first user with a given username |
| Login.LaterUsersIgnored | Modul-2/app.js:65-78 | Users after the first one with the username never change the outcome |
| Login.UsernameTrimmed | Modul-2/app.js:30 | Surrounding white space in the username field does not change the outcome |
| Page.RecipesPage.constructor | Modul-2/app.js:2-4 | Empty lists, a count of zero, untouched controls, nothing rendered |
| Page.RecipesPage.OnSearchInputBeforeLoad | Modul-2/app.js:130-134 | Typing while the list loads changes the box only: no evaluation is scheduled, since no listener is attached yet |
| Page.RecipesPage.FilteredFromAll | Modul-2/app.js:205-261 | Between events the filtered list keeps the order of the full list and holds exactly the recipes matching the last search text applied and the selected cuisine |
| Page.RecipesPage.CountPositiveOnceRendered | Modul-2/app.js:152-153 | Once the grid has been rendered, the count is a positive multiple of 6 |
| Page.RecipesPage.SettledInSync | Modul-2/app.js:133-147 | With no evaluation pending and no stale text in the box, the filtered list is what the two controls currently select |
| Page.RecipesPage.StaleShowsAll | Modul-2/app.js:130-139 | Text typed before the handlers were attached is not applied: until the next keystroke or cuisine change, the filtered list is the whole list |
| Page.RecipesPage.LoadRecipes | Modul-2/app.js:158-191 | On success: the full list and the filtered list are set to the fetched list, the options are appended, the count is 6 and the grid is rendered. On failure: the lists stay empty, the grid stays blank and the error message is shown. The handlers are attached either way. Text already in the box is stale exactly when it is non-empty, and the page invariant holds |
| Page.RecipesPage.PopulateCuisineFilter | Modul-2/app.js:193-203 | Appends the sorted distinct cuisines of the full list to the options, one at a time |
| Page.RecipesPage.RenderRecipes | Modul-2/app.js:263-289 | The grid becomes the rendering of the filtered list and the count, which is the "No recipes found" message or cards, never blank. Nothing else changes, and an error message stays shown |
| Page.RecipesPage.OnSearchInput | Modul-2/app.js:133-135 | A keystroke records the text and schedules an evaluation, cancelling any earlier one. The text is no longer stale, and the filtered list is untouched |
| Page.RecipesPage.OnSearchTimer | Modul-2/app.js:136-138 | The surviving evaluation runs on the box's current text. Afterwards nothing is pending and, unless the text is stale, the filtered list is what the controls select |
| Page.RecipesPage.HandleSearch | Modul-2/app.js:205-236 | Filtered list = cuisine step after search step on the full list = the reference view; count reset to 6; grid re-rendered; full list untouched |
| Page.RecipesPage.OnCuisineChange | Modul-2/app.js:143-147 | The new value is recorded and the filter is recomputed at once from both controls, with no debounce. This also applies any stale text |
| Page.RecipesPage.HandleCuisineFilter | Modul-2/app.js:238-261 | Filtered list = search step after cuisine step on the full list, using the box's current text = the reference view; count reset to 6; grid re-rendered |
| Page.RecipesPage.ShowMore | Modul-2/app.js:150-155 | The count grows by exactly 6, the grid is re-rendered, the filtered list is unchanged |
| Page.RecipesPage.ShowRecipeDetail | Modul-2/app.js:350-352 | An identifier no recipe has changes nothing; otherwise the detail view shows the first recipe with it |

The page invariant `Valid` has two parts:

- Before loading, the page is in its initial state, whatever has been typed into the box.
- Afterwards, the count is a multiple of 6 and the filtered list is `Matching(allRecipes, t, cuisine)`, where `t` is the text last applied.
  - The text last applied equals the box's text unless an evaluation is pending or the text is stale.
  - Stale text leaves `t` empty.
  - The count is 0 exactly while the grid is still blank. After loading, that happens only when the load failed, because the assignment of 6 at app.js:182 is never reached.
  - The first event that renders sets the count to 6: show more (app.js:152), a search (app.js:234) or a cuisine change (app.js:259). From then on the count is a positive multiple of 6.
  - The error message of a failed load (`errorShown`, app.js:189) is a separate element from the grid. It is shown only over an empty full list. No handler but `LoadRecipes` has it in its frame, so it stays visible beside "No recipes found" after later renders, as in the program.

Every handler preserves the invariant. No handler but `LoadRecipes` lists `allRecipes` in its frame, and rendering changes only the grid.

## Left out

- DOM work is not modelled: the `innerHTML` templates, `classList` toggles, the loading spinner, `document.body.style` and the modal close listeners. Cards and the detail view are modelled as values (`Cards.Card`, `Cards.Detail`), not markup.
- `fetch` and JSON parsing are not modelled. The recipe list and user list are inputs. `None` stands for a bad status or bad JSON. For the user list it also stands for a response without a `users` list, which ends in the same connection error.
- `localStorage`, redirects and the routing guard are not modelled. This covers the page-path checks, storing the first name, the 1.5 s redirect after login and logout.
- Showing the login messages and resetting the button are not modelled.
- Timer durations are not modelled. The debounce is the pending flag described above, and the time that passes is not represented.
- Text.Lower: only ASCII letters are lower-cased. Full Unicode case mapping is not modelled.
- Text.LexLess: this is code-point order on characters. UTF-16 code-unit order differs for characters outside the Basic Multilingual Plane.
- Ratings are exact `real`s. Floating-point rounding in `Math.floor`, `Math.ceil` and `% 1` is not modelled.
- Recipe fields are taken as well-typed; a recipe record lacking a field is not modelled.
- The image `onerror` placeholder is not modelled.
- Page.RecipesPage.LoadRecipes: the catch branch is modelled only for failures that happen before the list is assigned. A response without a `recipes` list is not modelled. In that case app.js:175 assigns `undefined` and app.js:176 throws. Every later search or cuisine change then throws at app.js:209, 211, 243 or 245, leaving the count and the grid as they were.
- Page.RecipesPage.LoadRecipes: the page routing that calls it only for a logged-in user is not modelled.

## Findings

| source | as written | input that shows it | evidently intended | confidence | as-written member | corrected member |
|---|---|---|---|---|---|---|
| Modul-2/app.js:342-345 | `5 - Math.ceil(rating)` empty stars after `floor(rating)` filled stars and a half indicator only when `rating % 1 >= 0.5`. A fractional part strictly between 0 and 0.5 loses one slot. | rating 4.2 gives "★★★★" (four glyphs) | five glyphs for every rating in [0, 5]; for 4.2, "★★★★☆" | not executed | Stars.FourPointTwo | Stars.StarsShape |

`Stars.GenerateStars` and `Stars.StarsAsWritten` model the code as written. `Stars.LowFractionFourGlyphs` proves the four-glyph result for every such rating. Cards and the detail view use this as-written string. The intent of five slots shows in the program itself:
- whole ratings and ratings with a half star already get five glyphs;
- `emptyStars = 5 - Math.ceil(rating)` counts the slots left of five.

`Stars.CorrectedStars` is the corrected string, and `Stars.StarsShape` proves it always has five glyphs. `Stars.StarsAgreeWithAsWritten` shows that the correction changes nothing where the as-written string already fills five slots.

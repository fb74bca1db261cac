/** The options of the cuisine select:
    `[...new Set(allRecipes.map((recipe) => recipe.cuisine))].sort()`. */
module Cuisines {
  import opened Text
  import opened Recipes

  /** Every element is below every later one: sorted, and so without repeats. */
  predicate StrictlySorted(s: seq<string>)
  {
    forall i, j :: 0 <= i < j < |s| ==> LexLess(s[i], s[j])
  }

  /** Puts `x` into the sorted list `s` at its place, unless it is already
      there: the `Set` drops repeats, `sort` orders what is left. */
  function Insert(x: string, s: seq<string>): seq<string>
  {
    if s == [] then [x]
    else if x == s[0] then s
    else if LexLess(x, s[0]) then [x] + s
    else [s[0]] + Insert(x, s[1..])
  }

  /** Inserting keeps a sorted list sorted and adds exactly `x`. */
  lemma {:induction false} InsertSpec(x: string, s: seq<string>)
    ensures StrictlySorted(s) ==> StrictlySorted(Insert(x, s))
    ensures forall y :: y in Insert(x, s) <==> y == x || y in s
  {
    if s == [] || x == s[0] {
    } else if LexLess(x, s[0]) {
      InsertFrontSorted(x, s);
    } else {
      InsertSpec(x, s[1..]);
      InsertAfterSorted(x, s, Insert(x, s[1..]));
    }
  }

  lemma InsertFrontSorted(x: string, s: seq<string>)
    requires s != [] && LexLess(x, s[0])
    ensures StrictlySorted(s) ==> StrictlySorted([x] + s)
  {
    if StrictlySorted(s) {
      forall j | 0 < j < |s| + 1 ensures LexLess(([x] + s)[0], ([x] + s)[j]) {
        if j > 1 {
          LexLessTransitive(x, s[0], s[j - 1]);
        }
      }
    }
  }

  lemma InsertAfterSorted(x: string, s: seq<string>, rest: seq<string>)
    requires s != [] && x != s[0] && !LexLess(x, s[0])
    requires StrictlySorted(s[1..]) ==> StrictlySorted(rest)
    requires forall y :: y in rest <==> y == x || y in s[1..]
    ensures StrictlySorted(s) ==> StrictlySorted([s[0]] + rest)
  {
    if StrictlySorted(s) {
      LexLessTotal(x, s[0]);
      forall j | 0 < j < |rest| + 1 ensures LexLess(s[0], ([s[0]] + rest)[j]) {
        var y := rest[j - 1];
        assert y in rest;
        if y != x {
          var k :| 0 <= k < |s[1..]| && s[1..][k] == y;
          assert s[k + 1] == y;
        }
      }
    }
  }

  /** The distinct strings of `xs`, sorted. */
  function SortedDistinct(xs: seq<string>): seq<string>
  {
    if xs == [] then [] else Insert(xs[|xs| - 1], SortedDistinct(xs[..|xs| - 1]))
  }

  lemma {:induction false} SortedDistinctSpec(xs: seq<string>)
    ensures StrictlySorted(SortedDistinct(xs))
    ensures forall y :: y in SortedDistinct(xs) <==> y in xs
  {
    if xs != [] {
      var init := xs[..|xs| - 1];
      SortedDistinctSpec(init);
      InsertSpec(xs[|xs| - 1], SortedDistinct(init));
      assert xs == init + [xs[|xs| - 1]];
    }
  }

  /** `allRecipes.map((recipe) => recipe.cuisine)`. */
  function CuisinesOf(recipes: seq<Recipe>): seq<string>
  {
    seq(|recipes|, i requires 0 <= i < |recipes| => recipes[i].cuisine)
  }

  /** `[...new Set(allRecipes.map((recipe) => recipe.cuisine))].sort()`. */
  function CuisineOptions(recipes: seq<Recipe>): seq<string>
  {
    SortedDistinct(CuisinesOf(recipes))
  }

  /** The option list is sorted, has no repeats, and holds exactly the
      cuisines some recipe has. */
  lemma CuisineOptionsSpec(recipes: seq<Recipe>)
    ensures StrictlySorted(CuisineOptions(recipes))
    ensures forall i, j :: 0 <= i < j < |CuisineOptions(recipes)| ==> CuisineOptions(recipes)[i] != CuisineOptions(recipes)[j]
    ensures forall c :: c in CuisineOptions(recipes) <==> exists k :: 0 <= k < |recipes| && recipes[k].cuisine == c
  {
    var r := CuisineOptions(recipes);
    SortedDistinctSpec(CuisinesOf(recipes));
    forall i, j | 0 <= i < j < |r| ensures r[i] != r[j] {
      LexLessIrreflexive(r[i]);
    }
    forall c ensures c in r <==> exists k :: 0 <= k < |recipes| && recipes[k].cuisine == c {
      if c in CuisinesOf(recipes) {
        var k :| 0 <= k < |recipes| && CuisinesOf(recipes)[k] == c;
      }
      if exists k :: 0 <= k < |recipes| && recipes[k].cuisine == c {
        var k :| 0 <= k < |recipes| && recipes[k].cuisine == c;
        assert CuisinesOf(recipes)[k] == c;
      }
    }
  }

  /** Two sorted lists without repeats that hold the same strings are the same
      list: the option list is determined by the set of cuisines alone. */
  lemma {:induction false} SortedUnique(a: seq<string>, b: seq<string>)
    requires StrictlySorted(a) && StrictlySorted(b)
    requires forall y :: y in a <==> y in b
    ensures a == b
  {
    assert a != [] ==> a[0] in a;
    assert b != [] ==> b[0] in b;
    if a != [] && b != [] {
      assert a[0] in b && b[0] in a;
      if a[0] != b[0] {
        var i :| 0 <= i < |b| && b[i] == a[0];
        var j :| 0 <= j < |a| && a[j] == b[0];
        LexLessTransitive(a[0], b[0], a[0]);
        LexLessIrreflexive(a[0]);
        assert false;
      }
      forall y ensures y in a[1..] <==> y in b[1..] {
        if y in a[1..] {
          var k :| 0 <= k < |a[1..]| && a[1..][k] == y;
          LexLessIrreflexive(y);
          assert y != a[0];
          assert y in b;
        }
        if y in b[1..] {
          var k :| 0 <= k < |b[1..]| && b[1..][k] == y;
          LexLessIrreflexive(y);
          assert y != b[0];
          assert y in a;
        }
      }
      SortedUnique(a[1..], b[1..]);
      assert a == [a[0]] + a[1..] && b == [b[0]] + b[1..];
    }
  }

  /** The cuisines that occur in the list. */
  function CuisineSet(recipes: seq<Recipe>): set<string>
  {
    set r | r in recipes :: r.cuisine
  }

  /** The option list depends only on which cuisines occur: neither the order
      of the recipes nor how often a cuisine repeats changes it. */
  lemma OptionsFromCuisineSet(a: seq<Recipe>, b: seq<Recipe>)
    requires CuisineSet(a) == CuisineSet(b)
    ensures CuisineOptions(a) == CuisineOptions(b)
  {
    CuisineOptionsSpec(a);
    CuisineOptionsSpec(b);
    forall c ensures c in CuisineOptions(a) <==> c in CuisineOptions(b) {
      if c in CuisineOptions(a) {
        var k :| 0 <= k < |a| && a[k].cuisine == c;
        assert a[k] in a;
        assert c in CuisineSet(a);
        var r :| r in b && r.cuisine == c;
        var j :| 0 <= j < |b| && b[j] == r;
      }
      if c in CuisineOptions(b) {
        var k :| 0 <= k < |b| && b[k].cuisine == c;
        assert b[k] in b;
        assert c in CuisineSet(b);
        var r :| r in a && r.cuisine == c;
        var j :| 0 <= j < |a| && a[j] == r;
      }
    }
    SortedUnique(CuisineOptions(a), CuisineOptions(b));
  }
}

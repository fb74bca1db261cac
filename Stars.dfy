/** The star rating string of a card and of the detail view. The rating is an
    exact `real`; `Math.floor`, `Math.ceil` and `% 1` are written out. */
module Stars {

  const Filled: char := '★'
  /** Used both for the half star and for an empty star. */
  const Hollow: char := '☆'

  function Floor(x: real): int { x.Floor }

  /** `Math.ceil`. */
  function Ceil(x: real): int { -((-x).Floor) }

  /** `x % 1` in JavaScript: the remainder keeps the sign of `x`. */
  function FracPart(x: real): real
  {
    if x >= 0.0 then x - Floor(x) as real else x - Ceil(x) as real
  }

  /** The half-star test `rating % 1 >= 0.5`. */
  predicate HasHalfStar(rating: real) { FracPart(rating) >= 0.5 }

  function Max0(n: int): nat { if n < 0 then 0 else n }

  /** `n` copies of `c`, built one character at a time as the loops do. */
  function Repeat(c: char, n: nat): (s: string)
    ensures |s| == n
    ensures forall i :: 0 <= i < n ==> s[i] == c
  {
    if n == 0 then [] else Repeat(c, n - 1) + [c]
  }

  /** How many times `c` occurs in `s`. */
  function Count(s: string, c: char): nat
  {
    if s == [] then 0 else Count(s[..|s| - 1], c) + (if s[|s| - 1] == c then 1 else 0)
  }

  /** The string `generateStars` builds: `floor(rating)` filled stars, one
      hollow star when the rating's fractional part is at least one half, and
      `5 - ceil(rating)` further hollow stars (a loop bound below one runs no
      iteration). */
  function StarsAsWritten(rating: real): string
  {
    Repeat(Filled, Max0(Floor(rating)))
    + (if HasHalfStar(rating) then [Hollow] else [])
    + Repeat(Hollow, Max0(5 - Ceil(rating)))
  }

  /** `generateStars`: two counting loops around the half-star test. */
  method GenerateStars(rating: real) returns (stars: string)
    ensures stars == StarsAsWritten(rating)
  {
    var fullStars := Floor(rating);
    var hasHalfStar := FracPart(rating) >= 0.5;
    stars := "";
    var i := 0;
    while i < fullStars
      invariant 0 <= i <= Max0(fullStars)
      invariant stars == Repeat(Filled, i)
    {
      stars := stars + [Filled];
      i := i + 1;
    }
    if hasHalfStar {
      stars := stars + [Hollow];
    }
    var half := stars;
    var emptyStars := 5 - Ceil(rating);
    i := 0;
    while i < emptyStars
      invariant 0 <= i <= Max0(emptyStars)
      invariant stars == half + Repeat(Hollow, i)
    {
      stars := stars + [Hollow];
      i := i + 1;
    }
  }

  lemma {:induction false} CountRepeat(c: char, d: char, n: nat)
    ensures Count(Repeat(c, n), d) == if c == d then n else 0
  {
    if n > 0 {
      CountRepeat(c, d, n - 1);
      assert Repeat(c, n)[..n - 1] == Repeat(c, n - 1);
    }
  }

  lemma {:induction false} CountAppend(s: string, t: string, c: char)
    ensures Count(s + t, c) == Count(s, c) + Count(t, c)
  {
    if t != [] {
      CountAppend(s, t[..|t| - 1], c);
      assert (s + t)[..|s + t| - 1] == s + t[..|t| - 1];
    } else {
      assert s + t == s;
    }
  }

  /** A whole rating in [0, 5] fills five slots: `rating` filled stars and the
      rest hollow. */
  lemma WholeRatingFiveGlyphs(rating: real)
    requires 0.0 <= rating <= 5.0 && rating == Floor(rating) as real
    ensures |StarsAsWritten(rating)| == 5
    ensures Count(StarsAsWritten(rating), Filled) == Floor(rating)
    ensures !HasHalfStar(rating)
  {
    var f := Floor(rating);
    assert Ceil(rating) == f;
    assert StarsAsWritten(rating) == Repeat(Filled, f) + Repeat(Hollow, 5 - f);
    CountAppend(Repeat(Filled, f), Repeat(Hollow, 5 - f), Filled);
    CountRepeat(Filled, Filled, f);
    CountRepeat(Hollow, Filled, 5 - f);
  }

  /** A rating in [0, 5] whose fractional part is at least one half also fills
      five slots, the half star being hollow. */
  lemma HalfRatingFiveGlyphs(rating: real)
    requires 0.0 <= rating <= 5.0 && HasHalfStar(rating)
    ensures |StarsAsWritten(rating)| == 5
    ensures Count(StarsAsWritten(rating), Filled) == Floor(rating)
  {
    var f := Floor(rating);
    assert Ceil(rating) == f + 1;
    assert [Hollow] == Repeat(Hollow, 1);
    assert StarsAsWritten(rating) == Repeat(Filled, f) + Repeat(Hollow, 1) + Repeat(Hollow, 4 - f);
    FilledThenHollowCount(f, 1, 4 - f);
  }

  /** 4.7 is rendered as four filled stars and one hollow star. */
  lemma FourPointSeven()
    ensures StarsAsWritten(4.7) == "★★★★☆"
  {
    assert Floor(4.7) == 4;
    assert Ceil(4.7) == 5;
    assert HasHalfStar(4.7);
  }

  /** A rating in [0, 5] whose fractional part lies strictly between 0 and one
      half gets no half star and one empty star too few: only four glyphs. */
  lemma LowFractionFourGlyphs(rating: real)
    requires 0.0 <= rating <= 5.0 && rating != Floor(rating) as real && !HasHalfStar(rating)
    ensures |StarsAsWritten(rating)| == 4
  {
    assert Ceil(rating) == Floor(rating) + 1;
  }

  /** The concrete input: 4.2 renders as "★★★★". */
  lemma FourPointTwo()
    ensures StarsAsWritten(4.2) == "★★★★"
  {
    assert Floor(4.2) == 4;
    assert Ceil(4.2) == 5;
    assert !HasHalfStar(4.2);
  }

  /** The string as written, for any rating in [0, 5]: every glyph is a star,
      the first `floor(rating)` are filled and the rest hollow, and there are
      five glyphs except when the fractional part lies strictly between 0 and
      one half, where there are four. */
  lemma StarsAsWrittenShape(rating: real)
    requires 0.0 <= rating <= 5.0
    ensures |StarsAsWritten(rating)| == if rating != Floor(rating) as real && !HasHalfStar(rating) then 4 else 5
    ensures Count(StarsAsWritten(rating), Filled) == Floor(rating)
    ensures forall i :: 0 <= i < |StarsAsWritten(rating)| ==>
      (StarsAsWritten(rating)[i] == Filled <==> i < Floor(rating)) &&
      (StarsAsWritten(rating)[i] == Filled || StarsAsWritten(rating)[i] == Hollow)
  {
    var f := Floor(rating);
    var h: nat := if HasHalfStar(rating) then 1 else 0;
    var e := Max0(5 - Ceil(rating));
    assert [Hollow] == Repeat(Hollow, 1);
    assert StarsAsWritten(rating) == Repeat(Filled, f) + Repeat(Hollow, h) + Repeat(Hollow, e);
    if rating == f as real {
      assert Ceil(rating) == f;
      assert !HasHalfStar(rating);
    } else {
      assert Ceil(rating) == f + 1;
    }
    FilledThenHollowCount(f, h, e);
    FilledThenHollowShape(f, h, e);
  }

  /** `f` filled stars followed by `a + b` hollow ones: the count. */
  lemma FilledThenHollowCount(f: nat, a: nat, b: nat)
    ensures Count(Repeat(Filled, f) + Repeat(Hollow, a) + Repeat(Hollow, b), Filled) == f
  {
    CountAppend(Repeat(Filled, f), Repeat(Hollow, a), Filled);
    CountAppend(Repeat(Filled, f) + Repeat(Hollow, a), Repeat(Hollow, b), Filled);
    CountRepeat(Filled, Filled, f);
    CountRepeat(Hollow, Filled, a);
    CountRepeat(Hollow, Filled, b);
  }

  /** `f` filled stars followed by `a + b` hollow ones: the positions. */
  lemma FilledThenHollowShape(f: nat, a: nat, b: nat)
    ensures var s := Repeat(Filled, f) + Repeat(Hollow, a) + Repeat(Hollow, b);
      forall i :: 0 <= i < |s| ==> (s[i] == Filled <==> i < f) && (s[i] == Filled || s[i] == Hollow)
  {
    var s := Repeat(Filled, f) + Repeat(Hollow, a) + Repeat(Hollow, b);
    forall i | 0 <= i < |s|
      ensures (s[i] == Filled <==> i < f) && (s[i] == Filled || s[i] == Hollow)
    {
      if i < f {
        assert s[i] == Repeat(Filled, f)[i];
      } else if i < f + a {
        assert s[i] == Repeat(Hollow, a)[i - f];
      } else {
        assert s[i] == Repeat(Hollow, b)[i - f - a];
      }
    }
  }

  /** The corrected rating string: `floor(rating)` filled stars, the hollow
      half star when due, and hollow stars up to five glyphs in all. */
  function CorrectedStars(rating: real): string
  {
    var f := Max0(Floor(rating));
    var h: nat := if HasHalfStar(rating) then 1 else 0;
    Repeat(Filled, f) + Repeat(Hollow, h) + Repeat(Hollow, Max0(5 - f - h))
  }

  /** Every glyph is a star; a rating in [0, 5] always gets five of them, the
      first `floor(rating)` filled and the rest hollow. */
  lemma StarsShape(rating: real)
    ensures forall i :: 0 <= i < |CorrectedStars(rating)| ==> CorrectedStars(rating)[i] == Filled || CorrectedStars(rating)[i] == Hollow
    ensures 0.0 <= rating <= 5.0 ==> |CorrectedStars(rating)| == 5 && Count(CorrectedStars(rating), Filled) == Floor(rating)
    ensures 0.0 <= rating <= 5.0 ==> forall i :: 0 <= i < |CorrectedStars(rating)| ==> (CorrectedStars(rating)[i] == Filled <==> i < Floor(rating))
  {
    var f := Max0(Floor(rating));
    var h: nat := if HasHalfStar(rating) then 1 else 0;
    FilledThenHollowCount(f, h, Max0(5 - f - h));
    FilledThenHollowShape(f, h, Max0(5 - f - h));
  }

  /** The correction changes nothing where `StarsAsWritten` already fills
      five slots: whole ratings and ratings with a half star. */
  lemma StarsAgreeWithAsWritten(rating: real)
    requires 0.0 <= rating <= 5.0
    requires rating == Floor(rating) as real || HasHalfStar(rating)
    ensures CorrectedStars(rating) == StarsAsWritten(rating)
  {
    var f := Floor(rating);
    if rating == f as real {
      assert Ceil(rating) == f;
      assert !HasHalfStar(rating);
      assert Repeat(Hollow, 0) == [];
    } else {
      assert Ceil(rating) == f + 1;
      assert Repeat(Hollow, 1) == [Hollow];
    }
  }
}

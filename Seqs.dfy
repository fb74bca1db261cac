/** Generic sequence operations that the page's array calls (`find`, `slice`)
    stand for, with the facts the rest of the model relies on. */
module Seqs {

  datatype Option<+T> = None | Some(value: T)

  function Min(a: int, b: int): int { if a <= b then a else b }

  /** `idx` lists strictly increasing positions of `s` at which the elements
      of `sub` stand, one position per element. */
  ghost predicate Embedding<T>(idx: seq<nat>, sub: seq<T>, s: seq<T>)
  {
    |idx| == |sub| &&
    (forall i :: 0 <= i < |idx| ==> idx[i] < |s| && sub[i] == s[idx[i]]) &&
    (forall i, j :: 0 <= i < j < |idx| ==> idx[i] < idx[j])
  }

  /** `sub` can be obtained from `s` by deleting elements: order is kept. */
  ghost predicate IsSubsequence<T>(sub: seq<T>, s: seq<T>)
  {
    exists idx: seq<nat> :: Embedding(idx, sub, s)
  }

  /** Every position moved one place to the right. */
  function Shifted(idx: seq<nat>): (r: seq<nat>)
    ensures |r| == |idx| && forall i :: 0 <= i < |idx| ==> r[i] == idx[i] + 1
  {
    seq(|idx|, i requires 0 <= i < |idx| => idx[i] + 1)
  }

  lemma SubsequenceEmpty<T>(s: seq<T>)
    ensures IsSubsequence([], s)
  {
    assert Embedding([], [], s);
  }

  lemma SubsequenceOfItself<T>(s: seq<T>)
    ensures IsSubsequence(s, s)
  {
    var idx := seq(|s|, i requires 0 <= i < |s| => i);
    assert Embedding(idx, s, s);
  }

  /** Dropping the head of `s` and keeping everything else of `sub`. */
  lemma SubsequenceSkip<T>(x: T, sub: seq<T>, s: seq<T>)
    requires IsSubsequence(sub, s)
    ensures IsSubsequence(sub, [x] + s)
  {
    var idx :| Embedding(idx, sub, s);
    assert Embedding(Shifted(idx), sub, [x] + s);
  }

  /** Keeping the head of `s` as the head of `sub`. */
  lemma SubsequenceKeep<T>(x: T, sub: seq<T>, s: seq<T>)
    requires IsSubsequence(sub, s)
    ensures IsSubsequence([x] + sub, [x] + s)
  {
    var idx :| Embedding(idx, sub, s);
    var idx' := [0] + Shifted(idx);
    assert Embedding(idx', [x] + sub, [x] + s);
  }

  /** `Array.prototype.findIndex`: the index of the first element satisfying
      `p`, or None when there is none. */
  function FindFirst<T>(s: seq<T>, p: T -> bool): (r: Option<nat>)
    ensures r.Some? ==> r.value < |s| && p(s[r.value]) && forall j :: 0 <= j < r.value ==> !p(s[j])
    ensures r.None? <==> forall j :: 0 <= j < |s| ==> !p(s[j])
  {
    if s == [] then None
    else if p(s[0]) then Some(0)
    else match FindFirst(s[1..], p)
      case None => None
      case Some(k) => Some(k + 1)
  }

  /** Whatever follows the first match is never consulted. */
  lemma {:induction false} FindFirstIgnoresTail<T>(s: seq<T>, tail: seq<T>, p: T -> bool)
    requires FindFirst(s, p).Some?
    ensures FindFirst(s + tail, p) == FindFirst(s, p)
  {
    assert (s + tail)[0] == s[0];
    if !p(s[0]) {
      assert (s + tail)[1..] == s[1..] + tail;
      FindFirstIgnoresTail(s[1..], tail, p);
    }
  }

  /** `Array.prototype.slice(0, n)` for a non-negative `n`. */
  function Take<T>(s: seq<T>, n: nat): (r: seq<T>)
    ensures |r| == Min(n, |s|)
    ensures forall i :: 0 <= i < |r| ==> r[i] == s[i]
  {
    if n <= |s| then s[..n] else s
  }
}

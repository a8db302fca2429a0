/**
 * The opportunity engine: ideas rated for impact, novelty and alignment,
 * each given a weighted score, and the descending sort used to display
 * them. Scores are kept exactly, as integer tenths.
 */
module Opportunities {

  /** The opportunity form being filled in. */
  datatype Draft = Draft(idea: string, impact: int, novelty: int, alignment: int)

  /** A recorded idea; `score` is the weighted score in tenths (66 stands for 6.6). */
  datatype Opportunity = Opportunity(idea: string, impact: int, novelty: int, alignment: int, score: int)

  /** The form as it starts out and as it is reset after each addition. */
  const BlankDraft: Draft := Draft("", 5, 5, 5)

  /** impact * 0.5 + novelty * 0.3 + alignment * 0.2, counted in tenths. */
  function Tenths(impact: int, novelty: int, alignment: int): (t: int)
    ensures t as real == 10.0 * (impact as real * 0.5 + novelty as real * 0.3 + alignment as real * 0.2)
  {
    5 * impact + 3 * novelty + 2 * alignment
  }

  /** The score of `o` was computed from its own three ratings. */
  predicate Scored(o: Opportunity) {
    o.score == Tenths(o.impact, o.novelty, o.alignment)
  }

  /** The form's fields with the computed score added. */
  function WithScore(d: Draft): (o: Opportunity)
    ensures o.idea == d.idea && o.impact == d.impact && o.novelty == d.novelty && o.alignment == d.alignment
    ensures Scored(o)
  {
    Opportunity(d.idea, d.impact, d.novelty, d.alignment, Tenths(d.impact, d.novelty, d.alignment))
  }

  /** Two worked examples: 8/6/4 scores 6.6 and 3/9/9 scores 6.0. */
  lemma ScoreExamples()
    ensures WithScore(Draft("first", 8, 6, 4)).score == 66
    ensures WithScore(Draft("second", 3, 9, 9)).score == 60
  {
  }

  /** Display order: no opportunity is followed by one with a higher score. */
  ghost predicate NonIncreasing(s: seq<Opportunity>) {
    forall p, q :: 0 <= p < q < |s| ==> s[p].score >= s[q].score
  }

  /** Ordered by descending score, the 6.6 idea is listed before the 6.0 one, whatever order they were added in. */
  lemma {:induction false} SortExample(s: seq<Opportunity>)
    requires multiset(s) == multiset{WithScore(Draft("first", 8, 6, 4)), WithScore(Draft("second", 3, 9, 9))}
    requires NonIncreasing(s)
    ensures s == [WithScore(Draft("first", 8, 6, 4)), WithScore(Draft("second", 3, 9, 9))]
  {
    var o1, o2 := WithScore(Draft("first", 8, 6, 4)), WithScore(Draft("second", 3, 9, 9));
    assert |s| == |multiset(s)| == 2;
    assert s[0] in multiset(s) && s[1] in multiset(s);
    assert s[0].score >= s[1].score;
    assert s == [s[0], s[1]];
  }

  /** Exchanges two elements of `a`. */
  method Swap(a: array<Opportunity>, i: nat, j: nat)
    requires i < a.Length && j < a.Length
    modifies a
    ensures a[..] == old(a[..])[i := old(a[j])][j := old(a[i])]
    ensures multiset(a[..]) == multiset(old(a[..]))
  {
    a[i], a[j] := a[j], a[i];
  }

  /**
   * Sorts `a` in place so that scores do not increase from left to right,
   * the comparison the list applies before display.
   */
  method SortByScore(a: array<Opportunity>)
    modifies a
    ensures NonIncreasing(a[..])
    ensures multiset(a[..]) == multiset(old(a[..]))
  {
    var i := 0;
    while i < a.Length
      invariant 0 <= i <= a.Length
      invariant forall p, q :: 0 <= p < q < i ==> a[p].score >= a[q].score
      invariant multiset(a[..]) == multiset(old(a[..]))
    {
      Insert(a, i);
      i := i + 1;
    }
  }

  /** Moves `a[i]` left past every element of the sorted prefix `a[..i]` that scores lower. */
  method Insert(a: array<Opportunity>, i: nat)
    requires i < a.Length
    requires forall p, q :: 0 <= p < q < i ==> a[p].score >= a[q].score
    modifies a
    ensures forall p, q :: 0 <= p < q <= i ==> a[p].score >= a[q].score
    ensures a[i + 1..] == old(a[i + 1..])
    ensures multiset(a[..]) == multiset(old(a[..]))
  {
    var j := i;
    while 0 < j && a[j - 1].score < a[j].score
      invariant 0 <= j <= i
      invariant forall p, q :: 0 <= p < q <= i && p != j && q != j ==> a[p].score >= a[q].score
      invariant forall q :: j < q <= i ==> a[q].score < a[j].score
      invariant a[i + 1..] == old(a[i + 1..])
      invariant multiset(a[..]) == multiset(old(a[..]))
    {
      Swap(a, j - 1, j);
      j := j - 1;
    }
  }
}

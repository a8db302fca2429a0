/**
 * The recommendation generator: the entries of the score object, in key
 * order, filtered to those below the threshold and each mapped to the
 * fixed advisory sentence of its dimension.
 */
module Recommendations {
  import opened Dimensions

  /** Scores at or above this value produce no recommendation. */
  const Threshold: int := 40

  /** The advisory sentence for one dimension (the switch over the key). */
  function Advice(d: Dim): string {
    match d
    case R => "Increase brand rhythm: revisit strategy more often, scan cultural signals."
    case E => "Deepen emotional connection: use authentic storytelling."
    case A => "Experiment more: pilot bold creative activations."
    case L => "Improve literacy: simplify messages, make brand easier to grasp."
    case M => "Strengthen magnetism: sharpen positioning and community pull."
  }

  // The ten pairs of sentences, each shown different on its own: comparing two
  // long literals is costly for the solver, so each pair gets a proof of its own.
  lemma AdviceRE() ensures Advice(R) != Advice(E) {}
  lemma AdviceRA() ensures Advice(R) != Advice(A) {}
  lemma AdviceRL() ensures Advice(R) != Advice(L) {}
  lemma AdviceRM() ensures Advice(R) != Advice(M) {}
  lemma AdviceEA() ensures Advice(E) != Advice(A) {}
  lemma AdviceEL() ensures Advice(E) != Advice(L) {}
  lemma AdviceEM() ensures Advice(E) != Advice(M) {}
  lemma AdviceAL() ensures Advice(A) != Advice(L) {}
  lemma AdviceAM() ensures Advice(A) != Advice(M) {}
  lemma AdviceLM() ensures Advice(L) != Advice(M) {}

  /** Different dimensions get different sentences. */
  lemma AdviceInjective(d1: Dim, d2: Dim)
    ensures Advice(d1) == Advice(d2) ==> d1 == d2
  {
    match (d1, d2)
    case (R, E) => AdviceRE();
    case (R, A) => AdviceRA();
    case (R, L) => AdviceRL();
    case (R, M) => AdviceRM();
    case (E, A) => AdviceEA();
    case (E, L) => AdviceEL();
    case (E, M) => AdviceEM();
    case (A, L) => AdviceAL();
    case (A, M) => AdviceAM();
    case (L, M) => AdviceLM();
    case (E, R) => AdviceRE();
    case (A, R) => AdviceRA();
    case (L, R) => AdviceRL();
    case (M, R) => AdviceRM();
    case (A, E) => AdviceEA();
    case (L, E) => AdviceEL();
    case (M, E) => AdviceEM();
    case (L, A) => AdviceAL();
    case (M, A) => AdviceAM();
    case (M, L) => AdviceLM();
    case _ =>
  }

  ghost predicate Injective(text: Dim -> string) {
    forall d1, d2 :: text(d1) == text(d2) ==> d1 == d2
  }

  lemma AdviceIsInjective()
    ensures Injective(Advice)
  {
    forall d1, d2 ensures Advice(d1) == Advice(d2) ==> d1 == d2 {
      AdviceInjective(d1, d2);
    }
  }

  /** The filter step: the dimensions of `ds` whose score is below the threshold, in the order of `ds`. */
  function Flagged(ds: seq<Dim>, s: ScoreSet): (f: seq<Dim>)
    requires Complete(s)
    ensures |f| <= |ds|
    ensures forall d: Dim :: d in f <==> d in ds && s[d] < Threshold
    ensures InKeyOrder(ds) ==> InKeyOrder(f)
  {
    if ds == [] then []
    else
      var rest := Flagged(ds[1..], s);
      assert forall d: Dim :: d in ds <==> d == ds[0] || d in ds[1..];
      assert InKeyOrder(ds) ==> InKeyOrder(ds[1..]) && forall d: Dim :: d in ds[1..] ==> Rank(ds[0]) < Rank(d);
      if s[ds[0]] < Threshold then [ds[0]] + rest else rest
  }

  /** The map step: the sentence `text` gives each filtered dimension. */
  function Advise(text: Dim -> string, ds: seq<Dim>, s: ScoreSet): (r: seq<string>)
    requires Complete(s)
    ensures |r| <= |ds|
    ensures forall d: Dim :: d in ds && s[d] < Threshold ==> text(d) in r
    ensures forall i :: 0 <= i < |r| ==> exists d: Dim :: d in ds && s[d] < Threshold && r[i] == text(d)
  {
    var f := Flagged(ds, s);
    var r := seq(|f|, i requires 0 <= i < |f| => text(f[i]));
    assert forall d: Dim :: d in f ==> text(d) in r by {
      forall d: Dim | d in f ensures text(d) in r {
        var i :| 0 <= i < |f| && f[i] == d;
        assert r[i] == text(d);
      }
    }
    assert forall i :: 0 <= i < |r| ==> f[i] in f && r[i] == text(f[i]);
    r
  }

  /** The recommendation list shown for the score set `s`: one sentence per dimension below the threshold. */
  function Recommendations(s: ScoreSet): (r: seq<string>)
    requires Complete(s)
    ensures |r| == |Flagged(Order, s)| <= |Order|
  {
    Advise(Advice, Order, s)
  }

  lemma {:induction false} AdviseCover(text: Dim -> string, ds: seq<Dim>, s: ScoreSet, d: Dim)
    requires Complete(s) && Injective(text)
    ensures text(d) in Advise(text, ds, s) <==> d in ds && s[d] < Threshold
  {
    var f := Flagged(ds, s);
    var r := Advise(text, ds, s);
    if d in ds && s[d] < Threshold {
      var i :| 0 <= i < |f| && f[i] == d;
      assert r[i] == text(d);
    }
    if text(d) in r {
      var i :| 0 <= i < |r| && r[i] == text(d);
      assert text(f[i]) == text(d);
      assert f[i] in f;
    }
  }

  lemma {:induction false} AdviseDistinct(text: Dim -> string, ds: seq<Dim>, s: ScoreSet, i: int, j: int)
    requires Complete(s) && Injective(text) && InKeyOrder(ds)
    requires 0 <= i < j < |Advise(text, ds, s)|
    ensures Advise(text, ds, s)[i] != Advise(text, ds, s)[j]
  {
    var f := Flagged(ds, s);
    assert Rank(f[i]) < Rank(f[j]);
  }

  /** In the filtered keys, a dimension earlier in key order comes first. */
  lemma {:induction false} FlaggedBefore(ds: seq<Dim>, s: ScoreSet, d1: Dim, d2: Dim) returns (i: nat, j: nat)
    requires Complete(s) && InKeyOrder(ds) && d1 in ds && d2 in ds
    requires s[d1] < Threshold && s[d2] < Threshold && Rank(d1) < Rank(d2)
    ensures i < j < |Flagged(ds, s)|
    ensures Flagged(ds, s)[i] == d1 && Flagged(ds, s)[j] == d2
  {
    var f := Flagged(ds, s);
    assert d1 in f && d2 in f;
    i :| 0 <= i < |f| && f[i] == d1;
    j :| 0 <= j < |f| && f[j] == d2;
  }

  lemma {:induction false} AdviseInOrder(text: Dim -> string, ds: seq<Dim>, s: ScoreSet, d1: Dim, d2: Dim)
      returns (i: nat, j: nat)
    requires Complete(s) && InKeyOrder(ds) && d1 in ds && d2 in ds
    requires s[d1] < Threshold && s[d2] < Threshold && Rank(d1) < Rank(d2)
    ensures i < j < |Advise(text, ds, s)|
    ensures Advise(text, ds, s)[i] == text(d1) && Advise(text, ds, s)[j] == text(d2)
  {
    i, j := FlaggedBefore(ds, s, d1, d2);
  }

  /** A dimension is advised on exactly when its score is below the threshold. */
  lemma RecommendationsCover(s: ScoreSet, d: Dim)
    requires Complete(s)
    ensures Advice(d) in Recommendations(s) <==> s[d] < Threshold
  {
    OrderIsKeyOrder();
    AdviceIsInjective();
    AdviseCover(Advice, Order, s, d);
  }

  /** Every sentence is the advice for some low dimension. */
  lemma RecommendationsOnlyLow(s: ScoreSet, i: int)
    requires Complete(s)
    requires 0 <= i < |Recommendations(s)|
    ensures exists d: Dim :: s[d] < Threshold && Recommendations(s)[i] == Advice(d)
  {
    var f := Flagged(Order, s);
    assert Recommendations(s) == Advise(Advice, Order, s);
    assert f[i] in f && Recommendations(s)[i] == Advice(f[i]);
  }

  /** Each low dimension gets exactly one sentence: no sentence occurs twice. */
  lemma RecommendationsDistinct(s: ScoreSet, i: int, j: int)
    requires Complete(s)
    requires 0 <= i < j < |Recommendations(s)|
    ensures Recommendations(s)[i] != Recommendations(s)[j]
  {
    OrderIsKeyOrder();
    AdviceIsInjective();
    assert Recommendations(s) == Advise(Advice, Order, s);
    AdviseDistinct(Advice, Order, s, i, j);
  }

  /** Sentences follow the key order R, E, A, L, M. */
  lemma RecommendationsInKeyOrder(s: ScoreSet, d1: Dim, d2: Dim)
    requires Complete(s)
    requires s[d1] < Threshold && s[d2] < Threshold && Rank(d1) < Rank(d2)
    ensures exists i, j :: 0 <= i < j < |Recommendations(s)| &&
              Recommendations(s)[i] == Advice(d1) && Recommendations(s)[j] == Advice(d2)
  {
    OrderIsKeyOrder();
    assert Recommendations(s) == Advise(Advice, Order, s);
    var i, j := AdviseInOrder(Advice, Order, s, d1, d2);
  }

  /** The worked example: scores R 30, E 50, A 50, L 35, M 80 advise on rhythm, then literacy. */
  lemma RecommendationsExample()
    ensures var s: ScoreSet := map[R := 30, E := 50, A := 50, L := 35, M := 80];
            Complete(s) && |Recommendations(s)| == 2 &&
            Recommendations(s)[0] == Advice(R) && Recommendations(s)[1] == Advice(L)
  {
    var s: ScoreSet := map[R := 30, E := 50, A := 50, L := 35, M := 80];
    FiveKeysComplete(s);
    FlaggedExample();
  }

  lemma FlaggedExample()
    ensures var s: ScoreSet := map[R := 30, E := 50, A := 50, L := 35, M := 80];
            Complete(s) && Flagged(Order, s) == [R, L]
  {
    var s: ScoreSet := map[R := 30, E := 50, A := 50, L := 35, M := 80];
    FiveKeysComplete(s);
  }
}

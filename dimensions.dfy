/**
 * The five brand-health dimensions of the realm tool, the score set that
 * the sliders edit, and the key order in which the score object lists them.
 */
module Dimensions {

  /** Rhythm, Emotion, Activation, Literacy, Magnetism. */
  datatype Dim = R | E | A | L | M

  /** A slider value: the range input is bounded to 0..100. */
  type Score = x: int | 0 <= x <= 100

  /** The score object; in a well-formed one every dimension is a key. */
  type ScoreSet = map<Dim, Score>

  /** Key order of the score object, as written in its initial literal. */
  const Order: seq<Dim> := [R, E, A, L, M]

  /** Position of a dimension in the key order. */
  function Rank(d: Dim): (k: nat)
    ensures k < |Order| && Order[k] == d
  {
    match d
    case R => 0
    case E => 1
    case A => 2
    case L => 3
    case M => 4
  }

  ghost predicate Complete(s: ScoreSet) {
    forall d: Dim :: d in s
  }

  /** A score set with the five keys written out is complete. */
  lemma FiveKeysComplete(s: ScoreSet)
    requires R in s && E in s && A in s && L in s && M in s
    ensures Complete(s)
  {
    forall d: Dim ensures d in s {
      match d
      case R =>
      case E =>
      case A =>
      case L =>
      case M =>
    }
  }

  /** The score set the widget starts with: every dimension at 50. */
  function InitialScores(): (s: ScoreSet)
    ensures Complete(s)
    ensures forall d: Dim :: s[d] == 50
  {
    var s := map[R := 50, E := 50, A := 50, L := 50, M := 50];
    FiveKeysComplete(s);
    s
  }

  /** `ds` lists dimensions in strictly increasing key order (so without repeats). */
  ghost predicate InKeyOrder(ds: seq<Dim>) {
    forall i, j :: 0 <= i < j < |ds| ==> Rank(ds[i]) < Rank(ds[j])
  }

  lemma OrderIsKeyOrder()
    ensures InKeyOrder(Order)
    ensures forall d: Dim :: d in Order
  {
    forall d: Dim ensures d in Order {
      assert Order[Rank(d)] == d;
    }
  }
}

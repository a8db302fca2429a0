/**
 * The radar chart's input: the score object projected to one
 * {dimension, score} point per key, in key order.
 */
module Chart {
  import opened Dimensions

  datatype ChartPoint = ChartPoint(dimension: Dim, score: int)

  datatype Option<T> = None | Some(value: T)

  function ChartData(s: ScoreSet): (c: seq<ChartPoint>)
    requires Complete(s)
    ensures |c| == |Order|
    ensures forall k :: 0 <= k < |c| ==> c[k].dimension == Order[k]
    ensures forall k :: 0 <= k < |c| ==> c[k].score == s[c[k].dimension]
    ensures forall k :: 0 <= k < |c| ==> 0 <= c[k].score <= 100
  {
    seq(|Order|, k requires 0 <= k < |Order| => ChartPoint(Order[k], s[Order[k]]))
  }

  /** What the chart shows for a dimension: the score of its first point, if any. */
  function PlottedScore(c: seq<ChartPoint>, d: Dim): (v: Option<int>)
    ensures v.Some? <==> exists k :: 0 <= k < |c| && c[k].dimension == d
  {
    if c == [] then None
    else if c[0].dimension == d then Some(c[0].score)
    else
      var v := PlottedScore(c[1..], d);
      assert forall k :: 0 < k < |c| ==> c[k] == c[1..][k - 1];
      assert v.Some? ==> exists k :: 0 < k < |c| && c[k].dimension == d by {
        if v.Some? {
          var k :| 0 <= k < |c[1..]| && c[1..][k].dimension == d;
          assert c[k + 1].dimension == d;
        }
      }
      v
  }

  /** The chart is a lossless projection: every dimension is plotted, at exactly its score. */
  lemma {:induction false} ChartDataPlotsScores(s: ScoreSet, d: Dim)
    requires Complete(s)
    ensures PlottedScore(ChartData(s), d) == Some(s[d])
  {
    var c := ChartData(s);
    PlottedFirst(c, Rank(d));
  }

  lemma {:induction false} PlottedFirst(c: seq<ChartPoint>, k: nat)
    requires k < |c|
    requires forall j :: 0 <= j < k ==> c[j].dimension != c[k].dimension
    ensures PlottedScore(c, c[k].dimension) == Some(c[k].score)
  {
    if k > 0 {
      assert c[1..][k - 1] == c[k];
      PlottedFirst(c[1..], k - 1);
    }
  }

}

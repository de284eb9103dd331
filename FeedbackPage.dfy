/** The feedback page of the React app: five categories, each with an upvote and a
    downvote counter, kept in one array of ten counters. Category `idx` counts its
    upvotes at index `2 * idx` and its downvotes at index `2 * idx + 1`. */
module FeedbackPage {

  const Categories: seq<string> := ["Readability", "Performance", "Security", "Documentation", "Testing"]

  /** `[0, 0, 0, 0, 0, 0, 0, 0, 0, 0]` */
  const InitialCounts: seq<nat> := [0, 0, 0, 0, 0, 0, 0, 0, 0, 0]

  /** The counter the upvote button of category `idx` increments and shows. */
  function UpIndex(idx: nat): nat {
    idx * 2
  }

  /** The counter the downvote button of category `idx` increments and shows. */
  function DownIndex(idx: nat): nat {
    idx * 2 + 1
  }

  /** The ten buttons use ten different counters, all inside the array. */
  lemma ButtonsUseDistinctCounters()
    ensures |InitialCounts| == 2 * |Categories|
    ensures forall a :: 0 <= a < |Categories| ==> UpIndex(a) < |InitialCounts| && DownIndex(a) < |InitialCounts|
    ensures forall a, b :: 0 <= a < |Categories| && 0 <= b < |Categories| ==>
              UpIndex(a) != DownIndex(b) && (UpIndex(a) == UpIndex(b) ==> a == b) && (DownIndex(a) == DownIndex(b) ==> a == b)
  {
  }

  /** `counts.map((h, idx) => idx === i ? h + 1 : h)` */
  function Bump(counts: seq<nat>, i: int): (r: seq<nat>)
    ensures |r| == |counts|
    ensures forall k :: 0 <= k < |r| && k != i ==> r[k] == counts[k]
    ensures 0 <= i < |r| ==> r[i] == counts[i] + 1
  {
    seq(|counts|, k requires 0 <= k < |counts| => if k == i then counts[k] + 1 else counts[k])
  }

  function Total(counts: seq<nat>): nat {
    if |counts| == 0 then 0 else Total(counts[..|counts| - 1]) + counts[|counts| - 1]
  }

  /** Each press inside the array adds exactly one vote in total; a press outside it changes nothing. */
  lemma {:induction false} BumpTotal(counts: seq<nat>, i: int)
    ensures Total(Bump(counts, i)) == Total(counts) + (if 0 <= i < |counts| then 1 else 0)
    ensures !(0 <= i < |counts|) ==> Bump(counts, i) == counts
  {
    if |counts| > 0 {
      var n := |counts|;
      var pre := counts[..n - 1];
      BumpTotal(pre, i);
      assert Bump(counts, i)[..n - 1] == Bump(pre, i);
    }
  }

  /** Pressing the upvote of one category raises its upvote count by one and no other shown count. */
  lemma UpvoteRaisesOnlyItsCount(counts: seq<nat>, idx: nat)
    requires |counts| == |InitialCounts| && idx < |Categories|
    ensures var r := Bump(counts, UpIndex(idx));
            r[UpIndex(idx)] == counts[UpIndex(idx)] + 1 && r[DownIndex(idx)] == counts[DownIndex(idx)] &&
            forall other :: 0 <= other < |Categories| && other != idx ==>
              r[UpIndex(other)] == counts[UpIndex(other)] && r[DownIndex(other)] == counts[DownIndex(other)]
  {
  }

  class FeedbackCounters {
    var counts: seq<nat>

    constructor()
      ensures counts == InitialCounts
    {
      counts := InitialCounts;
    }

    /** `handleUpOrDown(i)` */
    method HandleUpOrDown(i: int)
      modifies this
      ensures counts == Bump(old(counts), i)
    {
      counts := Bump(counts, i);
    }
  }
}

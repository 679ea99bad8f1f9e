/** The three ranking metrics of the retrieval evaluation script
    (scripts/eval_retrieval.py): Recall@K, MRR@K and NDCG@K of a ranked list
    of chunk ids against a gold set of relevant ids.

    Scores are reals. NDCG's `1/log2(i)` discount is left abstract: any
    weight function `d` that is positive, non-increasing and equal to 1 at
    ranks 1 and 2 (as `1/log2(2) = 1` is) may stand for it, so the bounds
    below are ordering arguments rather than floating-point facts. */
module Metrics {

  /** Python's `list(xs)[:k]`, including its meaning for negative `k`: the
      list without its last `-k` items (and empty once `-k >= |xs|`). */
  function PrefixSlice<T>(xs: seq<T>, k: int): (r: seq<T>)
    ensures |r| <= |xs| && r == xs[..|r|]
    ensures 0 <= k <= |xs| ==> |r| == k
    ensures k > |xs| ==> r == xs
    ensures k < 0 ==> |r| == if |xs| + k < 0 then 0 else |xs| + k
  {
    if k >= 0 then (if k <= |xs| then xs[..k] else xs)
    else if |xs| + k >= 0 then xs[..|xs| + k]
    else []
  }

  /** Some id of `ids` is in the gold set. */
  ghost predicate SomeRelevant(ids: seq<string>, relevant: set<string>) {
    exists i :: 0 <= i < |ids| && ids[i] in relevant
  }

  /** Python's `any(r in relevant for r in ids)`, scanning left to right. */
  function AnyIn(ids: seq<string>, relevant: set<string>): (b: bool)
    ensures b <==> SomeRelevant(ids, relevant)
  {
    if |ids| == 0 then false
    else
      assert forall i :: 0 < i < |ids| ==> ids[i] == ids[1..][i - 1];
      ids[0] in relevant || AnyIn(ids[1..], relevant)
  }

  /** Recall@K: 1 when some id among the first `k` ranked ids is relevant,
      else 0. */
  function Recall(ranked: seq<string>, relevant: set<string>, k: int): (r: real)
    ensures r == 0.0 || r == 1.0
    ensures r == 1.0 <==> SomeRelevant(PrefixSlice(ranked, k), relevant)
  {
    var top := PrefixSlice(ranked, k);
    if AnyIn(top, relevant) then 1.0 else 0.0
  }

  /** The enumerate loop of MRR@K from 1-based rank `i` on: the reciprocal
      of the rank of the first relevant id, 0 when none is relevant. */
  function ReciprocalRankFrom(ids: seq<string>, relevant: set<string>, i: nat): (r: real)
    requires i >= 1
    ensures !SomeRelevant(ids, relevant) ==> r == 0.0
    ensures forall p :: 0 <= p < |ids| && ids[p] in relevant
                        && (forall q :: 0 <= q < p ==> ids[q] !in relevant)
                        ==> r == 1.0 / (i + p) as real
  {
    if |ids| == 0 then 0.0
    else if ids[0] in relevant then 1.0 / i as real
    else
      var r := ReciprocalRankFrom(ids[1..], relevant, i + 1);
      assert forall p :: 0 < p < |ids| ==> ids[p] == ids[1..][p - 1];
      assert !SomeRelevant(ids[1..], relevant) ==> !SomeRelevant(ids, relevant) by {
        if SomeRelevant(ids, relevant) {
          var p :| 0 <= p < |ids| && ids[p] in relevant;
          assert ids[1..][p - 1] in relevant;
        }
      }
      r
  }

  /** MRR@K: `1/i` for the smallest 1-based rank `i <= k` whose id is
      relevant; 0 when there is none. */
  function Mrr(ranked: seq<string>, relevant: set<string>, k: int): (r: real)
    ensures !SomeRelevant(PrefixSlice(ranked, k), relevant) ==> r == 0.0
    ensures var top := PrefixSlice(ranked, k);
            forall p :: 0 <= p < |top| && top[p] in relevant
                        && (forall q :: 0 <= q < p ==> top[q] !in relevant)
                        ==> r == 1.0 / (p + 1) as real
  {
    ReciprocalRankFrom(PrefixSlice(ranked, k), relevant, 1)
  }

  /** MRR@K lies in [0, 1], it is positive exactly when Recall@K is 1, and
      it never exceeds Recall@K. */
  lemma MrrAgreesWithRecall(ranked: seq<string>, relevant: set<string>, k: int)
    ensures 0.0 <= Mrr(ranked, relevant, k) <= 1.0
    ensures Mrr(ranked, relevant, k) > 0.0 <==> Recall(ranked, relevant, k) == 1.0
    ensures Mrr(ranked, relevant, k) <= Recall(ranked, relevant, k)
  {
    var top := PrefixSlice(ranked, k);
    var m := Mrr(ranked, relevant, k);
    var r := Recall(ranked, relevant, k);
    if SomeRelevant(top, relevant) {
      var p := FirstRelevant(top, relevant);
      var x := 1.0 / (p + 1) as real;
      assert m == x;
      ReciprocalBounds(p);
      assert r == 1.0;
    } else {
      assert m == 0.0 && r == 0.0;
    }
  }

  /** The reciprocal of a 1-based rank lies in (0, 1]. */
  lemma ReciprocalBounds(p: nat)
    ensures 0.0 < 1.0 / (p + 1) as real <= 1.0
  {
  }

  /** The index of the first relevant id of a list that has one. */
  lemma FirstRelevant(ids: seq<string>, relevant: set<string>) returns (p: nat)
    requires SomeRelevant(ids, relevant)
    ensures p < |ids| && ids[p] in relevant
    ensures forall q :: 0 <= q < p ==> ids[q] !in relevant
  {
    var i :| 0 <= i < |ids| && ids[i] in relevant;
    p := 0;
    while ids[p] !in relevant
      invariant p <= i
      invariant forall q :: 0 <= q < p ==> ids[q] !in relevant
      decreases i - p
    {
      p := p + 1;
    }
  }

  /** An empty ranking, or `k = 0`, scores 0 on Recall@K and MRR@K. */
  lemma EmptyTopScoresZero(ranked: seq<string>, relevant: set<string>, k: int)
    requires |ranked| == 0 || k == 0
    ensures Recall(ranked, relevant, k) == 0.0
    ensures Mrr(ranked, relevant, k) == 0.0
  {
    assert PrefixSlice(ranked, k) == [];
  }

  // ---------------------------------------------------------------- NDCG

  /** A stand-in for `1/log2(i)`: equal to 1 at ranks 1 and 2, positive,
      and non-increasing in the rank. */
  ghost predicate ValidDiscount(d: int -> real) {
    && d(1) == 1.0
    && d(2) == 1.0
    && (forall i :: i >= 1 ==> d(i) > 0.0)
    && (forall i, j :: 1 <= i <= j ==> d(j) <= d(i))
  }

  /** The weight of 1-based rank `i` in `dcg`: 1 at rank 1, `d(i)` after. */
  function Weight(d: int -> real, i: int): real {
    if i == 1 then 1.0 else d(i)
  }

  /** The binary gain of one id. */
  function Gain(id: string, relevant: set<string>): real {
    if id in relevant then 1.0 else 0.0
  }

  /** The inner `dcg` of NDCG@K over `ids`, whose first item has 1-based
      rank `start`. */
  function Dcg(ids: seq<string>, relevant: set<string>, d: int -> real, start: nat): real
  {
    if |ids| == 0 then 0.0
    else Gain(ids[0], relevant) * Weight(d, start) + Dcg(ids[1..], relevant, d, start + 1)
  }

  /** The relevant ids of `ids`, in order. */
  function Relevant(ids: seq<string>, relevant: set<string>): (r: seq<string>)
    ensures |r| <= |ids|
    ensures forall i :: 0 <= i < |r| ==> r[i] in relevant
  {
    if |ids| == 0 then []
    else if ids[0] in relevant then [ids[0]] + Relevant(ids[1..], relevant)
    else Relevant(ids[1..], relevant)
  }

  /** The non-relevant ids of `ids`, in order. */
  function Irrelevant(ids: seq<string>, relevant: set<string>): (r: seq<string>)
    ensures |r| <= |ids|
    ensures forall i :: 0 <= i < |r| ==> r[i] !in relevant
  {
    if |ids| == 0 then []
    else if ids[0] !in relevant then [ids[0]] + Irrelevant(ids[1..], relevant)
    else Irrelevant(ids[1..], relevant)
  }

  /** `sorted(ids, key=lambda x: x in relevant, reverse=True)`: Python's
      sort stays stable under `reverse=True`, so the relevant ids come
      first and each group keeps its original order. */
  function IdealOrder(ids: seq<string>, relevant: set<string>): seq<string>
  {
    Relevant(ids, relevant) + Irrelevant(ids, relevant)
  }

  /** The ideal ordering is a permutation of the truncated list (not of
      the gold set) and puts every relevant id before every other one. */
  lemma IdealOrderIsRelevantFirstPermutation(ids: seq<string>, relevant: set<string>)
    ensures multiset(IdealOrder(ids, relevant)) == multiset(ids)
    ensures RelevantFirst(IdealOrder(ids, relevant), relevant)
  {
    SplitIsPermutation(ids, relevant);
    var rel := Relevant(ids, relevant);
    var o := IdealOrder(ids, relevant);
    var irr := Irrelevant(ids, relevant);
    assert forall m :: |rel| <= m < |o| ==> o[m] == irr[m - |rel|];
    forall i, j | 0 <= i < j < |o| && o[j] in relevant
      ensures o[i] in relevant
    {
      assert o[i] == rel[i];
    }
  }

  /** The relevant and the non-relevant parts together hold exactly the
      ids of the list. */
  lemma {:induction false} SplitIsPermutation(ids: seq<string>, relevant: set<string>)
    ensures multiset(Relevant(ids, relevant)) + multiset(Irrelevant(ids, relevant)) == multiset(ids)
  {
    if |ids| > 0 {
      var tail := ids[1..];
      var r1 := Relevant(tail, relevant);
      var i1 := Irrelevant(tail, relevant);
      SplitIsPermutation(tail, relevant);
      assert ids == [ids[0]] + tail;
      assert multiset(ids) == multiset{ids[0]} + multiset(tail);
      if ids[0] in relevant {
        assert Relevant(ids, relevant) == [ids[0]] + r1;
        assert multiset(Relevant(ids, relevant)) == multiset{ids[0]} + multiset(r1);
        assert Irrelevant(ids, relevant) == i1;
      } else {
        assert Relevant(ids, relevant) == r1;
        assert Irrelevant(ids, relevant) == [ids[0]] + i1;
        assert multiset(Irrelevant(ids, relevant)) == multiset{ids[0]} + multiset(i1);
      }
    }
  }

  /** Every relevant id of `ids` precedes every non-relevant one. */
  ghost predicate RelevantFirst(ids: seq<string>, relevant: set<string>) {
    forall i, j :: 0 <= i < j < |ids| && ids[j] in relevant ==> ids[i] in relevant
  }

  /** NDCG@K: the `dcg` of the top-k list divided by the `dcg` of its ideal
      reordering, or 0 when the ideal gain is 0. Under a valid discount it
      lies in [0, 1] and is 0 exactly when no top-k id is relevant. */
  function Ndcg(ranked: seq<string>, relevant: set<string>, k: int, d: int -> real): (r: real)
    ensures ValidDiscount(d) ==> 0.0 <= r <= 1.0
    ensures ValidDiscount(d) ==> (r == 0.0 <==> !SomeRelevant(PrefixSlice(ranked, k), relevant))
  {
    var top := PrefixSlice(ranked, k);
    var ideal := Dcg(IdealOrder(top, relevant), relevant, d, 1);
    var actual := Dcg(top, relevant, d, 1);
    NdcgFacts(top, relevant, d);
    if ideal > 0.0 then
      RatioBounds(actual, ideal);
      actual / ideal
    else 0.0
  }

  /** A ratio of a non-negative part to a positive whole lies in [0, 1]
      and is 0 exactly when the part is. */
  lemma RatioBounds(part: real, whole: real)
    ensures 0.0 <= part <= whole && whole > 0.0 ==>
              0.0 <= part / whole <= 1.0 && (part / whole == 0.0 <==> part == 0.0)
  {
  }

  /** The facts behind the contract of `Ndcg`. */
  lemma NdcgFacts(top: seq<string>, relevant: set<string>, d: int -> real)
    ensures var ideal := Dcg(IdealOrder(top, relevant), relevant, d, 1);
            var actual := Dcg(top, relevant, d, 1);
            ValidDiscount(d) ==>
              && 0.0 <= actual <= ideal
              && (ideal > 0.0 <==> SomeRelevant(top, relevant))
              && (actual > 0.0 <==> SomeRelevant(top, relevant))
  {
    if ValidDiscount(d) {
      var m := |Relevant(top, relevant)|;
      DcgIdeal(top, relevant, d, 1);
      DcgBound(top, relevant, d, 1);
      DcgNonNegative(top, relevant, d, 1);
      RelevantCount(top, relevant);
      if m > 0 {
        WeightSumPositive(d, 1, m);
        DcgPositive(top, relevant, d, 1);
      }
    }
  }

  /** NDCG@K is 1 when the top-k list already has every relevant id ahead
      of every other and holds at least one: the list is its own ideal. */
  lemma NdcgOfIdealRanking(ranked: seq<string>, relevant: set<string>, k: int, d: int -> real)
    requires ValidDiscount(d)
    requires SomeRelevant(PrefixSlice(ranked, k), relevant)
    requires RelevantFirst(PrefixSlice(ranked, k), relevant)
    ensures Ndcg(ranked, relevant, k, d) == 1.0
  {
    var top := PrefixSlice(ranked, k);
    RelevantFirstIsIdeal(top, relevant);
    DcgPositive(top, relevant, d, 1);
    var actual := Dcg(top, relevant, d, 1);
    assert Ndcg(ranked, relevant, k, d) == actual / actual;
  }

  /** A relevant-first list equals its ideal reordering. */
  lemma {:induction false} RelevantFirstIsIdeal(ids: seq<string>, relevant: set<string>)
    requires RelevantFirst(ids, relevant)
    ensures IdealOrder(ids, relevant) == ids
  {
    if |ids| > 0 {
      var tail := ids[1..];
      assert RelevantFirst(tail, relevant) by {
        forall i, j | 0 <= i < j < |tail| && tail[j] in relevant
          ensures tail[i] in relevant
        {
          assert tail[i] == ids[i + 1] && tail[j] == ids[j + 1];
        }
      }
      RelevantFirstIsIdeal(tail, relevant);
      assert ids == [ids[0]] + tail;
      if ids[0] in relevant {
        assert Relevant(ids, relevant) == [ids[0]] + Relevant(tail, relevant);
        assert Irrelevant(ids, relevant) == Irrelevant(tail, relevant);
        assert IdealOrder(ids, relevant) == [ids[0]] + IdealOrder(tail, relevant);
      } else {
        NoneRelevantAfter(ids, relevant);
        assert Relevant(ids, relevant) == [];
        assert Irrelevant(ids, relevant) == [ids[0]] + Irrelevant(tail, relevant);
        assert IdealOrder(tail, relevant) == Irrelevant(tail, relevant);
      }
    }
  }

  lemma NoneRelevantAfter(ids: seq<string>, relevant: set<string>)
    requires |ids| > 0 && ids[0] !in relevant
    requires RelevantFirst(ids, relevant)
    ensures forall i :: 0 <= i < |ids[1..]| ==> ids[1..][i] !in relevant
    ensures Relevant(ids[1..], relevant) == []
  {
    NoRelevantMeansEmpty(ids[1..], relevant);
  }

  lemma {:induction false} NoRelevantMeansEmpty(ids: seq<string>, relevant: set<string>)
    requires forall i :: 0 <= i < |ids| ==> ids[i] !in relevant
    ensures Relevant(ids, relevant) == []
  {
    if |ids| > 0 {
      NoRelevantMeansEmpty(ids[1..], relevant);
    }
  }

  /** The sum of the weights of ranks `start .. start + m - 1`. */
  function WeightSum(d: int -> real, start: nat, m: nat): real
    decreases m
  {
    if m == 0 then 0.0 else Weight(d, start) + WeightSum(d, start + 1, m - 1)
  }

  lemma {:induction false} DcgAppend(a: seq<string>, b: seq<string>, relevant: set<string>, d: int -> real, start: nat)
    ensures Dcg(a + b, relevant, d, start) == Dcg(a, relevant, d, start) + Dcg(b, relevant, d, start + |a|)
  {
    if |a| > 0 {
      assert (a + b)[1..] == a[1..] + b;
      assert (a + b)[0] == a[0];
      DcgAppend(a[1..], b, relevant, d, start + 1);
      assert Dcg(a + b, relevant, d, start)
          == Gain(a[0], relevant) * Weight(d, start) + Dcg(a[1..] + b, relevant, d, start + 1);
      assert start + 1 + |a[1..]| == start + |a|;
    } else {
      assert a + b == b;
    }
  }

  lemma {:induction false} DcgOfRelevant(ids: seq<string>, relevant: set<string>, d: int -> real, start: nat)
    requires forall i :: 0 <= i < |ids| ==> ids[i] in relevant
    ensures Dcg(ids, relevant, d, start) == WeightSum(d, start, |ids|)
  {
    if |ids| > 0 {
      DcgOfRelevant(ids[1..], relevant, d, start + 1);
    }
  }

  lemma {:induction false} DcgOfIrrelevant(ids: seq<string>, relevant: set<string>, d: int -> real, start: nat)
    requires forall i :: 0 <= i < |ids| ==> ids[i] !in relevant
    ensures Dcg(ids, relevant, d, start) == 0.0
  {
    if |ids| > 0 {
      DcgOfIrrelevant(ids[1..], relevant, d, start + 1);
    }
  }

  /** The ideal gain is the weight of the first `m` ranks, `m` being the
      number of relevant ids in the list. */
  lemma DcgIdeal(ids: seq<string>, relevant: set<string>, d: int -> real, start: nat)
    ensures Dcg(IdealOrder(ids, relevant), relevant, d, start)
            == WeightSum(d, start, |Relevant(ids, relevant)|)
  {
    var rel := Relevant(ids, relevant);
    DcgAppend(rel, Irrelevant(ids, relevant), relevant, d, start);
    DcgOfRelevant(rel, relevant, d, start);
    DcgOfIrrelevant(Irrelevant(ids, relevant), relevant, d, start + |rel|);
  }

  /** Moving the window one rank later never increases its weight. */
  lemma {:induction false} WeightSumShift(d: int -> real, start: nat, m: nat)
    requires ValidDiscount(d) && start >= 1
    ensures WeightSum(d, start + 1, m) <= WeightSum(d, start, m)
    decreases m
  {
    if m > 0 {
      WeightSumShift(d, start + 1, m - 1);
      assert Weight(d, start + 1) == d(start + 1);
      assert Weight(d, start) == d(start);
    }
  }

  lemma {:induction false} WeightSumPositive(d: int -> real, start: nat, m: nat)
    requires ValidDiscount(d) && start >= 1 && m > 0
    ensures WeightSum(d, start, m) > 0.0
    decreases m
  {
    assert Weight(d, start) == d(start);
    if m > 1 {
      WeightSumPositive(d, start + 1, m - 1);
    } else {
      assert WeightSum(d, start + 1, 0) == 0.0;
    }
  }

  lemma {:induction false} DcgNonNegative(ids: seq<string>, relevant: set<string>, d: int -> real, start: nat)
    requires ValidDiscount(d) && start >= 1
    ensures Dcg(ids, relevant, d, start) >= 0.0
  {
    if |ids| > 0 {
      assert Weight(d, start) == d(start);
      DcgNonNegative(ids[1..], relevant, d, start + 1);
    }
  }

  /** The rearrangement step: a list's gain is at most the weight of its
      first `m` ranks, `m` being its number of relevant ids. */
  lemma {:induction false} DcgBound(ids: seq<string>, relevant: set<string>, d: int -> real, start: nat)
    requires ValidDiscount(d) && start >= 1
    ensures Dcg(ids, relevant, d, start) <= WeightSum(d, start, |Relevant(ids, relevant)|)
  {
    if |ids| > 0 {
      var tail := ids[1..];
      var m := |Relevant(ids, relevant)|;
      DcgBound(tail, relevant, d, start + 1);
      var rest := Dcg(tail, relevant, d, start + 1);
      assert Dcg(ids, relevant, d, start) == Gain(ids[0], relevant) * Weight(d, start) + rest;
      if ids[0] in relevant {
        assert m == |Relevant(tail, relevant)| + 1;
        assert WeightSum(d, start, m) == Weight(d, start) + WeightSum(d, start + 1, m - 1);
      } else {
        assert m == |Relevant(tail, relevant)|;
        assert Dcg(ids, relevant, d, start) == rest;
        WeightSumShift(d, start, m);
      }
    }
  }

  lemma {:induction false} DcgPositive(ids: seq<string>, relevant: set<string>, d: int -> real, start: nat)
    requires ValidDiscount(d) && start >= 1
    requires SomeRelevant(ids, relevant)
    ensures Dcg(ids, relevant, d, start) > 0.0
  {
    assert Weight(d, start) == d(start);
    DcgNonNegative(ids[1..], relevant, d, start + 1);
    if ids[0] !in relevant {
      var p :| 0 <= p < |ids| && ids[p] in relevant;
      assert ids[1..][p - 1] in relevant;
      DcgPositive(ids[1..], relevant, d, start + 1);
    }
  }

  /** A list has relevant ids exactly when its relevant part is non-empty. */
  lemma {:induction false} RelevantCount(ids: seq<string>, relevant: set<string>)
    ensures |Relevant(ids, relevant)| > 0 <==> SomeRelevant(ids, relevant)
  {
    if |ids| > 0 {
      RelevantCount(ids[1..], relevant);
      if SomeRelevant(ids, relevant) && ids[0] !in relevant {
        var p :| 0 <= p < |ids| && ids[p] in relevant;
        assert ids[1..][p - 1] in relevant;
      }
      if SomeRelevant(ids[1..], relevant) {
        var p :| 0 <= p < |ids[1..]| && ids[1..][p] in relevant;
        assert ids[p + 1] in relevant;
      }
    }
  }
}

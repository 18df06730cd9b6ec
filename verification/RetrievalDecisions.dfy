/** The exact orders of fusion and relevance, from places alone. */
module RetrievalDecisions {
  import opened Options
  import opened Sorting
  import opened Retrieval

  // ── Fusion ──

  /** The place of `i` in a ranking; its length where `i` is not ranked. */
  function PlaceOf(ranking: seq<nat>, i: nat): (p: nat)
    ensures p <= |ranking| && (p < |ranking| ==> ranking[p] == i) && i !in ranking[..p]
  {
    if ranking == [] || ranking[0] == i then 0 else
      assert ranking == [ranking[0]] + ranking[1..];
      1 + PlaceOf(ranking[1..], i)
  }

  /** The first place is worth 1/61, the second 1/62, and so on; no place nothing. */
  function Points(rankings: seq<seq<nat>>, i: nat): real {
    if rankings == [] then 0.0
    else
      (if i in rankings[0] then 1.0 / (61 + PlaceOf(rankings[0], i)) as real else 0.0) + Points(rankings[1..], i)
  }

  lemma {:induction false} PointsAreScore(rankings: seq<seq<nat>>, i: nat)
    requires forall r :: 0 <= r < |rankings| ==> Distinct(rankings[r])
    ensures Score(rankings, i) == Points(rankings, i)
  {
    if rankings != [] {
      var ranking := rankings[0];
      var p := PlaceOf(ranking, i);
      assert ranking[0..] == ranking;
      ContributionIsWeight(ranking, i, 0);
      assert i in ranking ==> p < |ranking| by {
        if p == |ranking| {
          assert ranking[..p] == ranking;
        }
      }
      PointsAreScore(rankings[1..], i);
    }
  }

  lemma OrderIsExact(score: nat -> real, size: nat, i: nat, j: nat)
    requires i < size && j < size && i != j
    ensures Precedes(SortBy(score, UpTo(size)), i, j) <==> score(i) > score(j) || (score(i) == score(j) && i < j)
  {
    RangeSorts(score, size);
  }

  /** Main result. Fusion puts one index before another exactly if its places are worth more, or as much and
    * its index is the smaller. */
  lemma FusionDecidesExactly(rankings: seq<seq<nat>>, size: nat, i: nat, j: nat)
    requires forall r :: 0 <= r < |rankings| ==> Distinct(rankings[r])
    requires i < size && j < size && i != j
    ensures Precedes(Fused(rankings, size), i, j)
            <==> Points(rankings, i) > Points(rankings, j) || (Points(rankings, i) == Points(rankings, j) && i < j)
  {
    var score := (x: nat) => Score(rankings, x);
    OrderIsExact(score, size, i, j);
    PointsAreScore(rankings, i);
    PointsAreScore(rankings, j);
  }

  // ── Relevance ──

  /** The records with a higher score, or the same one and an earlier place in the catalog. */
  function Better(scores: seq<real>, i: nat): set<nat>
    requires i < |scores|
  {
    set j: nat | j < |scores| && (scores[j] > scores[i] || (scores[j] == scores[i] && j < i))
  }

  ghost predicate AllZero(scores: seq<real>) {
    forall i :: 0 <= i < |scores| ==> scores[i] == 0.0
  }

  lemma PlaceInScores(scores: seq<real>, i: nat)
    requires i < |scores|
    ensures var order := SortBy(At(scores), UpTo(|scores|)); i in order && PlaceOf(order, i) == |Better(scores, i)|
  {
    RangeSorts(At(scores), |scores|);
    var order := SortBy(At(scores), UpTo(|scores|));
    var p := PlaceOf(order, i);
    assert order[..|order|] == order;
    forall j: nat ensures j in Better(scores, i) <==> j in order && Ahead(At(scores), j, order[p]) {}
    PlaceIsCount(At(scores), order, p, Better(scores, i));
  }

  /** One ranking of the scores, seen from `i`: the points of the place that the scores give it. */
  lemma PointsOfPlace(scores: seq<real>, rest: seq<seq<nat>>, i: nat)
    requires i < |scores|
    ensures Points([SortBy(At(scores), UpTo(|scores|))] + rest, i) == 1.0 / (61 + |Better(scores, i)|) as real + Points(rest, i)
  {
    hide SortBy;
    var first := SortBy(At(scores), UpTo(|scores|));
    PlaceInScores(scores, i);
    assert ([first] + rest)[1..] == rest && ([first] + rest)[0] == first;
  }

  /** Main result. The relevance order, exactly. Scores that are all zero do not rank. With neither list the
    * catalog keeps its order; with one, the records stand by its scores; with both, by the points of their
    * two places. Equals stay in catalog order. */
  lemma RelevanceDecidesExactly(lex: seq<real>, vec: Option<seq<real>>, i: nat, j: nat)
    requires vec.Some? ==> |vec.value| == |lex|
    requires i < |lex| && j < |lex| && i != j
    ensures var order := Relevance(lex, vec);
            var useVec := vec.Some? && !AllZero(vec.value);
            && (AllZero(lex) && !useVec ==> (Precedes(order, i, j) <==> i < j))
            && (!AllZero(lex) && !useVec ==>
                  (Precedes(order, i, j) <==> lex[i] > lex[j] || (lex[i] == lex[j] && i < j)))
            && (AllZero(lex) && useVec ==>
                  (Precedes(order, i, j) <==> vec.value[i] > vec.value[j] || (vec.value[i] == vec.value[j] && i < j)))
            && (!AllZero(lex) && useVec ==>
                  var a := 1.0 / (61 + |Better(lex, i)|) as real + 1.0 / (61 + |Better(vec.value, i)|) as real;
                  var b := 1.0 / (61 + |Better(lex, j)|) as real + 1.0 / (61 + |Better(vec.value, j)|) as real;
                  (Precedes(order, i, j) <==> a > b || (a == b && i < j)))
  {
    hide Relevance, Better, Fused, SortBy, Precedes, Points;
    var useVec := vec.Some? && !AllZero(vec.value);
    if AllZero(lex) && !useVec {
      NoScores(lex, vec, i, j);
    } else if !useVec {
      OneList(lex, lex, vec, i, j);
    } else if AllZero(lex) {
      OneList(vec.value, lex, vec, i, j);
    } else {
      TwoLists(lex, vec, i, j);
    }
  }

  lemma NoScores(lex: seq<real>, vec: Option<seq<real>>, i: nat, j: nat)
    requires AllZero(lex) && (vec.Some? ==> AllZero(vec.value)) && i < |lex| && j < |lex|
    ensures Precedes(Relevance(lex, vec), i, j) <==> i < j
  {
    var order := Relevance(lex, vec);
    assert order == UpTo(|lex|);
    assert order[i] == i && order[j] == j;
  }

  /** One list of scores ranks: the fused order of one ranking is that ranking. */
  lemma OneList(scores: seq<real>, lex: seq<real>, vec: Option<seq<real>>, i: nat, j: nat)
    requires (vec.Some? ==> |vec.value| == |lex|) && i < |lex| && j < |lex| && i != j
    requires || (scores == lex && !AllZero(lex) && (vec.Some? ==> AllZero(vec.value)))
             || (vec == Some(scores) && AllZero(lex) && !AllZero(scores))
    ensures Precedes(Relevance(lex, vec), i, j) <==> scores[i] > scores[j] || (scores[i] == scores[j] && i < j)
  {
    hide Fused, SortBy, Precedes;
    var ranking := SortBy(At(scores), UpTo(|lex|));
    assert Rankings(lex, vec) == [ranking];
    RangeSorts(At(scores), |lex|);
    FusingOneIsIdentity(ranking, |lex|);
    OrderIsExact(At(scores), |lex|, i, j);
  }

  lemma TwoLists(lex: seq<real>, vec: Option<seq<real>>, i: nat, j: nat)
    requires vec.Some? && |vec.value| == |lex| && !AllZero(lex) && !AllZero(vec.value)
    requires i < |lex| && j < |lex| && i != j
    ensures var a := 1.0 / (61 + |Better(lex, i)|) as real + 1.0 / (61 + |Better(vec.value, i)|) as real;
            var b := 1.0 / (61 + |Better(lex, j)|) as real + 1.0 / (61 + |Better(vec.value, j)|) as real;
            (Precedes(Relevance(lex, vec), i, j) <==> a > b || (a == b && i < j))
  {
    hide Fused, SortBy, Precedes, Better, Points;
    var first, second := SortBy(At(lex), UpTo(|lex|)), SortBy(At(vec.value), UpTo(|lex|));
    assert Rankings(lex, vec) == [first, second];
    RangeSorts(At(lex), |lex|);
    RangeSorts(At(vec.value), |lex|);
    FusionDecidesExactly([first, second], |lex|, i, j);
    assert [first, second] == [first] + ([second] + []);
    forall x: nat | x < |lex|
      ensures Points([first, second], x) == 1.0 / (61 + |Better(lex, x)|) as real + 1.0 / (61 + |Better(vec.value, x)|) as real
    {
      PointsOfPlace(lex, [second] + [], x);
      PointsOfPlace(vec.value, [], x);
      NoPoints(x);
    }
  }

  lemma NoPoints(i: nat)
    ensures Points([], i) == 0.0
  {}

  // ── The gate ──

  /** Main result. What the gate shows of a catalog: the records with fewer than `topK` others before them in
    * the relevance order, where a missing or stale vector counts as no similarity at all, and the pinned
    * ones; in catalog order, each with its own content. */
  lemma ShownExactly(records: seq<Record>, lex: seq<real>, similarity: Option<seq<real>>, topK: nat, pinned: set<string>, i: nat)
    requires |lex| == |records| && (similarity.Some? ==> |similarity.value| == |records|) && i < |records|
    ensures var scores := if similarity.None? then None
                          else Some(seq(|records|, r requires 0 <= r < |records| =>
                            if records[r].hasVector && !records[r].stale then similarity.value[r] else 0.0));
            var order := Relevance(lex, scores);
            var ids := ChosenIds(records, Top(CatalogOrder(records, lex, similarity), topK), pinned, |records|);
            && (i in ids <==> records[i].id in pinned || (exists p :: 0 <= p < |order| && p < topK && order[p] == i))
            && (forall p :: 0 <= p < |ids| ==> ids[p] < |records|)
            && |Pick(records, ids)| == |ids| && (forall p :: 0 <= p < |ids| ==> Pick(records, ids)[p] == records[ids[p]])
  {
    hide Relevance;
    GateKeepsTopAndPinned(records, lex, similarity, topK, pinned);
    var ids := ChosenIds(records, Top(CatalogOrder(records, lex, similarity), topK), pinned, |records|);
    assert forall p :: 0 <= p < |ids| ==> ids[p] in ids;
    if similarity.Some? {
      assert Comparable(records, similarity.value)
          == seq(|records|, r requires 0 <= r < |records| =>
               if records[r].hasVector && !records[r].stale then similarity.value[r] else 0.0);
    }
  }
}

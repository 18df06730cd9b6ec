/** Progressive-disclosure retrieval (`backend/app/retrieval.py`): reciprocal-rank fusion and the
  * catalog gate. Scores are exact reals; what BM25 and cosine compute is left open.
  */
module Retrieval {
  import opened Options
  import opened Sorting

  const RRF_K: nat := 60

  // ── Fusion ──

  function Weight(rank: nat): real {
    1.0 / (RRF_K + rank + 1) as real
  }

  /** What the ranks from `from` on give to index `i`. */
  function Contribution(ranking: seq<nat>, i: nat, from: nat): real
    requires from <= |ranking|
    decreases |ranking| - from
  {
    if from == |ranking| then 0.0
    else (if ranking[from] == i then Weight(from) else 0.0) + Contribution(ranking, i, from + 1)
  }

  function Score(rankings: seq<seq<nat>>, i: nat): real {
    if rankings == [] then 0.0 else Contribution(rankings[0], i, 0) + Score(rankings[1..], i)
  }

  function Fused(rankings: seq<seq<nat>>, size: nat): seq<nat> {
    SortBy((i: nat) => Score(rankings, i), UpTo(size))
  }

  method RrfFuse(rankings: seq<seq<nat>>, size: nat) returns (order: seq<nat>)
    requires forall r, p :: 0 <= r < |rankings| && 0 <= p < |rankings[r]| ==> rankings[r][p] < size
    ensures order == Fused(rankings, size)
  {
    var scores := new real[size](_ => 0.0);
    assert rankings[0..] == rankings;
    for r := 0 to |rankings|
      invariant forall i: nat :: i < size ==> scores[i] + Score(rankings[r..], i) == Score(rankings, i)
    {
      var ranking := rankings[r];
      assert rankings[r..][0] == ranking && rankings[r..][1..] == rankings[r + 1..];
      for rank := 0 to |ranking|
        invariant forall i: nat :: i < size ==>
          scores[i] + Contribution(ranking, i, rank) + Score(rankings[r + 1..], i) == Score(rankings, i)
      {
        var idx := ranking[rank];
        scores[idx] := scores[idx] + Weight(rank);
      }
    }
    assert rankings[|rankings|..] == [];
    var final := scores[..];
    SortsAlike((i: nat) => if i < |final| then final[i] else 0.0, (i: nat) => Score(rankings, i), UpTo(size));
    order := SortBy((i: nat) => if i < |final| then final[i] else 0.0, UpTo(size));
  }

  /** In one ranking, `i` is better than `j`: it comes first, or it alone is ranked. */
  ghost predicate Prefers(ranking: seq<nat>, i: nat, j: nat) {
    exists p :: 0 <= p < |ranking| && ranking[p] == i && j !in ranking[..p]
  }

  lemma {:induction false} ContributionIsWeight(ranking: seq<nat>, i: nat, from: nat)
    requires Distinct(ranking) && from <= |ranking|
    ensures i !in ranking[from..] ==> Contribution(ranking, i, from) == 0.0
    ensures forall p :: from <= p < |ranking| && ranking[p] == i ==> Contribution(ranking, i, from) == Weight(p)
    decreases |ranking| - from
  {
    if from < |ranking| {
      ContributionIsWeight(ranking, i, from + 1);
      assert ranking[from] in ranking[from..];
      assert forall j :: j in ranking[from + 1..] ==> j in ranking[from..];
      if ranking[from] == i {
        assert i !in ranking[from + 1..];
      }
    }
  }

  lemma WeightFalls(p: nat, q: nat)
    requires p < q
    ensures Weight(p) > Weight(q) > 0.0
  {
    Reciprocal((RRF_K + p + 1) as real, (RRF_K + q + 1) as real);
  }

  lemma Reciprocal(a: real, b: real)
    requires 0.0 < a < b
    ensures 1.0 / a > 1.0 / b > 0.0
  {
    var x, y := 1.0 / a, 1.0 / b;
    assert x * a == 1.0 && y * b == 1.0;
    assert y > 0.0;
    assert y * a < y * b;
    assert x <= y ==> x * a <= y * a;
  }

  lemma PreferenceScoresHigher(ranking: seq<nat>, i: nat, j: nat)
    requires Distinct(ranking) && i != j
    ensures Prefers(ranking, i, j) ==> Contribution(ranking, i, 0) > Contribution(ranking, j, 0)
    ensures i !in ranking && j !in ranking ==> Contribution(ranking, i, 0) == Contribution(ranking, j, 0)
  {
    hide Weight;
    ContributionIsWeight(ranking, i, 0);
    ContributionIsWeight(ranking, j, 0);
    assert ranking[0..] == ranking;
    if Prefers(ranking, i, j) {
      var p :| 0 <= p < |ranking| && ranking[p] == i && j !in ranking[..p];
      WeightFalls(p, p + 1);
      assert forall x :: 0 <= x < p ==> ranking[..p][x] == ranking[x] && ranking[..p][x] in ranking[..p];
      if j in ranking {
        var q :| 0 <= q < |ranking| && ranking[q] == j;
        WeightFalls(p, q);
      }
    }
  }

  /** No ranking disagrees: each one prefers `i` to `j` or ranks neither. */
  ghost predicate Unanimous(rankings: seq<seq<nat>>, i: nat, j: nat) {
    forall r :: 0 <= r < |rankings| ==>
      Prefers(rankings[r], i, j) || (i !in rankings[r] && j !in rankings[r])
  }

  lemma {:induction false} UnanimityScores(rankings: seq<seq<nat>>, i: nat, j: nat)
    requires i != j && Unanimous(rankings, i, j) && forall r :: 0 <= r < |rankings| ==> Distinct(rankings[r])
    ensures Score(rankings, i) >= Score(rankings, j)
    ensures (exists r :: 0 <= r < |rankings| && Prefers(rankings[r], i, j)) ==> Score(rankings, i) > Score(rankings, j)
  {
    if rankings != [] {
      PreferenceScoresHigher(rankings[0], i, j);
      UnanimityScores(rankings[1..], i, j);
      if exists r :: 0 <= r < |rankings| && Prefers(rankings[r], i, j) {
        var r :| 0 <= r < |rankings| && Prefers(rankings[r], i, j);
        assert r > 0 ==> rankings[1..][r - 1] == rankings[r];
      }
    }
  }

  /** Main result. Fusion returns every index exactly once, and puts `i` before `j` whenever no
    * ranking disagrees and at least one prefers `i`. */
  lemma FusionRespectsUnanimity(rankings: seq<seq<nat>>, size: nat, i: nat, j: nat)
    requires forall r :: 0 <= r < |rankings| ==> Distinct(rankings[r])
    ensures IsPermutation(Fused(rankings, size), size)
    ensures i < size && j < size && i != j && Unanimous(rankings, i, j)
            && (exists r :: 0 <= r < |rankings| && Prefers(rankings[r], i, j))
            ==> Precedes(Fused(rankings, size), i, j)
  {
    var score := (x: nat) => Score(rankings, x);
    RangeSorts(score, size);
    if i < size && j < size && i != j && Unanimous(rankings, i, j)
       && (exists r :: 0 <= r < |rankings| && Prefers(rankings[r], i, j)) {
      UnanimityScores(rankings, i, j);
      assert Ahead(score, i, j);
    }
  }

  /** Main result. Fusing one complete ranking leaves it as it is. */
  lemma FusingOneIsIdentity(ranking: seq<nat>, size: nat)
    requires IsPermutation(ranking, size)
    ensures Fused([ranking], size) == ranking
  {
    hide Weight;
    var score := (x: nat) => Score([ranking], x);
    RangeSorts(score, size);
    forall p, q | 0 <= p < q < |ranking| ensures Ahead(score, ranking[p], ranking[q]) {
      ContributionIsWeight(ranking, ranking[p], 0);
      ContributionIsWeight(ranking, ranking[q], 0);
      WeightFalls(p, q);
      assert [ranking][1..] == [] && Score([], ranking[p]) == Score([], ranking[q]) == 0.0;
    }
    SortedIsUnique(score, Fused([ranking], size), ranking);
  }

  // ── Ranking records ──

  function At(scores: seq<real>): nat -> real {
    (i: nat) => if i < |scores| then scores[i] else 0.0
  }

  predicate Informative(scores: seq<real>) {
    exists i :: 0 <= i < |scores| && scores[i] != 0.0
  }

  function Rankings(lex: seq<real>, vec: Option<seq<real>>): seq<seq<nat>> {
    (if Informative(lex) then [SortBy(At(lex), UpTo(|lex|))] else [])
    + (if vec.Some? && Informative(vec.value) then [SortBy(At(vec.value), UpTo(|lex|))] else [])
  }

  /** Relevance order from lexical scores and, where there is a query vector, similarity scores. */
  method RankRecords(lex: seq<real>, vec: Option<seq<real>>) returns (order: seq<nat>)
    requires vec.Some? ==> |vec.value| == |lex|
    ensures order == Relevance(lex, vec)
  {
    var rankings: seq<seq<nat>> := [];
    RangeSorts(At(lex), |lex|);
    if Informative(lex) {
      rankings := rankings + [SortBy(At(lex), UpTo(|lex|))];
    }
    if vec.Some? {
      RangeSorts(At(vec.value), |lex|);
      if Informative(vec.value) {
        rankings := rankings + [SortBy(At(vec.value), UpTo(|lex|))];
      }
    }
    assert rankings == Rankings(lex, vec);
    if rankings == [] {
      return UpTo(|lex|);
    }
    forall r, p | 0 <= r < |rankings| && 0 <= p < |rankings[r]| ensures rankings[r][p] < |lex| {
      assert rankings[r][p] in rankings[r];
    }
    order := RrfFuse(rankings, |lex|);
  }

  function Relevance(lex: seq<real>, vec: Option<seq<real>>): seq<nat> {
    var rankings := Rankings(lex, vec);
    if rankings == [] then UpTo(|lex|) else Fused(rankings, |lex|)
  }

  lemma SortedPrefers(score: nat -> real, size: nat, i: nat, j: nat)
    requires i < size && j < size && Ahead(score, i, j)
    ensures Prefers(SortBy(score, UpTo(size)), i, j)
  {
    RangeSorts(score, size);
    var order := SortBy(score, UpTo(size));
    var p, q :| 0 <= p < q < |order| && order[p] == i && order[q] == j;
    assert j !in order[..p];
  }

  /** Main result. The relevance order is a permutation of the catalog in which a record that is ahead
    * of another lexically and, if vectors are compared, by similarity too, comes before it. */
  lemma RelevanceRespectsScores(lex: seq<real>, vec: Option<seq<real>>, i: nat, j: nat)
    requires vec.Some? ==> |vec.value| == |lex|
    ensures IsPermutation(Relevance(lex, vec), |lex|)
    ensures i < |lex| && j < |lex| && Ahead(At(lex), i, j) && (vec.Some? ==> Ahead(At(vec.value), i, j))
            ==> Precedes(Relevance(lex, vec), i, j)
  {
    var n, rankings, order := |lex|, Rankings(lex, vec), Relevance(lex, vec);
    RangeSorts(At(lex), n);
    if vec.Some? {
      RangeSorts(At(vec.value), n);
    }
    forall x: nat ensures x in UpTo(n) <==> x < n {
      assert x < n ==> UpTo(n)[x] == x;
    }
    FusionRespectsUnanimity(rankings, n, i, j);
    if i < n && j < n && Ahead(At(lex), i, j) && (vec.Some? ==> Ahead(At(vec.value), i, j)) {
      if rankings == [] {
        assert order[i] == i && order[j] == j;
      } else {
        SortedPrefers(At(lex), n, i, j);
        if vec.Some? {
          SortedPrefers(At(vec.value), n, i, j);
        }
        assert Prefers(rankings[0], i, j);
      }
    }
  }

  // ── The catalog gate ──

  /** A registry record; `stale` says its vector was built by another embedding model or text. */
  datatype Record = Record(id: string, hasVector: bool, stale: bool)

  /** The similarity scores the gate ranks by: a stale or missing vector scores zero. */
  function Comparable(records: seq<Record>, similarity: seq<real>): seq<real>
    requires |similarity| == |records|
  {
    seq(|records|, i requires 0 <= i < |records| =>
      if records[i].hasVector && !records[i].stale then similarity[i] else 0.0)
  }

  function Top(order: seq<nat>, k: nat): seq<nat> {
    if |order| <= k then order else order[..k]
  }

  predicate Chosen(records: seq<Record>, top: seq<nat>, pinned: set<string>, i: nat)
    requires i < |records|
  {
    i in top || records[i].id in pinned
  }

  /** The chosen indices below `n`, in catalog order. */
  function ChosenIds(records: seq<Record>, top: seq<nat>, pinned: set<string>, n: nat): seq<nat>
    requires n <= |records|
  {
    if n == 0 then []
    else ChosenIds(records, top, pinned, n - 1) + (if Chosen(records, top, pinned, n - 1) then [n - 1] else [])
  }

  function Pick(records: seq<Record>, ids: seq<nat>): seq<Record>
    requires forall p :: 0 <= p < |ids| ==> ids[p] < |records|
  {
    seq(|ids|, p requires 0 <= p < |ids| => records[ids[p]])
  }

  lemma {:induction false} ChosenIdsAre(records: seq<Record>, top: seq<nat>, pinned: set<string>, n: nat)
    requires n <= |records|
    ensures var ids := ChosenIds(records, top, pinned, n);
            && |ids| <= n
            && (forall i: nat :: i in ids <==> i < n && Chosen(records, top, pinned, i))
            && (forall p :: 0 <= p < |ids| ==> ids[p] < n)
            && (forall p, q :: 0 <= p < q < |ids| ==> ids[p] < ids[q])
  {
    if n > 0 {
      ChosenIdsAre(records, top, pinned, n - 1);
    }
  }

  /** Gate a catalog. Lexical scores and similarities are inputs; without an embedding model, or when
    * embedding the query failed, there are no similarities. */
  method ApplyRetrieval(records: seq<Record>, enabled: bool, threshold: nat, query: string, topK: nat,
                        pinned: set<string>, lex: seq<real>, similarity: Option<seq<real>>)
    returns (shown: seq<Record>, dropped: nat)
    requires |lex| == |records| && (similarity.Some? ==> |similarity.value| == |records|)
    ensures !enabled || |records| <= threshold || query == "" ==> shown == records && dropped == 0
    ensures enabled && |records| > threshold && query != "" ==>
              var top := Top(CatalogOrder(records, lex, similarity), topK);
              var ids := ChosenIds(records, top, pinned, |records|);
              && (forall p :: 0 <= p < |ids| ==> ids[p] < |records|)
              && shown == Pick(records, ids) && dropped == |records| - |ids|
  {
    if !enabled {
      return records, 0;
    }
    if |records| <= threshold {
      return records, 0;
    }
    if query == "" {
      return records, 0;
    }
    var order := RankRecords(lex, if similarity.Some? then Some(Comparable(records, similarity.value)) else None);
    OrderIsPermutation(records, lex, similarity);
    var top := Top(order, topK);
    TopIsDistinct(order, topK, |records|);
    var selected: seq<nat>, selectedSet: set<nat> := top, set i | i in top;
    for i := 0 to |records|
      invariant forall j: nat :: j in selected <==> j in top || (j < i && Chosen(records, top, pinned, j))
      invariant forall j: nat :: j in selected <==> j in selectedSet
      invariant Distinct(selected)
    {
      if records[i].id in pinned && i !in selectedSet {
        selected := selected + [i];
        selectedSet := selectedSet + {i};
      }
    }
    SelectionIsChosen(records, top, pinned, selected);
    selected := SortBy((x: nat) => 0.0, selected);
    assert forall p :: 0 <= p < |selected| ==> selected[p] in selected;
    dropped := |records| - |selected|;
    shown := Pick(records, selected);
  }

  function CatalogOrder(records: seq<Record>, lex: seq<real>, similarity: Option<seq<real>>): seq<nat>
    requires |lex| == |records| && (similarity.Some? ==> |similarity.value| == |records|)
  {
    Relevance(lex, if similarity.Some? then Some(Comparable(records, similarity.value)) else None)
  }

  lemma OrderIsPermutation(records: seq<Record>, lex: seq<real>, similarity: Option<seq<real>>)
    requires |lex| == |records| && (similarity.Some? ==> |similarity.value| == |records|)
    ensures IsPermutation(CatalogOrder(records, lex, similarity), |records|)
  {
    RelevanceRespectsScores(lex, if similarity.Some? then Some(Comparable(records, similarity.value)) else None, 0, 0);
  }

  lemma TopIsDistinct(order: seq<nat>, k: nat, n: nat)
    requires IsPermutation(order, n)
    ensures Distinct(Top(order, k)) && forall i: nat :: i in Top(order, k) ==> i < n
  {
    assert forall i: nat :: i in Top(order, k) ==> i in order;
  }

  lemma SelectionIsChosen(records: seq<Record>, top: seq<nat>, pinned: set<string>, selected: seq<nat>)
    requires Distinct(selected) && forall i: nat :: i in top ==> i < |records|
    requires forall i: nat :: i in selected <==> i in top || (i < |records| && Chosen(records, top, pinned, i))
    ensures SortBy((x: nat) => 0.0, selected) == ChosenIds(records, top, pinned, |records|)
    ensures forall i: nat :: i in ChosenIds(records, top, pinned, |records|) ==> i < |records|
    ensures |ChosenIds(records, top, pinned, |records|)| <= |records|
  {
    var flat := (x: nat) => 0.0;
    var sorted, ids := SortBy(flat, selected), ChosenIds(records, top, pinned, |records|);
    SortMeaning(flat, selected);
    ChosenIdsAre(records, top, pinned, |records|);
    SortedIsUnique(flat, sorted, ids);
  }

  /** Main result. What the gate shows is the catalog with some records left out: it keeps the
    * catalog's order, every record of the top K and every pinned one, and nothing else. */
  lemma GateKeepsTopAndPinned(records: seq<Record>, lex: seq<real>, similarity: Option<seq<real>>, topK: nat,
                              pinned: set<string>)
    requires |lex| == |records| && (similarity.Some? ==> |similarity.value| == |records|)
    ensures var order := CatalogOrder(records, lex, similarity);
            var ids := ChosenIds(records, Top(order, topK), pinned, |records|);
            && IsPermutation(order, |records|)
            && (forall p, q :: 0 <= p < q < |ids| ==> ids[p] < ids[q] < |records|)
            && (forall p :: 0 <= p < |order| && p < topK ==> order[p] in ids)
            && (forall i: nat :: i < |records| && records[i].id in pinned ==> i in ids)
            && (forall i: nat :: i in ids ==>
                  i < |records| && (records[i].id in pinned || exists p :: 0 <= p < |order| && p < topK && order[p] == i))
  {
    OrderIsPermutation(records, lex, similarity);
    var order := CatalogOrder(records, lex, similarity);
    var top := Top(order, topK);
    ChosenIdsAre(records, top, pinned, |records|);
    assert forall p :: 0 <= p < |order| && p < topK ==> top[p] == order[p] && order[p] in order;
  }
}

/** Sorting indices by falling score, ties by index: the order behind `sorted(range(n), key=...)` and
  * `ORDER BY urgency DESC, created_at`.
  */
module Sorting {
  import opened Options

  predicate Ahead(score: nat -> real, i: nat, j: nat) {
    score(i) > score(j) || (score(i) == score(j) && i < j)
  }

  function Insert(score: nat -> real, i: nat, sorted: seq<nat>): seq<nat> {
    if sorted == [] || Ahead(score, i, sorted[0]) then [i] + sorted
    else [sorted[0]] + Insert(score, i, sorted[1..])
  }

  function SortBy(score: nat -> real, ids: seq<nat>): seq<nat> {
    if ids == [] then [] else Insert(score, ids[0], SortBy(score, ids[1..]))
  }

  ghost predicate Sorted(score: nat -> real, ids: seq<nat>) {
    forall p, q :: 0 <= p < q < |ids| ==> Ahead(score, ids[p], ids[q])
  }

  ghost predicate SameMembers(a: seq<nat>, b: seq<nat>) {
    forall i: nat :: i in a <==> i in b
  }

  lemma {:induction false} InsertMeaning(score: nat -> real, i: nat, sorted: seq<nat>)
    requires Sorted(score, sorted) && i !in sorted
    ensures var r := Insert(score, i, sorted);
            Sorted(score, r) && |r| == |sorted| + 1 && forall j: nat :: j in r <==> j == i || j in sorted
  {
    if sorted != [] && !Ahead(score, i, sorted[0]) {
      assert sorted[0] in sorted;
      InsertMeaning(score, i, sorted[1..]);
      var tail := Insert(score, i, sorted[1..]);
      assert forall j: nat :: j in sorted[1..] ==> j in sorted;
      assert forall q :: 0 <= q < |tail| ==> tail[q] in tail;
      assert forall q :: 0 <= q < |sorted| - 1 ==> sorted[1..][q] == sorted[q + 1];
    } else if sorted != [] {
      assert forall q :: 0 <= q < |sorted| ==> Ahead(score, i, sorted[q]);
    }
  }

  lemma {:induction false} SortMeaning(score: nat -> real, ids: seq<nat>)
    requires Distinct(ids)
    ensures var r := SortBy(score, ids); Sorted(score, r) && |r| == |ids| && SameMembers(r, ids)
  {
    if ids != [] {
      SortMeaning(score, ids[1..]);
      assert ids[0] !in ids[1..];
      InsertMeaning(score, ids[0], SortBy(score, ids[1..]));
      assert ids == [ids[0]] + ids[1..];
    }
  }

  /** A set of ids has one sorted order. */
  lemma {:induction false} SortedIsUnique(score: nat -> real, a: seq<nat>, b: seq<nat>)
    requires Sorted(score, a) && Sorted(score, b) && SameMembers(a, b)
    ensures a == b
    decreases |a|
  {
    HasMember(a);
    HasMember(b);
    if a != [] {
      assert a[0] in b && b[0] in a;
      assert a[0] == b[0];
      forall i: nat ensures i in a[1..] <==> i in b[1..] {
        TailMembers(score, a, i);
        TailMembers(score, b, i);
      }
      SortedIsUnique(score, a[1..], b[1..]);
      assert a == [a[0]] + a[1..] && b == [b[0]] + b[1..];
    }
  }

  lemma HasMember(a: seq<nat>)
    ensures a != [] <==> exists i: nat :: i in a
  {
    assert a != [] ==> a[0] in a;
  }

  lemma TailMembers(score: nat -> real, a: seq<nat>, i: nat)
    requires Sorted(score, a) && a != []
    ensures i in a[1..] <==> i in a && i != a[0]
  {
    assert a == [a[0]] + a[1..];
    assert forall q :: 0 < q < |a| ==> Ahead(score, a[0], a[q]);
  }

  lemma {:induction false} SortsAlike(f: nat -> real, g: nat -> real, ids: seq<nat>)
    requires Distinct(ids) && forall i :: i in ids ==> f(i) == g(i)
    ensures SortBy(f, ids) == SortBy(g, ids)
  {
    SortMeaning(f, ids);
    SortMeaning(g, ids);
    var a := SortBy(f, ids);
    assert forall p :: 0 <= p < |a| ==> a[p] in a;
    SortedIsUnique(g, a, SortBy(g, ids));
  }

  // ── Ranges ──

  function UpTo(n: nat): (ids: seq<nat>)
    ensures |ids| == n && forall i :: 0 <= i < n ==> ids[i] == i
  {
    seq(n, i requires 0 <= i < n => i)
  }

  ghost predicate IsPermutation(order: seq<nat>, size: nat) {
    |order| == size && Distinct(order) && forall i: nat :: i in order <==> i < size
  }

  ghost predicate Precedes(order: seq<nat>, i: nat, j: nat) {
    exists p, q :: 0 <= p < q < |order| && order[p] == i && order[q] == j
  }

  lemma SortedIsDistinct(score: nat -> real, ids: seq<nat>)
    requires Sorted(score, ids)
    ensures Distinct(ids)
  {
    forall p, q | 0 <= p < q < |ids| ensures ids[p] != ids[q] {
      assert Ahead(score, ids[p], ids[q]);
    }
  }

  lemma RangeSorts(score: nat -> real, size: nat)
    ensures IsPermutation(SortBy(score, UpTo(size)), size) && Sorted(score, SortBy(score, UpTo(size)))
    ensures forall i: nat, j: nat :: i < size && j < size && Ahead(score, i, j)
                                     ==> Precedes(SortBy(score, UpTo(size)), i, j)
  {
    SortMeaning(score, UpTo(size));
    var order := SortBy(score, UpTo(size));
    SortedIsDistinct(score, order);
    assert forall p, q :: 0 <= q < p < |order| ==> Ahead(score, order[q], order[p]);
    forall i: nat ensures i in order <==> i < size {
      assert i < size ==> UpTo(size)[i] == i;
    }
    forall i: nat, j: nat | i < size && j < size && Ahead(score, i, j) ensures Precedes(order, i, j) {
      assert i in order && j in order;
      var p :| 0 <= p < |order| && order[p] == i;
      var q :| 0 <= q < |order| && order[q] == j;
    }
  }

  lemma {:induction false} MembersCard(ids: seq<nat>, members: set<nat>)
    requires Distinct(ids) && forall i: nat :: i in members <==> i in ids
    ensures |members| == |ids|
  {
    if ids == [] {
      assert members == {};
    } else {
      assert ids == [ids[0]] + ids[1..];
      MembersCard(ids[1..], members - {ids[0]});
    }
  }

  lemma PrefixHolds(ids: seq<nat>, p: nat, n: nat)
    requires Distinct(ids) && p < |ids| && n <= |ids|
    ensures ids[p] in ids[..n] <==> p < n
  {
    assert p < n ==> ids[..n][p] == ids[p];
  }

  /** In a sorted list an element has as many before it as its place says. */
  lemma PlaceIsCount(score: nat -> real, ids: seq<nat>, p: nat, before: set<nat>)
    requires Sorted(score, ids) && p < |ids|
    requires forall j: nat :: j in before <==> j in ids && Ahead(score, j, ids[p])
    ensures |before| == p
  {
    SortedIsDistinct(score, ids);
    forall j: nat ensures j in before <==> j in ids[..p] {
      if j in before {
        var q :| 0 <= q < |ids| && ids[q] == j;
        assert q < p ==> ids[..p][q] == j;
      }
      if j in ids[..p] {
        var q :| 0 <= q < p && ids[..p][q] == j;
        assert ids[q] == j;
      }
    }
    MembersCard(ids[..p], before);
  }

  /** The indices below `n` that satisfy `p`, in order. */
  function Where(n: nat, p: nat -> bool): seq<nat> {
    if n == 0 then [] else Where(n - 1, p) + (if p(n - 1) then [n - 1] else [])
  }

  lemma {:induction false} WhereIsExact(n: nat, p: nat -> bool)
    ensures Distinct(Where(n, p)) && forall i: nat :: i in Where(n, p) <==> i < n && p(i)
    ensures forall x, y :: 0 <= x < y < |Where(n, p)| ==> Where(n, p)[x] < Where(n, p)[y]
  {
    if n > 0 {
      WhereIsExact(n - 1, p);
      var before := Where(n - 1, p);
      assert forall x :: 0 <= x < |before| ==> before[x] in before;
    }
  }
}

/** The batched purge of the policy ledger (`backend/app/retention.py`) and what it leaves in effect. */
module Retention {
  import opened Options
  import opened PolicyLedger

  const BATCH: nat := 5000

  predicate SameLineage(a: Policy, b: Policy) {
    a.category == b.category && a.owner == b.owner
  }

  /** Older than the window, and not the newest row of its category and owner. */
  predicate Eligible(ledger: Ledger, p: Policy, cutoff: nat) {
    p.createdAt < cutoff && exists i :: 0 <= i < |ledger| && SameLineage(ledger[i], p) && ledger[i].id > p.id
  }

  function EligibleIds(ledger: Ledger, cutoff: nat): set<nat> {
    set i | 0 <= i < |ledger| && Eligible(ledger, ledger[i], cutoff) :: ledger[i].id
  }

  function Without(ledger: Ledger, ids: set<nat>): Ledger {
    if ledger == [] then []
    else
      var last := ledger[|ledger| - 1];
      Without(ledger[..|ledger| - 1], ids) + (if last.id in ids then [] else [last])
  }

  lemma {:induction false} WithoutIsExact(ledger: Ledger, ids: set<nat>)
    ensures forall p :: p in Without(ledger, ids) <==> p in ledger && p.id !in ids
    ensures |Without(ledger, ids)| <= |ledger|
  {
    if ledger != [] {
      var front, last := ledger[..|ledger| - 1], ledger[|ledger| - 1];
      WithoutIsExact(front, ids);
      assert ledger == front + [last];
    }
  }

  lemma {:induction false} WithoutStaysNumbered(ledger: Ledger, ids: set<nat>)
    requires Numbered(ledger)
    ensures Numbered(Without(ledger, ids))
  {
    if ledger != [] {
      var front, last := ledger[..|ledger| - 1], ledger[|ledger| - 1];
      WithoutStaysNumbered(front, ids);
      WithoutIsExact(front, ids);
      var kept := Without(front, ids);
      forall i | 0 <= i < |kept| ensures kept[i].id < last.id {
        assert kept[i] in kept && kept[i] in front;
      }
    }
  }

  lemma {:induction false} WithoutTwice(ledger: Ledger, a: set<nat>, b: set<nat>)
    ensures Without(Without(ledger, a), b) == Without(ledger, a + b)
  {
    if ledger != [] {
      var front, last := ledger[..|ledger| - 1], ledger[|ledger| - 1];
      WithoutTwice(front, a, b);
      var kept := Without(front, a);
      if last.id !in a {
        assert (kept + [last])[..|kept| + 1 - 1] == kept;
      } else {
        assert kept + [] == kept;
      }
    }
  }

  lemma {:induction false} WithoutNothing(ledger: Ledger)
    ensures Without(ledger, {}) == ledger
  {
    if ledger != [] {
      WithoutNothing(ledger[..|ledger| - 1]);
    }
  }

  /** Every lineage has a newest row, and it is not eligible. */
  lemma {:induction false} NewestOfLineage(ledger: Ledger, p: Policy) returns (top: Policy)
    requires p in ledger
    ensures top in ledger && SameLineage(top, p) && top.id >= p.id
    ensures forall q :: q in ledger && SameLineage(q, p) ==> q.id <= top.id
  {
    var front, last := ledger[..|ledger| - 1], ledger[|ledger| - 1];
    assert ledger == front + [last];
    if p in front {
      var t := NewestOfLineage(front, p);
      top := if SameLineage(last, p) && last.id > t.id then last else t;
    } else if exists q :: q in front && SameLineage(q, p) {
      var q :| q in front && SameLineage(q, p);
      var t := NewestOfLineage(front, q);
      top := if last.id > t.id then last else t;
    } else {
      top := p;
    }
  }

  ghost predicate IsEligible(ledger: Ledger, cutoff: nat, id: nat) {
    exists p, q :: p in ledger && p.id == id && p.createdAt < cutoff && q in ledger && SameLineage(q, p) && q.id > p.id
  }

  lemma EligibleMeans(ledger: Ledger, cutoff: nat, id: nat)
    ensures id in EligibleIds(ledger, cutoff) <==> IsEligible(ledger, cutoff, id)
  {
    if id in EligibleIds(ledger, cutoff) {
      var i :| 0 <= i < |ledger| && Eligible(ledger, ledger[i], cutoff) && ledger[i].id == id;
      var j :| 0 <= j < |ledger| && SameLineage(ledger[j], ledger[i]) && ledger[j].id > ledger[i].id;
      assert ledger[i] in ledger && ledger[j] in ledger;
    }
  }

  lemma StaysEligible(ledger: Ledger, cutoff: nat, gone: set<nat>, id: nat)
    requires Numbered(ledger) && gone <= EligibleIds(ledger, cutoff)
    requires IsEligible(ledger, cutoff, id) && id !in gone
    ensures IsEligible(Without(ledger, gone), cutoff, id)
  {
    hide EligibleIds, Numbered, Without;
    WithoutIsExact(ledger, gone);
    var p, q :| p in ledger && p.id == id && p.createdAt < cutoff && q in ledger && SameLineage(q, p) && q.id > p.id;
    var top := NewestOfLineage(ledger, q);
    NewestIsKept(ledger, cutoff, top);
    assert p in Without(ledger, gone) && top in Without(ledger, gone) && SameLineage(top, p);
  }

  /** Deleting eligible rows makes no other row eligible and leaves the rest of them eligible. */
  lemma EligibilityIsStable(ledger: Ledger, cutoff: nat, gone: set<nat>)
    requires Numbered(ledger) && gone <= EligibleIds(ledger, cutoff)
    ensures EligibleIds(Without(ledger, gone), cutoff) == EligibleIds(ledger, cutoff) - gone
  {
    hide EligibleIds, Numbered, Without;
    forall id: nat
      ensures id in EligibleIds(Without(ledger, gone), cutoff) <==> id in EligibleIds(ledger, cutoff) && id !in gone
    {
      EligibleMeans(ledger, cutoff, id);
      EligibleMeans(Without(ledger, gone), cutoff, id);
      WithoutIsExact(ledger, gone);
      if IsEligible(ledger, cutoff, id) && id !in gone {
        StaysEligible(ledger, cutoff, gone, id);
      }
    }
  }

  lemma NewestIsKept(ledger: Ledger, cutoff: nat, top: Policy)
    requires Numbered(ledger) && top in ledger
    requires forall q :: q in ledger && SameLineage(q, top) ==> q.id <= top.id
    ensures top.id !in EligibleIds(ledger, cutoff)
  {
    EligibleMeans(ledger, cutoff, top.id);
    forall p | p in ledger && p.id == top.id ensures p == top {
      SameIdSameRow(ledger, p, top);
    }
  }

  lemma SameIdSameRow(ledger: Ledger, a: Policy, b: Policy)
    requires Numbered(ledger) && a in ledger && b in ledger && a.id == b.id
    ensures a == b
  {
    var i :| 0 <= i < |ledger| && ledger[i] == a;
    var j :| 0 <= j < |ledger| && ledger[j] == b;
  }

  lemma {:induction false} SubsetOfSize(s: set<nat>, n: nat) returns (r: set<nat>)
    requires n <= |s|
    ensures r <= s && |r| == n
  {
    if n == 0 {
      r := {};
    } else {
      var x :| x in s;
      var rest := SubsetOfSize(s - {x}, n - 1);
      r := rest + {x};
    }
  }

  class PolicyTable {
    var ledger: Ledger

    constructor (rows: Ledger)
      ensures ledger == rows
    {
      ledger := rows;
    }

    /** Each batch is any `BATCH` eligible rows, or all of them when there are fewer. */
    method Purge(gateOpen: bool, cutoff: nat) returns (deleted: nat)
      requires Numbered(ledger)
      modifies this
      ensures !gateOpen ==> deleted == 0 && ledger == old(ledger)
      ensures gateOpen ==> deleted == |EligibleIds(old(ledger), cutoff)|
                           && ledger == Without(old(ledger), EligibleIds(old(ledger), cutoff))
    {
      hide EligibleIds, Without, Numbered;
      if !gateOpen {
        return 0;
      }
      ghost var all := EligibleIds(ledger, cutoff);
      ghost var gone: set<nat> := {};
      deleted := 0;
      WithoutNothing(ledger);
      while true
        invariant gone <= all && deleted == |gone| && ledger == Without(old(ledger), gone)
        decreases |all - gone|
      {
        EligibilityIsStable(old(ledger), cutoff, gone);
        var eligible := EligibleIds(ledger, cutoff);
        if eligible == {} {
          assert gone == all;
          break;
        }
        var n := if |eligible| < BATCH then |eligible| else BATCH;
        ghost var _ := SubsetOfSize(eligible, n);
        var ids :| ids <= eligible && |ids| == n;
        WithoutTwice(old(ledger), gone, ids);
        Grow(all, gone, ids);
        ledger := Without(ledger, ids);
        deleted := deleted + |ids|;
        gone := gone + ids;
        if |ids| < BATCH {
          Whole(eligible, ids);
          assert gone == all;
          break;
        }
      }
    }
  }

  lemma Grow(all: set<nat>, gone: set<nat>, ids: set<nat>)
    requires gone <= all && ids <= all - gone && ids != {}
    ensures |gone + ids| == |gone| + |ids| && gone + ids <= all && |all - (gone + ids)| < |all - gone|
  {
    assert all - gone == (all - (gone + ids)) + ids;
  }

  lemma Whole(s: set<nat>, part: set<nat>)
    requires part <= s && |part| == |s|
    ensures part == s
  {
    assert s == part + (s - part);
  }

  // ── What stays in effect ──

  function Purged(ledger: Ledger, cutoff: nat): Ledger {
    Without(ledger, EligibleIds(ledger, cutoff))
  }

  function NewestRow(ledger: Ledger, p: Policy -> bool): Option<Policy> {
    var r := Newest(ledger, p);
    if r.Some? then Some(ledger[r.value]) else None
  }

  lemma NewestRowIs(ledger: Ledger, p: Policy -> bool)
    requires Numbered(ledger)
    ensures match NewestRow(ledger, p)
            case Some(r) => r in ledger && p(r) && forall q :: q in ledger && p(q) ==> q.id <= r.id
            case None => forall q :: q in ledger ==> !p(q)
  {
    var r := Newest(ledger, p);
    forall q | q in ledger && p(q) ensures r.Some? && q.id <= ledger[r.value].id {
      var i :| 0 <= i < |ledger| && ledger[i] == q;
    }
  }

  /** The newest row accepted by `p` survives a deletion that spares it. */
  lemma NewestSurvives(ledger: Ledger, ids: set<nat>, p: Policy -> bool)
    requires Numbered(ledger)
    ensures NewestRow(ledger, p) == NewestRow(Without(ledger, ids), p)
            <==> NewestRow(ledger, p).None? || NewestRow(ledger, p).value.id !in ids
  {
    hide NewestRow, Without, Numbered;
    var rest := Without(ledger, ids);
    WithoutIsExact(ledger, ids);
    WithoutStaysNumbered(ledger, ids);
    NewestRowIs(ledger, p);
    NewestRowIs(rest, p);
    if NewestRow(ledger, p).Some? && NewestRow(rest, p).Some? && NewestRow(ledger, p).value.id !in ids {
      SameIdSameRow(ledger, NewestRow(ledger, p).value, NewestRow(rest, p).value);
    }
  }

  /** Main result. A purge leaves the policy of a category and owner as it was exactly when the row in
    * effect is inside the window or has no proposal, open or rejected, newer than it in its lineage. */
  lemma PurgeKeepsPolicyExactly(ledger: Ledger, cutoff: nat, category: string, owner: Option<nat>)
    requires Numbered(ledger)
    ensures var r := RowInEffect(ledger, category, owner);
            RowInEffect(Purged(ledger, cutoff), category, owner) == r <==>
            || r.None? || r.value.createdAt >= cutoff
            || forall q :: q in ledger && SameLineage(q, r.value) && q.id > r.value.id ==> !Inert(q)
  {
    hide Newest, Without, EligibleIds, Numbered;
    var ids := EligibleIds(ledger, cutoff);
    var own, global := (p: Policy) => Applies(p, category, owner), (p: Policy) => Applies(p, category, None);
    NewestSurvives(ledger, ids, own);
    NewestSurvives(ledger, ids, global);
    NewestRowIs(ledger, own);
    NewestRowIs(ledger, global);
    WithoutIsExact(ledger, ids);
    WithoutStaysNumbered(ledger, ids);
    NewestRowIs(Without(ledger, ids), own);
    NewestRowIs(Without(ledger, ids), global);
    var r := RowInEffect(ledger, category, owner);
    if r.Some? {
      EligibleMeans(ledger, cutoff, r.value.id);
      forall p | p in ledger && p.id == r.value.id ensures p == r.value {
        SameIdSameRow(ledger, p, r.value);
      }
    }
  }

  /** Main result. Whatever else it deletes, a purge keeps the newest row of every category, so the
    * digest anchor survives. */
  lemma AnchorSurvives(ledger: Ledger, cutoff: nat, category: string)
    requires Numbered(ledger)
    ensures NewestRow(Purged(ledger, cutoff), (p: Policy) => p.category == category)
            == NewestRow(ledger, (p: Policy) => p.category == category)
  {
    hide Newest, Without, EligibleIds, Numbered;
    var mine := (p: Policy) => p.category == category;
    NewestSurvives(ledger, EligibleIds(ledger, cutoff), mine);
    NewestRowIs(ledger, mine);
    if NewestRow(ledger, mine).Some? {
      NewestIsKept(ledger, cutoff, NewestRow(ledger, mine).value);
    }
  }

  /** Rows are dated in the order they were written. */
  ghost predicate Dated(ledger: Ledger) {
    forall p, q :: p in ledger && q in ledger && p.id < q.id ==> p.createdAt <= q.createdAt
  }

  /** Inside the window, or the newest row of its lineage, proposals included. */
  ghost predicate Survives(ledger: Ledger, r: Policy, cutoff: nat) {
    r.createdAt >= cutoff || forall q :: q in ledger && SameLineage(q, r) ==> q.id <= r.id
  }

  /** The newest applied row of one lineage, if it survives. */
  ghost function Survivor(ledger: Ledger, cutoff: nat, category: string, owner: Option<nat>): Option<Policy> {
    var r := NewestRow(ledger, (p: Policy) => Applies(p, category, owner));
    if r.Some? && Survives(ledger, r.value, cutoff) then r else None
  }

  /** An older applied row never outlives a newer one of its lineage. */
  lemma LineageAfterPurge(ledger: Ledger, cutoff: nat, category: string, owner: Option<nat>)
    requires Numbered(ledger) && Dated(ledger)
    ensures NewestRow(Purged(ledger, cutoff), (p: Policy) => Applies(p, category, owner))
            == Survivor(ledger, cutoff, category, owner)
  {
    hide Newest, Without, EligibleIds, Numbered;
    var own := (p: Policy) => Applies(p, category, owner);
    var ids := EligibleIds(ledger, cutoff);
    NewestSurvives(ledger, ids, own);
    NewestRowIs(ledger, own);
    WithoutIsExact(ledger, ids);
    WithoutStaysNumbered(ledger, ids);
    NewestRowIs(Without(ledger, ids), own);
    var r, left := NewestRow(ledger, own), NewestRow(Purged(ledger, cutoff), own);
    if r.Some? {
      EligibleMeans(ledger, cutoff, r.value.id);
      forall p | p in ledger && p.id == r.value.id ensures p == r.value {
        SameIdSameRow(ledger, p, r.value);
      }
      if left.Some? {
        EligibleMeans(ledger, cutoff, left.value.id);
        forall p | p in ledger && p.id == left.value.id ensures p == left.value {
          SameIdSameRow(ledger, p, left.value);
        }
      }
    }
  }

  /** Main result. What a purge leaves in effect: the owner's newest applied row if it survives, else the
    * newest applied global one if that survives, else nothing, and the category falls back to the tiers its
    * rows are declared with. Where a newer open or rejected proposal lets an applied row go, the applied
    * rows before it are gone as well. */
  lemma PolicyAfterPurge(ledger: Ledger, cutoff: nat, category: string, owner: Option<nat>)
    requires Numbered(ledger) && Dated(ledger)
    ensures var own, global := Survivor(ledger, cutoff, category, owner), Survivor(ledger, cutoff, category, None);
            var r := if own.Some? then own else global;
            && RowInEffect(Purged(ledger, cutoff), category, owner) == r
            && Override(Purged(ledger, cutoff), category, owner) == (if r.Some? then r.value.override else None)
  {
    hide Newest, Without, EligibleIds, Numbered, Survivor;
    LineageAfterPurge(ledger, cutoff, category, owner);
    LineageAfterPurge(ledger, cutoff, category, None);
  }

  /** How a purge can undo a demotion: an old applied row under a newer open proposal is deleted, and the
    * category falls back to the tier its rows are declared with. */
  lemma OpenProposalCostsThePolicy(category: string, cutoff: nat)
    requires cutoff > 0
    ensures var applied := Policy(0, category, None, Some(3), ByLearner, [], 0);
            var ledger := [applied, Policy(1, category, None, Some(2), Proposal, [], cutoff)];
            && Override(ledger, category, None) == Some(3)
            && Override(Purged(ledger, cutoff), category, None) == None
  {
    var applied := Policy(0, category, None, Some(3), ByLearner, [], 0);
    var proposal := Policy(1, category, None, Some(2), Proposal, [], cutoff);
    var ledger := [applied, proposal];
    assert Last(ledger, 1)[0] == proposal && ledger[..1] == [applied] && Last([applied], 1)[0] == applied;
    assert RowInEffect(ledger, category, None) == Some(applied);
    assert NewestRow(ledger, (p: Policy) => Applies(p, category, None)) == Some(applied);
    PolicyAfterPurge(ledger, cutoff, category, None);
    assert proposal in ledger && SameLineage(proposal, applied);
  }
}

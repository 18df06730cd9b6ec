/** The append-only policy ledger and the override in effect
  * (`backend/app/ambient/deliver.py`, `backend/app/models/ambient.py`).
  */
module PolicyLedger {
  import opened Options

  datatype Source = ByRule | ByLearner | ByUser | Proposal | Rejected

  /** A ledger row. `note` holds the numbers the reason text carries: digest slots in minutes,
    * or a proposed threshold. */
  datatype Policy = Policy(id: nat, category: string, owner: Option<nat>, override: Option<int>, source: Source,
                           note: seq<nat>, createdAt: nat)

  /** The ledger in creation order; ids grow along it. */
  type Ledger = seq<Policy>

  ghost predicate Numbered(ledger: Ledger) {
    forall i, j :: 0 <= i < j < |ledger| ==> ledger[i].id < ledger[j].id
  }

  predicate Inert(p: Policy) {
    p.source == Proposal || p.source == Rejected
  }

  predicate Applies(p: Policy, category: string, owner: Option<nat>) {
    p.category == category && !Inert(p) && p.owner == owner
  }

  /** The newest row that `p` accepts. */
  function Newest(ledger: Ledger, p: Policy -> bool): (r: Option<nat>)
    ensures r.Some? ==> r.value < |ledger| && p(ledger[r.value])
                        && forall i :: r.value < i < |ledger| ==> !p(ledger[i])
    ensures r.None? ==> forall i :: 0 <= i < |ledger| ==> !p(ledger[i])
  {
    if ledger == [] then None
    else if p(Last(ledger, 1)[0]) then Some(|ledger| - 1)
    else Newest(ledger[..|ledger| - 1], p)
  }

  /** The row in effect: the newest applied row of the owner's own lineage, else of the global one. */
  function InEffect(ledger: Ledger, category: string, owner: Option<nat>): (r: Option<nat>)
    ensures r.Some? ==> r.value < |ledger|
  {
    var own := Newest(ledger, (p: Policy) => Applies(p, category, owner));
    if own.Some? then own else Newest(ledger, (p: Policy) => Applies(p, category, None))
  }

  function RowInEffect(ledger: Ledger, category: string, owner: Option<nat>): Option<Policy> {
    var r := InEffect(ledger, category, owner);
    if r.Some? then Some(ledger[r.value]) else None
  }

  function Override(ledger: Ledger, category: string, owner: Option<nat>): Option<int> {
    var r := InEffect(ledger, category, owner);
    if r.Some? then ledger[r.value].override else None
  }

  /** One query for both lineages, newest first; the first row of the owner wins. */
  method CurrentPolicy(ledger: Ledger, category: string, owner: Option<nat>)
    returns (override: Option<int>, id: Option<nat>)
    ensures id == InEffect(ledger, category, owner) && override == Override(ledger, category, owner)
  {
    var newest: Option<nat> := None;
    var i := |ledger|;
    while i > 0
      invariant 0 <= i <= |ledger|
      invariant forall j :: i <= j < |ledger| ==> !Applies(ledger[j], category, owner)
      invariant newest.None? ==> forall j :: i <= j < |ledger| ==> !Applies(ledger[j], category, None)
      invariant newest.Some? ==>
        && i <= newest.value < |ledger| && Applies(ledger[newest.value], category, None)
        && forall j :: newest.value < j < |ledger| ==> !Applies(ledger[j], category, None)
    {
      i := i - 1;
      var row := ledger[i];
      if row.category == category && !Inert(row) && (row.owner == owner || row.owner.None?) {
        if row.owner == owner {
          return row.override, Some(i);
        }
        if newest.None? {
          newest := Some(i);
        }
      }
    }
    id := newest;
    override := if newest.Some? then ledger[newest.value].override else None;
  }

  /** Main result. The one-click revert appends a clearing row without an owner. It takes effect for
    * an owner exactly when that owner has no applied row of their own in the category. */
  lemma RevertClearsExactly(ledger: Ledger, category: string, owner: Option<nat>, id: nat, at: nat)
    ensures var reverted := ledger + [Policy(id, category, None, None, ByUser, [], at)];
            var own := Newest(ledger, (p: Policy) => Applies(p, category, owner));
            && (owner.None? || own.None? ==> Override(reverted, category, owner) == None)
            && (owner.Some? && own.Some? ==> Override(reverted, category, owner) == ledger[own.value].override)
  {
    var clear := Policy(id, category, None, None, ByUser, [], at);
    var reverted := ledger + [clear];
    assert reverted[..|reverted| - 1] == ledger && Last(reverted, 1)[0] == clear;
    assert Applies(clear, category, None);
  }

  /** Proposals and rejected proposals never change what is in effect. */
  lemma ProposalsAreInert(ledger: Ledger, p: Policy, category: string, owner: Option<nat>)
    requires Inert(p)
    ensures InEffect(ledger + [p], category, owner) == InEffect(ledger, category, owner)
  {
    var longer := ledger + [p];
    assert longer[..|longer| - 1] == ledger && Last(longer, 1)[0] == p;
  }
}

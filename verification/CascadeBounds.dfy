/** How large a cascade can get: the fan-out bound of the pattern rules and the depth guard of the
  * event store, put together. */
module CascadeBounds {
  import opened Options
  import opened EventStoreModel
  import opened PatternsModel
  import Runs = PatternRuns

  /** The direct effects of the events in `causes`. */
  ghost function ChildrenOf(events: seq<Event>, causes: set<nat>): set<nat> {
    set id: nat | id < |events| && events[id].parent.Some? && events[id].parent.value in causes
  }

  ghost function Level(events: seq<Event>, causes: set<nat>, depth: nat): set<nat> {
    if depth == 0 then causes else ChildrenOf(events, Level(events, causes, depth - 1))
  }

  /** Everything an event led to, directly or not. */
  ghost function Descendants(events: seq<Event>, e: nat): set<nat>
    requires Causal(events)
  {
    set id: nat | id < |events| && id != e && e in Chain(events, id)
  }

  ghost function Roots(events: seq<Event>): set<nat> {
    set id: nat | id < |events| && events[id].parent.None?
  }

  ghost predicate FanOut(events: seq<Event>, n: nat) {
    forall e: nat :: |ChildrenOf(events, {e})| <= n
  }

  lemma {:induction false} InjectionBound(ids: set<nat>, f: map<nat, nat>, n: nat)
    requires forall id :: id in ids ==> id in f && f[id] < n
    requires forall i, j :: i in ids && j in ids && f[i] == f[j] ==> i == j
    ensures |ids| <= n
  {
    if n == 0 {
      assert forall id :: id !in ids;
      assert ids == {};
    } else if exists id :: id in ids && f[id] == n - 1 {
      var id :| id in ids && f[id] == n - 1;
      InjectionBound(ids - {id}, f, n - 1);
    } else {
      InjectionBound(ids, f, n - 1);
    }
  }

  /** One derived event per rule, so no event has more children than there are rules. */
  lemma RulesBoundFanOut(cfg: Runs.Config, rules: seq<Rule>, s: Runs.Sys)
    requires Runs.Inv(cfg, rules, s)
    ensures FanOut(s.w.store.events, |rules|)
  {
    hide Runs.RuleInv, Runs.Logged, Runs.Ready;
    var events := s.w.store.events;
    forall e: nat ensures |ChildrenOf(events, {e})| <= |rules| {
      var ids := ChildrenOf(events, {e});
      forall i, j | i in ids && j in ids
        ensures events[i].draft.rule.Some? && events[i].draft.rule.value < |rules|
        ensures events[i].draft.rule == events[j].draft.rule ==> i == j
      {
        Runs.OneChildPerRule(cfg, rules, s, i, j);
      }
      InjectionBound(ids, map id | id in ids :: events[id].draft.rule.value, |rules|);
    }
  }

  lemma {:induction false} ChildrenBound(events: seq<Event>, causes: set<nat>, n: nat)
    requires FanOut(events, n)
    ensures |ChildrenOf(events, causes)| <= n * |causes|
  {
    if causes == {} {
      assert ChildrenOf(events, causes) == {};
    } else {
      var c :| c in causes;
      var rest := causes - {c};
      ChildrenBound(events, rest, n);
      assert ChildrenOf(events, causes) == ChildrenOf(events, rest) + ChildrenOf(events, {c});
      assert n * |causes| == n * |rest| + n;
    }
  }

  lemma LevelBounds(events: seq<Event>, causes: set<nat>, n: nat)
    requires FanOut(events, n)
    ensures |Level(events, causes, 1)| <= n * |causes|
    ensures |Level(events, causes, 2)| <= n * |Level(events, causes, 1)|
    ensures |Level(events, causes, 3)| <= n * |Level(events, causes, 2)|
  {
    ChildrenBound(events, causes, n);
    ChildrenBound(events, Level(events, causes, 1), n);
    ChildrenBound(events, Level(events, causes, 2), n);
  }

  /** One, two and three levels of `n` children each. */
  function CascadeSize(n: nat): nat {
    n + n * n + n * n * n
  }

  lemma ThreeLevels(n: nat, m: nat, l1: nat, l2: nat, l3: nat)
    requires l1 <= n * m && l2 <= n * l1 && l3 <= n * l2
    ensures l1 + l2 + l3 <= CascadeSize(n) * m
  {
    Scale(n, l1, n * m);
    Scale(n, l2, n * (n * m));
    assert n * (n * m) == (n * n) * m;
    assert n * ((n * n) * m) == (n * n * n) * m;
  }

  lemma Scale(n: nat, a: nat, b: nat)
    requires a <= b
    ensures n * a <= n * b
  {}

  lemma {:induction false} ChainIsLevel(events: seq<Event>, causes: set<nat>, id: nat, k: nat)
    requires Causal(events) && id < |events| && k < |Chain(events, id)| && Chain(events, id)[k] in causes
    ensures id in Level(events, causes, k)
    decreases k
  {
    assert CausalAt(events, id);
    if k > 0 {
      ChainIsLevel(events, causes, events[id].parent.value, k - 1);
    }
  }

  lemma UnionBound(a: set<nat>, b: set<nat>, c: set<nat>, all: set<nat>)
    requires all <= a + b + c
    ensures |all| <= |a| + |b| + |c|
  {
    SubsetIsSmaller(all, a + b + c);
  }

  /** Main result. With `n` pattern rules, no event, however the run went on, is ever the cause, direct or
    * not, of more than n + n*n + n*n*n others: one child per rule, and the depth guard leaves three levels
    * below it. Deletions included. */
  lemma CascadeIsBounded(cfg: Runs.Config, rules: seq<Rule>, acts: seq<Runs.Action>, e: nat)
    requires Runs.CanRun(cfg, rules, Runs.Start(cfg, rules), acts)
    requires e < |Runs.RunFrom(cfg, rules, Runs.Start(cfg, rules), acts).w.store.events|
    ensures |Descendants(Runs.RunFrom(cfg, rules, Runs.Start(cfg, rules), acts).w.store.events, e)| <= CascadeSize(|rules|)
  {
    hide Runs.RuleInv, Runs.Logged, FanOut, CascadeSize, Descendants, Causal;
    var s := Runs.RunFrom(cfg, rules, Runs.Start(cfg, rules), acts);
    RulesBoundFanOut(cfg, rules, s);
    DescendantsBound(s.w.store.events, e, |rules|);
  }

  lemma DescendantsBound(events: seq<Event>, e: nat, n: nat)
    requires Causal(events) && FanOut(events, n)
    ensures |Descendants(events, e)| <= CascadeSize(n)
  {
    hide Level, FanOut, CascadeSize, Causal, Descendants;
    var l1, l2, l3 := Level(events, {e}, 1), Level(events, {e}, 2), Level(events, {e}, 3);
    forall id | id in Descendants(events, e) ensures id in l1 + l2 + l3 {
      DescendantLevel(events, e, id);
    }
    UnionBound(l1, l2, l3, Descendants(events, e));
    LevelBounds(events, {e}, n);
    ThreeLevels(n, 1, |l1|, |l2|, |l3|);
  }

  lemma DescendantLevel(events: seq<Event>, e: nat, id: nat)
    requires Causal(events) && id in Descendants(events, e)
    ensures id in Level(events, {e}, 1) || id in Level(events, {e}, 2) || id in Level(events, {e}, 3)
  {
    ChainMeaning(events, id);
    var chain := Chain(events, id);
    var k :| 0 <= k < |chain| && chain[k] == e;
    ChainIsLevel(events, {e}, id, k);
  }

  // ── Draining a finite input ends ──

  function Count(acts: seq<Runs.Action>, external: bool): nat {
    if acts == [] then 0
    else (if (if external then acts[0].External? else acts[0].Process?) then 1 else 0) + Count(acts[1..], external)
  }

  /** Retention covers every absence rule. */
  ghost predicate AbsencesCovered(cfg: Runs.Config, rules: seq<Rule>) {
    forall k :: 0 <= k < |rules| && rules[k].kind.Absence? ==> Runs.Covered(cfg, rules[k])
  }

  /** Everything appended on the way from `w` to `t` names a cause. */
  ghost predicate OnlyDerived(w: World, t: World) {
    && w.store.events <= t.store.events
    && forall id :: |w.store.events| <= id < |t.store.events| ==> t.store.events[id].parent.Some?
  }

  lemma {:induction false} AdvanceOnlyDerives(w: World, rules: seq<Rule>, k: nat, e: nat, now: nat, seen: nat)
    requires k <= |rules| && Causal(w.store.events) && e < |w.store.events|
    ensures OnlyDerived(w, Advance(w, rules, k, e, now, seen))
    decreases |rules| - k
  {
    if k < |rules| {
      assert OnlyDerived(w, AdvanceRule(w, rules, k, e, now, seen));
      AdvanceOnlyDerives(AdvanceRule(w, rules, k, e, now, seen), rules, k + 1, e, now, seen);
    }
  }

  /** An absence that is due still finds the event behind it. */
  ghost predicate CauseKept(w: World, rules: seq<Rule>, i: nat) {
    i < |w.instances| && (w.instances[i].rule < |rules| && rules[w.instances[i].rule].kind.Absence? ==> Kept(w, i))
  }

  lemma {:induction false} ExpireAllOnlyDerives(w: World, rules: seq<Rule>, due: seq<nat>, now: nat, seen: nat)
    requires Causal(w.store.events) && forall i :: i in due ==> CauseKept(w, rules, i)
    ensures (forall i :: i in due ==> i < |w.instances|) && OnlyDerived(w, ExpireAll(w, rules, due, now, seen))
    decreases |due|
  {
    if due != [] {
      assert due[0] in due && forall i :: i in due[1..] ==> i in due;
      var t := ExpireOne(w, rules, due[0], now, seen);
      assert OnlyDerived(w, t);
      forall i | i in due[1..] ensures CauseKept(t, rules, i) {
        assert CauseKept(w, rules, i);
      }
      ExpireAllOnlyDerives(t, rules, due[1..], now, seen);
    }
  }

  lemma SweepOnlyDerives(cfg: Runs.Config, rules: seq<Rule>, s: Runs.Sys, now: nat)
    requires Runs.Inv(cfg, rules, s) && AbsencesCovered(cfg, rules) && s.lastSweep <= now
    ensures OnlyDerived(s.w, Sweep(s.w, rules, now, |s.processed|))
  {
    hide ExpireAll, Runs.RuleInv, Runs.TimeInv, Runs.Logged;
    var marked := s.w.(instances := AllExpired(s.w.instances, now));
    var due := DueFrom(s.w.instances, now, 0);
    DueIsExact(s.w.instances, now, 0);
    forall i | i in due ensures CauseKept(marked, rules, i) {
      var k := s.w.instances[i].rule;
      if k < |rules| {
        Runs.MarkingKeepsTime(cfg, s.w, rules[k], k, now, s.lastSweep);
      }
    }
    ExpireAllOnlyDerives(marked, rules, due, now, |s.processed|);
  }

  lemma RootsOfStep(cfg: Runs.Config, rules: seq<Rule>, s: Runs.Sys, a: Runs.Action)
    requires Runs.Inv(cfg, rules, s) && Runs.Enabled(cfg, s, a) && AbsencesCovered(cfg, rules)
    ensures var t := Runs.Apply(rules, s, a);
            && |Roots(t.w.store.events)| <= |Roots(s.w.store.events)| + (if a.External? then 1 else 0)
            && |t.processed| == |s.processed| + (if a.Process? then 1 else 0)
  {
    hide Runs.RuleInv, Runs.TimeInv, AdvanceRule, Sweep, Guard;
    var t := Runs.Apply(rules, s, a);
    match a
    case External(_, _) =>
      SubsetIsSmaller(Roots(t.w.store.events), Roots(s.w.store.events) + {|s.w.store.events|});
    case Process(e, at) =>
      AdvanceOnlyDerives(s.w, rules, 0, e, at, |s.processed|);
      assert Roots(t.w.store.events) == Roots(s.w.store.events);
    case SweepTick(at) =>
      SweepOnlyDerives(cfg, rules, s, at);
      assert Roots(t.w.store.events) == Roots(s.w.store.events);
    case Delete(_, _) =>
      assert t.w.store.events == s.w.store.events;
  }

  lemma {:induction false} RootsOfRun(cfg: Runs.Config, rules: seq<Rule>, s: Runs.Sys, acts: seq<Runs.Action>)
    requires Runs.Inv(cfg, rules, s) && Runs.CanRun(cfg, rules, s, acts) && AbsencesCovered(cfg, rules)
    ensures var t := Runs.RunFrom(cfg, rules, s, acts);
            && |Roots(t.w.store.events)| <= |Roots(s.w.store.events)| + Count(acts, true)
            && |t.processed| == |s.processed| + Count(acts, false)
    decreases |acts|
  {
    hide Runs.RuleInv, Runs.TimeInv, Runs.Logged, Roots, AbsencesCovered;
    if acts != [] {
      Runs.StepKeepsInv(cfg, rules, s, acts[0]);
      RootsOfStep(cfg, rules, s, acts[0]);
      RootsOfRun(cfg, rules, Runs.Apply(rules, s, acts[0]), acts[1..]);
    }
  }

  lemma DistinctFits(ids: seq<nat>, n: nat)
    requires Distinct(ids) && forall i :: i in ids ==> i < n
    ensures |ids| <= n
  {
    var image: set<nat> := set i | 0 <= i < |ids| :: ids[i];
    DistinctCard(ids, image);
    assert forall i :: 0 <= i < |ids| ==> ids[i] in ids;
    assert image <= Ids(n);
    SubsetIsSmaller(image, Ids(n));
  }

  lemma {:induction false} DistinctCard(ids: seq<nat>, image: set<nat>)
    requires Distinct(ids) && image == set i | 0 <= i < |ids| :: ids[i]
    ensures |image| == |ids|
  {
    if ids != [] {
      var rest := ids[..|ids| - 1];
      DistinctCard(rest, set i | 0 <= i < |rest| :: rest[i]);
      assert image == (set i | 0 <= i < |rest| :: rest[i]) + {ids[|ids| - 1]};
    }
  }

  lemma InSomeLevel(events: seq<Event>, id: nat)
    requires Causal(events) && id < |events|
    ensures var roots := Roots(events);
            id in roots || id in Level(events, roots, 1) || id in Level(events, roots, 2) || id in Level(events, roots, 3)
  {
    ChainMeaning(events, id);
    var chain := Chain(events, id);
    ChainIsLevel(events, Roots(events), id, |chain| - 1);
  }

  /** Every event is a root or within three levels of one. */
  lemma EventsBound(events: seq<Event>, n: nat)
    requires Causal(events) && FanOut(events, n)
    ensures |events| <= |Roots(events)| + CascadeSize(n) * |Roots(events)|
  {
    hide Level, FanOut, CascadeSize, Causal, Roots;
    var roots := Roots(events);
    var l1, l2, l3 := Level(events, roots, 1), Level(events, roots, 2), Level(events, roots, 3);
    forall id | id in Ids(|events|) ensures id in roots + l1 + l2 + l3 {
      InSomeLevel(events, id);
    }
    UnionBound(roots + l1, l2, l3, Ids(|events|));
    LevelBounds(events, roots, n);
    ThreeLevels(n, |roots|, |l1|, |l2|, |l3|);
  }

  lemma ProcessedBound(cfg: Runs.Config, rules: seq<Rule>, s: Runs.Sys)
    requires Runs.Inv(cfg, rules, s)
    ensures |s.processed| <= |Roots(s.w.store.events)| + CascadeSize(|rules|) * |Roots(s.w.store.events)|
  {
    hide Runs.RuleInv, Runs.Logged, FanOut, CascadeSize, Roots;
    RulesBoundFanOut(cfg, rules, s);
    EventsBound(s.w.store.events, |rules|);
    DistinctFits(s.processed, |s.w.store.events|);
  }

  /** Main result. The feedback loop ends where retention covers every absence rule: with `n` rules, a run
    * that takes in `m` external events processes at most m + (n + n*n + n*n*n) * m events in all, whatever
    * the order, the sweeps and the deletions. */
  lemma DrainingTerminates(cfg: Runs.Config, rules: seq<Rule>, acts: seq<Runs.Action>)
    requires Runs.CanRun(cfg, rules, Runs.Start(cfg, rules), acts) && AbsencesCovered(cfg, rules)
    ensures Count(acts, false) <= Count(acts, true) + CascadeSize(|rules|) * Count(acts, true)
  {
    hide Runs.Inv, CascadeSize, AbsencesCovered;
    var s := Runs.RunFrom(cfg, rules, Runs.Start(cfg, rules), acts);
    RootsOfRun(cfg, rules, Runs.Start(cfg, rules), acts);
    assert Roots(Runs.Start(cfg, rules).w.store.events) == {};
    ProcessedBound(cfg, rules, s);
    Scale(CascadeSize(|rules|), |Roots(s.w.store.events)|, Count(acts, true));
  }
}

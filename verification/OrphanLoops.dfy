/** Why draining needs retention to cover the absence rules: where it does not, one external event can
  * keep the engine busy for ever. */
module OrphanLoops {
  import opened Options
  import opened EventStoreModel
  import opened PatternsModel
  import Runs = PatternRuns
  import Bounds = CascadeBounds

  /** An absence rule that arms on every event, its own included, and that nothing ever answers. */
  function Echo(window: nat): Rule {
    Rule(Absence, (c: Content) => true, (c: Content) => false, (c: Content) => "", window, 0)
  }

  ghost predicate Reaches(cfg: Runs.Config, rules: seq<Rule>, s: Runs.Sys, acts: seq<Runs.Action>, t: Runs.Sys) {
    Runs.Inv(cfg, rules, s) && Runs.CanRun(cfg, rules, s, acts) && Runs.RunFrom(cfg, rules, s, acts) == t
  }

  lemma One(cfg: Runs.Config, rules: seq<Rule>, s: Runs.Sys, a: Runs.Action)
    requires Runs.Inv(cfg, rules, s) && Runs.Enabled(cfg, s, a)
    ensures Reaches(cfg, rules, s, [a], Runs.Apply(rules, s, a)) && Runs.Inv(cfg, rules, Runs.Apply(rules, s, a))
    ensures Bounds.Count([a], true) == (if a.External? then 1 else 0)
    ensures Bounds.Count([a], false) == (if a.Process? then 1 else 0)
  {
    hide Runs.RuleInv, Runs.TimeInv, Runs.Logged, Sweep, Advance, Emit;
    Runs.StepKeepsInv(cfg, rules, s, a);
    var t := Runs.Apply(rules, s, a);
    assert [a][1..] == [];
    assert Runs.CanRun(cfg, rules, t, []) && Runs.RunFrom(cfg, rules, t, []) == t;
    assert Runs.CanRun(cfg, rules, s, [a]);
  }

  lemma {:induction false} Join(cfg: Runs.Config, rules: seq<Rule>, s: Runs.Sys, a: seq<Runs.Action>, t: Runs.Sys,
                                b: seq<Runs.Action>, u: Runs.Sys)
    requires Reaches(cfg, rules, s, a, t) && Reaches(cfg, rules, t, b, u)
    ensures Reaches(cfg, rules, s, a + b, u)
    ensures Bounds.Count(a + b, true) == Bounds.Count(a, true) + Bounds.Count(b, true)
    ensures Bounds.Count(a + b, false) == Bounds.Count(a, false) + Bounds.Count(b, false)
    decreases |a|
  {
    hide Runs.RuleInv, Runs.TimeInv, Runs.Logged, Sweep, Advance, Emit;
    if a == [] {
      assert a + b == b;
    } else {
      assert (a + b)[1..] == a[1..] + b && (a + b)[0] == a[0];
      Runs.StepKeepsInv(cfg, rules, s, a[0]);
      Join(cfg, rules, Runs.Apply(rules, s, a[0]), a[1..], t, b, u);
    }
  }

  lemma IdleSweep(w: World, rules: seq<Rule>, at: nat, seen: nat)
    requires Causal(w.store.events) && forall i :: 0 <= i < |w.instances| ==> !IsDue(w.instances[i], at)
    ensures Sweep(w, rules, at, seen) == w
  {
    DueIsExact(w.instances, at, 0);
    var due := DueFrom(w.instances, at, 0);
    assert forall j :: 0 <= j < |due| ==> due[j] in due;
    assert AllExpired(w.instances, at) == w.instances;
  }

  /** Time passes, sweep by sweep, with nothing due. */
  lemma {:induction false} Wait(cfg: Runs.Config, rules: seq<Rule>, s: Runs.Sys, until: nat) returns (acts: seq<Runs.Action>)
    requires Runs.Inv(cfg, rules, s) && s.clock == s.lastSweep <= until && cfg.lag > 0
    requires forall i :: 0 <= i < |s.w.instances| ==> !IsDue(s.w.instances[i], until)
    ensures Reaches(cfg, rules, s, acts, s.(clock := until, lastSweep := until))
    ensures Runs.Inv(cfg, rules, s.(clock := until, lastSweep := until))
    ensures Bounds.Count(acts, true) == Bounds.Count(acts, false) == 0
    decreases until - s.lastSweep
  {
    hide Runs.RuleInv, Runs.TimeInv, Runs.Logged, Runs.Ready, Sweep;
    if s.lastSweep == until {
      acts := [];
    } else {
      var at := if s.lastSweep + cfg.lag < until then s.lastSweep + cfg.lag else until;
      assert Causal(s.w.store.events) by { ReadyIsCausal(cfg, rules, s); }
      IdleSweep(s.w, rules, at, |s.processed|);
      One(cfg, rules, s, Runs.SweepTick(at));
      var t := s.(clock := at, lastSweep := at);
      var rest := Wait(cfg, rules, t, until);
      Join(cfg, rules, s, [Runs.SweepTick(at)], t, rest, s.(clock := until, lastSweep := until));
      acts := [Runs.SweepTick(at)] + rest;
    }
  }

  lemma ReadyIsCausal(cfg: Runs.Config, rules: seq<Rule>, s: Runs.Sys)
    requires Runs.Inv(cfg, rules, s)
    ensures Causal(s.w.store.events)
  {}

  /** Between two rounds: the newest event has just arrived and waits, and nothing is armed. */
  ghost predicate Between(s: Runs.Sys) {
    && s.clock == s.lastSweep
    && var n := |s.w.store.events|;
    && n > 0 && n - 1 !in s.processed && s.w.store.events[n - 1].receivedAt == s.clock
    && (forall i :: 0 <= i < |s.w.instances| ==> s.w.instances[i].state != Armed)
  }

  /** Processing arms the rule on the waiting event. */
  lemma ProcessArms(window: nat, s: Runs.Sys, at: nat)
    requires Causal(s.w.store.events) && |s.w.store.events| > 0
    requires forall i :: 0 <= i < |s.w.instances| ==> s.w.instances[i].state != Armed
    ensures var id := |s.w.store.events| - 1;
            Runs.Apply([Echo(window)], s, Runs.Process(id, at))
            == s.(w := Arm(s.w, 0, "", id, at + window), processed := s.processed + [id], clock := at)
  {
    var rules, id := [Echo(window)], |s.w.store.events| - 1;
    var w := AdvanceRule(s.w, rules, 0, id, at, |s.processed|);
    assert w == Arm(s.w, 0, "", id, at + window);
    assert Advance(s.w, rules, 0, id, at, |s.processed|) == Advance(w, rules, 1, id, at, |s.processed|) == w;
  }

  /** The sweep of an instance whose event is gone derives an event without a cause. */
  lemma SweepOrphans(window: nat, s: Runs.Sys, at: nat)
    requires Causal(s.w.store.events) && s.w.instances != []
    requires var n := |s.w.instances|;
             && (forall i :: 0 <= i < n - 1 ==> s.w.instances[i].state != Armed)
             && s.w.instances[n - 1].rule == 0 && s.w.instances[n - 1].partition == ""
             && IsDue(s.w.instances[n - 1], at) && s.w.instances[n - 1].aEvent in s.w.store.purged
    requires forall key :: key in s.w.recent ==> s.w.recent[key] <= at
    ensures var t := Runs.Apply([Echo(window)], s, Runs.SweepTick(at));
            && t.clock == t.lastSweep == at && t.processed == s.processed
            && (forall i :: 0 <= i < |t.w.instances| ==> t.w.instances[i].state != Armed)
            && |t.w.store.events| == |s.w.store.events| + 1 && s.w.store.events <= t.w.store.events
            && t.w.store.events[|s.w.store.events|].receivedAt == at
  {
    var rules, last := [Echo(window)], |s.w.instances| - 1;
    var marked := s.w.(instances := AllExpired(s.w.instances, at));
    var due := DueFrom(s.w.instances, at, 0);
    DueIsExact(s.w.instances, at, 0);
    assert last in due && forall i: nat :: i in due ==> i == last;
    OnlyOne(due, last);
    assert Visible(marked.store, s.w.instances[last].aEvent).None?;
    var t := ExpireOne(marked, rules, last, at, |s.processed|);
    assert OutcomeOf(marked.store, DerivedDraft(0, "", "pattern_absence"), None, at, true).Emitted?;
    assert ExpireAll(marked, rules, due, at, |s.processed|) == t by {
      assert due[1..] == [];
    }
  }

  lemma OnlyOne(due: seq<nat>, i: nat)
    requires i in due && Distinct(due) && forall j: nat :: j in due ==> j == i
    ensures due == [i]
  {
    assert forall j :: 0 <= j < |due| ==> due[j] in due;
    assert due[0] == i && due[|due| - 1] == i;
  }

  /** One round: the event is processed, deleted before its absence expires, and the expiry leaves a new
    * event behind that nothing connects with it. */
  lemma Round(cfg: Runs.Config, window: nat, s: Runs.Sys) returns (acts: seq<Runs.Action>, t: Runs.Sys)
    requires Runs.Inv(cfg, [Echo(window)], s) && Between(s) && cfg.lag > 0 && !Runs.Covered(cfg, Echo(window))
    ensures Reaches(cfg, [Echo(window)], s, acts, t) && Runs.Inv(cfg, [Echo(window)], t) && Between(t)
    ensures Bounds.Count(acts, true) == 0 && Bounds.Count(acts, false) == 1
  {
    hide Runs.RuleInv, Runs.TimeInv, Runs.Logged, Sweep, Advance, Runs.CanRun, Runs.RunFrom, Emit;
    var rules, r, id := [Echo(window)], s.clock, |s.w.store.events| - 1;
    var span := Runs.Span(Echo(window));
    var a1 := Wait(cfg, rules, s, r + cfg.delay);
    var s1 := s.(clock := r + cfg.delay, lastSweep := r + cfg.delay);
    One(cfg, rules, s1, Runs.Process(id, r + cfg.delay));
    ProcessArms(window, s1, r + cfg.delay);
    var s2 := Runs.Apply(rules, s1, Runs.Process(id, r + cfg.delay));
    var a2 := [];
    if span == 1 {
      NoActs(cfg, rules, s2);
    } else {
      a2 := Wait(cfg, rules, s2, r + cfg.delay + span - 1);
    }
    var s3 := s2.(clock := r + cfg.delay + span - 1, lastSweep := r + cfg.delay + span - 1);
    var at := r + cfg.delay + span - 1 + cfg.lag;
    assert id in s3.processed by { assert s3.processed[|s.processed|] == id; }
    One(cfg, rules, s3, Runs.Delete(id, at));
    var s4 := Runs.Apply(rules, s3, Runs.Delete(id, at));
    One(cfg, rules, s4, Runs.SweepTick(at));
    SweepOrphans(window, s4, at);
    t := Runs.Apply(rules, s4, Runs.SweepTick(at));
    Join(cfg, rules, s, a1, s1, [Runs.Process(id, r + cfg.delay)], s2);
    Join(cfg, rules, s, a1 + [Runs.Process(id, r + cfg.delay)], s2, a2, s3);
    var a3 := a1 + [Runs.Process(id, r + cfg.delay)] + a2;
    Join(cfg, rules, s, a3, s3, [Runs.Delete(id, at)], s4);
    Join(cfg, rules, s, a3 + [Runs.Delete(id, at)], s4, [Runs.SweepTick(at)], t);
    acts := a3 + [Runs.Delete(id, at)] + [Runs.SweepTick(at)];
    NewestIsUnprocessed(cfg, rules, s4, t);
  }

  lemma NewestIsUnprocessed(cfg: Runs.Config, rules: seq<Rule>, s: Runs.Sys, t: Runs.Sys)
    requires Runs.Inv(cfg, rules, s) && t.processed == s.processed
    ensures |s.w.store.events| !in t.processed
  {}

  lemma {:induction false} Rounds(cfg: Runs.Config, window: nat, s: Runs.Sys, m: nat) returns (acts: seq<Runs.Action>, t: Runs.Sys)
    requires Runs.Inv(cfg, [Echo(window)], s) && Between(s) && cfg.lag > 0 && !Runs.Covered(cfg, Echo(window))
    ensures Reaches(cfg, [Echo(window)], s, acts, t)
    ensures Bounds.Count(acts, true) == 0 && Bounds.Count(acts, false) == m
    decreases m
  {
    hide Runs.Inv, Between, Runs.Covered, Runs.CanRun, Runs.RunFrom;
    if m == 0 {
      acts, t := [], s;
      NoActs(cfg, [Echo(window)], s);
    } else {
      var first, u := Round(cfg, window, s);
      var rest;
      rest, t := Rounds(cfg, window, u, m - 1);
      Join(cfg, [Echo(window)], s, first, u, rest, t);
      acts := first + rest;
    }
  }

  lemma NoActs(cfg: Runs.Config, rules: seq<Rule>, s: Runs.Sys)
    requires Runs.Inv(cfg, rules, s)
    ensures Reaches(cfg, rules, s, [], s)
  {}

  /** Main result. The condition is exact: for every retention window, delay and sweep lag that fail to
    * cover the echo rule, one external event is enough for runs that process as many events as you like. */
  lemma UncoveredAbsenceNeverEnds(cfg: Runs.Config, window: nat, m: nat) returns (acts: seq<Runs.Action>)
    requires cfg.lag > 0 && !Runs.Covered(cfg, Echo(window))
    ensures Runs.CanRun(cfg, [Echo(window)], Runs.Start(cfg, [Echo(window)]), acts)
    ensures Bounds.Count(acts, true) == 1 && Bounds.Count(acts, false) == m
  {
    var rules := [Echo(window)];
    var s0 := Runs.Start(cfg, rules);
    var draft := Draft(Content("k", "webhook", map[]), "", None, None);
    var a := Runs.External(draft, 0);
    assert OutcomeOf(s0.w.store, draft, None, 0, true).Emitted?;
    One(cfg, rules, s0, a);
    var s1 := Runs.Apply(rules, s0, a);
    assert Between(s1);
    hide Runs.Inv, Runs.Covered, Between, Runs.CanRun, Runs.RunFrom;
    var rest, t := Rounds(cfg, window, s1, m);
    Join(cfg, rules, s0, [a], s1, rest, t);
    acts := [a] + rest;
  }

  /** No run that takes in one external event processes more than `bound`. */
  ghost predicate EndsWithin(cfg: Runs.Config, rules: seq<Rule>, bound: nat) {
    forall acts :: Runs.CanRun(cfg, rules, Runs.Start(cfg, rules), acts) && Bounds.Count(acts, true) == 1
                   ==> Bounds.Count(acts, false) <= bound
  }

  /** Main result. Retention covering the rule is exactly what makes the echo of one event end. */
  lemma EchoEndsExactly(cfg: Runs.Config, window: nat)
    requires cfg.lag > 0
    ensures Runs.Covered(cfg, Echo(window)) <==> exists bound: nat :: EndsWithin(cfg, [Echo(window)], bound)
  {
    hide Runs.Covered, Runs.CanRun, Bounds.CascadeSize, Echo;
    var rules := [Echo(window)];
    if Runs.Covered(cfg, Echo(window)) {
      forall acts | Runs.CanRun(cfg, rules, Runs.Start(cfg, rules), acts) && Bounds.Count(acts, true) == 1
        ensures Bounds.Count(acts, false) <= 1 + Bounds.CascadeSize(1)
      {
        Bounds.DrainingTerminates(cfg, rules, acts);
      }
      assert EndsWithin(cfg, rules, 1 + Bounds.CascadeSize(1));
    } else {
      forall bound: nat ensures !EndsWithin(cfg, rules, bound) {
        var acts := UncoveredAbsenceNeverEnds(cfg, window, bound + 1);
        assert Runs.CanRun(cfg, rules, Runs.Start(cfg, rules), acts);
      }
    }
  }
}

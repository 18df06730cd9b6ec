/** When a conjunction matches without one of its sides: where retention deletes the event that armed it. */
module OneSidedMatches {
  import opened Options
  import opened EventStoreModel
  import opened PatternsModel
  import Runs = PatternRuns
  import Loops = OrphanLoops
  import opened PatternMatches

  /** A derived event of rule `k` whose two events satisfy the rule's A side, both, and its B side, neither. */
  ghost predicate OneSidedAt(w: World, rule: Rule, k: nat, x: nat) {
    && x < |w.log| && w.log[x].rule == k && w.log[x].instance < |w.instances|
    && w.log[x].event < |w.store.events| && w.store.events[w.log[x].event].parent == w.log[x].cause
    && w.log[x].cause.Some? && w.log[x].cause.value < |w.store.events|
    && var first, last := w.instances[w.log[x].instance].aEvent, w.log[x].cause.value;
    && first < |w.store.events| && first != last
    && rule.a(ContentOf(w, first)) && !rule.b(ContentOf(w, first))
    && rule.a(ContentOf(w, last)) && !rule.b(ContentOf(w, last))
  }

  ghost predicate OneSided(w: World, rule: Rule, k: nat) {
    exists x: nat :: OneSidedAt(w, rule, k, x)
  }

  /** Contents an event may have, that satisfy the A side and not the B side. */
  ghost predicate HasLoneA(rule: Rule) {
    exists c: Content :: c.source in EVENT_SOURCES && rule.a(c) && !rule.b(c)
  }

  /** The rule's match, if it is no match of both sides, is one of two A events after a deletion. */
  lemma NotBothSides(cfg: Runs.Config, rules: seq<Rule>, acts: seq<Runs.Action>, k: nat, x: nat)
    requires k < |rules| && rules[k].kind.Conjunction? && Runs.CanRun(cfg, rules, Runs.Start(cfg, rules), acts)
    requires var w := Runs.RunFrom(cfg, rules, Runs.Start(cfg, rules), acts).w; x < |w.log| && w.log[x].rule == k
    ensures var w := Runs.RunFrom(cfg, rules, Runs.Start(cfg, rules), acts).w;
            && w.log[x].instance < |w.instances| && w.instances[w.log[x].instance].aEvent < |w.store.events|
            && w.log[x].cause.Some? && w.log[x].cause.value < |w.store.events|
            && var first, last := ContentOf(w, w.instances[w.log[x].instance].aEvent), ContentOf(w, w.log[x].cause.value);
            && ((rules[k].a(first) && rules[k].b(last)) || (rules[k].b(first) && rules[k].a(last))
                <==> !OneSidedAt(w, rules[k], k, x))
            && (OneSidedAt(w, rules[k], k, x) ==> !w.log[x].kept && !Runs.Covered(cfg, rules[k]) && HasLoneA(rules[k]))
  {
    var s := Runs.RunFrom(cfg, rules, Runs.Start(cfg, rules), acts);
    assert Runs.RuleInv(s.w, rules[k], k, s.processed) && Runs.TimeInv(cfg, s.w, rules[k], k, s.lastSweep);
    assert Runs.EmissionOk(s.w, rules[k], s.processed, s.w.log[x]);
  }

  lemma {:induction false} WaitPrimed(cfg: Runs.Config, rules: seq<Rule>, s: Runs.Sys, until: nat, k: nat, i: nat, inst: Instance)
    returns (acts: seq<Runs.Action>, t: Runs.Sys)
    requires Runs.Inv(cfg, rules, s) && s.clock == s.lastSweep <= until && cfg.lag > 0
    requires Primed(s.w, k, i, inst) && until < inst.deadline
    ensures Loops.Reaches(cfg, rules, s, acts, t) && Runs.Inv(cfg, rules, t) && Primed(t.w, k, i, inst)
    ensures t.clock == t.lastSweep == until && t.processed == s.processed
    ensures s.w.store.events <= t.w.store.events && t.w.store.purged == s.w.store.purged
    decreases until - s.lastSweep
  {
    hide Runs.RuleInv, Runs.TimeInv, Runs.Logged, Sweep, Primed, Runs.Frame;
    if s.lastSweep == until {
      Loops.NoActs(cfg, rules, s);
      acts, t := [], s;
    } else {
      var at := if s.lastSweep + cfg.lag < until then s.lastSweep + cfg.lag else until;
      Loops.One(cfg, rules, s, Runs.SweepTick(at));
      var u := Runs.Apply(rules, s, Runs.SweepTick(at));
      SweepKeepsPrimed(s.w, rules, at, |s.processed|, k, i, inst);
      var rest;
      rest, t := WaitPrimed(cfg, rules, u, until, k, i, inst);
      Loops.Join(cfg, rules, s, [Runs.SweepTick(at)], u, rest, t);
      acts := [Runs.SweepTick(at)] + rest;
    }
  }

  lemma SweepKeepsPrimed(w: World, rules: seq<Rule>, at: nat, seen: nat, k: nat, i: nat, inst: Instance)
    requires Causal(w.store.events) && Primed(w, k, i, inst) && at < inst.deadline
    ensures Primed(Sweep(w, rules, at, seen), k, i, inst)
  {
    SweepFrames(w, rules, at, seen, k);
    FrameKeepsPrimed(w, Sweep(w, rules, at, seen), k, i, inst);
  }

  function DraftOf(c: Content): Draft {
    Draft(c, "", None, None)
  }

  /** The first event arrives, waits as long as it may, and arms the rule. */
  lemma ArmLate(cfg: Runs.Config, rules: seq<Rule>, k: nat, c: Content) returns (acts: seq<Runs.Action>, t: Runs.Sys, i: nat)
    requires k < |rules| && rules[k].kind.Conjunction? && rules[k].a(c) && c.source in EVENT_SOURCES && cfg.lag > 0
    ensures Loops.Reaches(cfg, rules, Runs.Start(cfg, rules), acts, t) && Runs.Inv(cfg, rules, t)
    ensures t.clock == t.lastSweep == cfg.delay && t.processed == [0] && t.w.store.purged == {}
    ensures |t.w.store.events| == 1 && t.w.store.events[0].receivedAt == 0 && ContentOf(t.w, 0) == c
    ensures Primed(t.w, k, i, ArmedOn(rules, k, c, 0, cfg.delay))
  {
    hide Runs.RuleInv, Runs.TimeInv, Runs.Logged, Sweep, Advance, Runs.CanRun, Runs.RunFrom;
    var s0 := Runs.Start(cfg, rules);
    var external := Runs.External(DraftOf(c), 0);
    Loops.One(cfg, rules, s0, external);
    var s1 := Runs.Apply(rules, s0, external);
    assert s1.w == World(Store([Event(DraftOf(c), None, 0, 0, 0)], {}), [], map[], []);
    var wait := Loops.Wait(cfg, rules, s1, cfg.delay);
    var s2 := s1.(clock := cfg.delay, lastSweep := cfg.delay);
    var process := Runs.Process(0, cfg.delay);
    Loops.One(cfg, rules, s2, process);
    t := Runs.Apply(rules, s2, process);
    FirstShow(s2.w, rules, 0, 0, cfg.delay, 0, k);
    i :| Primed(t.w, k, i, ArmedOn(rules, k, c, 0, cfg.delay));
    assert [] + [0] == [0];
    Loops.Join(cfg, rules, s0, [external], s1, wait, s2);
    Loops.Join(cfg, rules, s0, [external] + wait, s2, [process], t);
    acts := [external] + wait + [process];
  }

  /** The arming event is deleted just before the rule's window ends, and a second A event comes. */
  lemma DeleteAndRepeat(cfg: Runs.Config, rules: seq<Rule>, s: Runs.Sys, k: nat, i: nat, c: Content)
    returns (acts: seq<Runs.Action>, t: Runs.Sys)
    requires Runs.Inv(cfg, rules, s) && k < |rules| && rules[k].kind.Conjunction? && !Runs.Covered(cfg, rules[k])
    requires rules[k].a(c) && !rules[k].b(c) && c.source in EVENT_SOURCES
    requires s.clock == s.lastSweep == cfg.delay + Runs.Span(rules[k]) - 1 && s.processed == [0] && s.w.store.purged == {}
    requires |s.w.store.events| > 0 && s.w.store.events[0].receivedAt == 0 && ContentOf(s.w, 0) == c
    requires Primed(s.w, k, i, ArmedOn(rules, k, c, 0, cfg.delay))
    ensures Loops.Reaches(cfg, rules, s, acts, t) && OneSided(t.w, rules[k], k)
  {
    hide Runs.RuleInv, Runs.TimeInv, Runs.Logged, Advance, Runs.CanRun, Runs.RunFrom, Primed, Fired;
    var at, n, inst := s.lastSweep + cfg.lag, |s.w.store.events|, ArmedOn(rules, k, c, 0, cfg.delay);
    var delete, external, process := Runs.Delete(0, at), Runs.External(DraftOf(c), at), Runs.Process(n, at);
    assert 0 in s.processed;
    Loops.One(cfg, rules, s, delete);
    var s1 := Runs.Apply(rules, s, delete);
    SamePrimed(s.w, s1.w, k, i, inst);
    Loops.One(cfg, rules, s1, external);
    var s2 := Runs.Apply(rules, s1, external);
    SamePrimed(s1.w, s2.w, k, i, inst);
    assert s2.w.store.events == s.w.store.events + [Event(DraftOf(c), None, n, 0, at)];
    Loops.One(cfg, rules, s2, process);
    t := Runs.Apply(rules, s2, process);
    assert Answers(s2.w, rules[k], inst, n);
    ShowFires(s2.w, rules, 0, k, i, inst, n, at, |s2.processed|);
    FiredIsOneSided(cfg, rules, t, k, i, inst, n);
    Loops.Join(cfg, rules, s, [delete], s1, [external], s2);
    Loops.Join(cfg, rules, s, [delete] + [external], s2, [process], t);
    acts := [delete] + [external] + [process];
  }

  lemma SamePrimed(w: World, t: World, k: nat, i: nat, inst: Instance)
    requires Primed(w, k, i, inst) && t.instances == w.instances && t.recent == w.recent
    ensures Primed(t, k, i, inst)
  {}

  lemma FiredIsOneSided(cfg: Runs.Config, rules: seq<Rule>, s: Runs.Sys, k: nat, i: nat, inst: Instance, e: nat)
    requires Runs.Inv(cfg, rules, s) && k < |rules| && Fired(s.w, k, i, inst, e)
    requires inst.aEvent < |s.w.store.events| && e < |s.w.store.events| && inst.aEvent != e
    requires rules[k].a(ContentOf(s.w, inst.aEvent)) && !rules[k].b(ContentOf(s.w, inst.aEvent))
    requires rules[k].a(ContentOf(s.w, e)) && !rules[k].b(ContentOf(s.w, e))
    ensures OneSided(s.w, rules[k], k)
  {
    var x :| 0 <= x < |s.w.log| && s.w.log[x].rule == k && s.w.log[x].instance == i && s.w.log[x].cause == Some(e);
    assert Runs.RuleInv(s.w, rules[k], k, s.processed);
    assert Runs.EmissionOk(s.w, rules[k], s.processed, s.w.log[x]);
    assert OneSidedAt(s.w, rules[k], k, x);
  }

  /** The run: two A events, the first one deleted before the second is processed. */
  lemma UncoveredConjunctionMatchesOneSide(cfg: Runs.Config, rules: seq<Rule>, k: nat, c: Content) returns (acts: seq<Runs.Action>)
    requires k < |rules| && rules[k].kind.Conjunction? && !Runs.Covered(cfg, rules[k]) && cfg.lag > 0
    requires rules[k].a(c) && !rules[k].b(c) && c.source in EVENT_SOURCES
    ensures Runs.CanRun(cfg, rules, Runs.Start(cfg, rules), acts)
    ensures OneSided(Runs.RunFrom(cfg, rules, Runs.Start(cfg, rules), acts).w, rules[k], k)
  {
    hide Runs.Inv, Runs.CanRun, Runs.RunFrom, Primed, OneSided, Runs.Covered;
    var s0 := Runs.Start(cfg, rules);
    var first, s1, i := ArmLate(cfg, rules, k, c);
    var wait, s2 := [], s1;
    if Runs.Span(rules[k]) == 1 {
      Loops.NoActs(cfg, rules, s1);
    } else {
      wait, s2 := WaitPrimed(cfg, rules, s1, cfg.delay + Runs.Span(rules[k]) - 1, k, i, ArmedOn(rules, k, c, 0, cfg.delay));
    }
    var last, t := DeleteAndRepeat(cfg, rules, s2, k, i, c);
    Loops.Join(cfg, rules, s0, first, s1, wait, s2);
    Loops.Join(cfg, rules, s0, first + wait, s2, last, t);
    acts := first + wait + last;
  }

  /** Main result, for a conjunction among any rules. Some run derives an event from two A events and no B
    * event if and only if retention does not cover the rule and some event can satisfy its A side alone. */
  lemma OneSidedExactly(cfg: Runs.Config, rules: seq<Rule>, k: nat)
    requires k < |rules| && rules[k].kind.Conjunction? && cfg.lag > 0
    ensures !Runs.Covered(cfg, rules[k]) && HasLoneA(rules[k])
            <==> exists acts :: Runs.CanRun(cfg, rules, Runs.Start(cfg, rules), acts)
                                && OneSided(Runs.RunFrom(cfg, rules, Runs.Start(cfg, rules), acts).w, rules[k], k)
  {
    hide Runs.CanRun, Runs.RunFrom, Runs.Covered;
    if !Runs.Covered(cfg, rules[k]) && HasLoneA(rules[k]) {
      var c: Content :| c.source in EVENT_SOURCES && rules[k].a(c) && !rules[k].b(c);
      var acts := UncoveredConjunctionMatchesOneSide(cfg, rules, k, c);
    } else {
      forall acts | Runs.CanRun(cfg, rules, Runs.Start(cfg, rules), acts)
        ensures !OneSided(Runs.RunFrom(cfg, rules, Runs.Start(cfg, rules), acts).w, rules[k], k)
      {
        var w := Runs.RunFrom(cfg, rules, Runs.Start(cfg, rules), acts).w;
        if OneSided(w, rules[k], k) {
          var x: nat :| OneSidedAt(w, rules[k], k, x);
          NotBothSides(cfg, rules, acts, k, x);
        }
      }
    }
  }
}

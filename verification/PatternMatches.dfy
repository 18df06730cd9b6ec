/** How a rule that has armed once comes to match: the steps shared by the runs that end in a derived
  * event, whatever other rules there are. */
module PatternMatches {
  import opened Options
  import opened EventStoreModel
  import opened PatternsModel
  import Runs = PatternRuns

  /** The `k`-th rule has one instance in all, armed, and has derived nothing yet. */
  ghost predicate Primed(w: World, k: nat, i: nat, inst: Instance) {
    && i < |w.instances| && w.instances[i] == inst && inst.rule == k && inst.state == Armed
    && (forall j :: 0 <= j < |w.instances| && j != i ==> w.instances[j].rule != k)
    && (forall p :: (k, p) !in w.recent)
  }

  lemma FrameKeepsPrimed(w: World, t: World, k: nat, i: nat, inst: Instance)
    requires Primed(w, k, i, inst) && Runs.Frame(w, t, k)
    ensures Primed(t, k, i, inst)
  {}

  // ── Arming ──

  predicate Arms(rule: Rule, c: Content) {
    match rule.kind
    case OtherKind => false
    case Conjunction => rule.a(c) || rule.b(c)
    case _ => rule.a(c)
  }

  function ArmedOn(rules: seq<Rule>, k: nat, c: Content, e: nat, now: nat): Instance
    requires k < |rules|
  {
    Instance(k, rules[k].partition(c), e, now + rules[k].window, Armed)
  }

  /** No rule from `from` on has an instance yet. */
  ghost predicate Untouched(w: World, from: nat) {
    w.recent == map[] && forall i :: 0 <= i < |w.instances| ==> w.instances[i].rule < from
  }

  lemma ShowToOne(w: World, rules: seq<Rule>, from: nat, e: nat, now: nat, seen: nat)
    requires from < |rules| && Causal(w.store.events) && e < |w.store.events| && Untouched(w, from)
    ensures var t := AdvanceRule(w, rules, from, e, now, seen);
            && Untouched(t, from + 1)
            && t == if Arms(rules[from], ContentOf(w, e))
                    then w.(instances := w.instances + [ArmedOn(rules, from, ContentOf(w, e), e, now)]) else w
  {}

  /** The first event ever shown arms the rules it can and derives nothing. */
  lemma {:induction false} FirstShow(w: World, rules: seq<Rule>, from: nat, e: nat, now: nat, seen: nat, k: nat)
    requires from <= |rules| && k < |rules| && Causal(w.store.events) && e < |w.store.events| && Untouched(w, from)
    requires Arms(rules[k], ContentOf(w, e))
    requires k < from ==> exists i :: Primed(w, k, i, ArmedOn(rules, k, ContentOf(w, e), e, now))
    ensures var t := Advance(w, rules, from, e, now, seen);
            && t.store == w.store && t.log == w.log
            && exists i :: Primed(t, k, i, ArmedOn(rules, k, ContentOf(w, e), e, now))
    decreases |rules| - from
  {
    if from < |rules| {
      hide AdvanceRule;
      ShowToOne(w, rules, from, e, now, seen);
      var t := AdvanceRule(w, rules, from, e, now, seen);
      var inst := ArmedOn(rules, k, ContentOf(w, e), e, now);
      if from == k {
        assert Primed(t, k, |w.instances|, inst);
      } else if k < from {
        var i :| Primed(w, k, i, inst);
        assert Primed(t, k, i, inst);
      }
      FirstShow(t, rules, from + 1, e, now, seen, k);
    }
  }

  // ── Waiting ──

  lemma {:induction false} ExpireAllFrames(w: World, rules: seq<Rule>, due: seq<nat>, now: nat, seen: nat, k: nat)
    requires Causal(w.store.events) && forall i :: i in due ==> i < |w.instances| && w.instances[i].rule != k
    ensures Runs.Frame(w, ExpireAll(w, rules, due, now, seen), k)
    decreases |due|
  {
    if due != [] {
      hide Fire, CooledDown;
      assert due[0] in due && forall i :: i in due[1..] ==> i in due;
      var inst := w.instances[due[0]];
      var cause := if Visible(w.store, inst.aEvent).Some? then Some(inst.aEvent) else None;
      Runs.FireFrames(w, inst.rule, inst.partition, due[0], cause, "pattern_absence", now, seen, k);
      ExpireAllFrames(ExpireOne(w, rules, due[0], now, seen), rules, due[1..], now, seen, k);
    }
  }

  /** A sweep that finds nothing of a rule due leaves the rule alone. */
  lemma SweepFrames(w: World, rules: seq<Rule>, now: nat, seen: nat, k: nat)
    requires Causal(w.store.events)
    requires forall i :: 0 <= i < |w.instances| && w.instances[i].rule == k ==> !IsDue(w.instances[i], now)
    ensures Runs.Frame(w, Sweep(w, rules, now, seen), k)
  {
    hide ExpireAll;
    DueIsExact(w.instances, now, 0);
    var marked := w.(instances := AllExpired(w.instances, now));
    ExpireAllFrames(marked, rules, DueFrom(w.instances, now, 0), now, seen, k);
  }

  // ── Matching ──

  /** An event that completes the instance of a sequence or a conjunction. */
  ghost predicate Answers(w: World, rule: Rule, inst: Instance, e: nat) {
    && e < |w.store.events| && w.store.events[e].depth == 0 && inst.aEvent < |w.store.events|
    && var c := ContentOf(w, e);
    && rule.partition(c) == inst.partition
    && ((rule.kind.Sequence? && rule.b(c))
        || (rule.kind.Conjunction? && inst.aEvent != e && Completes(w, rule, inst.aEvent, c)))
  }

  /** The instance has matched on event `e`, and an event was derived. */
  ghost predicate Fired(w: World, k: nat, i: nat, inst: Instance, e: nat) {
    && i < |w.instances| && w.instances[i] == inst.(state := Matched) && inst.rule == k
    && exists x :: 0 <= x < |w.log| && w.log[x].rule == k && w.log[x].instance == i && w.log[x].cause == Some(e)
  }

  lemma MatchFires(w: World, rules: seq<Rule>, k: nat, i: nat, inst: Instance, e: nat, now: nat, seen: nat)
    requires k < |rules| && Causal(w.store.events) && Primed(w, k, i, inst) && Answers(w, rules[k], inst, e)
    ensures Fired(AdvanceRule(w, rules, k, e, now, seen), k, i, inst, e)
  {
    var p := rules[k].partition(ContentOf(w, e));
    assert w.instances[i].rule == k;
    assert ArmedFrom(w.instances, k, p, 0) == Some(i);
    var m := WithState(w, i, Matched);
    assert OutcomeOf(m.store, DerivedDraft(k, p, "pattern_matched"), Some(e), now, true).Emitted?;
    var t := AdvanceRule(w, rules, k, e, now, seen);
    assert t == Fire(m, k, p, i, Some(e), "pattern_matched", now, seen);
    assert t.log[|w.log|].instance == i;
  }

  lemma FrameKeepsFired(w: World, t: World, k: nat, i: nat, inst: Instance, e: nat)
    requires Fired(w, k, i, inst, e) && Runs.Frame(w, t, k)
    ensures Fired(t, k, i, inst, e)
  {
    var x :| 0 <= x < |w.log| && w.log[x].rule == k && w.log[x].instance == i && w.log[x].cause == Some(e);
    assert t.log[x] == w.log[x];
  }

  /** Feeding the completing event to all rules derives the event, whatever the other rules do. */
  lemma {:induction false} ShowFires(w: World, rules: seq<Rule>, from: nat, k: nat, i: nat, inst: Instance, e: nat, now: nat,
                                     seen: nat)
    requires from <= |rules| && k < |rules| && Causal(w.store.events) && e < |w.store.events|
    requires if from <= k then Primed(w, k, i, inst) && Answers(w, rules[k], inst, e) else Fired(w, k, i, inst, e)
    ensures Fired(Advance(w, rules, from, e, now, seen), k, i, inst, e)
    decreases |rules| - from
  {
    hide AdvanceRule, Primed, Fired, Runs.Frame;
    if from < |rules| {
      var t := AdvanceRule(w, rules, from, e, now, seen);
      if from == k {
        MatchFires(w, rules, k, i, inst, e, now, seen);
      } else {
        Runs.AdvanceFrames(w, rules, from, e, now, seen, k);
        if from < k {
          FrameKeepsPrimed(w, t, k, i, inst);
        } else {
          FrameKeepsFired(w, t, k, i, inst, e);
        }
      }
      ShowFires(t, rules, from + 1, k, i, inst, e, now, seen);
    }
  }
}

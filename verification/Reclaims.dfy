/** The pattern engine when events are processed more than once: a reclaimed event is shown to the rules
  * again, at any time and any number of times, and retention deletes what it likes. */
module Reclaims {
  import opened Options
  import opened EventStoreModel
  import opened PatternsModel
  import Runs = PatternRuns
  import Bounds = CascadeBounds
  import opened PatternMatches

  datatype Step =
    | Arrive(draft: Draft, at: nat)
    | Show(e: nat, at: nat)
    | Timer(at: nat)
    | Remove(e: nat)

  /** The engine; the events it was shown, in order; and for each instance the showing that armed it. */
  datatype Sys = Sys(w: World, shown: seq<nat>, armedAt: seq<nat>)

  predicate Enabled(w: World, s: Step) {
    match s
    case Arrive(draft, _) => draft.rule.None?
    case Show(e, _) => e < |w.store.events|
    case Timer(_) => true
    case Remove(e) => e < |w.store.events|
  }

  /** The showings that armed `n` instances, if the new ones were armed by showing `at`. */
  function Pad(armedAt: seq<nat>, n: nat, at: nat): (r: seq<nat>)
    ensures armedAt <= r && (n >= |armedAt| ==> |r| == n) && forall i :: |armedAt| <= i < |r| ==> r[i] == at
  {
    if n <= |armedAt| then armedAt else armedAt + seq(n - |armedAt|, _ => at)
  }

  ghost function After(s: Sys, rules: seq<Rule>, step: Step): (t: Sys)
    requires Causal(s.w.store.events) && Enabled(s.w, step)
    ensures Causal(t.w.store.events)
  {
    match step
    case Arrive(draft, at) => s.(w := s.w.(store := Emit(s.w.store, draft, None, at, true)))
    case Show(e, at) =>
      var w := Advance(s.w, rules, 0, e, at, |s.shown|);
      Sys(w, s.shown + [e], Pad(s.armedAt, |w.instances|, |s.shown|))
    case Timer(at) => s.(w := Sweep(s.w, rules, at, |s.shown|))
    case Remove(e) => s.(w := s.w.(store := s.w.store.(purged := s.w.store.purged + {e})))
  }

  ghost predicate CanRun(s: Sys, rules: seq<Rule>, steps: seq<Step>)
    requires Causal(s.w.store.events)
    decreases |steps|
  {
    steps != [] ==> Enabled(s.w, steps[0]) && CanRun(After(s, rules, steps[0]), rules, steps[1..])
  }

  ghost function RunFrom(s: Sys, rules: seq<Rule>, steps: seq<Step>): (t: Sys)
    requires Causal(s.w.store.events) && CanRun(s, rules, steps)
    ensures Causal(t.w.store.events)
    decreases |steps|
  {
    if steps == [] then s else RunFrom(After(s, rules, steps[0]), rules, steps[1..])
  }

  function Empty(): Sys {
    Sys(World(Store([], {}), [], map[], []), [], [])
  }

  function Shows(steps: seq<Step>): nat {
    if steps == [] then 0 else (if steps[0].Show? then 1 else 0) + Shows(steps[1..])
  }

  function Arrivals(steps: seq<Step>): nat {
    if steps == [] then 0 else (if steps[0].Arrive? then 1 else 0) + Arrivals(steps[1..])
  }

  // ── What one rule keeps ──

  /** No showing after `from` and before `upto` was of an event of the partition that satisfies the B side. */
  ghost predicate QuietBetween(w: World, rule: Rule, shown: seq<nat>, from: nat, upto: nat, p: string) {
    forall j :: from < j < upto && j < |shown| && shown[j] < |w.store.events|
                && rule.partition(ContentOf(w, shown[j])) == p
                ==> !rule.b(ContentOf(w, shown[j]))
  }

  ghost predicate InstanceOk(w: World, rule: Rule, shown: seq<nat>, at: nat, inst: Instance) {
    && at < |shown| && inst.aEvent == shown[at] && inst.aEvent < |w.store.events|
    && inst.partition == rule.partition(ContentOf(w, inst.aEvent)) && Arms(rule, ContentOf(w, inst.aEvent))
    && (inst.state == Armed && rule.kind.Absence? ==> QuietBetween(w, rule, shown, at, |shown|, inst.partition))
  }

  /** The evidence a derived event must have. A sequence may match an event with itself only if the event
    * satisfies both sides: the two showings differ. */
  ghost predicate Justified(w: World, rule: Rule, shown: seq<nat>, at: nat, inst: Instance, x: Emission)
    requires inst.aEvent < |w.store.events| && (x.cause.Some? ==> x.cause.value < |w.store.events|)
  {
    var first := ContentOf(w, inst.aEvent);
    match rule.kind
    case OtherKind => false
    case Absence =>
      && inst.state == Expired && x.cause == (if x.kept then Some(inst.aEvent) else None)
      && at < x.seen <= |shown| && rule.a(first) && QuietBetween(w, rule, shown, at, x.seen, x.partition)
    case _ =>
      && inst.state == Matched && at < x.seen < |shown| && x.cause == Some(shown[x.seen])
      && var last := ContentOf(w, x.cause.value);
      && rule.partition(last) == x.partition
      && if rule.kind.Sequence? then rule.a(first) && rule.b(last)
         else
           && x.cause.value != inst.aEvent && (rule.a(first) || rule.b(first))
           && if x.kept then (rule.a(first) && rule.b(last)) || (rule.b(first) && rule.a(last)) else rule.a(last)
  }

  ghost predicate EmissionOk(w: World, rule: Rule, shown: seq<nat>, armedAt: seq<nat>, x: Emission) {
    && x.instance < |w.instances| && x.instance < |armedAt| && x.event < |w.store.events|
    && (x.cause.Some? ==> x.cause.value < |w.store.events|)
    && w.store.events[x.event].parent == x.cause && w.store.events[x.event].draft.rule == Some(x.rule)
    && (x.rule, x.partition) in w.recent && x.at <= w.recent[(x.rule, x.partition)]
    && var inst := w.instances[x.instance];
    && inst.rule == x.rule && inst.partition == x.partition && inst.state != Armed
    && inst.aEvent < |w.store.events| && rule.partition(ContentOf(w, inst.aEvent)) == x.partition
    && Justified(w, rule, shown, armedAt[x.instance], inst, x)
  }

  /** Two instances of one rule are not both armed in one partition. */
  ghost predicate PairOk(a: Instance, b: Instance) {
    a.partition == b.partition ==> !(a.state == Armed && b.state == Armed)
  }

  /** Two derived events of one rule: different instances, a cooldown apart. */
  ghost predicate ApartOk(rule: Rule, x: Emission, y: Emission) {
    x.instance != y.instance && (x.partition == y.partition ==> x.at + rule.cooldown <= y.at)
  }

  ghost predicate RuleInv(w: World, rule: Rule, k: nat, shown: seq<nat>, armedAt: seq<nat>) {
    && |armedAt| == |w.instances|
    && (forall i :: 0 <= i < |w.instances| && w.instances[i].rule == k
                    ==> InstanceOk(w, rule, shown, armedAt[i], w.instances[i]))
    && (forall i, j :: 0 <= i < j < |w.instances| && w.instances[i].rule == w.instances[j].rule == k
                       ==> PairOk(w.instances[i], w.instances[j]))
    && (forall x :: 0 <= x < |w.log| && w.log[x].rule == k ==> EmissionOk(w, rule, shown, armedAt, w.log[x]))
    && (forall x, y :: 0 <= x < y < |w.log| && w.log[x].rule == w.log[y].rule == k
                       ==> ApartOk(rule, w.log[x], w.log[y]))
  }

  /** The world as the steps of a run leave it. */
  ghost predicate Sound(w: World, shown: seq<nat>) {
    Causal(w.store.events) && Sourced(w.store.events) && forall j :: 0 <= j < |shown| ==> shown[j] < |w.store.events|
  }

  // ── What changes nothing for it ──

  lemma QuietStays(w: World, t: World, rule: Rule, shown: seq<nat>, from: nat, upto: nat, p: string)
    requires w.store.events <= t.store.events && Sound(w, shown)
    ensures QuietBetween(w, rule, shown, from, upto, p) <==> QuietBetween(t, rule, shown, from, upto, p)
  {
    assert forall j :: 0 <= j < |shown| ==> ContentOf(t, shown[j]) == ContentOf(w, shown[j]);
  }

  lemma EvidenceStays(w: World, t: World, rule: Rule, shown: seq<nat>, armedAt: seq<nat>, later: seq<nat>, x: Emission)
    requires Sound(w, shown) && w.store.events <= t.store.events && EmissionOk(w, rule, shown, armedAt, x)
    requires |w.instances| <= |t.instances| && t.instances[x.instance] == w.instances[x.instance] && armedAt <= later
    requires (x.rule, x.partition) in t.recent && w.recent[(x.rule, x.partition)] <= t.recent[(x.rule, x.partition)]
    ensures EmissionOk(t, rule, shown, later, x)
  {
    QuietStays(w, t, rule, shown, armedAt[x.instance], x.seen, x.partition);
    assert later[x.instance] == armedAt[x.instance];
  }

  lemma FrameKeeps(w: World, t: World, rule: Rule, k: nat, shown: seq<nat>, armedAt: seq<nat>, later: seq<nat>)
    requires Runs.Frame(w, t, k) && Sound(w, shown) && RuleInv(w, rule, k, shown, armedAt)
    requires armedAt <= later && |later| == |t.instances|
    ensures RuleInv(t, rule, k, shown, later)
  {
    hide Justified, QuietBetween;
    forall x | 0 <= x < |t.log| && t.log[x].rule == k ensures EmissionOk(t, rule, shown, later, t.log[x]) {
      EvidenceStays(w, t, rule, shown, armedAt, later, t.log[x]);
    }
    forall i | 0 <= i < |t.instances| && t.instances[i].rule == k
      ensures InstanceOk(t, rule, shown, later[i], t.instances[i])
    {
      assert InstanceOk(w, rule, shown, armedAt[i], w.instances[i]) && later[i] == armedAt[i];
      QuietStays(w, t, rule, shown, armedAt[i], |shown|, w.instances[i].partition);
    }
  }

  // ── The rule's own steps ──

  /** One more showing, of an event that no armed absence of its partition waits for. */
  lemma ShownKeeps(w: World, rule: Rule, k: nat, shown: seq<nat>, armedAt: seq<nat>, e: nat)
    requires RuleInv(w, rule, k, shown, armedAt) && e < |w.store.events|
    requires forall i :: 0 <= i < |w.instances| && w.instances[i].rule == k && w.instances[i].state == Armed
               && rule.kind.Absence? && w.instances[i].partition == rule.partition(ContentOf(w, e))
               ==> !rule.b(ContentOf(w, e))
    ensures RuleInv(w, rule, k, shown + [e], armedAt)
  {
    var grown := shown + [e];
    forall i | 0 <= i < |w.instances| && w.instances[i].rule == k
      ensures InstanceOk(w, rule, grown, armedAt[i], w.instances[i])
    {
      assert InstanceOk(w, rule, shown, armedAt[i], w.instances[i]);
    }
    forall x | 0 <= x < |w.log| && w.log[x].rule == k ensures EmissionOk(w, rule, grown, armedAt, w.log[x]) {
      assert EmissionOk(w, rule, shown, armedAt, w.log[x]);
    }
  }

  lemma ArmKeeps(w: World, rule: Rule, k: nat, shown: seq<nat>, armedAt: seq<nat>, e: nat, deadline: nat)
    requires RuleInv(w, rule, k, shown + [e], armedAt) && Sound(w, shown + [e]) && e < |w.store.events|
    requires ArmedFrom(w.instances, k, rule.partition(ContentOf(w, e)), 0).None? && Arms(rule, ContentOf(w, e))
    ensures RuleInv(Arm(w, k, rule.partition(ContentOf(w, e)), e, deadline), rule, k, shown + [e], armedAt + [|shown|])
  {
    var p, grown, later := rule.partition(ContentOf(w, e)), shown + [e], armedAt + [|shown|];
    var t := Arm(w, k, p, e, deadline);
    forall i | 0 <= i < |t.instances| && t.instances[i].rule == k
      ensures InstanceOk(t, rule, grown, later[i], t.instances[i])
    {
      if i < |w.instances| {
        assert InstanceOk(w, rule, grown, armedAt[i], w.instances[i]);
        QuietStays(w, t, rule, grown, armedAt[i], |grown|, w.instances[i].partition);
      }
    }
    forall x | 0 <= x < |t.log| && t.log[x].rule == k ensures EmissionOk(t, rule, grown, later, t.log[x]) {
      EvidenceStays(w, t, rule, grown, armedAt, later, w.log[x]);
    }
  }

  lemma DisarmKeeps(w: World, rule: Rule, k: nat, shown: seq<nat>, armedAt: seq<nat>, i: nat, state: InstanceState)
    requires RuleInv(w, rule, k, shown, armedAt) && Sound(w, shown) && i < |w.instances| && state != Armed
    requires w.instances[i].rule == k && w.instances[i].state == Armed
    ensures RuleInv(WithState(w, i, state), rule, k, shown, armedAt)
    ensures forall x :: 0 <= x < |w.log| && w.log[x].rule == k ==> w.log[x].instance != i
  {
    var t := WithState(w, i, state);
    forall x | 0 <= x < |w.log| && w.log[x].rule == k
      ensures w.log[x].instance != i && EmissionOk(t, rule, shown, armedAt, t.log[x])
    {
      assert EmissionOk(w, rule, shown, armedAt, w.log[x]);
      EvidenceStays(w, t, rule, shown, armedAt, armedAt, w.log[x]);
    }
    forall j | 0 <= j < |t.instances| && t.instances[j].rule == k
      ensures InstanceOk(t, rule, shown, armedAt[j], t.instances[j])
    {
      assert InstanceOk(w, rule, shown, armedAt[j], w.instances[j]);
      QuietStays(w, t, rule, shown, armedAt[j], |shown|, w.instances[j].partition);
    }
  }

  /** A derived event with its evidence, from an instance nothing was derived from. */
  lemma FireKeeps(w: World, rules: seq<Rule>, k: nat, shown: seq<nat>, armedAt: seq<nat>, i: nat, cause: Option<nat>,
                  kind: string, now: nat, seen: nat)
    requires k < |rules| && RuleInv(w, rules[k], k, shown, armedAt) && Sound(w, shown)
    requires i < |w.instances| && w.instances[i].rule == k && w.instances[i].state != Armed
    requires cause.Some? ==> cause.value < |w.store.events|
    requires CooledDown(w, rules, k, w.instances[i].partition, now)
    requires forall x :: 0 <= x < |w.log| && w.log[x].rule == k ==> w.log[x].instance != i
    requires w.instances[i].aEvent < |w.store.events|
    requires Justified(w, rules[k], shown, armedAt[i], w.instances[i],
                       Emission(k, w.instances[i].partition, i, cause, |w.store.events|, now, seen, Kept(w, i)))
    ensures RuleInv(Fire(w, k, w.instances[i].partition, i, cause, kind, now, seen), rules[k], k, shown, armedAt)
  {
    var p := w.instances[i].partition;
    var t := Fire(w, k, p, i, cause, kind, now, seen);
    if t != w {
      FiredIsOk(w, rules, k, shown, armedAt, i, cause, kind, now, seen);
      hide Justified, QuietBetween, Fire;
      forall x | 0 <= x < |w.log| && w.log[x].rule == k
        ensures EmissionOk(t, rules[k], shown, armedAt, t.log[x]) && ApartOk(rules[k], t.log[x], t.log[|w.log|])
      {
        EvidenceStays(w, t, rules[k], shown, armedAt, armedAt, w.log[x]);
      }
      forall j | 0 <= j < |t.instances| && t.instances[j].rule == k
        ensures InstanceOk(t, rules[k], shown, armedAt[j], t.instances[j])
      {
        assert InstanceOk(w, rules[k], shown, armedAt[j], w.instances[j]);
        QuietStays(w, t, rules[k], shown, armedAt[j], |shown|, w.instances[j].partition);
      }
    }
  }

  lemma FiredIsOk(w: World, rules: seq<Rule>, k: nat, shown: seq<nat>, armedAt: seq<nat>, i: nat, cause: Option<nat>,
                  kind: string, now: nat, seen: nat)
    requires k < |rules| && RuleInv(w, rules[k], k, shown, armedAt) && Sound(w, shown)
    requires i < |w.instances| && w.instances[i].rule == k && w.instances[i].state != Armed
    requires cause.Some? ==> cause.value < |w.store.events|
    requires CooledDown(w, rules, k, w.instances[i].partition, now)
    requires w.instances[i].aEvent < |w.store.events|
    requires Justified(w, rules[k], shown, armedAt[i], w.instances[i],
                       Emission(k, w.instances[i].partition, i, cause, |w.store.events|, now, seen, Kept(w, i)))
    ensures var p := w.instances[i].partition;
            var t := Fire(w, k, p, i, cause, kind, now, seen);
            t != w ==>
              && |t.log| == |w.log| + 1 && w.log <= t.log && t.instances == w.instances
              && EmissionOk(t, rules[k], shown, armedAt, t.log[|w.log|])
              && var y := t.log[|w.log|];
              && y.rule == k && y.instance == i && y.at == now && y.partition == p
              && t.recent == w.recent[(k, p) := now]
              && ((k, p) in w.recent ==> w.recent[(k, p)] + rules[k].cooldown <= now)
  {
    var p := w.instances[i].partition;
    var t := Fire(w, k, p, i, cause, kind, now, seen);
    assert InstanceOk(w, rules[k], shown, armedAt[i], w.instances[i]);
    if t != w {
      QuietStays(w, t, rules[k], shown, armedAt[i], seen, p);
    }
  }

  /** A match: the showing at hand completes the armed instance `i`. */
  lemma MatchKeeps(w: World, rules: seq<Rule>, k: nat, shown: seq<nat>, armedAt: seq<nat>, i: nat, e: nat, now: nat)
    requires k < |rules| && Sound(w, shown + [e]) && e < |w.store.events|
    requires RuleInv(w, rules[k], k, shown, armedAt) && RuleInv(w, rules[k], k, shown + [e], armedAt)
    requires i < |w.instances| && w.instances[i].rule == k && w.instances[i].state == Armed
    requires w.instances[i].partition == rules[k].partition(ContentOf(w, e))
    requires rules[k].kind.Sequence? || rules[k].kind.Conjunction?
    requires rules[k].kind.Sequence? ==> rules[k].b(ContentOf(w, e))
    requires rules[k].kind.Conjunction?
             ==> w.instances[i].aEvent != e && Completes(w, rules[k], w.instances[i].aEvent, ContentOf(w, e))
    ensures RuleInv(MatchAndFire(w, rules, k, w.instances[i].partition, i, e, now, |shown|), rules[k], k, shown + [e], armedAt)
  {
    var rule, inst, grown := rules[k], w.instances[i], shown + [e];
    var m := WithState(w, i, Matched);
    assert InstanceOk(w, rule, shown, armedAt[i], inst);
    assert grown[|shown|] == e;
    DisarmKeeps(w, rule, k, grown, armedAt, i, Matched);
    if CooledDown(w, rules, k, inst.partition, now) {
      FireKeeps(m, rules, k, grown, armedAt, i, Some(e), "pattern_matched", now, |shown|);
    }
  }

  /** The armed absence sees its B and is disarmed; no other is armed in the partition. */
  lemma AbsenceIsAnswered(w: World, rule: Rule, k: nat, shown: seq<nat>, armedAt: seq<nat>, i: nat, e: nat)
    requires RuleInv(w, rule, k, shown, armedAt) && Sound(w, shown) && e < |w.store.events| && i < |w.instances|
    requires w.instances[i].rule == k && w.instances[i].state == Armed
    requires w.instances[i].partition == rule.partition(ContentOf(w, e))
    ensures RuleInv(WithState(w, i, Expired), rule, k, shown + [e], armedAt)
  {
    var t := WithState(w, i, Expired);
    DisarmKeeps(w, rule, k, shown, armedAt, i, Expired);
    forall j | 0 <= j < |t.instances| && t.instances[j].rule == k && t.instances[j].partition == w.instances[i].partition
      ensures t.instances[j].state != Armed
    {
      assert j < i ==> PairOk(w.instances[j], w.instances[i]);
      assert i < j ==> PairOk(w.instances[i], w.instances[j]);
    }
    ShownKeeps(t, rule, k, shown, armedAt, e);
  }

  lemma AdvanceOwn(w: World, rules: seq<Rule>, k: nat, shown: seq<nat>, armedAt: seq<nat>, e: nat, now: nat)
    requires k < |rules| && Sound(w, shown + [e]) && e < |w.store.events| && RuleInv(w, rules[k], k, shown, armedAt)
    ensures var t := AdvanceRule(w, rules, k, e, now, |shown|);
            RuleInv(t, rules[k], k, shown + [e], Pad(armedAt, |t.instances|, |shown|))
  {
    hide RuleInv, MatchAndFire, Completes;
    var rule, c := rules[k], ContentOf(w, e);
    var armed := ArmedFrom(w.instances, k, rule.partition(c), 0);
    assert (shown + [e])[..|shown|] == shown;
    assert Sound(w, shown) by { Prefix(w, shown, e); }
    SameLength(w, rule, k, shown, armedAt);
    assert Pad(armedAt, |w.instances|, |shown|) == armedAt;
    assert Pad(armedAt, |w.instances| + 1, |shown|) == armedAt + [|shown|];
    if armed.Some? && rule.kind.Absence? && rule.b(c) {
      AbsenceIsAnswered(w, rule, k, shown, armedAt, armed.value, e);
    } else {
      ShownKeeps(w, rule, k, shown, armedAt, e);
      if armed.None? {
        if Arms(rule, c) {
          ArmKeeps(w, rule, k, shown, armedAt, e, now + rule.window);
        }
      } else if (rule.kind.Sequence? && rule.b(c))
             || (rule.kind.Conjunction? && w.instances[armed.value].aEvent != e
                 && Completes(w, rule, w.instances[armed.value].aEvent, c)) {
        MatchKeeps(w, rules, k, shown, armedAt, armed.value, e, now);
        SameInstances(w, rules, k, rule.partition(c), armed.value, e, now, |shown|);
      }
    }
  }

  lemma Prefix(w: World, shown: seq<nat>, e: nat)
    requires Sound(w, shown + [e])
    ensures Sound(w, shown)
  {
    assert forall j :: 0 <= j < |shown| ==> (shown + [e])[j] == shown[j];
  }

  lemma SameLength(w: World, rule: Rule, k: nat, shown: seq<nat>, armedAt: seq<nat>)
    requires RuleInv(w, rule, k, shown, armedAt)
    ensures |armedAt| == |w.instances|
  {}

  lemma SameInstances(w: World, rules: seq<Rule>, k: nat, p: string, i: nat, e: nat, now: nat, seen: nat)
    requires k < |rules| && i < |w.instances| && Causal(w.store.events) && e < |w.store.events|
    ensures |MatchAndFire(w, rules, k, p, i, e, now, seen).instances| == |w.instances|
  {}

  /** Showing one event to every rule. */
  lemma {:induction false} AdvanceKeeps(w: World, rules: seq<Rule>, from: nat, k: nat, shown: seq<nat>, armedAt: seq<nat>,
                                        e: nat, now: nat)
    requires from <= |rules| && k < |rules| && Sound(w, shown + [e]) && e < |w.store.events|
    requires |armedAt| == |w.instances|
    requires RuleInv(w, rules[k], k, if from <= k then shown else shown + [e], armedAt)
    ensures var t := Advance(w, rules, from, e, now, |shown|);
            RuleInv(t, rules[k], k, shown + [e], Pad(armedAt, |t.instances|, |shown|)) && |w.instances| <= |t.instances|
    decreases |rules| - from
  {
    hide RuleInv, AdvanceRule, Runs.Frame;
    if from < |rules| {
      var t := AdvanceRule(w, rules, from, e, now, |shown|);
      var later := Pad(armedAt, |t.instances|, |shown|);
      Prefix(w, shown, e);
      InstancesGrow(w, rules, from, e, now, |shown|);
      if from == k {
        AdvanceOwn(w, rules, k, shown, armedAt, e, now);
      } else {
        Runs.AdvanceFrames(w, rules, from, e, now, |shown|, k);
        FrameKeeps(w, t, rules[k], k, if from <= k then shown else shown + [e], armedAt, later);
      }
      AdvanceKeeps(t, rules, from + 1, k, shown, later, e, now);
      var n := |Advance(t, rules, from + 1, e, now, |shown|).instances|;
      assert Pad(later, n, |shown|) == Pad(armedAt, n, |shown|);
    } else {
      assert Pad(armedAt, |w.instances|, |shown|) == armedAt;
    }
  }

  lemma InstancesGrow(w: World, rules: seq<Rule>, k: nat, e: nat, now: nat, seen: nat)
    requires k < |rules| && Causal(w.store.events) && e < |w.store.events|
    ensures |w.instances| <= |AdvanceRule(w, rules, k, e, now, seen).instances| <= |w.instances| + 1
  {}

  // ── The sweep ──

  /** An absence instance the sweep has just expired and whose derived event is still to come. */
  ghost predicate Unfired(w: World, rule: Rule, k: nat, shown: seq<nat>, armedAt: seq<nat>, i: nat) {
    && i < |w.instances| == |armedAt|
    && (w.instances[i].rule == k && rule.kind.Absence? ==>
          && w.instances[i].state == Expired
          && QuietBetween(w, rule, shown, armedAt[i], |shown|, w.instances[i].partition)
          && forall x :: 0 <= x < |w.log| && w.log[x].rule == k ==> w.log[x].instance != i)
  }

  lemma MarkingKeeps(w: World, rule: Rule, k: nat, shown: seq<nat>, armedAt: seq<nat>, now: nat)
    requires RuleInv(w, rule, k, shown, armedAt) && Sound(w, shown)
    ensures var t := w.(instances := AllExpired(w.instances, now));
            && RuleInv(t, rule, k, shown, armedAt)
            && forall i :: i in DueFrom(w.instances, now, 0) ==> Unfired(t, rule, k, shown, armedAt, i)
  {
    var t := w.(instances := AllExpired(w.instances, now));
    DueIsExact(w.instances, now, 0);
    forall i | 0 <= i < |t.instances| && t.instances[i].rule == k
      ensures InstanceOk(t, rule, shown, armedAt[i], t.instances[i])
      ensures w.instances[i].state == Armed && rule.kind.Absence?
              ==> QuietBetween(t, rule, shown, armedAt[i], |shown|, t.instances[i].partition)
    {
      assert InstanceOk(w, rule, shown, armedAt[i], w.instances[i]);
      QuietStays(w, t, rule, shown, armedAt[i], |shown|, w.instances[i].partition);
    }
    forall x | 0 <= x < |t.log| && t.log[x].rule == k
      ensures EmissionOk(t, rule, shown, armedAt, t.log[x]) && w.instances[t.log[x].instance].state != Armed
    {
      assert EmissionOk(w, rule, shown, armedAt, w.log[x]);
      EvidenceStays(w, t, rule, shown, armedAt, armedAt, w.log[x]);
    }
    forall i, j | 0 <= i < j < |t.instances| && t.instances[i].rule == t.instances[j].rule == k
      ensures PairOk(t.instances[i], t.instances[j])
    {
      assert PairOk(w.instances[i], w.instances[j]);
    }
  }

  lemma ExpireOneKeeps(w: World, rules: seq<Rule>, k: nat, shown: seq<nat>, armedAt: seq<nat>, i: nat, now: nat)
    requires k < |rules| && Sound(w, shown) && RuleInv(w, rules[k], k, shown, armedAt)
    requires Unfired(w, rules[k], k, shown, armedAt, i)
    ensures RuleInv(ExpireOne(w, rules, i, now, |shown|), rules[k], k, shown, armedAt)
  {
    var inst := w.instances[i];
    if inst.rule < |rules| && rules[inst.rule].kind.Absence? && CooledDown(w, rules, inst.rule, inst.partition, now) {
      var cause := if Visible(w.store, inst.aEvent).Some? then Some(inst.aEvent) else None;
      if inst.rule == k {
        assert InstanceOk(w, rules[k], shown, armedAt[i], inst);
        FireKeeps(w, rules, k, shown, armedAt, i, cause, "pattern_absence", now, |shown|);
      } else {
        Runs.FireFrames(w, inst.rule, inst.partition, i, cause, "pattern_absence", now, |shown|, k);
        FrameKeeps(w, ExpireOne(w, rules, i, now, |shown|), rules[k], k, shown, armedAt, armedAt);
      }
    }
  }

  lemma ExpireOneKeepsUnfired(w: World, rules: seq<Rule>, k: nat, shown: seq<nat>, armedAt: seq<nat>, i: nat, j: nat, now: nat)
    requires k < |rules| && Sound(w, shown) && i < |w.instances| && i != j
    requires Unfired(w, rules[k], k, shown, armedAt, j)
    ensures Unfired(ExpireOne(w, rules, i, now, |shown|), rules[k], k, shown, armedAt, j)
  {
    QuietStays(w, ExpireOne(w, rules, i, now, |shown|), rules[k], shown, armedAt[j], |shown|, w.instances[j].partition);
  }

  lemma {:induction false} ExpireAllKeeps(w: World, rules: seq<Rule>, k: nat, shown: seq<nat>, armedAt: seq<nat>,
                                          due: seq<nat>, now: nat)
    requires k < |rules| && Sound(w, shown) && RuleInv(w, rules[k], k, shown, armedAt) && Distinct(due)
    requires forall i :: i in due ==> i < |w.instances| && Unfired(w, rules[k], k, shown, armedAt, i)
    ensures RuleInv(ExpireAll(w, rules, due, now, |shown|), rules[k], k, shown, armedAt)
    decreases |due|
  {
    hide RuleInv, ExpireOne;
    if due != [] {
      assert due[0] in due && forall i :: i in due[1..] ==> i in due;
      ExpireOneKeeps(w, rules, k, shown, armedAt, due[0], now);
      forall i | i in due[1..]
        ensures Unfired(ExpireOne(w, rules, due[0], now, |shown|), rules[k], k, shown, armedAt, i)
      {
        ExpireOneKeepsUnfired(w, rules, k, shown, armedAt, due[0], i, now);
      }
      ExpireAllKeeps(ExpireOne(w, rules, due[0], now, |shown|), rules, k, shown, armedAt, due[1..], now);
    }
  }

  lemma SweepKeeps(w: World, rules: seq<Rule>, k: nat, shown: seq<nat>, armedAt: seq<nat>, now: nat)
    requires k < |rules| && Sound(w, shown) && RuleInv(w, rules[k], k, shown, armedAt)
    ensures RuleInv(Sweep(w, rules, now, |shown|), rules[k], k, shown, armedAt)
  {
    hide RuleInv, ExpireAll;
    MarkingKeeps(w, rules[k], k, shown, armedAt, now);
    DueIsExact(w.instances, now, 0);
    ExpireAllKeeps(w.(instances := AllExpired(w.instances, now)), rules, k, shown, armedAt, DueFrom(w.instances, now, 0), now);
  }

  // ── Runs ──

  ghost predicate Inv(s: Sys, rules: seq<Rule>) {
    && Sound(s.w, s.shown) && Runs.Logged(s.w, |rules|) && |s.armedAt| == |s.w.instances|
    && (forall k :: 0 <= k < |rules| ==> RuleInv(s.w, rules[k], k, s.shown, s.armedAt))
  }

  lemma ShowKeepsInv(s: Sys, rules: seq<Rule>, e: nat, at: nat)
    requires Inv(s, rules) && e < |s.w.store.events|
    ensures Inv(After(s, rules, Show(e, at)), rules)
  {
    hide RuleInv, Runs.Logged, AdvanceRule;
    var t := After(s, rules, Show(e, at));
    assert Sound(s.w, s.shown + [e]);
    forall k | 0 <= k < |rules| ensures RuleInv(t.w, rules[k], k, t.shown, t.armedAt) {
      AdvanceKeeps(s.w, rules, 0, k, s.shown, s.armedAt, e, at);
    }
    AllGrow(s.w, rules, 0, e, at, |s.shown|);
    Runs.AdvanceKeepsLogged(s.w, rules, 0, e, at, |s.shown|);
  }

  lemma {:induction false} AllGrow(w: World, rules: seq<Rule>, k: nat, e: nat, now: nat, seen: nat)
    requires k <= |rules| && Causal(w.store.events) && e < |w.store.events|
    ensures |w.instances| <= |Advance(w, rules, k, e, now, seen).instances| <= |w.instances| + |rules| - k
    decreases |rules| - k
  {
    hide AdvanceRule;
    if k < |rules| {
      InstancesGrow(w, rules, k, e, now, seen);
      AllGrow(AdvanceRule(w, rules, k, e, now, seen), rules, k + 1, e, now, seen);
    }
  }

  lemma TimerKeepsInv(s: Sys, rules: seq<Rule>, at: nat)
    requires Inv(s, rules)
    ensures Inv(After(s, rules, Timer(at)), rules) && |After(s, rules, Timer(at)).w.instances| == |s.w.instances|
  {
    hide RuleInv, Runs.Logged, ExpireAll;
    var t := After(s, rules, Timer(at));
    DueIsExact(s.w.instances, at, 0);
    forall k | 0 <= k < |rules| ensures RuleInv(t.w, rules[k], k, t.shown, t.armedAt) {
      SweepKeeps(s.w, rules, k, s.shown, s.armedAt, at);
    }
    Runs.MarkingKeepsLogged(s.w, at, |rules|);
    Runs.ExpireAllKeepsLogged(s.w.(instances := AllExpired(s.w.instances, at)), rules, DueFrom(s.w.instances, at, 0), at,
                              |s.shown|);
  }

  lemma StepKeepsInv(s: Sys, rules: seq<Rule>, step: Step)
    requires Inv(s, rules) && Enabled(s.w, step)
    ensures Inv(After(s, rules, step), rules)
  {
    hide RuleInv, Advance, Sweep, Guard;
    match step
    case Show(e, at) => ShowKeepsInv(s, rules, e, at);
    case Timer(at) => TimerKeepsInv(s, rules, at);
    case _ =>
      var t := After(s, rules, step);
      forall k | 0 <= k < |rules| ensures RuleInv(t.w, rules[k], k, t.shown, t.armedAt) {
        FrameKeeps(s.w, t.w, rules[k], k, s.shown, s.armedAt, s.armedAt);
      }
  }

  lemma {:induction false} RunKeepsInv(s: Sys, rules: seq<Rule>, steps: seq<Step>)
    requires Inv(s, rules) && CanRun(s, rules, steps)
    ensures Inv(RunFrom(s, rules, steps), rules)
    decreases |steps|
  {
    hide RuleInv, Runs.Logged, After, Enabled;
    if steps != [] {
      StepKeepsInv(s, rules, steps[0]);
      RunKeepsInv(After(s, rules, steps[0]), rules, steps[1..]);
    }
  }

  /** Main result. With events processed any number of times, in any order with sweeps and deletions, each
    * event of a rule still has its evidence: a sequence match an A showing before a B showing, a
    * conjunction match two different events, an absence an A showing after which no B of its partition was
    * shown up to the sweep; always within one partition. */
  lemma EveryDerivedEventIsJustified(rules: seq<Rule>, steps: seq<Step>, id: nat)
    requires CanRun(Empty(), rules, steps)
    requires var events := RunFrom(Empty(), rules, steps).w.store.events;
             id < |events| && (events[id].parent.Some? || events[id].draft.rule.Some?)
    ensures var s := RunFrom(Empty(), rules, steps);
            exists x :: 0 <= x < |s.w.log| && s.w.log[x].event == id && s.w.log[x].rule < |rules|
                        && EmissionOk(s.w, rules[s.w.log[x].rule], s.shown, s.armedAt, s.w.log[x])
  {
    RunKeepsInv(Empty(), rules, steps);
    var s := RunFrom(Empty(), rules, steps);
    var x :| 0 <= x < |s.w.log| && s.w.log[x].event == id;
    assert RuleInv(s.w, rules[s.w.log[x].rule], s.w.log[x].rule, s.shown, s.armedAt);
  }

  /** Main result. Nor does reprocessing arm a rule twice in one partition, derive two events from one
    * instance, or break a cooldown. */
  lemma EngineInvariants(rules: seq<Rule>, steps: seq<Step>, i: nat, j: nat, x: nat, y: nat)
    requires CanRun(Empty(), rules, steps)
    ensures var s := RunFrom(Empty(), rules, steps);
            && (i < j < |s.w.instances| && s.w.instances[i].rule == s.w.instances[j].rule < |rules|
                ==> PairOk(s.w.instances[i], s.w.instances[j]))
            && (x < y < |s.w.log| && s.w.log[x].rule == s.w.log[y].rule
                ==> s.w.log[x].rule < |rules| && ApartOk(rules[s.w.log[x].rule], s.w.log[x], s.w.log[y]))
  {
    RunKeepsInv(Empty(), rules, steps);
    var s := RunFrom(Empty(), rules, steps);
    if i < |s.w.instances| && s.w.instances[i].rule < |rules| {
      assert RuleInv(s.w, rules[s.w.instances[i].rule], s.w.instances[i].rule, s.shown, s.armedAt);
    }
    if x < y < |s.w.log| && s.w.log[x].rule == s.w.log[y].rule {
      assert RuleInv(s.w, rules[s.w.log[x].rule], s.w.log[x].rule, s.shown, s.armedAt);
    }
  }

  // ── An event that matches itself ──

  /** Rule `k` derived an event from one event taken for both of its sides. */
  ghost predicate SelfMatchAt(w: World, k: nat, x: nat) {
    && x < |w.log| && w.log[x].rule == k && w.log[x].instance < |w.instances|
    && w.log[x].event < |w.store.events| && w.store.events[w.log[x].event].parent == w.log[x].cause
    && w.log[x].cause == Some(w.instances[w.log[x].instance].aEvent)
  }

  ghost predicate SelfMatch(w: World, k: nat) {
    exists x: nat :: SelfMatchAt(w, k, x)
  }

  /** Contents an event may have that satisfy both sides. */
  ghost predicate HasBothSides(rule: Rule) {
    exists c: Content :: c.source in EVENT_SOURCES && rule.a(c) && rule.b(c)
  }

  lemma SelfMatchHasBoth(rules: seq<Rule>, steps: seq<Step>, k: nat)
    requires k < |rules| && rules[k].kind.Sequence? && CanRun(Empty(), rules, steps)
    requires SelfMatch(RunFrom(Empty(), rules, steps).w, k)
    ensures HasBothSides(rules[k])
  {
    RunKeepsInv(Empty(), rules, steps);
    var s := RunFrom(Empty(), rules, steps);
    var x: nat :| SelfMatchAt(s.w, k, x);
    assert RuleInv(s.w, rules[k], k, s.shown, s.armedAt);
    assert EmissionOk(s.w, rules[k], s.shown, s.armedAt, s.w.log[x]);
  }

  /** Shown twice: the second showing completes the sequence that the first one armed. */
  lemma ShownTwiceMatchesItself(rules: seq<Rule>, k: nat, c: Content)
    requires k < |rules| && rules[k].kind.Sequence? && c.source in EVENT_SOURCES && rules[k].a(c) && rules[k].b(c)
    ensures var steps := [Arrive(Draft(c, "", None, None), 0), Show(0, 0), Show(0, 0)];
            CanRun(Empty(), rules, steps) && SelfMatch(RunFrom(Empty(), rules, steps).w, k)
  {
    var draft := Draft(c, "", None, None);
    var s1 := After(Empty(), rules, Arrive(draft, 0));
    assert s1.w == World(Store([Event(draft, None, 0, 0, 0)], {}), [], map[], []);
    hide Advance;
    var s2 := After(s1, rules, Show(0, 0));
    FirstShow(s1.w, rules, 0, 0, 0, 0, k);
    var inst := ArmedOn(rules, k, c, 0, 0);
    var i :| Primed(s2.w, k, i, inst);
    var s3 := After(s2, rules, Show(0, 0));
    ShowFires(s2.w, rules, 0, k, i, inst, 0, 0, |s2.shown|);
    InvOfThree(rules, draft);
    var x :| 0 <= x < |s3.w.log| && s3.w.log[x].rule == k && s3.w.log[x].instance == i && s3.w.log[x].cause == Some(0);
    assert RuleInv(s3.w, rules[k], k, s3.shown, s3.armedAt);
    assert EmissionOk(s3.w, rules[k], s3.shown, s3.armedAt, s3.w.log[x]);
    assert SelfMatchAt(s3.w, k, x);
    ThreeSteps(rules, Arrive(draft, 0), Show(0, 0), Show(0, 0));
  }

  lemma InvOfThree(rules: seq<Rule>, draft: Draft)
    requires draft.content.source in EVENT_SOURCES && draft == Draft(draft.content, "", None, None)
    ensures var s1 := After(Empty(), rules, Arrive(draft, 0));
            && Enabled(s1.w, Show(0, 0))
            && var s2 := After(s1, rules, Show(0, 0));
               Enabled(s2.w, Show(0, 0)) && Inv(After(s2, rules, Show(0, 0)), rules)
  {
    hide Advance, RuleInv;
    assert Inv(Empty(), rules) by { EmptyInv(rules); }
    StepKeepsInv(Empty(), rules, Arrive(draft, 0));
    var s1 := After(Empty(), rules, Arrive(draft, 0));
    StepKeepsInv(s1, rules, Show(0, 0));
    StepKeepsInv(After(s1, rules, Show(0, 0)), rules, Show(0, 0));
  }

  lemma EmptyInv(rules: seq<Rule>)
    ensures Inv(Empty(), rules)
  {}

  lemma ThreeSteps(rules: seq<Rule>, a: Step, b: Step, c: Step)
    requires Enabled(Empty().w, a) && Enabled(After(Empty(), rules, a).w, b)
    requires Enabled(After(After(Empty(), rules, a), rules, b).w, c)
    ensures CanRun(Empty(), rules, [a, b, c])
    ensures RunFrom(Empty(), rules, [a, b, c]) == After(After(After(Empty(), rules, a), rules, b), rules, c)
  {
    hide After, Enabled;
    var s1 := After(Empty(), rules, a);
    var s2 := After(s1, rules, b);
    assert [a, b, c][1..] == [b, c] && [b, c][1..] == [c] && [c][1..] == [];
    assert CanRun(After(s2, rules, c), rules, []);
    assert CanRun(s2, rules, [c]) && RunFrom(s2, rules, [c]) == After(s2, rules, c);
    assert CanRun(s1, rules, [b, c]) && RunFrom(s1, rules, [b, c]) == RunFrom(s2, rules, [c]);
  }

  /** Main result, for a sequence among any rules. Some run matches an event with itself if and only if
    * some event can satisfy both sides of the rule. */
  lemma SelfMatchExactly(rules: seq<Rule>, k: nat)
    requires k < |rules| && rules[k].kind.Sequence?
    ensures HasBothSides(rules[k])
            <==> exists steps :: CanRun(Empty(), rules, steps) && SelfMatch(RunFrom(Empty(), rules, steps).w, k)
  {
    hide CanRun, RunFrom, SelfMatch;
    if HasBothSides(rules[k]) {
      var c: Content :| c.source in EVENT_SOURCES && rules[k].a(c) && rules[k].b(c);
      ShownTwiceMatchesItself(rules, k, c);
      var steps := [Arrive(Draft(c, "", None, None), 0), Show(0, 0), Show(0, 0)];
      assert CanRun(Empty(), rules, steps);
    } else {
      forall steps | CanRun(Empty(), rules, steps) ensures !SelfMatch(RunFrom(Empty(), rules, steps).w, k) {
        if SelfMatch(RunFrom(Empty(), rules, steps).w, k) {
          SelfMatchHasBoth(rules, steps, k);
        }
      }
    }
  }

  // ── How many events that makes ──

  /** From `w` to `t`: at most `armed` new instances, and one new log entry for each new derived event. */
  ghost predicate Grows(w: World, t: World, armed: nat, arrived: nat) {
    && |w.instances| <= |t.instances| <= |w.instances| + armed
    && |t.store.events| + |w.log| <= |w.store.events| + |t.log| + arrived && w.log <= t.log
  }

  /** Processing an event once, for the first time or again, derives at most one event per rule. */
  lemma {:induction false} OnePerRuleAndProcessing(w: World, rules: seq<Rule>, k: nat, e: nat, now: nat, seen: nat)
    requires k <= |rules| && Causal(w.store.events) && e < |w.store.events|
    ensures var t := Advance(w, rules, k, e, now, seen);
            && Grows(w, t, |rules| - k, 0)
            && (forall x :: |w.log| <= x < |t.log| ==> k <= t.log[x].rule < |rules|)
            && (forall x, y :: |w.log| <= x < y < |t.log| ==> t.log[x].rule != t.log[y].rule)
    decreases |rules| - k
  {
    hide AdvanceRule;
    if k < |rules| {
      OneRuleGrows(w, rules, k, e, now, seen);
      OnePerRuleAndProcessing(AdvanceRule(w, rules, k, e, now, seen), rules, k + 1, e, now, seen);
    }
  }

  lemma OneRuleGrows(w: World, rules: seq<Rule>, k: nat, e: nat, now: nat, seen: nat)
    requires k < |rules| && Causal(w.store.events) && e < |w.store.events|
    ensures var t := AdvanceRule(w, rules, k, e, now, seen);
            Grows(w, t, 1, 0) && |t.log| <= |w.log| + 1 && forall x :: |w.log| <= x < |t.log| ==> t.log[x].rule == k
  {
    hide CooledDown, Completes;
  }

  lemma {:induction false} ExpireAllGrows(w: World, rules: seq<Rule>, due: seq<nat>, now: nat, seen: nat)
    requires Causal(w.store.events) && forall i :: i in due ==> i < |w.instances|
    ensures Grows(w, ExpireAll(w, rules, due, now, seen), 0, 0)
    decreases |due|
  {
    if due != [] {
      hide CooledDown;
      assert due[0] in due && forall i :: i in due[1..] ==> i in due;
      var t := ExpireOne(w, rules, due[0], now, seen);
      assert Grows(w, t, 0, 0);
      ExpireAllGrows(t, rules, due[1..], now, seen);
    }
  }

  lemma StepGrows(s: Sys, rules: seq<Rule>, step: Step)
    requires Causal(s.w.store.events) && Enabled(s.w, step)
    ensures Grows(s.w, After(s, rules, step).w, if step.Show? then |rules| else 0, if step.Arrive? then 1 else 0)
  {
    hide Advance, ExpireAll, Guard;
    match step
    case Show(e, at) => OnePerRuleAndProcessing(s.w, rules, 0, e, at, |s.shown|);
    case Timer(at) =>
      DueIsExact(s.w.instances, at, 0);
      ExpireAllGrows(s.w.(instances := AllExpired(s.w.instances, at)), rules, DueFrom(s.w.instances, at, 0), at, |s.shown|);
    case _ =>
  }

  lemma {:induction false} RunGrows(s: Sys, rules: seq<Rule>, steps: seq<Step>)
    requires Causal(s.w.store.events) && CanRun(s, rules, steps)
    ensures Grows(s.w, RunFrom(s, rules, steps).w, |rules| * Shows(steps), Arrivals(steps))
    decreases |steps|
  {
    hide After, Enabled;
    if steps != [] {
      StepGrows(s, rules, steps[0]);
      RunGrows(After(s, rules, steps[0]), rules, steps[1..]);
      assert |rules| * (1 + Shows(steps[1..])) == |rules| + |rules| * Shows(steps[1..]);
    }
  }

  lemma LogFits(w: World, rules: seq<Rule>, shown: seq<nat>, armedAt: seq<nat>)
    requires Runs.Logged(w, |rules|) && forall k :: 0 <= k < |rules| ==> RuleInv(w, rules[k], k, shown, armedAt)
    ensures |w.log| <= |w.instances|
  {
    forall x | 0 <= x < |w.log| ensures EmissionOk(w, rules[w.log[x].rule], shown, armedAt, w.log[x]) {
      assert RuleInv(w, rules[w.log[x].rule], w.log[x].rule, shown, armedAt);
    }
    forall x, y | 0 <= x < y < |w.log| ensures w.log[x].instance != w.log[y].instance {
      assert w.log[x].rule == w.log[y].rule ==> ApartOk(rules[w.log[x].rule], w.log[x], w.log[y]);
    }
    Bounds.DistinctFits(seq(|w.log|, x requires 0 <= x < |w.log| => w.log[x].instance), |w.instances|);
  }

  /** Main result. Reclaimed events included: all events are the ones that arrived and at most one more per
    * rule and processing, each derived from an instance of its own. */
  lemma DerivedEventsAreBounded(rules: seq<Rule>, steps: seq<Step>)
    requires CanRun(Empty(), rules, steps)
    ensures |RunFrom(Empty(), rules, steps).w.store.events| <= Arrivals(steps) + |rules| * Shows(steps)
  {
    RunGrows(Empty(), rules, steps);
    RunKeepsInv(Empty(), rules, steps);
    var t := RunFrom(Empty(), rules, steps);
    LogFits(t.w, rules, t.shown, t.armedAt);
  }

  // ── Runs that process each event once ──

  function StepOf(a: Runs.Action): Step {
    match a
    case External(draft, at) => Arrive(draft, at)
    case Process(e, at) => Show(e, at)
    case SweepTick(at) => Timer(at)
    case Delete(e, _) => Remove(e)
  }

  function StepsOf(acts: seq<Runs.Action>): seq<Step> {
    if acts == [] then [] else [StepOf(acts[0])] + StepsOf(acts[1..])
  }

  /** Main result. Whatever holds with events processed any number of times holds of the loop that processes
    * each once: every run of it is a run here, step by step, and ends in the same world. */
  lemma {:induction false} PlainRunsAreRuns(cfg: Runs.Config, rules: seq<Rule>, plain: Runs.Sys, s: Sys, acts: seq<Runs.Action>)
    requires Runs.Inv(cfg, rules, plain) && Runs.CanRun(cfg, rules, plain, acts)
    requires Causal(s.w.store.events) && s.w == plain.w && s.shown == plain.processed
    ensures CanRun(s, rules, StepsOf(acts))
    ensures var t := RunFrom(s, rules, StepsOf(acts));
            t.w == Runs.RunFrom(cfg, rules, plain, acts).w && t.shown == Runs.RunFrom(cfg, rules, plain, acts).processed
    decreases |acts|
  {
    hide Runs.Inv, Causal;
    if acts != [] {
      Runs.StepKeepsInv(cfg, rules, plain, acts[0]);
      assert ([StepOf(acts[0])] + StepsOf(acts[1..]))[1..] == StepsOf(acts[1..]);
      PlainRunsAreRuns(cfg, rules, Runs.Apply(rules, plain, acts[0]), After(s, rules, StepOf(acts[0])), acts[1..]);
    }
  }
}

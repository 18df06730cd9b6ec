/** What the pattern engine guarantees over whole runs: every event is processed once, external
  * events arrive and the timer sweeps at any moment, derived events are fed back in, and retention
  * deletes what is old.
  */
module PatternRuns {
  import opened Options
  import opened EventStoreModel
  import opened PatternsModel

  // ── What one rule keeps, given the events it has been shown (`hist`) ──

  /** Since `from` was processed, no event of the partition satisfied the rule's B side. */
  ghost predicate Quiet(w: World, rule: Rule, hist: seq<nat>, from: nat, partition: string) {
    forall i, j :: 0 <= i < j < |hist| && hist[i] == from && hist[j] < |w.store.events|
                   && rule.partition(ContentOf(w, hist[j])) == partition
                   ==> !rule.b(ContentOf(w, hist[j]))
  }

  ghost predicate Before(hist: seq<nat>, a: nat, b: nat) {
    exists i, j :: 0 <= i < j < |hist| && hist[i] == a && hist[j] == b
  }

  ghost predicate InstanceOk(w: World, rule: Rule, hist: seq<nat>, inst: Instance) {
    && inst.aEvent < |w.store.events| && inst.aEvent in hist
    && inst.partition == rule.partition(ContentOf(w, inst.aEvent))
    && !rule.kind.OtherKind?
    && (if rule.kind.Conjunction? then rule.a(ContentOf(w, inst.aEvent)) || rule.b(ContentOf(w, inst.aEvent))
        else rule.a(ContentOf(w, inst.aEvent)))
    && (inst.state == Armed && rule.kind.Absence? ==> Quiet(w, rule, hist, inst.aEvent, inst.partition))
  }

  /** Two instances of one rule: different arming events, and not both armed in one partition. */
  ghost predicate PairOk(a: Instance, b: Instance) {
    && a.aEvent != b.aEvent
    && (a.partition == b.partition ==> !(a.state == Armed && b.state == Armed))
  }

  /** The evidence a derived event must have. A conjunction can only show both sides, and an absence only
    * name its cause, while the event that armed it is kept. */
  ghost predicate Justified(w: World, rule: Rule, hist: seq<nat>, inst: Instance, x: Emission)
    requires inst.aEvent < |w.store.events| && (x.cause.Some? ==> x.cause.value < |w.store.events|)
  {
    var first := ContentOf(w, inst.aEvent);
    match rule.kind
    case OtherKind => false
    case Sequence =>
      && inst.state == Matched && x.cause.Some? && x.cause.value != inst.aEvent
      && Before(hist, inst.aEvent, x.cause.value)
      && var last := ContentOf(w, x.cause.value);
      && rule.a(first) && rule.b(last) && rule.partition(first) == rule.partition(last) == x.partition
    case Conjunction =>
      && inst.state == Matched && x.cause.Some? && x.cause.value != inst.aEvent
      && var last := ContentOf(w, x.cause.value);
      && (rule.a(first) || rule.b(first)) && (rule.a(last) || rule.b(last))
      && (if x.kept then (rule.a(first) && rule.b(last)) || (rule.b(first) && rule.a(last)) else rule.a(last))
      && rule.partition(first) == rule.partition(last) == x.partition
    case Absence =>
      && inst.state == Expired && x.cause == (if x.kept then Some(inst.aEvent) else None)
      && x.seen <= |hist| && inst.aEvent in hist[..x.seen]
      && rule.a(first) && rule.partition(first) == x.partition
      && Quiet(w, rule, hist[..x.seen], inst.aEvent, x.partition)
  }

  ghost predicate EmissionOk(w: World, rule: Rule, hist: seq<nat>, x: Emission) {
    && x.instance < |w.instances| && x.event < |w.store.events|
    && (x.cause.Some? ==> x.cause.value < |w.store.events| && x.cause.value in hist)
    && w.store.events[x.event].parent == x.cause && w.store.events[x.event].draft.rule == Some(x.rule)
    && (x.rule, x.partition) in w.recent && x.at <= w.recent[(x.rule, x.partition)]
    && var inst := w.instances[x.instance];
    && inst.rule == x.rule && inst.partition == x.partition && inst.aEvent < |w.store.events|
    && inst.state != Armed
    && Justified(w, rule, hist, inst, x)
  }

  /** Two derived events of one rule: different instances, different causes, a cooldown apart. */
  ghost predicate ApartOk(rule: Rule, x: Emission, y: Emission) {
    && x.instance != y.instance && (x.cause.Some? ==> x.cause != y.cause)
    && (x.partition == y.partition ==> x.at + rule.cooldown <= y.at)
  }

  ghost predicate RuleInv(w: World, rule: Rule, k: nat, hist: seq<nat>) {
    && (forall i :: 0 <= i < |w.instances| && w.instances[i].rule == k ==> InstanceOk(w, rule, hist, w.instances[i]))
    && (forall i, j :: 0 <= i < j < |w.instances| && w.instances[i].rule == w.instances[j].rule == k
                       ==> PairOk(w.instances[i], w.instances[j]))
    && (forall x :: 0 <= x < |w.log| && w.log[x].rule == k ==> EmissionOk(w, rule, hist, w.log[x]))
    && (forall x, y :: 0 <= x < y < |w.log| && w.log[x].rule == w.log[y].rule == k
                       ==> ApartOk(rule, w.log[x], w.log[y]))
  }

  // ── Steps of other rules leave it alone ──

  /** `t` differs from `w` only in what belongs to rules other than `k`. */
  ghost predicate Frame(w: World, t: World, k: nat) {
    && w.store.events <= t.store.events
    && |w.instances| <= |t.instances| && w.log <= t.log
    && (forall i :: 0 <= i < |t.instances| && t.instances[i].rule == k
          ==> i < |w.instances| && t.instances[i] == w.instances[i])
    && (forall i :: 0 <= i < |w.instances| && w.instances[i].rule == k ==> t.instances[i] == w.instances[i])
    && (forall x :: |w.log| <= x < |t.log| ==> t.log[x].rule != k)
    && (forall p :: (k, p) in t.recent <==> (k, p) in w.recent)
    && (forall p :: (k, p) in w.recent ==> t.recent[(k, p)] == w.recent[(k, p)])
  }

  lemma QuietIsStable(w: World, t: World, rule: Rule, hist: seq<nat>, from: nat, p: string)
    requires w.store.events <= t.store.events && forall i :: i in hist ==> i < |w.store.events|
    ensures Quiet(w, rule, hist, from, p) <==> Quiet(t, rule, hist, from, p)
  {
    forall j | 0 <= j < |hist|
      ensures hist[j] < |w.store.events| && ContentOf(t, hist[j]) == ContentOf(w, hist[j])
    {
      assert hist[j] in hist;
    }
  }

  lemma EvidenceIsStable(w: World, t: World, rule: Rule, k: nat, hist: seq<nat>, x: Emission)
    requires Frame(w, t, k) && EmissionOk(w, rule, hist, x) && x.rule == k
    requires forall i :: i in hist ==> i < |w.store.events|
    ensures EmissionOk(t, rule, hist, x)
  {
    if rule.kind.Absence? {
      var seen := hist[..x.seen];
      assert forall i :: i in seen ==> i in hist;
      QuietIsStable(w, t, rule, seen, w.instances[x.instance].aEvent, x.partition);
    }
  }

  lemma FrameKeepsRule(w: World, t: World, rule: Rule, k: nat, hist: seq<nat>)
    requires Frame(w, t, k) && RuleInv(w, rule, k, hist)
    requires forall i :: i in hist ==> i < |w.store.events|
    ensures RuleInv(t, rule, k, hist)
  {
    forall x | 0 <= x < |t.log| && t.log[x].rule == k
      ensures EmissionOk(t, rule, hist, t.log[x])
    {
      EvidenceIsStable(w, t, rule, k, hist, t.log[x]);
    }
    forall i | 0 <= i < |t.instances| && t.instances[i].rule == k
      ensures InstanceOk(t, rule, hist, t.instances[i])
    {
      assert InstanceOk(w, rule, hist, w.instances[i]);
      QuietIsStable(w, t, rule, hist, w.instances[i].aEvent, w.instances[i].partition);
    }
  }

  lemma FireFrames(w: World, k: nat, p: string, i: nat, cause: Option<nat>, kind: string, now: nat, seen: nat, other: nat)
    requires Causal(w.store.events) && (cause.Some? ==> cause.value < |w.store.events|) && other != k
    ensures Frame(w, Fire(w, k, p, i, cause, kind, now, seen), other)
  {}

  lemma AdvanceFrames(w: World, rules: seq<Rule>, k: nat, e: nat, now: nat, seen: nat, other: nat)
    requires k < |rules| && Causal(w.store.events) && e < |w.store.events| && other != k
    ensures Frame(w, AdvanceRule(w, rules, k, e, now, seen), other)
  {
    hide Fire, CooledDown, Completes;
    var p := rules[k].partition(ContentOf(w, e));
    var armed := ArmedFrom(w.instances, k, p, 0);
    if armed.Some? {
      FireFrames(WithState(w, armed.value, Matched), k, p, armed.value, Some(e), "pattern_matched", now, seen, other);
    }
  }

  // ── The rule's own steps ──

  /** Showing the rule an event that satisfies no armed absence's B side. */
  lemma HistoryGrows(w: World, rule: Rule, k: nat, hist: seq<nat>, e: nat)
    requires RuleInv(w, rule, k, hist) && e < |w.store.events|
    requires forall i :: 0 <= i < |w.instances| && w.instances[i].rule == k && w.instances[i].state == Armed
               && rule.kind.Absence? && w.instances[i].partition == rule.partition(ContentOf(w, e))
               ==> !rule.b(ContentOf(w, e))
    ensures RuleInv(w, rule, k, hist + [e])
  {
    var grown := hist + [e];
    forall i | 0 <= i < |w.instances| && w.instances[i].rule == k
      ensures InstanceOk(w, rule, grown, w.instances[i])
    {
      assert InstanceOk(w, rule, hist, w.instances[i]);
    }
    forall x | 0 <= x < |w.log| && w.log[x].rule == k
      ensures EmissionOk(w, rule, grown, w.log[x])
    {
      EvidenceOutlives(w, rule, hist, e, w.log[x]);
    }
  }

  lemma EvidenceOutlives(w: World, rule: Rule, hist: seq<nat>, e: nat, x: Emission)
    requires EmissionOk(w, rule, hist, x)
    ensures EmissionOk(w, rule, hist + [e], x)
  {
    var grown, inst := hist + [e], w.instances[x.instance];
    if rule.kind.Absence? {
      assert grown[..x.seen] == hist[..x.seen];
    } else if rule.kind.Sequence? {
      var i, j :| 0 <= i < j < |hist| && hist[i] == inst.aEvent && hist[j] == x.cause.value;
      assert grown[i] == inst.aEvent && grown[j] == x.cause.value;
    }
  }

  lemma ArmKeepsRule(w: World, rule: Rule, k: nat, hist: seq<nat>, e: nat, deadline: nat)
    requires RuleInv(w, rule, k, hist + [e]) && e < |w.store.events| && e !in hist
    requires forall i :: 0 <= i < |w.instances| && w.instances[i].rule == k ==> w.instances[i].aEvent in hist
    requires ArmedFrom(w.instances, k, rule.partition(ContentOf(w, e)), 0).None?
    requires !rule.kind.OtherKind?
    requires if rule.kind.Conjunction? then rule.a(ContentOf(w, e)) || rule.b(ContentOf(w, e)) else rule.a(ContentOf(w, e))
    ensures RuleInv(Arm(w, k, rule.partition(ContentOf(w, e)), e, deadline), rule, k, hist + [e])
  {
    var p := rule.partition(ContentOf(w, e));
    var t := Arm(w, k, p, e, deadline);
    var grown := hist + [e];
    assert grown[|hist|] == e;
    assert forall i :: 0 <= i < |grown| && grown[i] == e ==> i == |hist|;
    forall i | 0 <= i < |t.instances| && t.instances[i].rule == k
      ensures InstanceOk(t, rule, grown, t.instances[i])
    {
      if i < |w.instances| {
        assert InstanceOk(w, rule, grown, w.instances[i]);
        QuietIsSame(w, t, rule, grown, w.instances[i].aEvent, w.instances[i].partition);
      }
    }
    forall x | 0 <= x < |t.log| && t.log[x].rule == k
      ensures EmissionOk(t, rule, grown, t.log[x])
    {
      assert EmissionOk(w, rule, grown, w.log[x]);
      QuietIsSame(w, t, rule, grown[..if w.log[x].seen <= |grown| then w.log[x].seen else 0],
                  w.instances[w.log[x].instance].aEvent, w.log[x].partition);
    }
  }

  lemma QuietIsSame(w: World, t: World, rule: Rule, hist: seq<nat>, from: nat, p: string)
    requires w.store == t.store
    ensures Quiet(w, rule, hist, from, p) <==> Quiet(t, rule, hist, from, p)
  {}

  /** Disarming an armed instance: nothing was derived from it yet. */
  lemma DisarmKeepsRule(w: World, rule: Rule, k: nat, hist: seq<nat>, i: nat, state: InstanceState)
    requires RuleInv(w, rule, k, hist) && i < |w.instances| && state != Armed
    requires w.instances[i].rule == k && w.instances[i].state == Armed
    ensures RuleInv(WithState(w, i, state), rule, k, hist)
    ensures forall x :: 0 <= x < |w.log| && w.log[x].rule == k ==> w.log[x].instance != i
  {
    var t := WithState(w, i, state);
    forall x | 0 <= x < |w.log| && w.log[x].rule == k
      ensures w.log[x].instance != i && EmissionOk(t, rule, hist, t.log[x])
    {
      assert EmissionOk(w, rule, hist, w.log[x]);
      QuietIsSame(w, t, rule, hist[..if w.log[x].seen <= |hist| then w.log[x].seen else 0],
                  w.instances[w.log[x].instance].aEvent, w.log[x].partition);
    }
    forall j | 0 <= j < |t.instances| && t.instances[j].rule == k
      ensures InstanceOk(t, rule, hist, t.instances[j])
    {
      assert InstanceOk(w, rule, hist, w.instances[j]);
      QuietIsSame(w, t, rule, hist, w.instances[j].aEvent, w.instances[j].partition);
    }
  }

  /** A derived event with its evidence, from an instance and a cause nothing was derived from. */
  lemma FireKeepsRule(w: World, rules: seq<Rule>, k: nat, hist: seq<nat>, i: nat, cause: Option<nat>, kind: string, now: nat, seen: nat)
    requires k < |rules| && RuleInv(w, rules[k], k, hist) && Causal(w.store.events)
    requires i < |w.instances| && w.instances[i].rule == k && w.instances[i].state != Armed
    requires cause.Some? ==> cause.value < |w.store.events| && cause.value in hist
    requires forall h :: h in hist ==> h < |w.store.events|
    requires CooledDown(w, rules, k, w.instances[i].partition, now)
    requires (k, w.instances[i].partition) in w.recent ==> w.recent[(k, w.instances[i].partition)] <= now
    requires forall x :: 0 <= x < |w.log| && w.log[x].rule == k ==> w.log[x].instance != i
    requires forall x :: 0 <= x < |w.log| && w.log[x].rule == k && w.log[x].cause.Some? ==> w.log[x].cause != cause
    requires w.instances[i].aEvent < |w.store.events|
    requires Justified(w, rules[k], hist, w.instances[i],
                       Emission(k, w.instances[i].partition, i, cause, |w.store.events|, now, seen, Kept(w, i)))
    ensures RuleInv(Fire(w, k, w.instances[i].partition, i, cause, kind, now, seen), rules[k], k, hist)
  {
    var p := w.instances[i].partition;
    var t := Fire(w, k, p, i, cause, kind, now, seen);
    if t != w {
      FiredIsOk(w, rules, k, hist, i, cause, kind, now, seen);
      hide Justified, Quiet, Fire;
      forall x | 0 <= x < |w.log| && w.log[x].rule == k
        ensures EmissionOk(t, rules[k], hist, t.log[x]) && ApartOk(rules[k], t.log[x], t.log[|w.log|])
      {
        assert EmissionOk(w, rules[k], hist, w.log[x]);
        EvidenceSurvivesAppend(w, t, rules[k], k, hist, w.log[x]);
      }
      forall j | 0 <= j < |t.instances| && t.instances[j].rule == k
        ensures InstanceOk(t, rules[k], hist, t.instances[j])
      {
        assert InstanceOk(w, rules[k], hist, w.instances[j]);
        QuietIsStable(w, t, rules[k], hist, w.instances[j].aEvent, w.instances[j].partition);
      }
    }
  }

  lemma FiredIsOk(w: World, rules: seq<Rule>, k: nat, hist: seq<nat>, i: nat, cause: Option<nat>, kind: string, now: nat, seen: nat)
    requires k < |rules| && Causal(w.store.events)
    requires i < |w.instances| && w.instances[i].rule == k && w.instances[i].state != Armed
    requires cause.Some? ==> cause.value < |w.store.events| && cause.value in hist
    requires forall h :: h in hist ==> h < |w.store.events|
    requires w.instances[i].aEvent < |w.store.events|
    requires Justified(w, rules[k], hist, w.instances[i],
                       Emission(k, w.instances[i].partition, i, cause, |w.store.events|, now, seen, Kept(w, i)))
    ensures var t := Fire(w, k, w.instances[i].partition, i, cause, kind, now, seen);
            t != w ==>
              && |t.log| == |w.log| + 1 && w.log <= t.log && t.instances == w.instances
              && EmissionOk(t, rules[k], hist, t.log[|w.log|])
              && var y := t.log[|w.log|];
              && y.rule == k && y.instance == i && y.cause == cause && y.at == now
              && y.partition == w.instances[i].partition
              && t.recent == w.recent[(k, y.partition) := now]
  {
    var p := w.instances[i].partition;
    var t := Fire(w, k, p, i, cause, kind, now, seen);
    if t != w && rules[k].kind.Absence? {
      var y := t.log[|w.log|];
      assert forall h :: h in hist[..y.seen] ==> h in hist;
      QuietIsStable(w, t, rules[k], hist[..y.seen], w.instances[i].aEvent, p);
    }
  }

  lemma EvidenceSurvivesAppend(w: World, t: World, rule: Rule, k: nat, hist: seq<nat>, x: Emission)
    requires EmissionOk(w, rule, hist, x) && w.store.events <= t.store.events && t.instances == w.instances
    requires forall h :: h in hist ==> h < |w.store.events|
    requires (x.rule, x.partition) in t.recent && w.recent[(x.rule, x.partition)] <= t.recent[(x.rule, x.partition)]
    ensures EmissionOk(t, rule, hist, x)
  {
    if rule.kind.Absence? {
      assert forall h :: h in hist[..x.seen] ==> h in hist;
      QuietIsStable(w, t, rule, hist[..x.seen], w.instances[x.instance].aEvent, x.partition);
    }
  }

  /** What a run knows about the world when it feeds event `e`: every id it has seen is stored, and the
    * cooldown clock is not ahead. */
  ghost predicate Ready(w: World, hist: seq<nat>, now: nat) {
    && Causal(w.store.events) && Sourced(w.store.events)
    && (forall h :: h in hist ==> h < |w.store.events|)
    && (forall key :: key in w.recent ==> w.recent[key] <= now)
  }

  lemma AdvanceKeepsReady(w: World, rules: seq<Rule>, k: nat, hist: seq<nat>, e: nat, now: nat, seen: nat)
    requires k < |rules| && Ready(w, hist, now) && e < |w.store.events|
    ensures Ready(AdvanceRule(w, rules, k, e, now, seen), hist, now)
  {}

  /** A match by the armed instance `i`, whose evidence the new event completes. */
  lemma MatchKeepsRule(w: World, rules: seq<Rule>, k: nat, hist: seq<nat>, i: nat, e: nat, now: nat, seen: nat)
    requires k < |rules| && Ready(w, hist, now) && e !in hist && e < |w.store.events|
    requires RuleInv(w, rules[k], k, hist) && RuleInv(w, rules[k], k, hist + [e])
    requires i < |w.instances| && w.instances[i].rule == k && w.instances[i].state == Armed
    requires w.instances[i].partition == rules[k].partition(ContentOf(w, e))
    requires rules[k].kind.Sequence? || rules[k].kind.Conjunction?
    requires rules[k].kind.Sequence? ==> rules[k].b(ContentOf(w, e))
    requires rules[k].kind.Conjunction? ==> Completes(w, rules[k], w.instances[i].aEvent, ContentOf(w, e))
    ensures RuleInv(MatchAndFire(w, rules, k, w.instances[i].partition, i, e, now, seen), rules[k], k, hist + [e])
  {
    var rule, inst, grown := rules[k], w.instances[i], hist + [e];
    var m := WithState(w, i, Matched);
    assert InstanceOk(w, rule, hist, inst);
    DisarmKeepsRule(w, rule, k, grown, i, Matched);
    forall x | 0 <= x < |m.log| && m.log[x].rule == k
      ensures m.log[x].instance != i && m.log[x].cause != Some(e)
    {
      assert EmissionOk(w, rule, hist, w.log[x]);
    }
    if CooledDown(w, rules, k, inst.partition, now) {
      var at := IndexOf(hist, inst.aEvent);
      assert grown[at] == inst.aEvent && grown[|hist|] == e;
      assert Before(grown, inst.aEvent, e);
      FireKeepsRule(m, rules, k, grown, i, Some(e), "pattern_matched", now, seen);
    }
  }

  ghost function IndexOf(hist: seq<nat>, e: nat): (i: nat)
    requires e in hist
    ensures i < |hist| && hist[i] == e
  {
    var i :| 0 <= i < |hist| && hist[i] == e;
    i
  }

  lemma ArmersWereSeen(w: World, rule: Rule, k: nat, hist: seq<nat>)
    requires RuleInv(w, rule, k, hist)
    ensures forall i :: 0 <= i < |w.instances| && w.instances[i].rule == k ==> w.instances[i].aEvent in hist
  {
    forall i | 0 <= i < |w.instances| && w.instances[i].rule == k
      ensures w.instances[i].aEvent in hist
    {
      assert InstanceOk(w, rule, hist, w.instances[i]);
    }
  }

  /** The armed absence sees its B and is disarmed; no other is armed in the partition. */
  lemma AbsenceIsAnswered(w: World, rule: Rule, k: nat, hist: seq<nat>, i: nat, e: nat)
    requires RuleInv(w, rule, k, hist) && e < |w.store.events| && i < |w.instances|
    requires w.instances[i].rule == k && w.instances[i].state == Armed
    requires w.instances[i].partition == rule.partition(ContentOf(w, e))
    ensures RuleInv(WithState(w, i, Expired), rule, k, hist + [e])
  {
    var t := WithState(w, i, Expired);
    DisarmKeepsRule(w, rule, k, hist, i, Expired);
    forall j | 0 <= j < |t.instances| && t.instances[j].rule == k && t.instances[j].partition == w.instances[i].partition
      ensures t.instances[j].state != Armed
    {
      assert j < i ==> PairOk(w.instances[j], w.instances[i]);
      assert i < j ==> PairOk(w.instances[i], w.instances[j]);
    }
    HistoryGrows(t, rule, k, hist, e);
  }

  lemma AdvanceOwnRule(w: World, rules: seq<Rule>, k: nat, hist: seq<nat>, e: nat, now: nat, seen: nat)
    requires k < |rules| && Ready(w, hist, now) && e !in hist && e < |w.store.events|
    requires RuleInv(w, rules[k], k, hist)
    ensures RuleInv(AdvanceRule(w, rules, k, e, now, seen), rules[k], k, hist + [e])
  {
    hide RuleInv, MatchAndFire, Completes;
    var rule, c := rules[k], ContentOf(w, e);
    var p := rule.partition(c);
    var armed := ArmedFrom(w.instances, k, p, 0);
    ArmersWereSeen(w, rule, k, hist);
    if armed.Some? && rule.kind.Absence? && rule.b(c) {
      AbsenceIsAnswered(w, rule, k, hist, armed.value, e);
    } else {
      HistoryGrows(w, rule, k, hist, e);
      if armed.None? {
        if !rule.kind.OtherKind? && (rule.a(c) || (rule.kind.Conjunction? && rule.b(c))) {
          ArmKeepsRule(w, rule, k, hist, e, now + rule.window);
        }
      } else if (rule.kind.Sequence? && rule.b(c))
             || (rule.kind.Conjunction? && Completes(w, rule, w.instances[armed.value].aEvent, c)) {
        MatchKeepsRule(w, rules, k, hist, armed.value, e, now, seen);
      }
    }
  }

  /** Feeding one event to every rule shows it to each of them exactly once. */
  lemma {:induction false} AdvanceKeepsRule(w: World, rules: seq<Rule>, from: nat, k: nat, hist: seq<nat>, e: nat,
                                            now: nat, seen: nat)
    requires from <= |rules| && k < |rules| && Ready(w, hist, now) && e !in hist && e < |w.store.events|
    requires RuleInv(w, rules[k], k, if from <= k then hist else hist + [e])
    ensures RuleInv(Advance(w, rules, from, e, now, seen), rules[k], k, hist + [e])
    ensures Ready(Advance(w, rules, from, e, now, seen), hist, now)
    decreases |rules| - from
  {
    hide RuleInv, AdvanceRule, Frame;
    if from < |rules| {
      var t := AdvanceRule(w, rules, from, e, now, seen);
      AdvanceKeepsReady(w, rules, from, hist, e, now, seen);
      if from == k {
        AdvanceOwnRule(w, rules, k, hist, e, now, seen);
      } else {
        AdvanceFrames(w, rules, from, e, now, seen, k);
        FrameKeepsRule(w, t, rules[k], k, if from <= k then hist else hist + [e]);
      }
      AdvanceKeepsRule(t, rules, from + 1, k, hist, e, now, seen);
    }
  }

  // ── The sweep ──

  /** An instance the sweep has just expired and whose derived event is still to come. */
  ghost predicate Unfired(w: World, rule: Rule, k: nat, hist: seq<nat>, i: nat) {
    && i < |w.instances|
    && (w.instances[i].rule == k && rule.kind.Absence? ==>
          && w.instances[i].state == Expired
          && Quiet(w, rule, hist, w.instances[i].aEvent, w.instances[i].partition)
          && forall x :: 0 <= x < |w.log| && w.log[x].rule == k ==> w.log[x].instance != i)
  }

  lemma MarkingKeepsRule(w: World, rule: Rule, k: nat, hist: seq<nat>, now: nat)
    requires RuleInv(w, rule, k, hist)
    ensures var t := w.(instances := AllExpired(w.instances, now));
            && RuleInv(t, rule, k, hist)
            && forall i :: i in DueFrom(w.instances, now, 0) ==> Unfired(t, rule, k, hist, i)
  {
    var t := w.(instances := AllExpired(w.instances, now));
    DueIsExact(w.instances, now, 0);
    forall i | 0 <= i < |t.instances| && t.instances[i].rule == k
      ensures InstanceOk(t, rule, hist, t.instances[i])
      ensures w.instances[i].state == Armed && rule.kind.Absence?
              ==> Quiet(t, rule, hist, t.instances[i].aEvent, t.instances[i].partition)
    {
      assert InstanceOk(w, rule, hist, w.instances[i]);
      QuietIsSame(w, t, rule, hist, w.instances[i].aEvent, w.instances[i].partition);
    }
    forall x | 0 <= x < |t.log| && t.log[x].rule == k
      ensures EmissionOk(t, rule, hist, t.log[x]) && w.instances[t.log[x].instance].state != Armed
    {
      var e := w.log[x];
      assert EmissionOk(w, rule, hist, e) && t.instances[e.instance] == w.instances[e.instance];
      QuietIsSame(w, t, rule, hist[..if e.seen <= |hist| then e.seen else 0], w.instances[e.instance].aEvent, e.partition);
    }
    forall i, j | 0 <= i < j < |t.instances| && t.instances[i].rule == t.instances[j].rule == k
      ensures PairOk(t.instances[i], t.instances[j])
    {
      assert PairOk(w.instances[i], w.instances[j]);
    }
  }

  lemma ExpireOneKeepsRule(w: World, rules: seq<Rule>, k: nat, hist: seq<nat>, i: nat, now: nat)
    requires k < |rules| && Ready(w, hist, now) && RuleInv(w, rules[k], k, hist) && Unfired(w, rules[k], k, hist, i)
    ensures var t := ExpireOne(w, rules, i, now, |hist|); RuleInv(t, rules[k], k, hist) && Ready(t, hist, now)
  {
    var inst := w.instances[i];
    if inst.rule < |rules| && rules[inst.rule].kind.Absence? && CooledDown(w, rules, inst.rule, inst.partition, now) {
      var cause := if Visible(w.store, inst.aEvent).Some? then Some(inst.aEvent) else None;
      if inst.rule == k {
        assert InstanceOk(w, rules[k], hist, inst);
        assert hist[..|hist|] == hist;
        forall x | 0 <= x < |w.log| && w.log[x].rule == k
          ensures w.log[x].cause != Some(inst.aEvent)
        {
          assert EmissionOk(w, rules[k], hist, w.log[x]);
          var j := w.log[x].instance;
          if j < i {
            assert PairOk(w.instances[j], inst);
          } else {
            assert PairOk(inst, w.instances[j]);
          }
        }
        FireKeepsRule(w, rules, k, hist, i, cause, "pattern_absence", now, |hist|);
      } else {
        FireFrames(w, inst.rule, inst.partition, i, cause, "pattern_absence", now, |hist|, k);
        FrameKeepsRule(w, ExpireOne(w, rules, i, now, |hist|), rules[k], k, hist);
      }
    }
  }

  lemma ExpireOneKeepsUnfired(w: World, rules: seq<Rule>, k: nat, hist: seq<nat>, i: nat, j: nat, now: nat)
    requires k < |rules| && Ready(w, hist, now) && i < |w.instances| && i != j
    requires Unfired(w, rules[k], k, hist, j)
    ensures Unfired(ExpireOne(w, rules, i, now, |hist|), rules[k], k, hist, j)
  {
    QuietIsStable(w, ExpireOne(w, rules, i, now, |hist|), rules[k], hist, w.instances[j].aEvent, w.instances[j].partition);
  }

  lemma {:induction false} ExpireAllKeepsRule(w: World, rules: seq<Rule>, k: nat, hist: seq<nat>, due: seq<nat>, now: nat)
    requires k < |rules| && Ready(w, hist, now) && RuleInv(w, rules[k], k, hist) && Distinct(due)
    requires forall i :: i in due ==> i < |w.instances| && Unfired(w, rules[k], k, hist, i)
    ensures var t := ExpireAll(w, rules, due, now, |hist|); RuleInv(t, rules[k], k, hist) && Ready(t, hist, now)
    decreases |due|
  {
    hide RuleInv, ExpireOne;
    if due != [] {
      assert due[0] in due && forall i :: i in due[1..] ==> i in due;
      ExpireOneKeepsRule(w, rules, k, hist, due[0], now);
      forall i | i in due[1..]
        ensures Unfired(ExpireOne(w, rules, due[0], now, |hist|), rules[k], k, hist, i)
      {
        ExpireOneKeepsUnfired(w, rules, k, hist, due[0], i, now);
      }
      ExpireAllKeepsRule(ExpireOne(w, rules, due[0], now, |hist|), rules, k, hist, due[1..], now);
    }
  }

  lemma SweepKeepsRule(w: World, rules: seq<Rule>, k: nat, hist: seq<nat>, now: nat)
    requires k < |rules| && Ready(w, hist, now) && RuleInv(w, rules[k], k, hist)
    ensures var t := Sweep(w, rules, now, |hist|); RuleInv(t, rules[k], k, hist) && Ready(t, hist, now)
  {
    hide RuleInv, ExpireAll;
    MarkingKeepsRule(w, rules[k], k, hist, now);
    DueIsExact(w.instances, now, 0);
    ExpireAllKeepsRule(w.(instances := AllExpired(w.instances, now)), rules, k, hist, DueFrom(w.instances, now, 0), now);
  }

  // ── Runs ──

  /** How long the event table keeps events, and how promptly the loop works: an event is processed within
    * `delay` seconds of its arrival, and no two sweeps lie further apart than `lag`. */
  datatype Config = Config(retention: nat, delay: nat, lag: nat)

  datatype Action =
    | External(draft: Draft, at: nat)
    | Process(e: nat, at: nat)
    | SweepTick(at: nat)
    | Delete(e: nat, at: nat)

  datatype Sys = Sys(w: World, processed: seq<nat>, clock: nat, lastSweep: nat)

  function Begin(): Sys {
    Sys(World(Store([], {}), [], map[], []), [], 0, 0)
  }

  /** External events name no cause and no rule; each event is processed once; and retention deletes
    * processed events that have left its window. */
  predicate Enabled(cfg: Config, s: Sys, a: Action) {
    && s.clock <= a.at <= s.lastSweep + cfg.lag
    && match a
       case External(draft, _) => draft.rule.None?
       case Process(e, at) =>
         e < |s.w.store.events| && e !in s.processed && at <= s.w.store.events[e].receivedAt + cfg.delay
       case SweepTick(_) => true
       case Delete(e, at) =>
         e < |s.w.store.events| && e in s.processed && s.w.store.events[e].receivedAt + cfg.retention < at
  }

  ghost function Apply(rules: seq<Rule>, s: Sys, a: Action): Sys
    requires Causal(s.w.store.events) && (a.Process? ==> a.e < |s.w.store.events|)
  {
    match a
    case External(draft, at) => s.(w := s.w.(store := Emit(s.w.store, draft, None, at, true)), clock := at)
    case Process(e, at) =>
      s.(w := Advance(s.w, rules, 0, e, at, |s.processed|), processed := s.processed + [e], clock := at)
    case SweepTick(at) => s.(w := Sweep(s.w, rules, at, |s.processed|), clock := at, lastSweep := at)
    case Delete(e, at) => s.(w := s.w.(store := s.w.store.(purged := s.w.store.purged + {e})), clock := at)
  }

  /** Every event of a rule is in the log, under one of the rules, and every event with a cause is one. */
  ghost predicate Logged(w: World, n: nat) {
    && (forall x :: 0 <= x < |w.log| ==> w.log[x].rule < n)
    && (forall id :: 0 <= id < |w.store.events| && (w.store.events[id].parent.Some? || w.store.events[id].draft.rule.Some?)
                     ==> exists x :: 0 <= x < |w.log| && w.log[x].event == id)
  }

  // ── Retention ──

  function Span(rule: Rule): nat {
    if rule.window == 0 then 1 else rule.window
  }

  /** The rule's window, with the delays of the loop, fits the retention window. */
  predicate Covered(cfg: Config, rule: Rule) {
    cfg.delay + Span(rule) + cfg.lag <= cfg.retention + 1
  }

  /** How long an armed instance can wait, and what that means for the event that armed it. */
  ghost predicate Waiting(cfg: Config, w: World, rule: Rule, inst: Instance, lastSweep: nat) {
    && inst.aEvent < |w.store.events| && inst.deadline >= lastSweep
    && inst.deadline <= w.store.events[inst.aEvent].receivedAt + cfg.delay + rule.window
    && lastSweep + 1 <= w.store.events[inst.aEvent].receivedAt + cfg.delay + Span(rule)
    && (Covered(cfg, rule) ==> inst.aEvent !in w.store.purged)
  }

  ghost predicate TimeInv(cfg: Config, w: World, rule: Rule, k: nat, lastSweep: nat) {
    && (forall i :: 0 <= i < |w.instances| && w.instances[i].rule == k && w.instances[i].state == Armed
                    ==> Waiting(cfg, w, rule, w.instances[i], lastSweep))
    && (forall x :: 0 <= x < |w.log| && w.log[x].rule == k && Covered(cfg, rule) ==> w.log[x].kept)
  }

  /** Other rules' steps leave the purged set and this rule's part alone. */
  lemma FrameKeepsTime(cfg: Config, w: World, t: World, rule: Rule, k: nat, lastSweep: nat)
    requires Frame(w, t, k) && t.store.purged == w.store.purged && TimeInv(cfg, w, rule, k, lastSweep)
    ensures TimeInv(cfg, t, rule, k, lastSweep)
  {
    forall i | 0 <= i < |t.instances| && t.instances[i].rule == k && t.instances[i].state == Armed
      ensures Waiting(cfg, t, rule, t.instances[i], lastSweep)
    {
      assert Waiting(cfg, w, rule, w.instances[i], lastSweep);
    }
  }

  /** Firing for an instance whose arming event is kept where the rule is covered. */
  lemma FireKeepsTime(cfg: Config, w: World, rule: Rule, k: nat, p: string, i: nat, cause: Option<nat>, kind: string, now: nat,
                      seen: nat, lastSweep: nat)
    requires Causal(w.store.events) && (cause.Some? ==> cause.value < |w.store.events|)
    requires TimeInv(cfg, w, rule, k, lastSweep) && (Covered(cfg, rule) ==> Kept(w, i))
    ensures TimeInv(cfg, Fire(w, k, p, i, cause, kind, now, seen), rule, k, lastSweep)
  {
    var t := Fire(w, k, p, i, cause, kind, now, seen);
    forall j | 0 <= j < |t.instances| && t.instances[j].rule == k && t.instances[j].state == Armed
      ensures Waiting(cfg, t, rule, t.instances[j], lastSweep)
    {
      assert Waiting(cfg, w, rule, w.instances[j], lastSweep);
    }
  }

  lemma StateKeepsTime(cfg: Config, w: World, rule: Rule, k: nat, i: nat, state: InstanceState, lastSweep: nat)
    requires i < |w.instances| && state != Armed && TimeInv(cfg, w, rule, k, lastSweep)
    ensures TimeInv(cfg, WithState(w, i, state), rule, k, lastSweep)
  {
    var t := WithState(w, i, state);
    forall j | 0 <= j < |t.instances| && t.instances[j].rule == k && t.instances[j].state == Armed
      ensures Waiting(cfg, t, rule, t.instances[j], lastSweep)
    {
      assert Waiting(cfg, w, rule, w.instances[j], lastSweep);
    }
  }

  lemma ArmKeepsTime(cfg: Config, w: World, rule: Rule, k: nat, p: string, e: nat, now: nat, lastSweep: nat)
    requires TimeInv(cfg, w, rule, k, lastSweep) && e < |w.store.events| && e !in w.store.purged
    requires lastSweep <= now <= w.store.events[e].receivedAt + cfg.delay
    ensures TimeInv(cfg, Arm(w, k, p, e, now + rule.window), rule, k, lastSweep)
  {
    var t := Arm(w, k, p, e, now + rule.window);
    forall j | 0 <= j < |t.instances| && t.instances[j].rule == k && t.instances[j].state == Armed
      ensures Waiting(cfg, t, rule, t.instances[j], lastSweep)
    {
      assert j < |w.instances| ==> Waiting(cfg, w, rule, w.instances[j], lastSweep);
    }
  }

  lemma ArmedWaits(cfg: Config, w: World, rule: Rule, k: nat, i: nat, lastSweep: nat)
    requires TimeInv(cfg, w, rule, k, lastSweep)
    requires i < |w.instances| && w.instances[i].rule == k && w.instances[i].state == Armed
    ensures Waiting(cfg, w, rule, w.instances[i], lastSweep)
  {}

  lemma AdvanceOwnTime(cfg: Config, w: World, rules: seq<Rule>, k: nat, e: nat, now: nat, seen: nat, lastSweep: nat)
    requires k < |rules| && Causal(w.store.events) && e < |w.store.events| && e !in w.store.purged
    requires TimeInv(cfg, w, rules[k], k, lastSweep) && lastSweep <= now <= w.store.events[e].receivedAt + cfg.delay
    ensures TimeInv(cfg, AdvanceRule(w, rules, k, e, now, seen), rules[k], k, lastSweep)
  {
    hide Fire, TimeInv, Completes, CooledDown;
    var rule, c := rules[k], ContentOf(w, e);
    var p := rule.partition(c);
    var armed := ArmedFrom(w.instances, k, p, 0);
    if armed.Some? {
      var i := armed.value;
      ArmedWaits(cfg, w, rule, k, i, lastSweep);
      assert Waiting(cfg, w, rule, w.instances[i], lastSweep);
      StateKeepsTime(cfg, w, rule, k, i, Matched, lastSweep);
      StateKeepsTime(cfg, w, rule, k, i, Expired, lastSweep);
      FireKeepsTime(cfg, WithState(w, i, Matched), rule, k, p, i, Some(e), "pattern_matched", now, seen, lastSweep);
    } else {
      ArmKeepsTime(cfg, w, rule, k, p, e, now, lastSweep);
    }
  }

  lemma {:induction false} AdvanceKeepsTime(cfg: Config, w: World, rules: seq<Rule>, from: nat, k: nat, e: nat, now: nat,
                                            seen: nat, lastSweep: nat)
    requires from <= |rules| && k < |rules| && Causal(w.store.events) && e < |w.store.events| && e !in w.store.purged
    requires TimeInv(cfg, w, rules[k], k, lastSweep) && lastSweep <= now <= w.store.events[e].receivedAt + cfg.delay
    ensures TimeInv(cfg, Advance(w, rules, from, e, now, seen), rules[k], k, lastSweep)
    decreases |rules| - from
  {
    hide AdvanceRule, Frame, TimeInv;
    if from < |rules| {
      var t := AdvanceRule(w, rules, from, e, now, seen);
      if from == k {
        AdvanceOwnTime(cfg, w, rules, k, e, now, seen, lastSweep);
      } else {
        AdvanceFrames(w, rules, from, e, now, seen, k);
        FrameKeepsTime(cfg, w, t, rules[k], k, lastSweep);
      }
      AdvanceKeepsTime(cfg, t, rules, from + 1, k, e, now, seen, lastSweep);
    }
  }

  /** What is due was armed, so a covered rule still finds the events behind it. */
  ghost predicate DueKept(cfg: Config, w: World, rule: Rule, k: nat, i: nat) {
    i < |w.instances| && (w.instances[i].rule == k && Covered(cfg, rule) ==> Kept(w, i))
  }

  lemma MarkingKeepsTime(cfg: Config, w: World, rule: Rule, k: nat, now: nat, lastSweep: nat)
    requires TimeInv(cfg, w, rule, k, lastSweep) && lastSweep <= now
    ensures var t := w.(instances := AllExpired(w.instances, now));
            && TimeInv(cfg, t, rule, k, now)
            && forall i :: i in DueFrom(w.instances, now, 0) ==> DueKept(cfg, t, rule, k, i)
  {
    DueIsExact(w.instances, now, 0);
    var t := w.(instances := AllExpired(w.instances, now));
    forall i | 0 <= i < |t.instances| && t.instances[i].rule == k && t.instances[i].state == Armed
      ensures Waiting(cfg, t, rule, t.instances[i], now)
    {
      assert Waiting(cfg, w, rule, w.instances[i], lastSweep);
    }
    forall i | i in DueFrom(w.instances, now, 0) ensures DueKept(cfg, t, rule, k, i) {
      assert w.instances[i].rule == k ==> Waiting(cfg, w, rule, w.instances[i], lastSweep);
    }
  }

  lemma ExpireOneKeepsTime(cfg: Config, w: World, rules: seq<Rule>, k: nat, i: nat, now: nat, seen: nat, lastSweep: nat)
    requires k < |rules| && Causal(w.store.events) && TimeInv(cfg, w, rules[k], k, lastSweep) && DueKept(cfg, w, rules[k], k, i)
    ensures TimeInv(cfg, ExpireOne(w, rules, i, now, seen), rules[k], k, lastSweep)
  {
    var inst := w.instances[i];
    var cause := if Visible(w.store, inst.aEvent).Some? then Some(inst.aEvent) else None;
    hide TimeInv;
    if inst.rule == k {
      FireKeepsTime(cfg, w, rules[k], k, inst.partition, i, cause, "pattern_absence", now, seen, lastSweep);
    } else {
      FireFrames(w, inst.rule, inst.partition, i, cause, "pattern_absence", now, seen, k);
      FrameKeepsTime(cfg, w, Fire(w, inst.rule, inst.partition, i, cause, "pattern_absence", now, seen), rules[k], k, lastSweep);
    }
  }

  lemma {:induction false} ExpireAllKeepsTime(cfg: Config, w: World, rules: seq<Rule>, k: nat, due: seq<nat>, now: nat, seen: nat,
                                              lastSweep: nat)
    requires k < |rules| && Causal(w.store.events) && TimeInv(cfg, w, rules[k], k, lastSweep)
    requires forall i :: i in due ==> DueKept(cfg, w, rules[k], k, i)
    ensures (forall i :: i in due ==> i < |w.instances|) && TimeInv(cfg, ExpireAll(w, rules, due, now, seen), rules[k], k, lastSweep)
    decreases |due|
  {
    hide TimeInv;
    if due != [] {
      assert due[0] in due && forall i :: i in due[1..] ==> i in due;
      ExpireOneKeepsTime(cfg, w, rules, k, due[0], now, seen, lastSweep);
      var t := ExpireOne(w, rules, due[0], now, seen);
      forall i | i in due[1..] ensures DueKept(cfg, t, rules[k], k, i) {
        assert DueKept(cfg, w, rules[k], k, i);
      }
      ExpireAllKeepsTime(cfg, t, rules, k, due[1..], now, seen, lastSweep);
    }
  }

  lemma SweepKeepsTime(cfg: Config, w: World, rules: seq<Rule>, k: nat, now: nat, seen: nat, lastSweep: nat)
    requires k < |rules| && Causal(w.store.events) && TimeInv(cfg, w, rules[k], k, lastSweep) && lastSweep <= now
    ensures TimeInv(cfg, Sweep(w, rules, now, seen), rules[k], k, now)
  {
    hide TimeInv, ExpireAll, DueKept;
    MarkingKeepsTime(cfg, w, rules[k], k, now, lastSweep);
    DueIsExact(w.instances, now, 0);
    ExpireAllKeepsTime(cfg, w.(instances := AllExpired(w.instances, now)), rules, k, DueFrom(w.instances, now, 0), now, seen, now);
  }

  /** A covered rule's armed event is too young to be deleted. */
  lemma PurgeKeepsTime(cfg: Config, s: Sys, e: nat, at: nat, rule: Rule, k: nat)
    requires Enabled(cfg, s, Delete(e, at)) && TimeInv(cfg, s.w, rule, k, s.lastSweep)
    ensures TimeInv(cfg, s.w.(store := s.w.store.(purged := s.w.store.purged + {e})), rule, k, s.lastSweep)
  {
    var t := s.w.(store := s.w.store.(purged := s.w.store.purged + {e}));
    forall i | 0 <= i < |t.instances| && t.instances[i].rule == k && t.instances[i].state == Armed
      ensures Waiting(cfg, t, rule, t.instances[i], s.lastSweep)
    {
      assert Waiting(cfg, s.w, rule, s.w.instances[i], s.lastSweep);
    }
  }

  lemma PurgeKeepsRule(w: World, e: nat, rule: Rule, k: nat, hist: seq<nat>)
    requires RuleInv(w, rule, k, hist) && forall i :: i in hist ==> i < |w.store.events|
    ensures RuleInv(w.(store := w.store.(purged := w.store.purged + {e})), rule, k, hist)
  {
    FrameKeepsRule(w, w.(store := w.store.(purged := w.store.purged + {e})), rule, k, hist);
  }

  // ── The invariant ──

  ghost predicate Inv(cfg: Config, rules: seq<Rule>, s: Sys) {
    && Ready(s.w, s.processed, s.clock) && Distinct(s.processed) && s.lastSweep <= s.clock
    && (forall e :: e in s.w.store.purged ==> e in s.processed)
    && (forall k :: 0 <= k < |rules| ==> RuleInv(s.w, rules[k], k, s.processed))
    && (forall k :: 0 <= k < |rules| ==> TimeInv(cfg, s.w, rules[k], k, s.lastSweep))
    && Logged(s.w, |rules|)
  }

  lemma FireKeepsLogged(w: World, k: nat, p: string, i: nat, cause: Option<nat>, kind: string, now: nat, seen: nat, n: nat)
    requires Causal(w.store.events) && (cause.Some? ==> cause.value < |w.store.events|) && Logged(w, n) && k < n
    ensures Logged(Fire(w, k, p, i, cause, kind, now, seen), n)
  {
    var t := Fire(w, k, p, i, cause, kind, now, seen);
    if t != w {
      assert t.log[|w.log|].event == |w.store.events|;
      forall id | 0 <= id < |t.store.events| && (t.store.events[id].parent.Some? || t.store.events[id].draft.rule.Some?)
        ensures exists x :: 0 <= x < |t.log| && t.log[x].event == id
      {
        if id < |w.store.events| {
          var x :| 0 <= x < |w.log| && w.log[x].event == id;
          assert t.log[x].event == id;
        }
      }
    }
  }

  lemma {:induction false} AdvanceKeepsLogged(w: World, rules: seq<Rule>, k: nat, e: nat, now: nat, seen: nat)
    requires k <= |rules| && Causal(w.store.events) && e < |w.store.events| && Logged(w, |rules|)
    ensures Logged(Advance(w, rules, k, e, now, seen), |rules|)
    decreases |rules| - k
  {
    if k < |rules| {
      AdvanceRuleKeepsLogged(w, rules, k, e, now, seen);
      AdvanceKeepsLogged(AdvanceRule(w, rules, k, e, now, seen), rules, k + 1, e, now, seen);
    }
  }

  lemma AdvanceRuleKeepsLogged(w: World, rules: seq<Rule>, k: nat, e: nat, now: nat, seen: nat)
    requires k < |rules| && Causal(w.store.events) && e < |w.store.events| && Logged(w, |rules|)
    ensures Logged(AdvanceRule(w, rules, k, e, now, seen), |rules|)
  {
    hide Fire, CooledDown, Completes;
    var p := rules[k].partition(ContentOf(w, e));
    var armed := ArmedFrom(w.instances, k, p, 0);
    if armed.Some? {
      FireKeepsLogged(WithState(w, armed.value, Matched), k, p, armed.value, Some(e), "pattern_matched", now, seen, |rules|);
    }
  }

  lemma {:induction false} ExpireAllKeepsLogged(w: World, rules: seq<Rule>, due: seq<nat>, now: nat, seen: nat)
    requires Causal(w.store.events) && Logged(w, |rules|) && forall i :: i in due ==> i < |w.instances|
    ensures Logged(ExpireAll(w, rules, due, now, seen), |rules|)
    decreases |due|
  {
    if due != [] {
      assert due[0] in due && forall i :: i in due[1..] ==> i in due;
      var inst := w.instances[due[0]];
      if inst.rule < |rules| {
        var cause := if Visible(w.store, inst.aEvent).Some? then Some(inst.aEvent) else None;
        FireKeepsLogged(w, inst.rule, inst.partition, due[0], cause, "pattern_absence", now, seen, |rules|);
      }
      ExpireAllKeepsLogged(ExpireOne(w, rules, due[0], now, seen), rules, due[1..], now, seen);
    }
  }

  lemma ExternalKeeps(cfg: Config, rules: seq<Rule>, s: Sys, draft: Draft, at: nat)
    requires Inv(cfg, rules, s) && Enabled(cfg, s, External(draft, at))
    ensures Inv(cfg, rules, Apply(rules, s, External(draft, at)))
  {
    hide RuleInv, TimeInv, Guard;
    var t := Apply(rules, s, External(draft, at));
    forall k | 0 <= k < |rules| ensures RuleInv(t.w, rules[k], k, t.processed) && TimeInv(cfg, t.w, rules[k], k, t.lastSweep) {
      FrameKeepsRule(s.w, t.w, rules[k], k, s.processed);
      FrameKeepsTime(cfg, s.w, t.w, rules[k], k, s.lastSweep);
    }
  }

  lemma ProcessKeeps(cfg: Config, rules: seq<Rule>, s: Sys, e: nat, at: nat)
    requires Inv(cfg, rules, s) && Enabled(cfg, s, Process(e, at))
    ensures Inv(cfg, rules, Apply(rules, s, Process(e, at)))
  {
    hide RuleInv, TimeInv, AdvanceRule, Logged;
    assert Ready(s.w, s.processed, at);
    assert Ready(s.w, s.processed + [e], at);
    var t := Apply(rules, s, Process(e, at));
    forall k | 0 <= k < |rules| ensures RuleInv(t.w, rules[k], k, t.processed) && TimeInv(cfg, t.w, rules[k], k, t.lastSweep) {
      AdvanceKeepsRule(s.w, rules, 0, k, s.processed, e, at, |s.processed|);
      AdvanceKeepsTime(cfg, s.w, rules, 0, k, e, at, |s.processed|, s.lastSweep);
    }
    AdvanceStaysReady(s.w, rules, 0, s.processed + [e], e, at, |s.processed|);
    AdvanceKeepsLogged(s.w, rules, 0, e, at, |s.processed|);
  }

  lemma SweepKeeps(cfg: Config, rules: seq<Rule>, s: Sys, at: nat)
    requires Inv(cfg, rules, s) && Enabled(cfg, s, SweepTick(at))
    ensures Inv(cfg, rules, Apply(rules, s, SweepTick(at)))
  {
    hide RuleInv, TimeInv, ExpireAll, Logged;
    var marked := s.w.(instances := AllExpired(s.w.instances, at));
    DueIsExact(s.w.instances, at, 0);
    assert Ready(s.w, s.processed, at);
    var t := Apply(rules, s, SweepTick(at));
    forall k | 0 <= k < |rules| ensures RuleInv(t.w, rules[k], k, t.processed) && TimeInv(cfg, t.w, rules[k], k, t.lastSweep) {
      SweepKeepsRule(s.w, rules, k, s.processed, at);
      SweepKeepsTime(cfg, s.w, rules, k, at, |s.processed|, s.lastSweep);
    }
    SweepStaysReady(s.w, rules, s.processed, at);
    MarkingKeepsLogged(s.w, at, |rules|);
    ExpireAllKeepsLogged(marked, rules, DueFrom(s.w.instances, at, 0), at, |s.processed|);
  }

  lemma MarkingKeepsLogged(w: World, now: nat, n: nat)
    requires Logged(w, n)
    ensures Logged(w.(instances := AllExpired(w.instances, now)), n)
  {}

  lemma PurgeKeeps(cfg: Config, rules: seq<Rule>, s: Sys, e: nat, at: nat)
    requires Inv(cfg, rules, s) && Enabled(cfg, s, Delete(e, at))
    ensures Inv(cfg, rules, Apply(rules, s, Delete(e, at)))
  {
    hide RuleInv, TimeInv;
    var t := Apply(rules, s, Delete(e, at));
    forall k | 0 <= k < |rules| ensures RuleInv(t.w, rules[k], k, t.processed) && TimeInv(cfg, t.w, rules[k], k, t.lastSweep) {
      PurgeKeepsRule(s.w, e, rules[k], k, s.processed);
      PurgeKeepsTime(cfg, s, e, at, rules[k], k);
    }
  }

  lemma StepKeepsInv(cfg: Config, rules: seq<Rule>, s: Sys, a: Action)
    requires Inv(cfg, rules, s) && Enabled(cfg, s, a)
    ensures Inv(cfg, rules, Apply(rules, s, a))
  {
    hide RuleInv, TimeInv, Logged, Ready, Advance, Sweep, Emit;
    match a
    case External(draft, at) => ExternalKeeps(cfg, rules, s, draft, at);
    case Process(e, at) => ProcessKeeps(cfg, rules, s, e, at);
    case SweepTick(at) => SweepKeeps(cfg, rules, s, at);
    case Delete(e, at) => PurgeKeeps(cfg, rules, s, e, at);
  }

  lemma {:induction false} AdvanceStaysReady(w: World, rules: seq<Rule>, k: nat, hist: seq<nat>, e: nat, now: nat, seen: nat)
    requires k <= |rules| && Ready(w, hist, now) && e < |w.store.events|
    ensures Ready(Advance(w, rules, k, e, now, seen), hist, now)
    decreases |rules| - k
  {
    hide AdvanceRule;
    if k < |rules| {
      AdvanceKeepsReady(w, rules, k, hist, e, now, seen);
      AdvanceStaysReady(AdvanceRule(w, rules, k, e, now, seen), rules, k + 1, hist, e, now, seen);
    }
  }

  lemma SweepStaysReady(w: World, rules: seq<Rule>, hist: seq<nat>, now: nat)
    requires Ready(w, hist, now)
    ensures Ready(Sweep(w, rules, now, |hist|), hist, now)
  {
    DueIsExact(w.instances, now, 0);
    ExpireAllStaysReady(w.(instances := AllExpired(w.instances, now)), rules, DueFrom(w.instances, now, 0), hist, now);
  }

  lemma {:induction false} ExpireAllStaysReady(w: World, rules: seq<Rule>, due: seq<nat>, hist: seq<nat>, now: nat)
    requires Ready(w, hist, now) && forall i :: i in due ==> i < |w.instances|
    ensures Ready(ExpireAll(w, rules, due, now, |hist|), hist, now)
    decreases |due|
  {
    if due != [] {
      assert due[0] in due && forall i :: i in due[1..] ==> i in due;
      ExpireAllStaysReady(ExpireOne(w, rules, due[0], now, |hist|), rules, due[1..], hist, now);
    }
  }

  ghost predicate CanRun(cfg: Config, rules: seq<Rule>, s: Sys, acts: seq<Action>)
    requires Inv(cfg, rules, s)
    decreases |acts|
  {
    acts != [] ==> Enabled(cfg, s, acts[0])
                   && (StepKeepsInv(cfg, rules, s, acts[0]); CanRun(cfg, rules, Apply(rules, s, acts[0]), acts[1..]))
  }

  ghost function RunFrom(cfg: Config, rules: seq<Rule>, s: Sys, acts: seq<Action>): (t: Sys)
    requires Inv(cfg, rules, s) && CanRun(cfg, rules, s, acts)
    ensures Inv(cfg, rules, t)
    decreases |acts|
  {
    if acts == [] then s else
      StepKeepsInv(cfg, rules, s, acts[0]);
      RunFrom(cfg, rules, Apply(rules, s, acts[0]), acts[1..])
  }

  ghost function Start(cfg: Config, rules: seq<Rule>): (s: Sys)
    ensures Inv(cfg, rules, s) && s == Begin()
  {
    Begin()
  }

  /** Main result. In every reachable world, purges included, each event of a rule has the evidence its
    * rule's kind calls for: a sequence match an A event processed before a different B event, a
    * conjunction match two different events, an absence an A event after which no B of its partition was
    * processed up to the sweep; always within one partition. While retention covers the rule, the two
    * events of a conjunction satisfy both sides, and an absence names the event that armed it. */
  lemma EveryDerivedEventIsJustified(cfg: Config, rules: seq<Rule>, acts: seq<Action>, id: nat)
    requires CanRun(cfg, rules, Start(cfg, rules), acts)
    requires var events := RunFrom(cfg, rules, Start(cfg, rules), acts).w.store.events;
             id < |events| && (events[id].parent.Some? || events[id].draft.rule.Some?)
    ensures var s := RunFrom(cfg, rules, Start(cfg, rules), acts);
            exists x :: 0 <= x < |s.w.log| && s.w.log[x].event == id && s.w.log[x].rule < |rules|
                        && EmissionOk(s.w, rules[s.w.log[x].rule], s.processed, s.w.log[x])
                        && (Covered(cfg, rules[s.w.log[x].rule]) ==> s.w.log[x].kept)
  {
    var s := RunFrom(cfg, rules, Start(cfg, rules), acts);
    var x :| 0 <= x < |s.w.log| && s.w.log[x].event == id;
    assert RuleInv(s.w, rules[s.w.log[x].rule], s.w.log[x].rule, s.processed);
    assert TimeInv(cfg, s.w, rules[s.w.log[x].rule], s.w.log[x].rule, s.lastSweep);
  }

  /** Main result. In every reachable world, purges included: at most one instance is armed per rule and
    * partition; the derived events of a rule come from different instances and different causes and, per
    * partition, at least a cooldown apart; and an armed instance outlives its deadline by no more than the
    * time since the last sweep, which is how late a match can be. */
  lemma EngineInvariants(cfg: Config, rules: seq<Rule>, acts: seq<Action>, i: nat, j: nat, x: nat, y: nat)
    requires CanRun(cfg, rules, Start(cfg, rules), acts)
    ensures var s := RunFrom(cfg, rules, Start(cfg, rules), acts);
            && (i < j < |s.w.instances| && s.w.instances[i].rule == s.w.instances[j].rule < |rules|
                ==> PairOk(s.w.instances[i], s.w.instances[j]))
            && (x < y < |s.w.log| && s.w.log[x].rule == s.w.log[y].rule
                ==> s.w.log[x].rule < |rules| && ApartOk(rules[s.w.log[x].rule], s.w.log[x], s.w.log[y]))
            && (i < |s.w.instances| && s.w.instances[i].rule < |rules| && s.w.instances[i].state == Armed
                ==> s.w.instances[i].deadline >= s.lastSweep)
  {
    var s := RunFrom(cfg, rules, Start(cfg, rules), acts);
    if i < |s.w.instances| && s.w.instances[i].rule < |rules| {
      assert RuleInv(s.w, rules[s.w.instances[i].rule], s.w.instances[i].rule, s.processed);
      assert TimeInv(cfg, s.w, rules[s.w.instances[i].rule], s.w.instances[i].rule, s.lastSweep);
    }
    if x < y < |s.w.log| && s.w.log[x].rule == s.w.log[y].rule {
      assert RuleInv(s.w, rules[s.w.log[x].rule], s.w.log[x].rule, s.processed);
    }
  }

  /** Each event causes at most one derived event per rule, armed absences included. */
  lemma OneChildPerRule(cfg: Config, rules: seq<Rule>, s: Sys, id: nat, jd: nat)
    requires Inv(cfg, rules, s) && id < |s.w.store.events| && jd < |s.w.store.events|
    requires s.w.store.events[id].parent.Some? && s.w.store.events[jd].parent == s.w.store.events[id].parent
    ensures s.w.store.events[id].draft.rule.Some? && s.w.store.events[id].draft.rule.value < |rules|
    ensures s.w.store.events[id].draft.rule == s.w.store.events[jd].draft.rule ==> id == jd
  {
    var x :| 0 <= x < |s.w.log| && s.w.log[x].event == id;
    var y :| 0 <= y < |s.w.log| && s.w.log[y].event == jd;
    assert RuleInv(s.w, rules[s.w.log[x].rule], s.w.log[x].rule, s.processed);
    assert RuleInv(s.w, rules[s.w.log[y].rule], s.w.log[y].rule, s.processed);
    assert EmissionOk(s.w, rules[s.w.log[x].rule], s.processed, s.w.log[x]);
    assert EmissionOk(s.w, rules[s.w.log[y].rule], s.processed, s.w.log[y]);
    assert x < y && s.w.log[x].rule == s.w.log[y].rule ==> ApartOk(rules[s.w.log[x].rule], s.w.log[x], s.w.log[y]);
    assert y < x && s.w.log[x].rule == s.w.log[y].rule ==> ApartOk(rules[s.w.log[x].rule], s.w.log[y], s.w.log[x]);
  }

  /** Where retention covers every absence rule, each event of a rule names its cause. */
  lemma DerivedEventsNameTheirCause(cfg: Config, rules: seq<Rule>, s: Sys, id: nat)
    requires Inv(cfg, rules, s) && id < |s.w.store.events| && s.w.store.events[id].draft.rule.Some?
    requires forall k :: 0 <= k < |rules| && rules[k].kind.Absence? ==> Covered(cfg, rules[k])
    ensures s.w.store.events[id].parent.Some?
  {
    var x :| 0 <= x < |s.w.log| && s.w.log[x].event == id;
    assert RuleInv(s.w, rules[s.w.log[x].rule], s.w.log[x].rule, s.processed);
    assert TimeInv(cfg, s.w, rules[s.w.log[x].rule], s.w.log[x].rule, s.lastSweep);
    assert EmissionOk(s.w, rules[s.w.log[x].rule], s.processed, s.w.log[x]);
  }

  /** Why "processed once" matters: a reclaimed event that is fed to a sequence rule a second time
    * is taken for the B of its own A, whenever it satisfies both sides. */
  lemma ReprocessedEventMatchesItself(w: World, rules: seq<Rule>, k: nat, e: nat, first: nat, again: nat)
    requires k < |rules| && rules[k].kind.Sequence? && Causal(w.store.events) && e < |w.store.events|
    requires rules[k].a(ContentOf(w, e)) && rules[k].b(ContentOf(w, e))
    requires ArmedFrom(w.instances, k, rules[k].partition(ContentOf(w, e)), 0).None?
    ensures var t := AdvanceRule(AdvanceRule(w, rules, k, e, first, 0), rules, k, e, again, 0);
            && |t.instances| == |w.instances| + 1
            && t.instances[|w.instances|].state == Matched && t.instances[|w.instances|].aEvent == e
            && (|t.log| > |w.log| ==> t.log[|w.log|].cause == Some(e))
  {
    var p := rules[k].partition(ContentOf(w, e));
    var t := AdvanceRule(w, rules, k, e, first, 0);
    assert t == Arm(w, k, p, e, first + rules[k].window);
    assert ArmedFrom(t.instances, k, p, 0) == Some(|w.instances|) by {
      var x := ArmedFrom(t.instances, k, p, 0);
      assert t.instances[|w.instances|].state == Armed;
      assert x.Some?;
      assert forall i :: 0 <= i < |w.instances| ==> t.instances[i] == w.instances[i];
    }
  }
}

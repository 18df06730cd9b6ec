/** The composite-pattern engine (`backend/app/ambient/patterns.py`): sequence, conjunction and
  * absence rules over the event store, feeding derived events back into it.
  */
module PatternsModel {
  import opened Options
  import opened EventStoreModel

  datatype Kind = Sequence | Conjunction | Absence | OtherKind

  /** A standing intent's compiled pattern; its filters are functions of what filters may see. */
  datatype Rule = Rule(kind: Kind, a: Content -> bool, b: Content -> bool, partition: Content -> string,
                       window: nat, cooldown: nat)

  datatype InstanceState = Armed | Matched | Expired

  /** A row of `pattern_instances`. */
  datatype Instance = Instance(rule: nat, partition: string, aEvent: nat, deadline: nat, state: InstanceState)

  /** Bookkeeping of the model: one derived event, the instance behind it, the event it names as
    * its cause, how many events had been processed by then, and whether the event that armed the
    * instance was still in the table. */
  datatype Emission = Emission(rule: nat, partition: string, instance: nat, cause: Option<nat>, event: nat,
                               at: nat, seen: nat, kept: bool)

  datatype World = World(store: Store, instances: seq<Instance>, recent: map<(nat, string), nat>,
                         log: seq<Emission>)

  function ContentOf(w: World, id: nat): Content
    requires id < |w.store.events|
  {
    w.store.events[id].draft.content
  }

  /** The armed instance of a rule and partition, searched from row `i` on. */
  function ArmedFrom(instances: seq<Instance>, rule: nat, partition: string, i: nat): (r: Option<nat>)
    requires i <= |instances|
    ensures match r
            case Some(x) =>
              i <= x < |instances| && instances[x].rule == rule && instances[x].partition == partition
              && instances[x].state == Armed
            case None =>
              forall x :: i <= x < |instances| && instances[x].rule == rule && instances[x].partition == partition
                          ==> instances[x].state != Armed
    decreases |instances| - i
  {
    if i == |instances| then None
    else if instances[i].rule == rule && instances[i].partition == partition && instances[i].state == Armed then Some(i)
    else ArmedFrom(instances, rule, partition, i + 1)
  }

  predicate CooledDown(w: World, rules: seq<Rule>, k: nat, partition: string, now: nat)
    requires k < |rules|
  {
    (k, partition) !in w.recent || now - w.recent[(k, partition)] >= rules[k].cooldown
  }

  function Decimal(n: nat): string {
    (if n < 10 then "" else Decimal(n / 10)) + [('0' as int + n % 10) as char]
  }

  /** The key of the `k`-th standing intent's rule. */
  function RuleKey(k: nat): string {
    "intent:" + Decimal(k)
  }

  function DerivedDraft(k: nat, partition: string, kind: string): Draft {
    Draft(Content(kind, "pattern", map["rule" := RuleKey(k), "partition" := partition]), "", None, Some(k))
  }

  /** Is the event that armed the instance still in the table? */
  predicate Kept(w: World, instance: nat) {
    instance < |w.instances| && Visible(w.store, w.instances[instance].aEvent).Some?
  }

  /** Emit a derived event; a guarded one is dropped and leaves the cooldown untouched. */
  ghost function Fire(w: World, k: nat, partition: string, instance: nat, cause: Option<nat>, kind: string,
                      now: nat, seen: nat): (t: World)
    requires Causal(w.store.events) && (cause.Some? ==> cause.value < |w.store.events|)
    ensures Causal(t.store.events) && w.store.events <= t.store.events && t.store.purged == w.store.purged
    ensures Sourced(w.store.events) ==> Sourced(t.store.events)
    ensures t.instances == w.instances
  {
    var outcome := OutcomeOf(w.store, DerivedDraft(k, partition, kind), cause, now, true);
    if !outcome.Emitted? then w
    else
      w.(store := Emit(w.store, DerivedDraft(k, partition, kind), cause, now, true),
         recent := w.recent[(k, partition) := now],
         log := w.log + [Emission(k, partition, instance, cause, outcome.id, now, seen, Kept(w, instance))])
  }

  function WithState(w: World, i: nat, state: InstanceState): World
    requires i < |w.instances|
  {
    w.(instances := w.instances[i := w.instances[i].(state := state)])
  }

  function Arm(w: World, k: nat, partition: string, e: nat, deadline: nat): World {
    w.(instances := w.instances + [Instance(k, partition, e, deadline, Armed)])
  }

  ghost function MatchAndFire(w: World, rules: seq<Rule>, k: nat, partition: string, i: nat, e: nat, now: nat,
                              seen: nat): (t: World)
    requires k < |rules| && i < |w.instances| && Causal(w.store.events) && e < |w.store.events|
    ensures Causal(t.store.events) && w.store.events <= t.store.events && t.store.purged == w.store.purged
    ensures Sourced(w.store.events) ==> Sourced(t.store.events)
  {
    var m := WithState(w, i, Matched);
    if CooledDown(w, rules, k, partition, now) then Fire(m, k, partition, i, Some(e), "pattern_matched", now, seen)
    else m
  }

  /** Does the second event of a conjunction complete the first? */
  predicate Completes(w: World, rule: Rule, first: nat, second: Content) {
    var row := Visible(w.store, first);
    var firstWasA := row.Some? && rule.a(row.value.draft.content);
    (firstWasA && rule.b(second)) || (!firstWasA && rule.a(second))
  }

  /** One event through one rule. */
  ghost function AdvanceRule(w: World, rules: seq<Rule>, k: nat, e: nat, now: nat, seen: nat): (t: World)
    requires k < |rules| && Causal(w.store.events) && e < |w.store.events|
    ensures Causal(t.store.events) && w.store.events <= t.store.events && t.store.purged == w.store.purged
    ensures Sourced(w.store.events) ==> Sourced(t.store.events)
  {
    var rule, c := rules[k], ContentOf(w, e);
    var p := rule.partition(c);
    var armed := ArmedFrom(w.instances, k, p, 0);
    match rule.kind
    case OtherKind => w
    case Conjunction =>
      if armed.None? then
        if rule.a(c) || rule.b(c) then Arm(w, k, p, e, now + rule.window) else w
      else if w.instances[armed.value].aEvent != e && Completes(w, rule, w.instances[armed.value].aEvent, c) then
        MatchAndFire(w, rules, k, p, armed.value, e, now, seen)
      else w
    case Sequence =>
      if armed.None? then
        if rule.a(c) then Arm(w, k, p, e, now + rule.window) else w
      else if rule.b(c) then MatchAndFire(w, rules, k, p, armed.value, e, now, seen)
      else w
    case Absence =>
      if armed.None? then
        if rule.a(c) then Arm(w, k, p, e, now + rule.window) else w
      else if rule.b(c) then WithState(w, armed.value, Expired)
      else w
  }

  ghost function Advance(w: World, rules: seq<Rule>, k: nat, e: nat, now: nat, seen: nat): (t: World)
    requires k <= |rules| && Causal(w.store.events) && e < |w.store.events|
    ensures Causal(t.store.events) && w.store.events <= t.store.events && t.store.purged == w.store.purged
    ensures Sourced(w.store.events) ==> Sourced(t.store.events)
    decreases |rules| - k
  {
    if k == |rules| then w else Advance(AdvanceRule(w, rules, k, e, now, seen), rules, k + 1, e, now, seen)
  }

  // ── The sweep ──

  predicate IsDue(inst: Instance, now: nat) {
    inst.state == Armed && inst.deadline <= now
  }

  function DueFrom(instances: seq<Instance>, now: nat, i: nat): seq<nat>
    requires i <= |instances|
    decreases |instances| - i
  {
    if i == |instances| then []
    else (if IsDue(instances[i], now) then [i] else []) + DueFrom(instances, now, i + 1)
  }

  function AllExpired(instances: seq<Instance>, now: nat): seq<Instance> {
    seq(|instances|, i requires 0 <= i < |instances| =>
      if IsDue(instances[i], now) then instances[i].(state := Expired) else instances[i])
  }

  /** The derived event of one expired instance: only absence rules have one. */
  ghost function ExpireOne(w: World, rules: seq<Rule>, i: nat, now: nat, seen: nat): (t: World)
    requires i < |w.instances| && Causal(w.store.events)
    ensures Causal(t.store.events) && w.store.events <= t.store.events && t.store.purged == w.store.purged
    ensures Sourced(w.store.events) ==> Sourced(t.store.events)
    ensures t.instances == w.instances
  {
    var inst := w.instances[i];
    if inst.rule < |rules| && rules[inst.rule].kind.Absence? && CooledDown(w, rules, inst.rule, inst.partition, now) then
      var cause := if Visible(w.store, inst.aEvent).Some? then Some(inst.aEvent) else None;
      Fire(w, inst.rule, inst.partition, i, cause, "pattern_absence", now, seen)
    else w
  }

  ghost function ExpireAll(w: World, rules: seq<Rule>, due: seq<nat>, now: nat, seen: nat): (t: World)
    requires Causal(w.store.events) && forall i :: i in due ==> i < |w.instances|
    ensures Causal(t.store.events) && w.store.events <= t.store.events && t.store.purged == w.store.purged
    ensures Sourced(w.store.events) ==> Sourced(t.store.events)
    ensures t.instances == w.instances
    decreases |due|
  {
    if due == [] then w
    else
      assert due[0] in due && forall i :: i in due[1..] ==> i in due;
      ExpireAll(ExpireOne(w, rules, due[0], now, seen), rules, due[1..], now, seen)
  }

  lemma {:induction false} DueIsExact(instances: seq<Instance>, now: nat, i: nat)
    requires i <= |instances|
    ensures forall x: nat :: x in DueFrom(instances, now, i) <==> i <= x < |instances| && IsDue(instances[x], now)
    ensures Distinct(DueFrom(instances, now, i))
    decreases |instances| - i
  {
    if i < |instances| {
      DueIsExact(instances, now, i + 1);
    }
  }

  ghost function Sweep(w: World, rules: seq<Rule>, now: nat, seen: nat): (t: World)
    requires Causal(w.store.events)
    ensures Causal(t.store.events) && w.store.events <= t.store.events && t.store.purged == w.store.purged
    ensures Sourced(w.store.events) ==> Sourced(t.store.events)
  {
    DueIsExact(w.instances, now, 0);
    ExpireAll(w.(instances := AllExpired(w.instances, now)), rules, DueFrom(w.instances, now, 0), now, seen)
  }

  class PatternEngine {
    const events: EventStore
    var instances: seq<Instance>
    var recent: map<(nat, string), nat>
    ghost var log: seq<Emission>

    ghost function View(): World
      reads this, events
    {
      World(events.View(), instances, recent, log)
    }

    constructor (store: EventStore)
      ensures events == store && View() == World(store.View(), [], map[], [])
    {
      events := store;
      instances, recent, log := [], map[], [];
    }

    method FireEvent(k: nat, partition: string, ghost instance: nat, cause: Option<nat>, kind: string, now: nat,
                     ghost seen: nat) returns (n: nat)
      requires Causal(events.events) && (cause.Some? ==> cause.value < |events.events|)
      modifies this, events
      ensures View() == Fire(old(View()), k, partition, instance, cause, kind, now, seen)
      ensures n == |events.events| - |old(events.events)|
    {
      ghost var kept := Kept(View(), instance);
      var outcome := events.EmitEvent(DerivedDraft(k, partition, kind), cause, now, true);
      if !outcome.Emitted? {
        return 0;
      }
      recent := recent[(k, partition) := now];
      log := log + [Emission(k, partition, instance, cause, outcome.id, now, seen, kept)];
      return 1;
    }

    method FeedRule(rules: seq<Rule>, k: nat, e: nat, now: nat, ghost seen: nat) returns (n: nat)
      requires k < |rules| && Causal(events.events) && e < |events.events|
      modifies this, events
      ensures View() == AdvanceRule(old(View()), rules, k, e, now, seen)
      ensures n == |events.events| - |old(events.events)|
    {
      var rule, c := rules[k], events.events[e].draft.content;
      var aMatch, bMatch, partition := rule.a(c), rule.b(c), rule.partition(c);
      var armed := ArmedFrom(instances, k, partition, 0);
      n := 0;
      if rule.kind.Sequence? || rule.kind.Absence? {
        if armed.None? && aMatch {
          instances := instances + [Instance(k, partition, e, now + rule.window, Armed)];
        } else if armed.Some? && bMatch {
          var i := armed.value;
          if rule.kind.Sequence? {
            instances := instances[i := instances[i].(state := Matched)];
            var cooled := (k, partition) !in recent || now - recent[(k, partition)] >= rule.cooldown;
            if cooled {
              n := FireEvent(k, partition, i, Some(e), "pattern_matched", now, seen);
            }
          } else {
            instances := instances[i := instances[i].(state := Expired)];
          }
        }
      } else if rule.kind.Conjunction? {
        if armed.None? && (aMatch || bMatch) {
          instances := instances + [Instance(k, partition, e, now + rule.window, Armed)];
        } else if armed.Some? && (aMatch || bMatch) && instances[armed.value].aEvent != e {
          var i := armed.value;
          var first := Visible(Store(events.events, events.purged), instances[i].aEvent);
          var firstWasA := first.Some? && rule.a(first.value.draft.content);
          if (firstWasA && bMatch) || (!firstWasA && aMatch) {
            instances := instances[i := instances[i].(state := Matched)];
            var cooled := (k, partition) !in recent || now - recent[(k, partition)] >= rule.cooldown;
            if cooled {
              n := FireEvent(k, partition, i, Some(e), "pattern_matched", now, seen);
            }
          }
        }
      }
    }

    method AdvancePatterns(rules: seq<Rule>, e: nat, now: nat, ghost seen: nat) returns (emitted: nat)
      requires Causal(events.events) && e < |events.events|
      modifies this, events
      ensures View() == Advance(old(View()), rules, 0, e, now, seen)
      ensures emitted == |events.events| - |old(events.events)|
    {
      emitted := 0;
      for k := 0 to |rules|
        invariant Causal(events.events) && e < |events.events|
        invariant Advance(View(), rules, k, e, now, seen) == Advance(old(View()), rules, 0, e, now, seen)
        invariant emitted == |events.events| - |old(events.events)|
      {
        var n := FeedRule(rules, k, e, now, seen);
        emitted := emitted + n;
      }
    }

    method ExpireInstance(rules: seq<Rule>, i: nat, now: nat, ghost seen: nat) returns (n: nat)
      requires i < |instances| && Causal(events.events)
      modifies this, events
      ensures View() == ExpireOne(old(View()), rules, i, now, seen)
      ensures n == |events.events| - |old(events.events)|
    {
      var inst := instances[i];
      n := 0;
      if inst.rule < |rules| && rules[inst.rule].kind.Absence? {
        var key := (inst.rule, inst.partition);
        if key !in recent || now - recent[key] >= rules[inst.rule].cooldown {
          var visible := Visible(Store(events.events, events.purged), inst.aEvent);
          var cause := if visible.Some? then Some(inst.aEvent) else None;
          n := FireEvent(inst.rule, inst.partition, i, cause, "pattern_absence", now, seen);
        }
      }
    }

    method FireExpired(rules: seq<Rule>, due: seq<nat>, now: nat, ghost seen: nat) returns (fired: nat)
      requires Causal(events.events) && forall i :: i in due ==> i < |instances|
      modifies this, events
      ensures View() == ExpireAll(old(View()), rules, due, now, seen)
      ensures fired == |events.events| - |old(events.events)|
    {
      hide ExpireOne;
      fired := 0;
      assert due[0..] == due;
      for x := 0 to |due|
        invariant Causal(events.events) && instances == old(instances)
        invariant forall i :: i in due[x..] ==> i in due
        invariant ExpireAll(View(), rules, due[x..], now, seen) == ExpireAll(old(View()), rules, due, now, seen)
        invariant fired == |events.events| - |old(events.events)|
      {
        assert due[x] in due && due[x..][1..] == due[x + 1..] && due[x..][0] == due[x];
        var n := ExpireInstance(rules, due[x], now, seen);
        fired := fired + n;
      }
    }

    method ExpirePatternDeadlines(rules: seq<Rule>, now: nat, ghost seen: nat) returns (fired: nat)
      requires Causal(events.events)
      modifies this, events
      ensures View() == Sweep(old(View()), rules, now, seen)
      ensures fired == |events.events| - |old(events.events)|
    {
      hide ExpireAll, Causal;
      var due := DueFrom(instances, now, 0);
      DueIsExact(instances, now, 0);
      instances := AllExpired(instances, now);
      assert View() == old(View()).(instances := AllExpired(old(instances), now));
      fired := FireExpired(rules, due, now, seen);
    }
  }
}

/** The append-only causal event store and its cascade guards (`backend/app/ambient/store.py`).
  *
  * An event's id is its position in arrival order. `purged` holds the ids retention has deleted:
  * their rows can no longer be looked up.
  */
module EventStoreModel {
  import opened Options

  const MAX_DEPTH: nat := 4
  const RULE_KILL_SWITCH_PER_HOUR: nat := 50
  const HOUR: nat := 3600
  const DAY: nat := 86400
  const EVENT_SOURCES: set<string> :=
    {"schedule", "webhook", "poll", "internal", "wakeup", "presence", "pattern", "manual"}

  /** What filters see of an event. */
  datatype Content = Content(kind: string, source: string, payload: map<string, string>)

  /** What a caller asks to append. `rule` is the pattern rule named in a derived event's payload. */
  datatype Draft = Draft(content: Content, dedupe: string, routine: Option<nat>, rule: Option<nat>)

  datatype Event = Event(draft: Draft, parent: Option<nat>, correlation: nat, depth: nat, receivedAt: nat)

  datatype Store = Store(events: seq<Event>, purged: set<nat>)

  datatype Refusal = UnknownSource | Disabled | DepthGuard | SelfTrigger | KillSwitch
  datatype Outcome = Emitted(id: nat) | Deduped | Refused(why: Refusal)

  /** Every stored event names one of the known sources. */
  ghost predicate Sourced(events: seq<Event>) {
    forall id :: 0 <= id < |events| ==> events[id].draft.content.source in EVENT_SOURCES
  }

  function Visible(s: Store, id: nat): Option<Event> {
    if id < |s.events| && id !in s.purged then Some(s.events[id]) else None
  }

  ghost predicate Causal(events: seq<Event>) {
    forall id :: 0 <= id < |events| ==> CausalAt(events, id)
  }

  ghost predicate CausalAt(events: seq<Event>, id: nat)
    requires id < |events|
  {
    match events[id].parent
    case None => events[id].depth == 0 && events[id].correlation == id
    case Some(p) =>
      && p < id && events[id].depth == events[p].depth + 1 < MAX_DEPTH
      && events[id].correlation == events[p].correlation
  }

  /** The event and its causal ancestors, nearest first. */
  ghost function Chain(events: seq<Event>, id: nat): seq<nat>
    requires Causal(events) && id < |events|
    decreases id
  {
    assert CausalAt(events, id);
    [id] + (if events[id].parent.Some? then Chain(events, events[id].parent.value) else [])
  }

  /** The part of the chain a walk can reach: it stops at the first purged ancestor. */
  ghost function Walk(s: Store, id: nat): seq<nat>
    requires Causal(s.events) && id < |s.events|
    decreases id
  {
    assert CausalAt(s.events, id);
    [id] + (if s.events[id].parent.Some? && s.events[id].parent.value !in s.purged
            then Walk(s, s.events[id].parent.value) else [])
  }

  ghost predicate Carries(events: seq<Event>, chain: seq<nat>, routine: nat) {
    exists a :: a in chain && a < |events| && events[a].draft.routine == Some(routine)
  }

  /** Depth counts the causal ancestors; the correlation id is the root's id. */
  lemma {:induction false} ChainMeaning(events: seq<Event>, id: nat)
    requires Causal(events) && id < |events|
    ensures var chain := Chain(events, id);
            && |chain| == events[id].depth + 1 <= MAX_DEPTH
            && (forall i :: 0 <= i < |chain| ==> chain[i] <= id)
            && events[chain[|chain| - 1]].parent.None?
            && events[id].correlation == chain[|chain| - 1]
    decreases id
  {
    assert CausalAt(events, id);
    if events[id].parent.Some? {
      ChainMeaning(events, events[id].parent.value);
      var up := Chain(events, events[id].parent.value);
      assert Chain(events, id) == [id] + up;
      assert ([id] + up)[|up|] == up[|up| - 1];
    }
  }

  lemma {:induction false} WalkIsChainPrefix(s: Store, id: nat)
    requires Causal(s.events) && id < |s.events|
    ensures Walk(s, id) <= Chain(s.events, id)
    ensures s.purged == {} ==> Walk(s, id) == Chain(s.events, id)
    ensures forall a :: a in Walk(s, id) ==> a < |s.events|
    decreases id
  {
    assert CausalAt(s.events, id);
    if s.events[id].parent.Some? && s.events[id].parent.value !in s.purged {
      WalkIsChainPrefix(s, s.events[id].parent.value);
    }
  }

  lemma WalkStep(s: Store, id: nat, routine: nat)
    requires Causal(s.events) && id < |s.events|
    ensures var parent := s.events[id].parent;
            && CausalAt(s.events, id)
            && (Carries(s.events, Walk(s, id), routine)
                <==> || s.events[id].draft.routine == Some(routine)
                     || (parent.Some? && parent.value !in s.purged && Carries(s.events, Walk(s, parent.value), routine)))
  {
    assert CausalAt(s.events, id);
    var parent := s.events[id].parent;
    assert Walk(s, id)[0] == id;
    if parent.Some? && parent.value !in s.purged {
      assert Walk(s, id) == [id] + Walk(s, parent.value);
      assert forall a :: a in Walk(s, id) <==> a == id || a in Walk(s, parent.value);
    }
  }

  // ── Emission ──

  function Seen(s: Store, dedupe: string): bool {
    dedupe != "" && exists id :: 0 <= id < |s.events| && id !in s.purged && s.events[id].draft.dedupe == dedupe
  }

  /** Rows of `routine` still in the table and received at or after `since`. */
  function CountSince(s: Store, routine: nat, since: int): nat {
    |set id: nat | id < |s.events| && id !in s.purged
              && s.events[id].draft.routine == Some(routine) && s.events[id].receivedAt >= since|
  }

  ghost function Guard(s: Store, draft: Draft, cause: Option<nat>, now: nat, enabled: bool): Option<Outcome>
    requires Causal(s.events) && (cause.Some? ==> cause.value < |s.events|)
  {
    if draft.content.source !in EVENT_SOURCES then Some(Refused(UnknownSource))
    else if !enabled then Some(Refused(Disabled))
    else if cause.Some? && s.events[cause.value].depth + 1 >= MAX_DEPTH then Some(Refused(DepthGuard))
    else if cause.Some? && draft.routine.Some? && Carries(s.events, Walk(s, cause.value), draft.routine.value)
    then Some(Refused(SelfTrigger))
    else if Seen(s, draft.dedupe) then Some(Deduped)
    else if draft.routine.Some? && CountSince(s, draft.routine.value, now - HOUR) >= RULE_KILL_SWITCH_PER_HOUR
    then Some(Refused(KillSwitch))
    else None
  }

  function NewEvent(s: Store, draft: Draft, cause: Option<nat>, now: nat): Event
    requires cause.Some? ==> cause.value < |s.events|
  {
    match cause
    case None => Event(draft, None, |s.events|, 0, now)
    case Some(c) => Event(draft, cause, s.events[c].correlation, s.events[c].depth + 1, now)
  }

  lemma AppendKeepsCausal(s: Store, draft: Draft, cause: Option<nat>, now: nat)
    requires Causal(s.events) && (cause.Some? ==> cause.value < |s.events|)
    requires cause.Some? ==> s.events[cause.value].depth + 1 < MAX_DEPTH
    ensures Causal(s.events + [NewEvent(s, draft, cause, now)])
  {
    var events := s.events + [NewEvent(s, draft, cause, now)];
    forall id | 0 <= id < |events| ensures CausalAt(events, id) {
      assert id < |s.events| ==> CausalAt(s.events, id);
    }
  }

  ghost function OutcomeOf(s: Store, draft: Draft, cause: Option<nat>, now: nat, enabled: bool): Outcome
    requires Causal(s.events) && (cause.Some? ==> cause.value < |s.events|)
  {
    var refusal := Guard(s, draft, cause, now, enabled);
    if refusal.Some? then refusal.value else Emitted(|s.events|)
  }

  ghost function Emit(s: Store, draft: Draft, cause: Option<nat>, now: nat, enabled: bool): (t: Store)
    requires Causal(s.events) && (cause.Some? ==> cause.value < |s.events|)
    ensures Causal(t.events) && s.events <= t.events && t.purged == s.purged
    ensures Sourced(s.events) ==> Sourced(t.events)
  {
    if Guard(s, draft, cause, now, enabled).Some? then s
    else
      AppendKeepsCausal(s, draft, cause, now);
      s.(events := s.events + [NewEvent(s, draft, cause, now)])
  }

  class EventStore {
    var events: seq<Event>
    var purged: set<nat>

    ghost function View(): Store
      reads this
    {
      Store(events, purged)
    }

    constructor ()
      ensures View() == Store([], {})
    {
      events, purged := [], {};
    }

    /** The walk is cut after `MAX_DEPTH + 1` rows, which no chain exceeds. */
    method RoutineInChain(event: nat, routine: nat) returns (found: bool)
      requires Causal(events) && event < |events|
      ensures found <==> Carries(events, Walk(View(), event), routine)
    {
      var current: Option<nat> := Some(event);
      ChainMeaning(events, event);
      for step := 0 to MAX_DEPTH + 1
        invariant current.Some? ==> current.value < |events| && events[current.value].depth + step < MAX_DEPTH
        invariant Carries(events, Walk(View(), event), routine)
                  <==> current.Some? && Carries(events, Walk(View(), current.value), routine)
      {
        if current.None? {
          return false;
        }
        var row := events[current.value];
        assert CausalAt(events, current.value);
        WalkStep(View(), current.value, routine);
        if row.draft.routine == Some(routine) {
          return true;
        }
        if row.parent.None? {
          return false;
        }
        current := if row.parent.value in purged then None else row.parent;
      }
      return false;
    }

    method EmitEvent(draft: Draft, cause: Option<nat>, now: nat, enabled: bool) returns (r: Outcome)
      requires Causal(events) && (cause.Some? ==> cause.value < |events|)
      modifies this
      ensures r == OutcomeOf(old(View()), draft, cause, now, enabled)
      ensures View() == Emit(old(View()), draft, cause, now, enabled)
    {
      if draft.content.source !in EVENT_SOURCES {
        return Refused(UnknownSource);
      }
      if !enabled {
        return Refused(Disabled);
      }
      var depth, correlation := 0, |events|;
      if cause.Some? {
        depth := events[cause.value].depth + 1;
        correlation := events[cause.value].correlation;
        if depth >= MAX_DEPTH {
          return Refused(DepthGuard);
        }
        if draft.routine.Some? {
          var again := RoutineInChain(cause.value, draft.routine.value);
          if again {
            return Refused(SelfTrigger);
          }
        }
      }
      if Seen(Store(events, purged), draft.dedupe) {
        return Deduped;
      }
      if draft.routine.Some? {
        var recent := CountSince(Store(events, purged), draft.routine.value, now - HOUR);
        if recent >= RULE_KILL_SWITCH_PER_HOUR {
          return Refused(KillSwitch);
        }
      }
      r := Emitted(|events|);
      events := events + [Event(draft, cause, correlation, depth, now)];
    }
  }

  // ── Every reachable store ──

  datatype Step = Append(draft: Draft, cause: Option<nat>, at: nat) | Purge(id: nat, at: nat)

  /** The store and the clock both sides share; emits are serialized by the database. */
  datatype State = State(store: Store, clock: nat)

  /** Retention windows are at least a day. */
  predicate StepEnabled(s: State, step: Step) {
    && s.clock <= step.at
    && match step
       case Append(_, cause, _) => cause.Some? ==> cause.value < |s.store.events|
       case Purge(id, at) => id < |s.store.events| && s.store.events[id].receivedAt + DAY <= at
  }

  ghost function After(s: State, step: Step): State
    requires Causal(s.store.events) && StepEnabled(s, step)
  {
    match step
    case Append(draft, cause, at) => State(Emit(s.store, draft, cause, at, true), at)
    case Purge(id, at) => State(s.store.(purged := s.store.purged + {id}), at)
  }

  /** The events of `routine` received within an hour from `t` on, purged or not. */
  ghost function InHour(events: seq<Event>, routine: nat, t: nat): set<nat> {
    set id: nat | id < |events| && events[id].draft.routine == Some(routine)
                  && t <= events[id].receivedAt <= t + HOUR
  }

  ghost predicate SameKey(s: Store, i: nat, j: nat) {
    && i < |s.events| && j < |s.events| && i !in s.purged && j !in s.purged
    && s.events[i].draft.dedupe != "" && s.events[i].draft.dedupe == s.events[j].draft.dedupe
  }

  ghost predicate Inv(s: State) {
    && Causal(s.store.events)
    && (forall id :: id in s.store.purged ==> id < |s.store.events|)
    && (forall id: nat :: id < |s.store.events| ==>
          && s.store.events[id].receivedAt <= s.clock
          && (id in s.store.purged ==> s.store.events[id].receivedAt + DAY <= s.clock))
    && (forall routine, t :: |InHour(s.store.events, routine, t)| <= RULE_KILL_SWITCH_PER_HOUR)
    && (forall i, j :: SameKey(s.store, i, j) ==> i == j)
  }

  /** The count the kill switch takes covers every hour that reaches the present. */
  lemma CountCoversHour(s: State, routine: nat, t: nat, now: nat)
    requires Inv(s) && s.clock <= now <= t + HOUR
    ensures |InHour(s.store.events, routine, t)| <= CountSince(s.store, routine, now - HOUR)
  {
    var events := s.store.events;
    var counted := set i: nat | i < |events| && i !in s.store.purged
                           && events[i].draft.routine == Some(routine) && events[i].receivedAt >= now - HOUR;
    var hour := InHour(events, routine, t);
    forall i | i in hour ensures i in counted {}
    SubsetIsSmaller(hour, counted);
  }

  lemma AppendKeepsRate(s: State, step: Step, routine: nat, t: nat)
    requires Inv(s) && StepEnabled(s, step) && step.Append?
    ensures |InHour(After(s, step).store.events, routine, t)| <= RULE_KILL_SWITCH_PER_HOUR
  {
    hide CountSince, Seen, Causal, Carries;
    var before, after := s.store.events, After(s, step).store.events;
    assert |InHour(before, routine, t)| <= RULE_KILL_SWITCH_PER_HOUR;
    if after != before {
      var e := NewEvent(s.store, step.draft, step.cause, step.at);
      assert after == before + [e];
      if step.draft.routine == Some(routine) && t <= step.at <= t + HOUR {
        CountCoversHour(s, routine, t, step.at);
        assert InHour(after, routine, t) == InHour(before, routine, t) + {|before|};
      } else {
        assert InHour(after, routine, t) == InHour(before, routine, t);
      }
    }
  }

  lemma StepKeepsInv(s: State, step: Step)
    requires Inv(s) && StepEnabled(s, step)
    ensures Inv(After(s, step))
  {
    var t := After(s, step);
    forall routine, from | true
      ensures |InHour(t.store.events, routine, from)| <= RULE_KILL_SWITCH_PER_HOUR
    {
      if step.Append? {
        AppendKeepsRate(s, step, routine, from);
      } else {
        assert |InHour(s.store.events, routine, from)| <= RULE_KILL_SWITCH_PER_HOUR;
      }
    }
    forall i: nat, j: nat | SameKey(t.store, i, j)
      ensures i == j
    {
      if i < |s.store.events| && j < |s.store.events| {
        assert SameKey(s.store, i, j);
      }
    }
  }

  ghost predicate CanRun(s: State, steps: seq<Step>)
    requires Inv(s)
    decreases |steps|
  {
    steps != [] ==> StepEnabled(s, steps[0]) && (StepKeepsInv(s, steps[0]); CanRun(After(s, steps[0]), steps[1..]))
  }

  ghost function RunFrom(s: State, steps: seq<Step>): (t: State)
    requires Inv(s) && CanRun(s, steps)
    ensures Inv(t)
    decreases |steps|
  {
    if steps == [] then s else
      StepKeepsInv(s, steps[0]);
      RunFrom(After(s, steps[0]), steps[1..])
  }

  ghost function Empty(): (s: State)
    ensures Inv(s)
  {
    var s := State(Store([], {}), 0);
    assert forall routine, t {:trigger InHour(s.store.events, routine, t)} :: InHour(s.store.events, routine, t) == {};
    s
  }

  /** Main result. Over any run of emits and purges, no hour holds more than
    * `RULE_KILL_SWITCH_PER_HOUR` events of one routine, a dedupe key names at most one row of the
    * table, every chain is at most `MAX_DEPTH` long, and an event's depth and correlation id are
    * its number of ancestors and its root. */
  lemma CascadeGuardsHold(steps: seq<Step>, routine: nat, t: nat, id: nat)
    requires CanRun(Empty(), steps)
    requires id < |RunFrom(Empty(), steps).store.events|
    ensures var s := RunFrom(Empty(), steps).store;
            && |InHour(s.events, routine, t)| <= RULE_KILL_SWITCH_PER_HOUR
            && (forall i, j :: SameKey(s, i, j) ==> i == j)
            && |Chain(s.events, id)| == s.events[id].depth + 1 <= MAX_DEPTH
            && s.events[id].correlation == Chain(s.events, id)[s.events[id].depth]
  {
    ChainMeaning(RunFrom(Empty(), steps).store.events, id);
  }

  // ── No routine twice on a chain ──

  ghost predicate NoRepeat(events: seq<Event>, chain: seq<nat>) {
    forall i, j :: 0 <= i < j < |chain| && chain[i] < |events| && chain[j] < |events|
                   && events[chain[i]].draft.routine.Some?
                   ==> events[chain[i]].draft.routine != events[chain[j]].draft.routine
  }

  lemma {:induction false} ChainIsStable(a: seq<Event>, b: seq<Event>, id: nat)
    requires Causal(a) && Causal(b) && a <= b && id < |a|
    ensures Chain(a, id) == Chain(b, id)
    decreases id
  {
    assert CausalAt(a, id);
    if a[id].parent.Some? {
      ChainIsStable(a, b, a[id].parent.value);
    }
  }

  /** Retention has deleted an ancestor of `cause`, and the routine stands at or above it. */
  ghost predicate HiddenByPurge(s: Store, cause: nat, routine: nat)
    requires Causal(s.events) && cause < |s.events|
  {
    var chain := Chain(s.events, cause);
    exists i :: 0 < i < |chain| && chain[i] in s.purged && Carries(s.events, chain[i..], routine)
  }

  /** The walk is the chain up to its first deleted ancestor. */
  lemma {:induction false} WalkEndsAtThePurge(s: Store, id: nat) returns (m: nat)
    requires Causal(s.events) && id < |s.events|
    ensures var chain := Chain(s.events, id);
            && 0 < m <= |chain| && Walk(s, id) == chain[..m] && (m < |chain| ==> chain[m] in s.purged)
            && forall i :: 0 < i < m ==> chain[i] !in s.purged
    decreases id
  {
    assert CausalAt(s.events, id);
    m := 1;
    if s.events[id].parent.Some? {
      var up := s.events[id].parent.value;
      assert Chain(s.events, id) == [id] + Chain(s.events, up) && Chain(s.events, up)[0] == up;
      if up !in s.purged {
        var k := WalkEndsAtThePurge(s, up);
        m := k + 1;
        assert ([id] + Chain(s.events, up))[..m] == [id] + Chain(s.events, up)[..k];
      }
    }
  }

  lemma CarrierIndex(events: seq<Event>, chain: seq<nat>, routine: nat) returns (i: nat)
    requires Carries(events, chain, routine)
    ensures i < |chain| && chain[i] < |events| && events[chain[i]].draft.routine == Some(routine)
  {
    var a :| a in chain && a < |events| && events[a].draft.routine == Some(routine);
    i :| 0 <= i < |chain| && chain[i] == a;
  }

  lemma CarriesAt(events: seq<Event>, chain: seq<nat>, routine: nat, i: nat)
    requires i < |chain| && chain[i] < |events| && events[chain[i]].draft.routine == Some(routine)
    ensures Carries(events, chain, routine)
  {
    assert chain[i] in chain;
  }

  lemma CarrierPast(events: seq<Event>, chain: seq<nat>, m: nat, routine: nat)
    requires 0 < m <= |chain| && !Carries(events, chain[..m], routine) && Carries(events, chain, routine)
    ensures m < |chain| && Carries(events, chain[m..], routine)
  {
    assert forall j :: 0 <= j < m ==> chain[..m][j] == chain[j] && chain[..m][j] in chain[..m];
    var i := CarrierIndex(events, chain, routine);
    CarriesAt(events, chain[m..], routine, i - m);
  }

  lemma CarriesMore(events: seq<Event>, chain: seq<nat>, i: nat, routine: nat)
    requires i <= |chain| && Carries(events, chain[i..], routine)
    ensures Carries(events, chain, routine)
  {
    var j := CarrierIndex(events, chain[i..], routine);
    CarriesAt(events, chain, routine, i + j);
  }

  /** What the walk misses is exactly what a purge hides. */
  lemma MissedIsHidden(s: Store, cause: nat, routine: nat)
    requires Causal(s.events) && cause < |s.events| && !Carries(s.events, Walk(s, cause), routine)
    ensures Carries(s.events, Chain(s.events, cause), routine) <==> HiddenByPurge(s, cause, routine)
  {
    hide Carries, Walk, Chain, Causal;
    var m := WalkEndsAtThePurge(s, cause);
    var chain := Chain(s.events, cause);
    if Carries(s.events, chain, routine) {
      CarrierPast(s.events, chain, m, routine);
    }
    if HiddenByPurge(s, cause, routine) {
      var i :| 0 < i < |chain| && chain[i] in s.purged && Carries(s.events, chain[i..], routine);
      CarriesMore(s.events, chain, i, routine);
    }
  }

  /** Main result. An accepted emit repeats a routine on its chain exactly when retention has deleted an
    * ancestor of its cause and the routine stands at or above that ancestor. */
  lemma EmitRepeatsExactlyPastThePurge(s: Store, draft: Draft, cause: nat, now: nat)
    requires Causal(s.events) && cause < |s.events| && NoRepeat(s.events, Chain(s.events, cause))
    requires OutcomeOf(s, draft, Some(cause), now, true).Emitted?
    ensures var t := Emit(s, draft, Some(cause), now, true);
            NoRepeat(t.events, Chain(t.events, |s.events|)) <==>
            (draft.routine.Some? ==> !HiddenByPurge(s, cause, draft.routine.value))
  {
    var t := Emit(s, draft, Some(cause), now, true);
    var up := Chain(s.events, cause);
    NewChain(s, draft, cause, now);
    ConsRepeats(t.events, |s.events|, up);
    assert NoRepeat(t.events, up);
    if draft.routine.Some? {
      assert Carries(s.events, up, draft.routine.value) <==> Carries(t.events, up, draft.routine.value);
      MissedIsHidden(s, cause, draft.routine.value);
    }
  }

  lemma NewChain(s: Store, draft: Draft, cause: nat, now: nat)
    requires Causal(s.events) && cause < |s.events|
    requires OutcomeOf(s, draft, Some(cause), now, true).Emitted?
    ensures var t := Emit(s, draft, Some(cause), now, true); var up := Chain(s.events, cause);
            && |t.events| == |s.events| + 1 && t.events[|s.events|].draft == draft
            && Chain(t.events, |s.events|) == [|s.events|] + up
            && (forall a :: a in up ==> a < |s.events| && t.events[a] == s.events[a])
  {
    var t := Emit(s, draft, Some(cause), now, true);
    ChainIsStable(s.events, t.events, cause);
    ChainMeaning(s.events, cause);
    assert CausalAt(t.events, |s.events|);
  }

  lemma ConsRepeats(events: seq<Event>, id: nat, up: seq<nat>)
    requires id < |events| && NoRepeat(events, up) && forall a :: a in up ==> a < |events|
    ensures NoRepeat(events, [id] + up)
            <==> (events[id].draft.routine.Some? ==> !Carries(events, up, events[id].draft.routine.value))
  {
    var chain := [id] + up;
    if events[id].draft.routine.Some? && Carries(events, up, events[id].draft.routine.value) {
      var a :| a in up && a < |events| && events[a].draft.routine == events[id].draft.routine;
      var i :| 0 <= i < |up| && up[i] == a;
      assert chain[0] == id && chain[i + 1] == a;
    } else {
      forall i, j | 0 <= i < j < |chain| && chain[i] < |events| && chain[j] < |events|
                    && events[chain[i]].draft.routine.Some?
        ensures events[chain[i]].draft.routine != events[chain[j]].draft.routine
      {
        assert chain[j] == up[j - 1] && up[j - 1] in up;
        assert i > 0 ==> chain[i] == up[i - 1];
      }
    }
  }

  /** No proper ancestor of the event has been deleted. */
  ghost predicate Whole(s: Store, id: nat)
    requires Causal(s.events) && id < |s.events|
  {
    forall i :: 0 < i < |Chain(s.events, id)| ==> Chain(s.events, id)[i] !in s.purged
  }

  ghost predicate WholeChainsAreClean(s: Store)
    requires Causal(s.events)
  {
    forall id: nat :: id < |s.events| && Whole(s, id) ==> NoRepeat(s.events, Chain(s.events, id))
  }

  lemma OldChainsKeep(s: Store, t: Store, i: nat)
    requires Causal(s.events) && Causal(t.events) && s.events <= t.events && s.purged <= t.purged && i < |s.events|
    requires WholeChainsAreClean(s)
    ensures Whole(t, i) ==> NoRepeat(t.events, Chain(t.events, i))
  {
    hide Causal;
    ChainIsStable(s.events, t.events, i);
    ChainMeaning(s.events, i);
  }

  lemma NewChainKeeps(s: Store, draft: Draft, cause: nat, now: nat)
    requires Causal(s.events) && cause < |s.events| && WholeChainsAreClean(s)
    requires OutcomeOf(s, draft, Some(cause), now, true).Emitted?
    ensures var t := Emit(s, draft, Some(cause), now, true);
            Whole(t, |s.events|) ==> NoRepeat(t.events, Chain(t.events, |s.events|))
  {
    hide NoRepeat, Carries, OutcomeOf, Guard, Causal;
    var t := Emit(s, draft, Some(cause), now, true);
    NewChain(s, draft, cause, now);
    if Whole(t, |s.events|) {
      var up := Chain(s.events, cause);
      assert forall i :: 0 <= i < |up| ==> Chain(t.events, |s.events|)[i + 1] == up[i];
      assert Whole(s, cause);
      EmitRepeatsExactlyPastThePurge(s, draft, cause, now);
    }
  }

  lemma RootChain(events: seq<Event>, id: nat)
    requires Causal(events) && id < |events| && events[id].parent.None?
    ensures NoRepeat(events, Chain(events, id))
  {
    assert Chain(events, id) == [id];
  }

  lemma StepKeepsClean(s: State, step: Step)
    requires Inv(s) && StepEnabled(s, step) && WholeChainsAreClean(s.store)
    ensures WholeChainsAreClean(After(s, step).store)
  {
    hide Inv, NoRepeat, Chain, Causal, Guard, Whole;
    AfterIsCausal(s, step);
    var t := After(s, step);
    forall id: nat | id < |t.store.events| && Whole(t.store, id) ensures NoRepeat(t.store.events, Chain(t.store.events, id)) {
      if id < |s.store.events| {
        OldChainsKeep(s.store, t.store, id);
      } else if step.cause.Some? {
        NewChainKeeps(s.store, step.draft, step.cause.value, step.at);
      } else {
        RootChain(t.store.events, id);
      }
    }
  }

  lemma AfterIsCausal(s: State, step: Step)
    requires Inv(s) && StepEnabled(s, step)
    ensures Causal(s.store.events) && Causal(After(s, step).store.events)
  {}

  lemma {:induction false} RunKeepsClean(s: State, steps: seq<Step>)
    requires Inv(s) && CanRun(s, steps) && WholeChainsAreClean(s.store)
    ensures WholeChainsAreClean(RunFrom(s, steps).store)
    decreases |steps|
  {
    hide WholeChainsAreClean, Inv;
    if steps != [] {
      AfterIsCausal(s, steps[0]);
      StepKeepsClean(s, steps[0]);
      StepKeepsInv(s, steps[0]);
      RunKeepsClean(After(s, steps[0]), steps[1..]);
    }
  }

  /** Main result. Over any run of emits and purges no routine occurs twice on a causal chain, as long as
    * no ancestor on that chain has been deleted. */
  lemma NoRoutineRepeats(steps: seq<Step>, id: nat)
    requires CanRun(Empty(), steps)
    requires id < |RunFrom(Empty(), steps).store.events| && Whole(RunFrom(Empty(), steps).store, id)
    ensures NoRepeat(RunFrom(Empty(), steps).store.events, Chain(RunFrom(Empty(), steps).store.events, id))
  {
    RunKeepsClean(Empty(), steps);
  }

  function Plain(routine: Option<nat>): Draft {
    Draft(Content("k", "internal", map[]), "", routine, None)
  }

  /** A root of routine 7, an effect of it, the root's deletion, and routine 7 once more. */
  function PurgedRun(): seq<Step> {
    [Append(Plain(Some(7)), None, 0)]
    + ([Append(Plain(None), Some(0), 0)] + ([Purge(0, DAY + 1)] + ([Append(Plain(Some(7)), Some(1), DAY + 1)] + [])))
  }

  const ROOT: Event := Event(Plain(Some(7)), None, 0, 0, 0)
  const EFFECT: Event := Event(Plain(None), Some(0), 0, 1, 0)
  const AGAIN: Event := Event(Plain(Some(7)), Some(1), 0, 2, DAY + 1)

  /** The deletion matters: this run puts routine 7 on one chain twice. */
  lemma PurgeLetsARoutineRepeat()
    ensures CanRun(Empty(), PurgedRun())
    ensures var s := RunFrom(Empty(), PurgedRun()).store;
            && |s.events| == 3 && Chain(s.events, 2) == [2, 1, 0]
            && s.events[2].draft.routine == s.events[0].draft.routine == Some(7)
  {
    var s3 := State(Store([ROOT, EFFECT], {0}), DAY + 1);
    var last := [Append(Plain(Some(7)), Some(1), DAY + 1)] + [];
    LastStep();
    FirstSteps();
    var s1, s2 := State(Store([ROOT], {}), 0), State(Store([ROOT, EFFECT], {}), 0);
    hide Inv, After, StepEnabled, Chain;
    RunCons(s2, Purge(0, DAY + 1), last);
    RunCons(s1, Append(Plain(None), Some(0), 0), [Purge(0, DAY + 1)] + last);
    RunCons(Empty(), Append(Plain(Some(7)), None, 0), [Append(Plain(None), Some(0), 0)] + ([Purge(0, DAY + 1)] + last));
  }

  lemma FirstSteps()
    ensures var s0, s1, s2, s3 := Empty(), State(Store([ROOT], {}), 0), State(Store([ROOT, EFFECT], {}), 0),
                                  State(Store([ROOT, EFFECT], {0}), DAY + 1);
            var a, b, c := Append(Plain(Some(7)), None, 0), Append(Plain(None), Some(0), 0), Purge(0, DAY + 1);
            && Inv(s1) && Inv(s2) && StepEnabled(s0, a) && StepEnabled(s1, b) && StepEnabled(s2, c)
            && After(s0, a) == s1 && After(s1, b) == s2 && After(s2, c) == s3
  {
    RootStep();
    EffectStep();
    hide Inv;
    var s3 := State(Store([ROOT, EFFECT], {0}), DAY + 1);
    assert {} + {0} == {0};
    assert After(State(Store([ROOT, EFFECT], {}), 0), Purge(0, DAY + 1)) == s3;
  }

  lemma RootStep()
    ensures var s0, s1, a := Empty(), State(Store([ROOT], {}), 0), Append(Plain(Some(7)), None, 0);
            StepEnabled(s0, a) && After(s0, a) == s1 && Inv(s1)
  {
    var s0, a := Empty(), Append(Plain(Some(7)), None, 0);
    EmitsPlain(s0.store, Some(7), None, 0);
    EmptyInv();
    hide Inv;
    assert NewEvent(s0.store, Plain(Some(7)), None, 0) == ROOT && [] + [ROOT] == [ROOT];
    StepKeepsInv(s0, a);
  }

  lemma EmptyInv()
    ensures Inv(Empty())
  {
    forall routine, t ensures |InHour(Empty().store.events, routine, t)| <= RULE_KILL_SWITCH_PER_HOUR {
      assert InHour(Empty().store.events, routine, t) == {};
    }
  }

  lemma EffectStep()
    ensures var s1, s2, b := State(Store([ROOT], {}), 0), State(Store([ROOT, EFFECT], {}), 0), Append(Plain(None), Some(0), 0);
            StepEnabled(s1, b) && After(s1, b) == s2 && Inv(s2)
  {
    var s1, b := State(Store([ROOT], {}), 0), Append(Plain(None), Some(0), 0);
    RootStep();
    assert CausalAt([ROOT], 0) && Causal([ROOT]);
    EmitsPlain(s1.store, None, Some(0), 0);
    hide Inv;
    assert NewEvent(s1.store, Plain(None), Some(0), 0) == EFFECT && [ROOT] + [EFFECT] == [ROOT, EFFECT];
    StepKeepsInv(s1, b);
  }

  lemma LastStep()
    ensures var s := State(Store([ROOT, EFFECT], {0}), DAY + 1);
            var steps := [Append(Plain(Some(7)), Some(1), DAY + 1)] + [];
            && Inv(s) && CanRun(s, steps)
            && RunFrom(s, steps).store.events == [ROOT, EFFECT, AGAIN]
            && Chain([ROOT, EFFECT, AGAIN], 2) == [2, 1, 0]
  {
    var s2, s := State(Store([ROOT, EFFECT], {}), 0), State(Store([ROOT, EFFECT], {0}), DAY + 1);
    var step := Append(Plain(Some(7)), Some(1), DAY + 1);
    FirstSteps();
    StepKeepsInv(s2, Purge(0, DAY + 1));
    WalkMissesTheRoot();
    AgainChain();
    hide Inv, Chain, Walk, Causal;
    EmitsPlain(s.store, Some(7), Some(1), DAY + 1);
    assert NewEvent(s.store, Plain(Some(7)), Some(1), DAY + 1) == AGAIN;
    assert [ROOT, EFFECT] + [AGAIN] == [ROOT, EFFECT, AGAIN];
    RunCons(s, step, []);
  }

  lemma WalkMissesTheRoot()
    ensures Causal([ROOT, EFFECT]) && !Carries([ROOT, EFFECT], Walk(Store([ROOT, EFFECT], {0}), 1), 7)
  {
    var events := [ROOT, EFFECT];
    assert CausalAt(events, 0) && CausalAt(events, 1);
    assert Walk(Store(events, {0}), 1) == [1];
  }

  lemma AgainChain()
    ensures Causal([ROOT, EFFECT, AGAIN]) && Chain([ROOT, EFFECT, AGAIN], 2) == [2, 1, 0]
  {
    var events := [ROOT, EFFECT, AGAIN];
    assert CausalAt(events, 2) && CausalAt(events, 1) && CausalAt(events, 0);
    assert Chain(events, 0) == [0] && Chain(events, 1) == [1, 0];
  }

  lemma RunCons(s: State, step: Step, rest: seq<Step>)
    requires Inv(s) && StepEnabled(s, step)
    ensures Inv(After(s, step)) && (CanRun(s, [step] + rest) <==> CanRun(After(s, step), rest))
    ensures CanRun(s, [step] + rest) ==> RunFrom(s, [step] + rest) == RunFrom(After(s, step), rest)
  {
    StepKeepsInv(s, step);
    assert ([step] + rest)[1..] == rest;
  }

  /** A young store accepts a plain draft whose routine the walk does not meet. */
  lemma EmitsPlain(s: Store, routine: Option<nat>, cause: Option<nat>, now: nat)
    requires Causal(s.events) && |s.events| < RULE_KILL_SWITCH_PER_HOUR
    requires cause.Some? ==> cause.value < |s.events| && s.events[cause.value].depth + 1 < MAX_DEPTH
    requires cause.Some? && routine.Some? ==> !Carries(s.events, Walk(s, cause.value), routine.value)
    ensures Emit(s, Plain(routine), cause, now, true)
            == s.(events := s.events + [NewEvent(s, Plain(routine), cause, now)])
  {
    if routine.Some? {
      FewCount(s, routine.value, now - HOUR);
    }
  }

  lemma FewCount(s: Store, routine: nat, since: int)
    ensures CountSince(s, routine, since) <= |s.events|
  {
    var counted := set id: nat | id < |s.events| && id !in s.purged
                                 && s.events[id].draft.routine == Some(routine) && s.events[id].receivedAt >= since;
    SubsetIsSmaller(counted, Ids(|s.events|));
  }
}

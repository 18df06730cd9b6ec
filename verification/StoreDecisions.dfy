/** What an emit answers and what it stores, in every reachable store: each guard spelled out on the rows of
  * the table and the causal chain. */
module StoreDecisions {
  import opened Options
  import opened EventStoreModel

  /** A row still in the table carries the key. */
  ghost predicate KeyTaken(s: Store, key: string) {
    key != "" && exists id: nat :: id < |s.events| && id !in s.purged && s.events[id].draft.dedupe == key
  }

  /** The routine stands on the chain of `cause`, with every row on the way to it still in the table. */
  ghost predicate OnVisibleChain(s: Store, cause: nat, routine: nat)
    requires Causal(s.events) && cause < |s.events|
  {
    var chain := Chain(s.events, cause);
    exists i :: 0 <= i < |chain| && chain[i] < |s.events| && s.events[chain[i]].draft.routine == Some(routine)
                && forall j :: 0 < j <= i ==> chain[j] !in s.purged
  }

  /** The rows of the routine in the table that arrived within the last hour. */
  function LastHour(s: Store, routine: nat, now: nat): set<nat> {
    set id: nat | id < |s.events| && id !in s.purged && s.events[id].draft.routine == Some(routine)
                  && now <= s.events[id].receivedAt + 3600
  }

  lemma WalkSeesVisible(s: Store, cause: nat, routine: nat)
    requires Causal(s.events) && cause < |s.events|
    ensures Carries(s.events, Walk(s, cause), routine) <==> OnVisibleChain(s, cause, routine)
  {
    hide Walk, Chain, Causal;
    var m := WalkEndsAtThePurge(s, cause);
    var chain := Chain(s.events, cause);
    if Carries(s.events, chain[..m], routine) {
      var i := CarrierIndex(s.events, chain[..m], routine);
      assert chain[i] == chain[..m][i];
    }
    if OnVisibleChain(s, cause, routine) {
      var i :| 0 <= i < |chain| && chain[i] < |s.events| && s.events[chain[i]].draft.routine == Some(routine)
               && forall j :: 0 < j <= i ==> chain[j] !in s.purged;
      assert i < m;
      CarriesAt(s.events, chain[..m], routine, i);
    }
  }

  lemma CountIsLastHour(s: Store, routine: nat, now: nat)
    ensures CountSince(s, routine, now - HOUR) == |LastHour(s, routine, now)|
  {
    assert (set id: nat | id < |s.events| && id !in s.purged
                          && s.events[id].draft.routine == Some(routine) && s.events[id].receivedAt >= now - HOUR)
           == LastHour(s, routine, now);
  }

  /** Main result. In every reachable store an emit is refused for an unknown source, with ambient mode off,
    * below a chain of four, by its own routine on the visible chain, as the duplicate of a row still in the
    * table, or after fifty events of its routine within the hour, the first of these that holds; otherwise,
    * and only then, exactly one row is added, one level below its cause and under its cause's root. */
  lemma EmitDecidesExactly(steps: seq<Step>, draft: Draft, cause: Option<nat>, now: nat, enabled: bool)
    requires CanRun(Empty(), steps) && (cause.Some? ==> cause.value < |RunFrom(Empty(), steps).store.events|)
    ensures var s := RunFrom(Empty(), steps).store;
            var chain := if cause.Some? then Chain(s.events, cause.value) else [];
            && OutcomeOf(s, draft, cause, now, enabled)
               == (if draft.content.source
                      !in {"schedule", "webhook", "poll", "internal", "wakeup", "presence", "pattern", "manual"}
                   then Refused(UnknownSource)
                   else if !enabled then Refused(Disabled)
                   else if |chain| >= 4 then Refused(DepthGuard)
                   else if cause.Some? && draft.routine.Some? && OnVisibleChain(s, cause.value, draft.routine.value)
                   then Refused(SelfTrigger)
                   else if KeyTaken(s, draft.dedupe) then Deduped
                   else if draft.routine.Some? && |LastHour(s, draft.routine.value, now)| >= 50 then Refused(KillSwitch)
                   else Emitted(|s.events|))
            && Emit(s, draft, cause, now, enabled)
               == (if OutcomeOf(s, draft, cause, now, enabled).Emitted?
                   then s.(events := s.events + [Event(draft, cause, if chain == [] then |s.events| else chain[|chain| - 1],
                                                       |chain|, now)])
                   else s)
  {
    var s := RunFrom(Empty(), steps).store;
    if cause.Some? {
      ChainMeaning(s.events, cause.value);
      if draft.routine.Some? {
        WalkSeesVisible(s, cause.value, draft.routine.value);
      }
    }
    if draft.routine.Some? {
      CountIsLastHour(s, draft.routine.value, now);
    }
    hide CountSince, LastHour, Walk, Chain, Carries, OnVisibleChain;
  }

  // ── The life of a key ──

  /** A webhook event with a key and no routine. */
  function Keyed(key: string, payload: map<string, string>): Draft {
    Draft(Content("order", "webhook", payload), key, None, None)
  }

  /** The event, the same key again, the first one's deletion, and the key once more. */
  function KeyLife(key: string, p: map<string, string>, q: map<string, string>, t: nat): seq<Step> {
    [Append(Keyed(key, p), None, t)]
    + ([Append(Keyed(key, q), None, t)]
       + ([Purge(0, t + 86400)] + ([Append(Keyed(key, q), None, t + 86400)] + [])))
  }

  lemma RunOne(s: State, step: Step, t: State, rest: seq<Step>)
    requires Inv(s) && StepEnabled(s, step) && t == After(s, step) && Inv(t) && CanRun(t, rest)
    ensures CanRun(s, [step] + rest) && RunFrom(s, [step] + rest) == RunFrom(t, rest)
  {
    assert ([step] + rest)[1..] == rest;
  }

  /** Main result, for every key but the empty one. The first event with a key is stored; a second one is
    * dropped while the first is kept; once the first is deleted the key is free again. */
  lemma KeyLivesWithItsRow(key: string, p: map<string, string>, q: map<string, string>, t: nat)
    requires key != ""
    ensures var first, again := Event(Keyed(key, p), None, 0, 0, t), Event(Keyed(key, q), None, 1, 0, t + 86400);
            && OutcomeOf(Store([], {}), Keyed(key, p), None, t, true) == Emitted(0)
            && OutcomeOf(Store([first], {}), Keyed(key, q), None, t, true) == Deduped
            && OutcomeOf(Store([first], {0}), Keyed(key, q), None, t + 86400, true) == Emitted(1)
            && CanRun(Empty(), KeyLife(key, p, q, t))
            && RunFrom(Empty(), KeyLife(key, p, q, t)) == State(Store([first, again], {0}), t + 86400)
  {
    var first, again := Event(Keyed(key, p), None, 0, 0, t), Event(Keyed(key, q), None, 1, 0, t + 86400);
    var s0, s1, s2, s3 := Empty(), State(Store([first], {}), t), State(Store([first], {0}), t + 86400),
                          State(Store([first, again], {0}), t + 86400);
    var a, b, c, d := Append(Keyed(key, p), None, t), Append(Keyed(key, q), None, t), Purge(0, t + 86400),
                      Append(Keyed(key, q), None, t + 86400);
    assert After(s0, a) == s1;
    StepKeepsInv(s0, a);
    assert s1.store.events[0].draft.dedupe == key;
    assert After(s1, b) == s1;
    assert After(s1, c) == s2;
    StepKeepsInv(s1, c);
    assert [first] + [again] == [first, again];
    assert After(s2, d) == s3;
    StepKeepsInv(s2, d);
    hide Inv, After, StepEnabled;
    assert CanRun(s3, []) && RunFrom(s3, []) == s3;
    RunOne(s2, d, s3, []);
    RunOne(s1, c, s2, [d] + []);
    RunOne(s1, b, s1, [c] + ([d] + []));
    RunOne(s0, a, s1, [b] + ([c] + ([d] + [])));
  }
}

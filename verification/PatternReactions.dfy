/** What the pattern engine does, in every reachable state: which instances arm, match and expire, and
  * exactly which events are derived. */
module PatternReactions {
  import opened Options
  import opened EventStoreModel
  import opened PatternsModel
  import Runs = PatternRuns

  /** An event that rule `k` derived for partition `p`. */
  predicate IsOf(e: Event, k: nat, p: string) {
    e.draft.rule == Some(k) && "partition" in e.draft.content.payload && e.draft.content.payload["partition"] == p
  }

  /** The event rule `k` derives for partition `p`, as it is stored. */
  predicate IsDerived(e: Event, k: nat, p: string, kind: string, cause: Option<nat>, now: nat) {
    && e.draft == Draft(Content(kind, "pattern", map["rule" := RuleKey(k), "partition" := p]), "", None, Some(k))
    && e.parent == cause && e.receivedAt == now
  }

  /** No event of the rule and partition lies within the cooldown. */
  ghost predicate CooledOff(events: seq<Event>, k: nat, p: string, cooldown: nat, now: nat) {
    forall id :: 0 <= id < |events| && IsOf(events[id], k, p) ==> events[id].receivedAt + cooldown <= now
  }

  /** The depth guard lets an effect of the event through. */
  predicate Shallow(events: seq<Event>, cause: Option<nat>) {
    cause.Some? ==> cause.value < |events| && events[cause.value].depth < 3
  }

  // ── The cooldown is a fact about the stored events ──

  /** The rule's last event in the partition is the one the engine remembers. */
  ghost predicate Remembered(w: World, key: (nat, string), at: nat) {
    exists id: nat :: id < |w.store.events| && IsOf(w.store.events[id], key.0, key.1) && w.store.events[id].receivedAt == at
  }

  /** The bookkeeping has the event, and what it has of it is true. */
  ghost predicate Entered(w: World, id: nat) {
    exists x: nat :: x < |w.log| && w.log[x].event == id && EntryOk(w, x)
  }

  ghost predicate EntryOk(w: World, x: nat) {
    && x < |w.log| && w.log[x].event < |w.store.events|
    && IsOf(w.store.events[w.log[x].event], w.log[x].rule, w.log[x].partition)
    && w.store.events[w.log[x].event].receivedAt == w.log[x].at
    && (w.log[x].rule, w.log[x].partition) in w.recent && w.log[x].at <= w.recent[(w.log[x].rule, w.log[x].partition)]
  }

  ghost predicate Booked(w: World) {
    && (forall key :: key in w.recent ==> Remembered(w, key, w.recent[key]))
    && (forall id: nat {:trigger Entered(w, id)} ::
          id < |w.store.events| && w.store.events[id].draft.rule.Some? ==> Entered(w, id))
  }

  lemma CooledIsCooledOff(w: World, rules: seq<Rule>, k: nat, p: string, now: nat)
    requires Booked(w) && k < |rules|
    ensures CooledDown(w, rules, k, p, now) <==> CooledOff(w.store.events, k, p, rules[k].cooldown, now)
  {
    if CooledDown(w, rules, k, p, now) {
      forall id: nat | id < |w.store.events| && IsOf(w.store.events[id], k, p)
        ensures w.store.events[id].receivedAt + rules[k].cooldown <= now
      {
        assert Entered(w, id);
      }
    }
    if (k, p) in w.recent {
      assert Remembered(w, (k, p), w.recent[(k, p)]);
    }
  }

  lemma FireKeepsBooked(w: World, rules: seq<Rule>, k: nat, p: string, i: nat, cause: Option<nat>, kind: string, now: nat, seen: nat)
    requires Causal(w.store.events) && (cause.Some? ==> cause.value < |w.store.events|) && Booked(w)
    requires (k, p) in w.recent ==> w.recent[(k, p)] <= now
    ensures Booked(Fire(w, k, p, i, cause, kind, now, seen))
  {
    var t := Fire(w, k, p, i, cause, kind, now, seen);
    if t != w {
      var n := |w.store.events|;
      assert IsOf(t.store.events[n], k, p) && t.log[|w.log|].event == n && EntryOk(t, |w.log|);
      forall key | key in t.recent ensures Remembered(t, key, t.recent[key]) {
        if key != (k, p) {
          RememberedStays(w, t, key, w.recent[key]);
        }
      }
      forall id: nat | id < |t.store.events| && t.store.events[id].draft.rule.Some? ensures Entered(t, id) {
        if id < n {
          assert Entered(w, id);
          var x: nat :| x < |w.log| && w.log[x].event == id && EntryOk(w, x);
          assert EntryOk(t, x);
        }
      }
    }
  }

  lemma RememberedStays(w: World, t: World, key: (nat, string), at: nat)
    requires Remembered(w, key, at) && w.store.events <= t.store.events
    ensures Remembered(t, key, at)
  {
    var id: nat :| id < |w.store.events| && IsOf(w.store.events[id], key.0, key.1) && w.store.events[id].receivedAt == at;
    assert t.store.events[id] == w.store.events[id];
  }

  lemma EnteredStays(w: World, t: World, id: nat)
    requires Entered(w, id) && w.store.events <= t.store.events && t.log == w.log && t.recent == w.recent
    ensures Entered(t, id)
  {
    var x: nat :| x < |w.log| && w.log[x].event == id && EntryOk(w, x);
    assert EntryOk(t, x);
  }

  /** Nothing of the books changes: no event of a rule comes in. */
  lemma SameBooks(w: World, t: World)
    requires Booked(w) && w.store.events <= t.store.events && t.recent == w.recent && t.log == w.log
    requires forall id :: |w.store.events| <= id < |t.store.events| ==> t.store.events[id].draft.rule.None?
    ensures Booked(t)
  {
    forall key | key in t.recent ensures Remembered(t, key, t.recent[key]) {
      RememberedStays(w, t, key, w.recent[key]);
    }
    forall id: nat | id < |t.store.events| && t.store.events[id].draft.rule.Some? ensures Entered(t, id) {
      assert Entered(w, id);
      EnteredStays(w, t, id);
    }
  }

  lemma AdvanceKeepsBooked(w: World, rules: seq<Rule>, k: nat, e: nat, now: nat, seen: nat)
    requires k < |rules| && Causal(w.store.events) && e < |w.store.events| && Booked(w)
    requires forall key :: key in w.recent ==> w.recent[key] <= now
    ensures Booked(AdvanceRule(w, rules, k, e, now, seen))
  {
    hide Fire, CooledDown, Completes, Booked;
    var c := ContentOf(w, e);
    var p := rules[k].partition(c);
    var armed := ArmedFrom(w.instances, k, p, 0);
    SameBooks(w, Arm(w, k, p, e, now + rules[k].window));
    if armed.Some? {
      SameBooks(w, WithState(w, armed.value, Matched));
      SameBooks(w, WithState(w, armed.value, Expired));
      FireKeepsBooked(WithState(w, armed.value, Matched), rules, k, p, armed.value, Some(e), "pattern_matched", now, seen);
    }
  }

  lemma RecentStays(w: World, rules: seq<Rule>, k: nat, e: nat, now: nat, seen: nat)
    requires k < |rules| && Causal(w.store.events) && e < |w.store.events|
    requires forall key :: key in w.recent ==> w.recent[key] <= now
    ensures var t := AdvanceRule(w, rules, k, e, now, seen); forall key :: key in t.recent ==> t.recent[key] <= now
  {
    hide CooledDown, Completes, Guard;
  }

  lemma {:induction false} AdvanceAllKeepsBooked(w: World, rules: seq<Rule>, from: nat, e: nat, now: nat, seen: nat)
    requires from <= |rules| && Causal(w.store.events) && e < |w.store.events| && Booked(w)
    requires forall key :: key in w.recent ==> w.recent[key] <= now
    ensures Booked(Advance(w, rules, from, e, now, seen))
    decreases |rules| - from
  {
    hide AdvanceRule, Booked;
    if from < |rules| {
      AdvanceKeepsBooked(w, rules, from, e, now, seen);
      RecentStays(w, rules, from, e, now, seen);
      AdvanceAllKeepsBooked(AdvanceRule(w, rules, from, e, now, seen), rules, from + 1, e, now, seen);
    }
  }

  lemma {:induction false} ExpireKeepsBooked(w: World, rules: seq<Rule>, due: seq<nat>, now: nat, seen: nat)
    requires Causal(w.store.events) && Booked(w) && forall i :: i in due ==> i < |w.instances|
    requires forall key :: key in w.recent ==> w.recent[key] <= now
    ensures Booked(ExpireAll(w, rules, due, now, seen))
    decreases |due|
  {
    if due != [] {
      hide CooledDown, Booked, Guard;
      assert due[0] in due && forall i :: i in due[1..] ==> i in due;
      var inst := w.instances[due[0]];
      var cause := if Visible(w.store, inst.aEvent).Some? then Some(inst.aEvent) else None;
      FireKeepsBooked(w, rules, inst.rule, inst.partition, due[0], cause, "pattern_absence", now, seen);
      ExpireKeepsBooked(ExpireOne(w, rules, due[0], now, seen), rules, due[1..], now, seen);
    }
  }

  lemma StepKeepsBooked(cfg: Runs.Config, rules: seq<Rule>, s: Runs.Sys, a: Runs.Action)
    requires Runs.Inv(cfg, rules, s) && Runs.Enabled(cfg, s, a) && Booked(s.w)
    ensures Booked(Runs.Apply(rules, s, a).w)
  {
    hide Runs.RuleInv, Runs.TimeInv, Advance, ExpireAll, Booked;
    match a
    case Process(e, at) => AdvanceAllKeepsBooked(s.w, rules, 0, e, at, |s.processed|);
    case SweepTick(at) =>
      var marked := s.w.(instances := AllExpired(s.w.instances, at));
      DueIsExact(s.w.instances, at, 0);
      SameBooks(s.w, marked);
      ExpireKeepsBooked(marked, rules, DueFrom(s.w.instances, at, 0), at, |s.processed|);
    case External(_, _) => SameBooks(s.w, Runs.Apply(rules, s, a).w);
    case Delete(_, _) => SameBooks(s.w, Runs.Apply(rules, s, a).w);
  }

  /** Every instance belongs to one of the rules. */
  ghost predicate Known(w: World, n: nat) {
    forall i :: 0 <= i < |w.instances| ==> w.instances[i].rule < n
  }

  lemma {:induction false} AdvanceKeepsKnown(w: World, rules: seq<Rule>, k: nat, e: nat, now: nat, seen: nat)
    requires k <= |rules| && Causal(w.store.events) && e < |w.store.events| && Known(w, |rules|)
    ensures Known(Advance(w, rules, k, e, now, seen), |rules|)
    decreases |rules| - k
  {
    if k < |rules| {
      hide Guard, CooledDown, Completes;
      assert Known(AdvanceRule(w, rules, k, e, now, seen), |rules|);
      AdvanceKeepsKnown(AdvanceRule(w, rules, k, e, now, seen), rules, k + 1, e, now, seen);
    }
  }

  lemma {:induction false} ExpireKeepsInstances(w: World, rules: seq<Rule>, due: seq<nat>, now: nat, seen: nat)
    requires Causal(w.store.events) && forall i :: i in due ==> i < |w.instances|
    ensures ExpireAll(w, rules, due, now, seen).instances == w.instances
  {}

  lemma StepKeepsKnown(cfg: Runs.Config, rules: seq<Rule>, s: Runs.Sys, a: Runs.Action)
    requires Runs.Inv(cfg, rules, s) && Runs.Enabled(cfg, s, a) && Known(s.w, |rules|)
    ensures Known(Runs.Apply(rules, s, a).w, |rules|)
  {
    hide Runs.RuleInv, Runs.TimeInv, Advance, ExpireAll;
    if a.Process? {
      AdvanceKeepsKnown(s.w, rules, 0, a.e, a.at, |s.processed|);
    } else if a.SweepTick? {
      DueIsExact(s.w.instances, a.at, 0);
      ExpireKeepsInstances(s.w.(instances := AllExpired(s.w.instances, a.at)), rules, DueFrom(s.w.instances, a.at, 0), a.at,
                           |s.processed|);
    }
  }

  lemma {:induction false} RunKeepsBooked(cfg: Runs.Config, rules: seq<Rule>, s: Runs.Sys, acts: seq<Runs.Action>)
    requires Runs.Inv(cfg, rules, s) && Runs.CanRun(cfg, rules, s, acts) && Booked(s.w) && Known(s.w, |rules|)
    ensures var t := Runs.RunFrom(cfg, rules, s, acts); Booked(t.w) && Known(t.w, |rules|)
    decreases |acts|
  {
    hide Runs.RuleInv, Runs.TimeInv, Runs.Logged, Booked, Known, Runs.Apply;
    if acts != [] {
      Runs.StepKeepsInv(cfg, rules, s, acts[0]);
      StepKeepsBooked(cfg, rules, s, acts[0]);
      StepKeepsKnown(cfg, rules, s, acts[0]);
      RunKeepsBooked(cfg, rules, Runs.Apply(rules, s, acts[0]), acts[1..]);
    }
  }

  /** What holds in every reachable state. */
  lemma Reached(cfg: Runs.Config, rules: seq<Rule>, acts: seq<Runs.Action>)
    requires Runs.CanRun(cfg, rules, Runs.Start(cfg, rules), acts)
    ensures var s := Runs.RunFrom(cfg, rules, Runs.Start(cfg, rules), acts);
            Runs.Inv(cfg, rules, s) && Booked(s.w) && Known(s.w, |rules|)
  {
    StartIsBooked(cfg, rules);
    RunKeepsBooked(cfg, rules, Runs.Start(cfg, rules), acts);
  }

  lemma StartIsBooked(cfg: Runs.Config, rules: seq<Rule>)
    ensures Booked(Runs.Start(cfg, rules).w) && Known(Runs.Start(cfg, rules).w, |rules|)
  {}

  // ── The sweep ──

  /** The event that armed the instance, while it is in the table. */
  function CauseOf(w: World, inst: Instance): Option<nat> {
    if inst.aEvent < |w.store.events| && inst.aEvent !in w.store.purged then Some(inst.aEvent) else None
  }

  /** An armed absence that is past its deadline, cooled off, and whose event, if it is still there, may
    * have an effect. */
  ghost predicate MustFire(w: World, rules: seq<Rule>, i: nat, now: nat) {
    && i < |w.instances| && w.instances[i].state == Armed && w.instances[i].deadline <= now
    && w.instances[i].rule < |rules| && rules[w.instances[i].rule].kind == Absence
    && CooledOff(w.store.events, w.instances[i].rule, w.instances[i].partition, rules[w.instances[i].rule].cooldown, now)
    && Shallow(w.store.events, CauseOf(w, w.instances[i]))
  }

  predicate FiredFor(t: World, id: nat, w: World, i: nat, now: nat) {
    i < |w.instances| && id < |t.store.events|
    && IsDerived(t.store.events[id], w.instances[i].rule, w.instances[i].partition, "pattern_absence",
                 CauseOf(w, w.instances[i]), now)
  }

  /** The same for an instance the sweep has marked already. */
  ghost predicate Fires(w: World, rules: seq<Rule>, i: nat, now: nat) {
    && i < |w.instances| && w.instances[i].rule < |rules| && rules[w.instances[i].rule].kind == Absence
    && CooledDown(w, rules, w.instances[i].rule, w.instances[i].partition, now)
    && Shallow(w.store.events, CauseOf(w, w.instances[i]))
  }

  ghost predicate Apart(w: World, due: seq<nat>) {
    forall x, y :: 0 <= x < y < |due| && due[x] < |w.instances| && due[y] < |w.instances|
                   ==> w.instances[due[x]].rule != w.instances[due[y]].rule
                       || w.instances[due[x]].partition != w.instances[due[y]].partition
  }

  /** What expiring one instance stores. */
  lemma ExpireOneStores(w: World, rules: seq<Rule>, i: nat, now: nat, seen: nat)
    requires i < |w.instances| && Causal(w.store.events)
    ensures var t := ExpireOne(w, rules, i, now, seen);
            if Fires(w, rules, i, now)
            then |t.store.events| == |w.store.events| + 1 && FiredFor(t, |w.store.events|, w, i, now)
                 && t.recent == w.recent[(w.instances[i].rule, w.instances[i].partition) := now]
            else t == w
  {}

  lemma OthersStillFire(w: World, rules: seq<Rule>, i: nat, j: nat, now: nat, seen: nat)
    requires i < |w.instances| && j < |w.instances| && Causal(w.store.events)
    requires w.instances[i].rule != w.instances[j].rule || w.instances[i].partition != w.instances[j].partition
    requires w.instances[j].aEvent < |w.store.events|
    ensures SameFor(w, ExpireOne(w, rules, i, now, seen), rules, j, now)
  {
    ExpireOneStores(w, rules, i, now, seen);
    hide ExpireOne, Guard;
  }

  /** Instance `j` stands in `u` as it does in `w`. */
  ghost predicate SameFor(w: World, u: World, rules: seq<Rule>, j: nat, now: nat) {
    && j < |w.instances| && u.instances == w.instances && (Fires(u, rules, j, now) <==> Fires(w, rules, j, now))
    && CauseOf(u, w.instances[j]) == CauseOf(w, w.instances[j])
  }

  ghost predicate HasEvent(w: World, t: World, i: nat, now: nat) {
    exists id: nat :: |w.store.events| <= id && FiredFor(t, id, w, i, now)
  }

  ghost predicate HasSource(w: World, t: World, rules: seq<Rule>, due: seq<nat>, id: nat, now: nat) {
    exists i: nat :: i in due && Fires(w, rules, i, now) && FiredFor(t, id, w, i, now)
  }

  /** Each of the instances that fires has its event, each new event its instance, and no two are alike. */
  ghost predicate StoredFor(w: World, t: World, rules: seq<Rule>, due: seq<nat>, now: nat) {
    && w.store.events <= t.store.events
    && (forall i: nat :: i in due && Fires(w, rules, i, now) ==> HasEvent(w, t, i, now))
    && (forall id: nat :: |w.store.events| <= id < |t.store.events| ==> HasSource(w, t, rules, due, id, now))
    && (forall id: nat, jd: nat :: |w.store.events| <= id < jd < |t.store.events|
                    ==> t.store.events[id].draft != t.store.events[jd].draft)
  }

  /** Expiring the due instances one after the other stores one event for each that fires, and no other. */
  lemma {:induction false} ExpireAllStores(w: World, rules: seq<Rule>, due: seq<nat>, now: nat, seen: nat)
    requires Causal(w.store.events) && Apart(w, due)
    requires forall i :: i in due ==> i < |w.instances| && w.instances[i].aEvent < |w.store.events|
    ensures StoredFor(w, ExpireAll(w, rules, due, now, seen), rules, due, now)
    decreases |due|
  {
    if due != [] {
      hide ExpireOne, Fires, FiredFor, StoredFor, SameFor, Guard;
      assert due[0] in due && forall i :: i in due[1..] ==> i in due;
      var u := ExpireOne(w, rules, due[0], now, seen);
      ExpireOneStores(w, rules, due[0], now, seen);
      assert u.instances == w.instances && Apart(u, due[1..]);
      forall i | i in due[1..] ensures SameFor(w, u, rules, i, now) {
        ApartFromFirst(w, due, i);
        OthersStillFire(w, rules, due[0], i, now, seen);
      }
      ExpireAllStores(u, rules, due[1..], now, seen);
      StoresTogether(w, u, ExpireAll(u, rules, due[1..], now, seen), rules, due, now);
    }
  }

  lemma ApartFromFirst(w: World, due: seq<nat>, i: nat)
    requires due != [] && Apart(w, due) && i in due[1..] && forall j :: j in due ==> j < |w.instances|
    ensures i < |w.instances| && due[0] < |w.instances|
    ensures w.instances[due[0]].rule != w.instances[i].rule || w.instances[due[0]].partition != w.instances[i].partition
  {
    var y :| 0 <= y < |due[1..]| && due[1..][y] == i;
    assert due[y + 1] == i && due[0] in due && i in due;
  }

  /** The first one's event, and those of the rest. */
  lemma StoresTogether(w: World, u: World, t: World, rules: seq<Rule>, due: seq<nat>, now: nat)
    requires due != [] && Apart(w, due) && forall i :: i in due ==> i < |w.instances|
    requires if Fires(w, rules, due[0], now)
             then |u.store.events| == |w.store.events| + 1 && FiredFor(u, |w.store.events|, w, due[0], now)
                  && w.store.events <= u.store.events
             else u == w
    requires forall i :: i in due[1..] ==> SameFor(w, u, rules, i, now)
    requires StoredFor(u, t, rules, due[1..], now)
    ensures StoredFor(w, t, rules, due, now)
  {
    hide Fires, IsDerived;
    var n := |w.store.events|;
    assert due[0] in due && forall i :: i in due ==> i == due[0] || i in due[1..];
    assert forall i :: i in due[1..] ==> i in due;
    forall i: nat | i in due && Fires(w, rules, i, now) ensures HasEvent(w, t, i, now) {
      if i == due[0] {
        assert FiredFor(t, n, w, i, now);
      } else {
        assert SameFor(w, u, rules, i, now) && HasEvent(u, t, i, now);
        var id: nat :| |u.store.events| <= id && FiredFor(t, id, u, i, now);
        assert FiredFor(t, id, w, i, now);
      }
    }
    forall id: nat | n <= id < |t.store.events| ensures HasSource(w, t, rules, due, id, now) {
      if id < |u.store.events| {
        assert FiredFor(t, id, w, due[0], now);
      } else {
        var i := SourceOf(w, u, t, rules, due, id, now);
      }
    }
    forall id: nat, jd: nat | n <= id < jd < |t.store.events| ensures t.store.events[id].draft != t.store.events[jd].draft {
      if id < |u.store.events| {
        var i := SourceOf(w, u, t, rules, due, jd, now);
        assert FiredFor(t, id, w, due[0], now);
        ApartFromFirst(w, due, i);
        FiredApart(t, w, id, jd, due[0], i, now);
      }
    }
  }

  lemma SourceOf(w: World, u: World, t: World, rules: seq<Rule>, due: seq<nat>, id: nat, now: nat) returns (i: nat)
    requires due != [] && HasSource(u, t, rules, due[1..], id, now)
    requires forall j :: j in due[1..] ==> SameFor(w, u, rules, j, now)
    ensures i in due[1..] && i in due && Fires(w, rules, i, now) && FiredFor(t, id, w, i, now)
  {
    i :| i in due[1..] && Fires(u, rules, i, now) && FiredFor(t, id, u, i, now);
    assert SameFor(w, u, rules, i, now);
  }

  lemma FiredApart(t: World, w: World, id: nat, jd: nat, i: nat, j: nat, now: nat)
    requires FiredFor(t, id, w, i, now) && FiredFor(t, jd, w, j, now)
    requires w.instances[i].rule != w.instances[j].rule || w.instances[i].partition != w.instances[j].partition
    ensures t.store.events[id].draft != t.store.events[jd].draft
  {
    KeyOfDraft(w.instances[i].rule, w.instances[i].partition, w.instances[j].rule, w.instances[j].partition);
  }

  lemma KeyOfDraft(k: nat, p: string, j: nat, q: string)
    requires k != j || p != q
    ensures Draft(Content("pattern_absence", "pattern", map["rule" := RuleKey(k), "partition" := p]), "", None, Some(k))
            != Draft(Content("pattern_absence", "pattern", map["rule" := RuleKey(j), "partition" := q]), "", None, Some(j))
  {
    var a, b := map["rule" := RuleKey(k), "partition" := p], map["rule" := RuleKey(j), "partition" := q];
    assert a["partition"] == p && b["partition"] == q;
  }

  lemma DueAreApart(cfg: Runs.Config, rules: seq<Rule>, s: Runs.Sys, now: nat)
    requires Runs.Inv(cfg, rules, s)
    requires Known(s.w, |rules|)
    ensures var marked := s.w.(instances := AllExpired(s.w.instances, now));
            Apart(marked, DueFrom(s.w.instances, now, 0))
  {
    var due := DueFrom(s.w.instances, now, 0);
    DueIsExact(s.w.instances, now, 0);
    forall x, y | 0 <= x < y < |due|
      ensures due[x] < |s.w.instances| && due[y] < |s.w.instances|
      ensures s.w.instances[due[x]].rule != s.w.instances[due[y]].rule
              || s.w.instances[due[x]].partition != s.w.instances[due[y]].partition
    {
      var i, j := due[x], due[y];
      assert i in due && j in due && i != j;
      var k := s.w.instances[i].rule;
      assert Runs.RuleInv(s.w, rules[k], k, s.processed);
      assert i < j && s.w.instances[j].rule == k ==> Runs.PairOk(s.w.instances[i], s.w.instances[j]);
      assert j < i && s.w.instances[j].rule == k ==> Runs.PairOk(s.w.instances[j], s.w.instances[i]);
    }
  }

  lemma ArmersAreStored(cfg: Runs.Config, rules: seq<Rule>, s: Runs.Sys)
    requires Runs.Inv(cfg, rules, s) && Known(s.w, |rules|)
    ensures forall i :: 0 <= i < |s.w.instances| ==> s.w.instances[i].aEvent < |s.w.store.events|
  {
    forall i | 0 <= i < |s.w.instances| ensures s.w.instances[i].aEvent < |s.w.store.events| {
      var k := s.w.instances[i].rule;
      assert Runs.RuleInv(s.w, rules[k], k, s.processed);
      assert Runs.InstanceOk(s.w, rules[k], s.processed, s.w.instances[i]);
    }
  }

  /** Main result. In every reachable state a sweep expires exactly the armed instances that are due. It
    * stores exactly one event for each due absence that has cooled off and whose arming event is gone or at
    * depth below 3, naming that event as the cause while it is in the table, and stores nothing else. */
  lemma SweepFiresExactly(cfg: Runs.Config, rules: seq<Rule>, acts: seq<Runs.Action>, at: nat)
    requires Runs.CanRun(cfg, rules, Runs.Start(cfg, rules), acts)
    requires Runs.Enabled(cfg, Runs.RunFrom(cfg, rules, Runs.Start(cfg, rules), acts), Runs.SweepTick(at))
    ensures var s := Runs.RunFrom(cfg, rules, Runs.Start(cfg, rules), acts);
            var t := Runs.Apply(rules, s, Runs.SweepTick(at));
            && |t.w.instances| == |s.w.instances|
            && (forall i :: 0 <= i < |s.w.instances| ==>
                  t.w.instances[i] == if s.w.instances[i].state == Armed && s.w.instances[i].deadline <= at
                                      then s.w.instances[i].(state := Expired) else s.w.instances[i])
            && s.w.store.events <= t.w.store.events && t.w.store.purged == s.w.store.purged
            && (forall i: nat :: MustFire(s.w, rules, i, at) ==> HasEvent(s.w, t.w, i, at))
            && (forall id: nat :: |s.w.store.events| <= id < |t.w.store.events| ==> FromSome(s.w, t.w, rules, id, at))
            && (forall id: nat, jd: nat :: |s.w.store.events| <= id < jd < |t.w.store.events|
                  ==> t.w.store.events[id].draft != t.w.store.events[jd].draft)
  {
    Reached(cfg, rules, acts);
    var s := Runs.RunFrom(cfg, rules, Runs.Start(cfg, rules), acts);
    hide Runs.RuleInv, Runs.TimeInv, ExpireAll, Booked, StoredFor, MustFire, Runs.CanRun, Runs.RunFrom;
    var marked, due := s.w.(instances := AllExpired(s.w.instances, at)), DueFrom(s.w.instances, at, 0);
    DueIsExact(s.w.instances, at, 0);
    DueAreApart(cfg, rules, s, at);
    ArmersAreStored(cfg, rules, s);
    ExpireAllStores(marked, rules, due, at, |s.processed|);
    ExpireKeepsInstances(marked, rules, due, at, |s.processed|);
    var t := ExpireAll(marked, rules, due, at, |s.processed|);
    FromMarked(s.w, marked, t, rules, due, at);
  }

  /** The event is the one of an absence that must fire. */
  ghost predicate FromSome(w: World, t: World, rules: seq<Rule>, id: nat, now: nat) {
    exists i: nat :: MustFire(w, rules, i, now) && FiredFor(t, id, w, i, now)
  }

  lemma FromMarked(w: World, marked: World, t: World, rules: seq<Rule>, due: seq<nat>, now: nat)
    requires Booked(w) && Known(w, |rules|) && marked == w.(instances := AllExpired(w.instances, now))
    requires forall i: nat :: i in due <==> i < |w.instances| && IsDue(w.instances[i], now)
    requires StoredFor(marked, t, rules, due, now)
    ensures w.store.events <= t.store.events
    ensures forall i: nat :: MustFire(w, rules, i, now) ==> HasEvent(w, t, i, now)
    ensures forall id: nat :: |w.store.events| <= id < |t.store.events| ==> FromSome(w, t, rules, id, now)
    ensures forall id: nat, jd: nat :: |w.store.events| <= id < jd < |t.store.events|
              ==> t.store.events[id].draft != t.store.events[jd].draft
  {
    hide Booked, CooledOff, CooledDown;
    forall i: nat | i < |w.instances|
      ensures MustFire(w, rules, i, now) <==> i in due && Fires(marked, rules, i, now)
      ensures CauseOf(marked, marked.instances[i]) == CauseOf(w, w.instances[i])
    {
      CooledIsCooledOff(w, rules, w.instances[i].rule, w.instances[i].partition, now);
      SameCooling(w, marked, rules, w.instances[i].rule, w.instances[i].partition, now);
    }
    forall i: nat | MustFire(w, rules, i, now) ensures HasEvent(w, t, i, now) {
      assert HasEvent(marked, t, i, now);
      var id: nat :| |w.store.events| <= id && FiredFor(t, id, marked, i, now);
      assert FiredFor(t, id, w, i, now);
    }
    forall id: nat | |w.store.events| <= id < |t.store.events| ensures FromSome(w, t, rules, id, now) {
      assert HasSource(marked, t, rules, due, id, now);
      var i: nat :| i in due && Fires(marked, rules, i, now) && FiredFor(t, id, marked, i, now);
      assert FiredFor(t, id, w, i, now);
    }
  }

  lemma SameCooling(w: World, t: World, rules: seq<Rule>, k: nat, p: string, now: nat)
    requires k < |rules| && t.recent == w.recent
    ensures CooledDown(t, rules, k, p, now) <==> CooledDown(w, rules, k, p, now)
  {}

  // ── One event ──

  /** The rule's armed instance in the partition. */
  predicate Waits(w: World, k: nat, p: string, i: nat) {
    i < |w.instances| && w.instances[i].rule == k && w.instances[i].partition == p && w.instances[i].state == Armed
  }

  /** With nothing armed in its partition, the event starts an instance. */
  predicate Starts(rule: Rule, c: Content) {
    (rule.kind == Sequence && rule.a(c)) || (rule.kind == Absence && rule.a(c))
    || (rule.kind == Conjunction && (rule.a(c) || rule.b(c)))
  }

  /** What becomes of the armed instance when the event arrives. */
  function Becomes(w: World, rule: Rule, inst: Instance, c: Content): InstanceState {
    var first := if inst.aEvent < |w.store.events| && inst.aEvent !in w.store.purged
                 then Some(w.store.events[inst.aEvent].draft.content) else None;
    match rule.kind
    case Sequence => if rule.b(c) then Matched else Armed
    case Absence => if rule.b(c) then Expired else Armed
    case Conjunction =>
      if (if first.Some? && rule.a(first.value) then rule.b(c) else rule.a(c)) then Matched else Armed
    case OtherKind => Armed
  }

  /** How the event of id `e`, fed to rule `k` alone, changes the rule's part of the world. */
  ghost predicate Reacts(w: World, t: World, rule: Rule, k: nat, e: nat, now: nat)
    requires e < |w.store.events|
  {
    var c := w.store.events[e].draft.content;
    var p := rule.partition(c);
    && |w.instances| <= |t.instances| && w.store.events <= t.store.events
    && (forall i: nat :: i < |w.instances| ==> (t.instances[i].rule == k <==> w.instances[i].rule == k))
    // old instances
    && (forall i: nat :: i < |w.instances| && w.instances[i].rule == k ==>
          t.instances[i] == if Waits(w, k, p, i) then w.instances[i].(state := Becomes(w, rule, w.instances[i], c))
                            else w.instances[i])
    // new instances
    && (forall i: nat :: |w.instances| <= i < |t.instances| && t.instances[i].rule == k ==>
          t.instances[i] == Instance(k, p, e, now + rule.window, Armed))
    && (forall i: nat, j: nat :: |w.instances| <= i < j < |t.instances| ==> !(t.instances[i].rule == t.instances[j].rule == k))
    && (HasNew(w, t, k) <==> Starts(rule, c) && forall i: nat :: !Waits(w, k, p, i))
    // derived events
    && (forall id: nat :: |w.store.events| <= id < |t.store.events| && t.store.events[id].draft.rule == Some(k) ==>
          IsDerived(t.store.events[id], k, p, "pattern_matched", Some(e), now))
    && (forall id: nat, jd: nat :: |w.store.events| <= id < jd < |t.store.events|
          ==> !(t.store.events[id].draft.rule == t.store.events[jd].draft.rule == Some(k)))
    && (HasDerived(w, t, k) <==>
          && CooledOff(w.store.events, k, p, rule.cooldown, now) && w.store.events[e].depth < 3
          && exists i: nat :: Waits(w, k, p, i) && Becomes(w, rule, w.instances[i], c) == Matched)
  }

  ghost predicate HasNew(w: World, t: World, k: nat) {
    exists i: nat :: |w.instances| <= i < |t.instances| && t.instances[i].rule == k
  }

  ghost predicate HasDerived(w: World, t: World, k: nat) {
    exists id: nat :: |w.store.events| <= id < |t.store.events| && t.store.events[id].draft.rule == Some(k)
  }

  /** Nothing of rule `k` changes. */
  ghost predicate Still(w: World, t: World, k: nat) {
    && Runs.Frame(w, t, k) && t.store.purged == w.store.purged
    && forall id: nat :: |w.store.events| <= id < |t.store.events| ==> t.store.events[id].draft.rule != Some(k)
  }

  lemma OtherRuleIsStill(w: World, rules: seq<Rule>, j: nat, e: nat, now: nat, seen: nat, k: nat)
    requires j < |rules| && Causal(w.store.events) && e < |w.store.events| && j != k
    ensures Still(w, AdvanceRule(w, rules, j, e, now, seen), k)
  {
    Runs.AdvanceFrames(w, rules, j, e, now, seen, k);
    hide Runs.Frame, CooledDown, Completes, Guard;
  }

  /** One armed instance per rule and partition. */
  ghost predicate OneWaits(w: World, k: nat) {
    forall p, i: nat, j: nat :: Waits(w, k, p, i) && Waits(w, k, p, j) ==> i == j
  }

  lemma OwnRuleReacts(w: World, rules: seq<Rule>, k: nat, e: nat, now: nat, seen: nat)
    requires k < |rules| && Causal(w.store.events) && e < |w.store.events| && OneWaits(w, k)
    requires forall i: nat :: i < |w.instances| && w.instances[i].rule == k ==> w.instances[i].aEvent != e
    requires CooledDown(w, rules, k, rules[k].partition(ContentOf(w, e)), now)
             <==> CooledOff(w.store.events, k, rules[k].partition(ContentOf(w, e)), rules[k].cooldown, now)
    ensures Reacts(w, AdvanceRule(w, rules, k, e, now, seen), rules[k], k, e, now)
  {
    var rule, c := rules[k], ContentOf(w, e);
    var p := rule.partition(c);
    var t := AdvanceRule(w, rules, k, e, now, seen);
    var armed := ArmedFrom(w.instances, k, p, 0);
    if armed.None? {
      assert forall i: nat :: !Waits(w, k, p, i);
      if Starts(rule, c) {
        assert t.instances[|w.instances|].rule == k;
      }
    } else {
      var i := armed.value;
      assert Waits(w, k, p, i);
      assert forall j: nat :: Waits(w, k, p, j) ==> j == i;
      hide CooledDown, CooledOff;
      ArmedReacts(w, rules, k, e, now, seen, i);
    }
  }

  lemma ArmedReacts(w: World, rules: seq<Rule>, k: nat, e: nat, now: nat, seen: nat, i: nat)
    requires k < |rules| && Causal(w.store.events) && e < |w.store.events|
    requires var p := rules[k].partition(ContentOf(w, e));
             && ArmedFrom(w.instances, k, p, 0) == Some(i) && Waits(w, k, p, i) && w.instances[i].aEvent != e
             && (forall j: nat :: Waits(w, k, p, j) ==> j == i)
             && (CooledDown(w, rules, k, p, now) <==> CooledOff(w.store.events, k, p, rules[k].cooldown, now))
    ensures Reacts(w, AdvanceRule(w, rules, k, e, now, seen), rules[k], k, e, now)
  {
    hide CooledDown, CooledOff;
    var rule, c := rules[k], ContentOf(w, e);
    var p := rule.partition(c);
    var t := AdvanceRule(w, rules, k, e, now, seen);
    var m := WithState(w, i, Matched);
    SameCooling(w, m, rules, k, p, now);
    if Becomes(w, rule, w.instances[i], c) == Matched && CooledDown(w, rules, k, p, now) && w.store.events[e].depth < 3 {
      assert t.store.events[|w.store.events|].draft.rule == Some(k);
    } else {
      assert t.store == w.store;
    }
  }

  /** Steps of other rules before and after do not show. */
  lemma ReactsAround(w: World, u: World, v: World, t: World, rule: Rule, k: nat, e: nat, now: nat)
    requires e < |w.store.events| && w.store.events <= u.store.events && Still(w, u, k) && Still(v, t, k)
    requires Reacts(u, v, rule, k, e, now)
    requires forall i: nat :: i < |w.instances| && w.instances[i].rule == k ==> w.instances[i].aEvent < |w.store.events|
    ensures Reacts(w, t, rule, k, e, now)
  {
    var c := ContentOf(w, e);
    var p := rule.partition(c);
    assert forall i: nat :: Waits(w, k, p, i) <==> Waits(u, k, p, i);
    SameCooledOff(w, u, k, p, rule.cooldown, now);
    hide CooledOff, IsDerived;
    forall i: nat | i < |w.instances| && w.instances[i].rule == k
      ensures Becomes(w, rule, w.instances[i], c) == Becomes(u, rule, w.instances[i], c)
    {}
    SameNew(w, u, v, t, k);
  }

  lemma SameCooledOff(w: World, u: World, k: nat, p: string, cooldown: nat, now: nat)
    requires Still(w, u, k)
    ensures CooledOff(w.store.events, k, p, cooldown, now) <==> CooledOff(u.store.events, k, p, cooldown, now)
  {
    assert forall id :: 0 <= id < |w.store.events| ==> u.store.events[id] == w.store.events[id];
  }

  lemma SameNew(w: World, u: World, v: World, t: World, k: nat)
    requires Still(w, u, k) && Still(v, t, k) && |u.instances| <= |v.instances| && u.store.events <= v.store.events
    requires forall i: nat :: i < |u.instances| ==> (v.instances[i].rule == k <==> u.instances[i].rule == k)
    ensures HasNew(w, t, k) <==> HasNew(u, v, k)
    ensures HasDerived(w, t, k) <==> HasDerived(u, v, k)
    ensures forall i: nat :: |w.instances| <= i < |t.instances| && t.instances[i].rule == k
              ==> |u.instances| <= i < |v.instances| && v.instances[i] == t.instances[i]
    ensures forall id: nat :: |w.store.events| <= id < |t.store.events| && t.store.events[id].draft.rule == Some(k)
              ==> |u.store.events| <= id < |v.store.events| && v.store.events[id] == t.store.events[id]
  {
    forall i: nat | |w.instances| <= i < |t.instances| && t.instances[i].rule == k
      ensures |u.instances| <= i < |v.instances| && v.instances[i] == t.instances[i]
    {
      assert i < |v.instances| && t.instances[i] == v.instances[i];
      assert forall x: nat :: x < |u.instances| && u.instances[x].rule == k ==> x < |w.instances|;
    }
    if HasNew(u, v, k) {
      var i: nat :| |u.instances| <= i < |v.instances| && v.instances[i].rule == k;
      assert t.instances[i] == v.instances[i];
    }
    if HasDerived(u, v, k) {
      var id: nat :| |u.store.events| <= id < |v.store.events| && v.store.events[id].draft.rule == Some(k);
      assert t.store.events[id] == v.store.events[id];
    }
  }

  lemma StillTwice(w: World, u: World, t: World, k: nat)
    requires Still(w, u, k) && Still(u, t, k)
    ensures Still(w, t, k)
  {}

  lemma StillNow(w: World, k: nat)
    ensures Still(w, w, k)
  {}

  /** Feeding the event to the rules before `k`, or to those after it. */
  lemma {:induction false} OthersAreStill(w: World, rules: seq<Rule>, from: nat, e: nat, now: nat, seen: nat, k: nat)
    requires k < from <= |rules| && Causal(w.store.events) && e < |w.store.events|
    ensures Still(w, Advance(w, rules, from, e, now, seen), k)
    decreases |rules| - from
  {
    hide AdvanceRule, Still;
    if from == |rules| {
      StillNow(w, k);
    } else {
      var u := AdvanceRule(w, rules, from, e, now, seen);
      OtherRuleIsStill(w, rules, from, e, now, seen, k);
      OthersAreStill(u, rules, from + 1, e, now, seen, k);
      StillTwice(w, u, Advance(u, rules, from + 1, e, now, seen), k);
    }
  }

  lemma {:induction false} AllRulesReact(w: World, rules: seq<Rule>, from: nat, e: nat, now: nat, seen: nat, k: nat)
    requires from <= k < |rules| && Causal(w.store.events) && e < |w.store.events| && OneWaits(w, k)
    requires forall i: nat :: i < |w.instances| && w.instances[i].rule == k
               ==> w.instances[i].aEvent != e && w.instances[i].aEvent < |w.store.events|
    requires Booked(w) && forall key :: key in w.recent ==> w.recent[key] <= now
    ensures Reacts(w, Advance(w, rules, from, e, now, seen), rules[k], k, e, now)
    decreases |rules| - from
  {
    hide AdvanceRule, Still, Reacts, Booked, CooledDown, CooledOff, OneWaits;
    var u := AdvanceRule(w, rules, from, e, now, seen);
    if from == k {
      CooledIsCooledOff(w, rules, k, rules[k].partition(ContentOf(w, e)), now);
      OwnRuleReacts(w, rules, k, e, now, seen);
      OthersAreStill(u, rules, k + 1, e, now, seen, k);
      StillNow(w, k);
      ReactsAround(w, w, u, Advance(u, rules, k + 1, e, now, seen), rules[k], k, e, now);
    } else {
      OtherRuleIsStill(w, rules, from, e, now, seen, k);
      AdvanceKeepsBooked(w, rules, from, e, now, seen);
      RecentStays(w, rules, from, e, now, seen);
      StillKeeps(w, u, k, e);
      AllRulesReact(u, rules, from + 1, e, now, seen, k);
      var t := Advance(u, rules, from + 1, e, now, seen);
      StillNow(t, k);
      ReactsAround(w, u, t, t, rules[k], k, e, now);
    }
  }

  lemma StillKeeps(w: World, u: World, k: nat, e: nat)
    requires Still(w, u, k) && OneWaits(w, k)
    requires forall i: nat :: i < |w.instances| && w.instances[i].rule == k
               ==> w.instances[i].aEvent != e && w.instances[i].aEvent < |w.store.events|
    ensures OneWaits(u, k)
    ensures forall i: nat :: i < |u.instances| && u.instances[i].rule == k
               ==> u.instances[i].aEvent != e && u.instances[i].aEvent < |u.store.events|
  {
    assert forall p, i: nat :: Waits(u, k, p, i) ==> Waits(w, k, p, i);
  }

  lemma OneWaitsHere(cfg: Runs.Config, rules: seq<Rule>, s: Runs.Sys, k: nat, e: nat)
    requires Runs.Inv(cfg, rules, s) && k < |rules| && e !in s.processed
    ensures OneWaits(s.w, k)
    ensures forall i: nat :: i < |s.w.instances| && s.w.instances[i].rule == k
               ==> s.w.instances[i].aEvent != e && s.w.instances[i].aEvent < |s.w.store.events|
  {
    assert Runs.RuleInv(s.w, rules[k], k, s.processed);
    forall p, i: nat, j: nat | Waits(s.w, k, p, i) && Waits(s.w, k, p, j) ensures i == j {
      assert i < j ==> Runs.PairOk(s.w.instances[i], s.w.instances[j]);
      assert j < i ==> Runs.PairOk(s.w.instances[j], s.w.instances[i]);
    }
    forall i: nat | i < |s.w.instances| && s.w.instances[i].rule == k
      ensures s.w.instances[i].aEvent != e && s.w.instances[i].aEvent < |s.w.store.events|
    {
      assert Runs.InstanceOk(s.w, rules[k], s.processed, s.w.instances[i]);
    }
  }

  /** Main result. In every reachable state, processing an event has exactly this effect on each rule: where
    * nothing is armed in the event's partition, an event of the arming side starts one instance with the
    * rule's window; otherwise the armed instance matches, is answered or stays, as its kind has it; and one
    * event, an effect of the processed one, is derived exactly for a match that has cooled off, above the
    * depth guard. */
  lemma ProcessReactsExactly(cfg: Runs.Config, rules: seq<Rule>, acts: seq<Runs.Action>, e: nat, at: nat, k: nat)
    requires Runs.CanRun(cfg, rules, Runs.Start(cfg, rules), acts) && k < |rules|
    requires Runs.Enabled(cfg, Runs.RunFrom(cfg, rules, Runs.Start(cfg, rules), acts), Runs.Process(e, at))
    ensures var s := Runs.RunFrom(cfg, rules, Runs.Start(cfg, rules), acts);
            Reacts(s.w, Runs.Apply(rules, s, Runs.Process(e, at)).w, rules[k], k, e, at)
  {
    Reached(cfg, rules, acts);
    var s := Runs.RunFrom(cfg, rules, Runs.Start(cfg, rules), acts);
    hide Runs.RuleInv, Runs.TimeInv, Advance, Booked, Reacts, Runs.CanRun, Runs.RunFrom, OneWaits;
    OneWaitsHere(cfg, rules, s, k, e);
    AllRulesReact(s.w, rules, 0, e, at, |s.processed|, k);
  }

  // ── Rule keys ──

  function Value(s: string): nat {
    if s == "" || !('0' <= s[|s| - 1] <= '9') then 0
    else 10 * Value(s[..|s| - 1]) + (s[|s| - 1] as int - '0' as int)
  }

  lemma {:induction false} DecimalReads(n: nat)
    ensures Value(Decimal(n)) == n
  {
    var last := [('0' as int + n % 10) as char];
    var front := if n < 10 then "" else Decimal(n / 10);
    assert Decimal(n) == front + last && (front + last)[..|front|] == front;
    if n >= 10 {
      DecimalReads(n / 10);
    }
  }

  /** A rule's key names the rule. */
  lemma KeysNameRules(k: nat, j: nat)
    ensures RuleKey(k) == RuleKey(j) <==> k == j
    ensures "intent:" <= RuleKey(k)
  {
    DecimalReads(k);
    DecimalReads(j);
    assert RuleKey(k)[7..] == Decimal(k) && RuleKey(j)[7..] == Decimal(j);
  }
}

/** The ambient drain (`backend/app/ambient/drain.py`): claim, process, write back, launch,
  * on any number of replicas that crash, time out and reclaim each other's claims.
  */
module Drain {
  import opened Options

  datatype Verdict = Pending | Processing | Decided(verdict: string)

  datatype Row = Row(verdict: Verdict, processedAt: Option<nat>)

  /** What a processor returned: a verdict, and whether its decision names an addressee. */
  datatype Outcome = Outcome(verdict: string, firedFor: bool)

  /** The event table in arrival order; `None` is a row retention has purged. */
  type Table = seq<Option<Row>>

  /** The seconds after which a drain is cut off, and after which a claim is taken for dead; 60 and 600 as
    * deployed, with at most 20 rows a claim. */
  datatype Config = Config(timeout: nat, reclaim: nat, limit: nat)

  predicate Eligible(row: Option<Row>, start: nat, reclaim: nat) {
    row.Some? && (row.value.verdict.Pending?
                  || (row.value.verdict.Processing? && row.value.processedAt.Some?
                      && row.value.processedAt.value + reclaim <= start))
  }

  /** The first `n` eligible rows in arrival order, from row `i` on. */
  function Oldest(rows: Table, i: nat, n: nat, start: nat, reclaim: nat): seq<nat>
    requires i <= |rows|
    decreases |rows| - i
  {
    if i == |rows| || n == 0 then []
    else if Eligible(rows[i], start, reclaim) then [i] + Oldest(rows, i + 1, n - 1, start, reclaim)
    else Oldest(rows, i + 1, n, start, reclaim)
  }

  function Claimed(rows: Table, ids: seq<nat>, start: nat): Table {
    seq(|rows|, i requires 0 <= i < |rows| => if i in ids then Some(Row(Processing, Some(start))) else rows[i])
  }

  function Written(rows: Table, id: nat, outcome: Option<Outcome>, now: nat): Table {
    if id >= |rows| || rows[id].None? then rows
    else if outcome.None? then rows[id := Some(Row(Pending, None))]
    else rows[id := Some(Row(Decided(outcome.value.verdict), Some(now)))]
  }

  predicate Launches(rows: Table, id: nat, outcome: Option<Outcome>) {
    id < |rows| && rows[id].Some? && outcome.Some? && outcome.value.verdict == "fired" && outcome.value.firedFor
  }

  /** The claim is exactly the oldest eligible rows: eligible, in order, none skipped. */
  lemma {:induction false} OldestIsExact(rows: Table, i: nat, n: nat, start: nat, reclaim: nat)
    requires i <= |rows|
    ensures var ids := Oldest(rows, i, n, start, reclaim);
            && |ids| <= n && Distinct(ids)
            && (forall id :: id in ids ==> i <= id < |rows| && Eligible(rows[id], start, reclaim))
            && (forall x, y :: 0 <= x < y < |ids| ==> ids[x] < ids[y])
            && (forall id :: i <= id < |rows| && Eligible(rows[id], start, reclaim) && id !in ids
                             ==> |ids| == n && forall x :: x in ids ==> x < id)
    decreases |rows| - i
  {
    hide Eligible;
    if i < |rows| && n > 0 {
      if Eligible(rows[i], start, reclaim) {
        OldestIsExact(rows, i + 1, n - 1, start, reclaim);
        var tail := Oldest(rows, i + 1, n - 1, start, reclaim);
        assert forall y :: 0 <= y < |tail| ==> tail[y] in tail;
      } else {
        OldestIsExact(rows, i + 1, n, start, reclaim);
      }
    }
  }

  class AmbientEvents {
    var rows: Table

    constructor ()
      ensures rows == []
    {
      rows := [];
    }

    /** Phase 1: select and stamp in one transaction. */
    method Claim(start: nat, limit: nat, reclaim: nat) returns (ids: seq<nat>)
      modifies this
      ensures ids == Oldest(old(rows), 0, limit, start, reclaim)
      ensures rows == Claimed(old(rows), ids, start)
    {
      ids := [];
      var i := 0;
      while i < |rows| && |ids| < limit
        invariant 0 <= i <= |rows| && |ids| <= limit && rows == old(rows)
        invariant ids + Oldest(rows, i, limit - |ids|, start, reclaim) == Oldest(rows, 0, limit, start, reclaim)
      {
        if Eligible(rows[i], start, reclaim) {
          ids := ids + [i];
        }
        i := i + 1;
      }
      rows := Claimed(rows, ids, start);
    }

    /** Phase 3: the row is looked up again and overwritten whatever it says by now. */
    method WriteBack(id: nat, outcome: Option<Outcome>, now: nat) returns (handled: bool, execute: bool)
      modifies this
      ensures rows == Written(old(rows), id, outcome, now)
      ensures handled <==> id < |old(rows)| && old(rows)[id].Some? && outcome.Some?
      ensures execute <==> Launches(old(rows), id, outcome)
    {
      handled, execute := false, false;
      if id >= |rows| || rows[id].None? {
        return;
      }
      if outcome.None? {
        rows := rows[id := Some(Row(Pending, None))];
      } else {
        rows := rows[id := Some(Row(Decided(outcome.value.verdict), Some(now)))];
        handled := true;
        execute := outcome.value.verdict == "fired" && outcome.value.firedFor;
      }
    }
  }

  // ── Replicas ──

  /** One call of `drain_once`: when it started, the claimed ids it has not written back, and the
    * fired ones it will launch at the end. */
  datatype Run = Run(start: nat, claimed: bool, todo: seq<nat>, toExecute: seq<nat>)

  datatype Sys = Sys(rows: Table, runs: map<nat, Run>, now: nat, launched: set<nat>)

  datatype Action =
    | Arrive
    | Purge(id: nat)
    | Tick(elapsed: nat)
    | Start(d: nat)
    | Claim(d: nat)
    | WriteBack(d: nat, outcome: Option<Outcome>)
    | Launch(d: nat)
    | Die(d: nat)

  function Init(): Sys {
    Sys([], map[], 0, {})
  }

  /** A run can only take a step until its evaluator timeout cancels it. */
  predicate Live(cfg: Config, s: Sys, d: nat) {
    d in s.runs && s.now <= s.runs[d].start + cfg.timeout
  }

  predicate Enabled(cfg: Config, s: Sys, a: Action) {
    match a
    case Purge(id) => id < |s.rows| && s.rows[id].Some? && !s.rows[id].value.verdict.Pending?
    case Start(d) => d !in s.runs
    case Claim(d) => Live(cfg, s, d) && !s.runs[d].claimed
    case WriteBack(d, _) => Live(cfg, s, d) && s.runs[d].todo != []
    case Launch(d) => Live(cfg, s, d) && s.runs[d].claimed && s.runs[d].todo == []
    case Die(d) => d in s.runs
    case _ => true
  }

  function Apply(cfg: Config, s: Sys, a: Action): Sys
    requires Enabled(cfg, s, a)
  {
    match a
    case Arrive => s.(rows := s.rows + [Some(Row(Pending, None))])
    case Purge(id) => s.(rows := s.rows[id := None])
    case Tick(elapsed) => s.(now := s.now + elapsed)
    case Start(d) => s.(runs := s.runs[d := Run(s.now, false, [], [])])
    case Claim(d) =>
      var r := s.runs[d];
      var ids := Oldest(s.rows, 0, cfg.limit, r.start, cfg.reclaim);
      s.(rows := Claimed(s.rows, ids, r.start), runs := s.runs[d := r.(claimed := true, todo := ids)])
    case WriteBack(d, outcome) =>
      var r := s.runs[d];
      var id := r.todo[0];
      s.(rows := Written(s.rows, id, outcome, s.now),
         runs := s.runs[d := r.(todo := r.todo[1..],
                                toExecute := if Launches(s.rows, id, outcome) then r.toExecute + [id] else r.toExecute)])
    case Launch(d) =>
      s.(launched := s.launched + (set id | id in s.runs[d].toExecute), runs := s.runs - {d})
    case Die(d) => s.(runs := s.runs - {d})
  }

  ghost predicate Owns(cfg: Config, s: Sys, d: nat, id: nat) {
    Live(cfg, s, d) && id in s.runs[d].todo
  }

  ghost predicate RunInv(s: Sys, r: Run) {
    && r.start <= s.now && Distinct(r.todo) && Distinct(r.toExecute)
    && (forall id :: id in r.todo ==> id < |s.rows|)
    && (forall id :: id in r.toExecute ==> id < |s.rows|)
    && (!r.claimed ==> r.todo == [])
  }

  ghost predicate RowInv(s: Sys, id: nat)
    requires id < |s.rows|
  {
    s.rows[id].Some? && s.rows[id].value.verdict.Processing?
    ==> s.rows[id].value.processedAt.Some? && s.rows[id].value.processedAt.value <= s.now
  }

  /** At most one live run owns the row, and its claim is still what the row says. */
  ghost predicate OwnerInv(cfg: Config, s: Sys, id: nat)
    requires id < |s.rows|
  {
    && (forall d :: Owns(cfg, s, d, id) && s.rows[id].Some?
          ==> s.rows[id].value == Row(Processing, Some(s.runs[d].start)))
    && (forall d, e :: Owns(cfg, s, d, id) && Owns(cfg, s, e, id) ==> d == e)
  }

  ghost predicate WillLaunch(s: Sys, d: nat, id: nat) {
    d in s.runs && id in s.runs[d].toExecute
  }

  ghost predicate Closed(s: Sys, id: nat)
    requires id < |s.rows|
  {
    s.rows[id].None? || s.rows[id].value.verdict.Decided?
  }

  /** The executor starts at most once: a fired row stays decided and is in one list at most. */
  ghost predicate FiredInv(s: Sys, id: nat)
    requires id < |s.rows|
  {
    && (id in s.launched ==> Closed(s, id))
    && (forall d :: WillLaunch(s, d, id) ==> Closed(s, id) && id !in s.launched)
    && (forall d, e :: WillLaunch(s, d, id) && WillLaunch(s, e, id) ==> d == e)
  }

  ghost predicate Inv(cfg: Config, s: Sys) {
    && (forall d :: d in s.runs ==> RunInv(s, s.runs[d]))
    && (forall id :: id in s.launched ==> id < |s.rows|)
    && (forall id: nat :: id < |s.rows| ==> RowInv(s, id) && OwnerInv(cfg, s, id) && FiredInv(s, id))
  }

  lemma ClaimIsFresh(cfg: Config, s: Sys, d: nat, id: nat)
    requires cfg.timeout < cfg.reclaim && Inv(cfg, s) && Enabled(cfg, s, Claim(d))
    requires id in Oldest(s.rows, 0, cfg.limit, s.runs[d].start, cfg.reclaim)
    ensures id < |s.rows| && s.rows[id].Some? && !s.rows[id].value.verdict.Decided?
    ensures forall e :: !Owns(cfg, s, e, id)
  {
    OldestIsExact(s.rows, 0, cfg.limit, s.runs[d].start, cfg.reclaim);
    assert RowInv(s, id) && OwnerInv(cfg, s, id) && RunInv(s, s.runs[d]);
  }

  /** What a live run still has to write is in nobody's list to execute. */
  lemma OwnIsUnfired(cfg: Config, s: Sys, d: nat)
    requires Inv(cfg, s) && Live(cfg, s, d) && s.runs[d].todo != []
    ensures var id := s.runs[d].todo[0];
            id < |s.rows| && (s.rows[id].Some? ==> id !in s.runs[d].toExecute)
  {
    var id := s.runs[d].todo[0];
    assert RunInv(s, s.runs[d]) && Owns(cfg, s, d, id) && OwnerInv(cfg, s, id) && FiredInv(s, id);
    assert id in s.runs[d].toExecute ==> WillLaunch(s, d, id);
  }

  lemma StepKeepsRuns(cfg: Config, s: Sys, a: Action, e: nat)
    requires Inv(cfg, s) && Enabled(cfg, s, a) && e in Apply(cfg, s, a).runs
    ensures RunInv(Apply(cfg, s, a), Apply(cfg, s, a).runs[e])
  {
    if e in s.runs {
      assert RunInv(s, s.runs[e]);
    }
    if a.Claim? {
      OldestIsExact(s.rows, 0, cfg.limit, s.runs[a.d].start, cfg.reclaim);
    } else if a.WriteBack? {
      var todo := s.runs[a.d].todo;
      assert forall id :: id in todo[1..] ==> id in todo;
      OwnIsUnfired(cfg, s, a.d);
    }
  }

  lemma ClaimKeepsRow(cfg: Config, s: Sys, d: nat, id: nat)
    requires cfg.timeout < cfg.reclaim && Inv(cfg, s) && Enabled(cfg, s, Claim(d)) && id < |s.rows|
    ensures var t := Apply(cfg, s, Claim(d)); RowInv(t, id) && OwnerInv(cfg, t, id) && FiredInv(t, id)
  {
    var t := Apply(cfg, s, Claim(d));
    assert RunInv(s, s.runs[d]) && RowInv(s, id) && OwnerInv(cfg, s, id) && FiredInv(s, id);
    assert forall e :: WillLaunch(t, e, id) ==> WillLaunch(s, e, id);
    if id in Oldest(s.rows, 0, cfg.limit, s.runs[d].start, cfg.reclaim) {
      ClaimIsFresh(cfg, s, d, id);
      assert forall e :: Owns(cfg, t, e, id) ==> e == d || Owns(cfg, s, e, id);
    } else {
      assert forall e :: Owns(cfg, t, e, id) ==> Owns(cfg, s, e, id);
    }
  }

  lemma WriteKeepsRow(cfg: Config, s: Sys, d: nat, outcome: Option<Outcome>, id: nat)
    requires Inv(cfg, s) && Enabled(cfg, s, WriteBack(d, outcome)) && id < |s.rows|
    ensures var t := Apply(cfg, s, WriteBack(d, outcome)); RowInv(t, id) && OwnerInv(cfg, t, id) && FiredInv(t, id)
  {
    var t := Apply(cfg, s, WriteBack(d, outcome));
    var todo := s.runs[d].todo;
    assert RunInv(s, s.runs[d]) && RowInv(s, id) && OwnerInv(cfg, s, id) && FiredInv(s, id);
    assert Owns(cfg, s, d, todo[0]) && OwnerInv(cfg, s, todo[0]) && FiredInv(s, todo[0]);
    assert todo == [todo[0]] + todo[1..];
    assert forall e :: Owns(cfg, t, e, id) ==> Owns(cfg, s, e, id) && !(e == d && id == todo[0]);
    assert forall e :: WillLaunch(t, e, id)
                       ==> WillLaunch(s, e, id) || (e == d && id == todo[0] && Launches(s.rows, id, outcome));
    if id == todo[0] && s.rows[id].Some? {
      assert !Closed(s, id) && id !in s.launched;
      assert forall e :: !WillLaunch(s, e, id);
    }
  }

  lemma OtherKeepsRow(cfg: Config, s: Sys, a: Action, id: nat)
    requires Inv(cfg, s) && Enabled(cfg, s, a) && !a.Claim? && !a.WriteBack? && id < |Apply(cfg, s, a).rows|
    ensures var t := Apply(cfg, s, a); RowInv(t, id) && OwnerInv(cfg, t, id) && FiredInv(t, id)
  {
    var t := Apply(cfg, s, a);
    if id < |s.rows| {
      assert RowInv(s, id) && OwnerInv(cfg, s, id) && FiredInv(s, id);
      assert forall e :: Owns(cfg, t, e, id) ==> Owns(cfg, s, e, id);
      assert forall e :: WillLaunch(t, e, id) ==> WillLaunch(s, e, id);
      if a.Launch? && id in t.launched && id !in s.launched {
        assert WillLaunch(s, a.d, id);
      }
    } else {
      assert forall e :: e in t.runs ==> RunInv(s, s.runs[e]);
    }
  }

  lemma StepKeepsInv(cfg: Config, s: Sys, a: Action)
    requires cfg.timeout < cfg.reclaim && Inv(cfg, s) && Enabled(cfg, s, a)
    ensures Inv(cfg, Apply(cfg, s, a))
  {
    var t := Apply(cfg, s, a);
    forall e | e in t.runs ensures RunInv(t, t.runs[e]) {
      StepKeepsRuns(cfg, s, a, e);
    }
    forall id: nat | id < |t.rows| ensures RowInv(t, id) && OwnerInv(cfg, t, id) && FiredInv(t, id) {
      if a.Claim? {
        ClaimKeepsRow(cfg, s, a.d, id);
      } else if a.WriteBack? {
        WriteKeepsRow(cfg, s, a.d, a.outcome, id);
      } else {
        OtherKeepsRow(cfg, s, a, id);
      }
    }
    if a.Launch? {
      assert RunInv(s, s.runs[a.d]);
    }
  }

  // ── Whole runs ──

  ghost predicate CanRun(cfg: Config, s: Sys, acts: seq<Action>)
    decreases |acts|
  {
    acts != [] ==> Enabled(cfg, s, acts[0]) && CanRun(cfg, Apply(cfg, s, acts[0]), acts[1..])
  }

  ghost function After(cfg: Config, s: Sys, acts: seq<Action>): Sys
    requires CanRun(cfg, s, acts)
    decreases |acts|
  {
    if acts == [] then s else After(cfg, Apply(cfg, s, acts[0]), acts[1..])
  }

  lemma {:induction false} RunKeepsInv(cfg: Config, s: Sys, acts: seq<Action>)
    requires cfg.timeout < cfg.reclaim && Inv(cfg, s) && CanRun(cfg, s, acts)
    ensures Inv(cfg, After(cfg, s, acts))
    decreases |acts|
  {
    hide Inv, Enabled, Apply;
    if acts != [] {
      StepKeepsInv(cfg, s, acts[0]);
      RunKeepsInv(cfg, Apply(cfg, s, acts[0]), acts[1..]);
    }
  }

  /** Main result. With a timeout shorter than the reclaim age, no event ever has two live owners. */
  lemma OneLiveOwner(cfg: Config, acts: seq<Action>, d: nat, e: nat, id: nat)
    requires cfg.timeout < cfg.reclaim && CanRun(cfg, Init(), acts)
    requires Owns(cfg, After(cfg, Init(), acts), d, id) && Owns(cfg, After(cfg, Init(), acts), e, id)
    ensures d == e
  {
    RunKeepsInv(cfg, Init(), acts);
    var s := After(cfg, Init(), acts);
    assert RunInv(s, s.runs[d]) && OwnerInv(cfg, s, id);
  }

  /** Main result. A decided verdict is final: whatever runs afterwards, the row keeps it until
    * retention deletes the row. */
  lemma {:induction false} DecidedIsFinal(cfg: Config, s: Sys, acts: seq<Action>, id: nat)
    requires cfg.timeout < cfg.reclaim && Inv(cfg, s) && CanRun(cfg, s, acts)
    requires id < |s.rows| && (s.rows[id].Some? ==> s.rows[id].value.verdict.Decided?)
    ensures var t := After(cfg, s, acts); id < |t.rows| && (t.rows[id] == s.rows[id] || t.rows[id].None?)
    decreases |acts|
  {
    if acts != [] {
      var a := acts[0];
      StepKeepsInv(cfg, s, a);
      assert OwnerInv(cfg, s, id);
      if a.Claim? {
        OldestIsExact(s.rows, 0, cfg.limit, s.runs[a.d].start, cfg.reclaim);
      } else if a.WriteBack? {
        assert Owns(cfg, s, a.d, s.runs[a.d].todo[0]);
      }
      DecidedIsFinal(cfg, Apply(cfg, s, a), acts[1..], id);
    }
  }

  lemma {:induction false} LaunchedStays(cfg: Config, s: Sys, acts: seq<Action>)
    requires CanRun(cfg, s, acts)
    ensures s.launched <= After(cfg, s, acts).launched
    decreases |acts|
  {
    if acts != [] {
      LaunchedStays(cfg, Apply(cfg, s, acts[0]), acts[1..]);
    }
  }

  /** Main result. The executor of an event starts at most once: a launch names each of its events once,
    * and after run `d` launched one, no launch that ever becomes possible includes it again. */
  lemma LaunchedOnce(cfg: Config, past: seq<Action>, d: nat, between: seq<Action>, e: nat, id: nat)
    requires cfg.timeout < cfg.reclaim && CanRun(cfg, Init(), past)
    requires var s := After(cfg, Init(), past);
             && Enabled(cfg, s, Launch(d)) && id in s.runs[d].toExecute
             && CanRun(cfg, Apply(cfg, s, Launch(d)), between)
    ensures var t := After(cfg, Apply(cfg, After(cfg, Init(), past), Launch(d)), between);
            Enabled(cfg, t, Launch(e)) ==> id !in t.runs[e].toExecute
    ensures Distinct(After(cfg, Init(), past).runs[d].toExecute)
  {
    RunKeepsInv(cfg, Init(), past);
    var s := After(cfg, Init(), past);
    assert RunInv(s, s.runs[d]);
    StepKeepsInv(cfg, s, Launch(d));
    RunKeepsInv(cfg, Apply(cfg, s, Launch(d)), between);
    LaunchedStays(cfg, Apply(cfg, s, Launch(d)), between);
    var t := After(cfg, Apply(cfg, s, Launch(d)), between);
    if e in t.runs && id in t.runs[e].toExecute {
      assert WillLaunch(t, e, id) && RunInv(t, t.runs[e]) && FiredInv(t, id);
    }
  }

  /** No event is lost: an undecided row is pending, or its claim turns eligible within `reclaim`
    * seconds; and a claim leaves out an eligible row only for `limit` older ones. */
  lemma UndecidedBecomesClaimable(cfg: Config, acts: seq<Action>, id: nat, start: nat)
    requires cfg.timeout < cfg.reclaim && CanRun(cfg, Init(), acts)
    requires var s := After(cfg, Init(), acts);
             && id < |s.rows| && s.rows[id].Some? && !s.rows[id].value.verdict.Decided?
             && s.now + cfg.reclaim <= start
    ensures var s := After(cfg, Init(), acts);
            var ids := Oldest(s.rows, 0, cfg.limit, start, cfg.reclaim);
            && Eligible(s.rows[id], start, cfg.reclaim)
            && (id in ids || (|ids| == cfg.limit && forall x :: x in ids ==> x < id))
  {
    RunKeepsInv(cfg, Init(), acts);
    assert RowInv(After(cfg, Init(), acts), id);
    OldestIsExact(After(cfg, Init(), acts).rows, 0, cfg.limit, start, cfg.reclaim);
  }

  /** The bound is exact: a timeout no shorter than the reclaim age lets a second replica claim a
    * live run's event, decide it, and have the stale writer overwrite that verdict. */
  lemma StaleWriterOverwrites(cfg: Config)
    requires cfg.timeout >= cfg.reclaim && cfg.limit > 0
    ensures var held, fired := Outcome("held", false), Outcome("fired", true);
            var s := Apply(cfg, Init(), Arrive);
            var claim1 := [Start(1), Claim(1), Tick(cfg.reclaim), Start(2), Claim(2)];
            && CanRun(cfg, s, claim1)
            && var t := After(cfg, s, claim1);
            && Owns(cfg, t, 1, 0) && Owns(cfg, t, 2, 0)
            && CanRun(cfg, t, [WriteBack(2, Some(held)), WriteBack(1, Some(fired))])
            && Apply(cfg, t, WriteBack(2, Some(held))).rows == [Some(Row(Decided("held"), Some(cfg.reclaim)))]
            && After(cfg, t, [WriteBack(2, Some(held)), WriteBack(1, Some(fired))]).rows
               == [Some(Row(Decided("fired"), Some(cfg.reclaim)))]
  {
    var held, fired := Outcome("held", false), Outcome("fired", true);
    var s0 := Apply(cfg, Init(), Arrive);
    TwoClaims(cfg);
    var t := After(cfg, s0, [Start(1), Claim(1), Tick(cfg.reclaim), Start(2), Claim(2)]);
    var u := Apply(cfg, t, WriteBack(2, Some(held)));
    assert Enabled(cfg, u, WriteBack(1, Some(fired)));
    RunEnds(cfg, Apply(cfg, u, WriteBack(1, Some(fired))));
    hide CanRun, After;
    RunStarts(cfg, u, WriteBack(1, Some(fired)), []);
    RunStarts(cfg, t, WriteBack(2, Some(held)), [WriteBack(1, Some(fired))]);
  }

  /** The claim of the only row there is. */
  lemma SoleClaim(row: Row, limit: nat, start: nat, reclaim: nat)
    requires limit > 0 && Eligible(Some(row), start, reclaim)
    ensures Oldest([Some(row)], 0, limit, start, reclaim) == [0]
  {
    assert Oldest([Some(row)], 1, limit - 1, start, reclaim) == [];
  }

  /** The second replica claims the row while the first one is still at work on it. */
  lemma TwoClaims(cfg: Config)
    requires cfg.timeout >= cfg.reclaim && cfg.limit > 0
    ensures var s, acts := Apply(cfg, Init(), Arrive), [Start(1), Claim(1), Tick(cfg.reclaim), Start(2), Claim(2)];
            && CanRun(cfg, s, acts)
            && After(cfg, s, acts) == Sys([Some(Row(Processing, Some(cfg.reclaim)))],
                                          map[1 := Run(0, true, [0], []), 2 := Run(cfg.reclaim, true, [0], [])],
                                          cfg.reclaim, {})
  {
    var s0 := Apply(cfg, Init(), Arrive);
    var s1 := Apply(cfg, s0, Start(1));
    SoleClaim(Row(Pending, None), cfg.limit, 0, cfg.reclaim);
    assert s1.rows == [Some(Row(Pending, None))];
    var s2 := Apply(cfg, s1, Claim(1));
    assert s2.rows == [Some(Row(Processing, Some(0)))] && s2.runs[1] == Run(0, true, [0], []);
    var s3 := Apply(cfg, s2, Tick(cfg.reclaim));
    var s4 := Apply(cfg, s3, Start(2));
    SoleClaim(Row(Processing, Some(0)), cfg.limit, cfg.reclaim, cfg.reclaim);
    var s5 := Apply(cfg, s4, Claim(2));
    assert s5.rows == [Some(Row(Processing, Some(cfg.reclaim)))];
    assert s5.runs[1] == Run(0, true, [0], []) && s5.runs[2] == Run(cfg.reclaim, true, [0], []);
    assert s5.runs.Keys == {1, 2};
    assert s5.runs == map[1 := Run(0, true, [0], []), 2 := Run(cfg.reclaim, true, [0], [])];
    RunEnds(cfg, s5);
    hide CanRun, After, Oldest;
    RunStarts(cfg, s4, Claim(2), []);
    RunStarts(cfg, s3, Start(2), [Claim(2)]);
    RunStarts(cfg, s2, Tick(cfg.reclaim), [Start(2), Claim(2)]);
    RunStarts(cfg, s1, Claim(1), [Tick(cfg.reclaim), Start(2), Claim(2)]);
    RunStarts(cfg, s0, Start(1), [Claim(1), Tick(cfg.reclaim), Start(2), Claim(2)]);
  }

  lemma RunEnds(cfg: Config, s: Sys)
    ensures CanRun(cfg, s, []) && After(cfg, s, []) == s
  {}

  lemma RunStarts(cfg: Config, s: Sys, a: Action, rest: seq<Action>)
    requires Enabled(cfg, s, a) && CanRun(cfg, Apply(cfg, s, a), rest)
    ensures CanRun(cfg, s, [a] + rest) && After(cfg, s, [a] + rest) == After(cfg, Apply(cfg, s, a), rest)
  {
    assert ([a] + rest)[1..] == rest;
  }
}

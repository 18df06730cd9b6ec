/** Which events the executor is started for: over every run of replicas, the fired ones with an addressee. */
module Launches {
  import opened Options
  import opened Drain

  /** The state before the `k`-th action of a run. */
  ghost function At(cfg: Config, s: Sys, acts: seq<Action>, k: nat): Sys
    requires CanRun(cfg, s, acts) && k <= |acts|
    decreases k
  {
    if k == 0 then s else At(cfg, Apply(cfg, s, acts[0]), acts[1..], k - 1)
  }

  lemma {:induction false} AtStep(cfg: Config, s: Sys, acts: seq<Action>, k: nat)
    requires CanRun(cfg, s, acts) && k < |acts|
    ensures Enabled(cfg, At(cfg, s, acts, k), acts[k])
    ensures At(cfg, s, acts, k + 1) == Apply(cfg, At(cfg, s, acts, k), acts[k])
    decreases k
  {
    hide Enabled, Apply;
    if k > 0 {
      AtStep(cfg, Apply(cfg, s, acts[0]), acts[1..], k - 1);
    }
  }

  lemma {:induction false} AtEnd(cfg: Config, s: Sys, acts: seq<Action>)
    requires CanRun(cfg, s, acts)
    ensures At(cfg, s, acts, |acts|) == After(cfg, s, acts)
    decreases |acts|
  {
    hide Enabled, Apply;
    if acts != [] {
      AtEnd(cfg, Apply(cfg, s, acts[0]), acts[1..]);
    }
  }

  lemma StartInv(cfg: Config)
    ensures Inv(cfg, Init())
  {}

  lemma {:induction false} AtKeepsInv(cfg: Config, acts: seq<Action>, k: nat)
    requires cfg.timeout < cfg.reclaim && CanRun(cfg, Init(), acts) && k <= |acts|
    ensures Inv(cfg, At(cfg, Init(), acts, k))
  {
    hide Inv, Enabled, Apply;
    if k == 0 {
      StartInv(cfg);
    } else {
      AtKeepsInv(cfg, acts, k - 1);
      AtStep(cfg, Init(), acts, k - 1);
      StepKeepsInv(cfg, At(cfg, Init(), acts, k - 1), acts[k - 1]);
    }
  }

  /** At action `i` run `d` wrote back the kept row of event `id` as fired, for an addressee. */
  ghost predicate WroteFired(cfg: Config, acts: seq<Action>, i: nat, d: nat, id: nat)
    requires CanRun(cfg, Init(), acts)
  {
    && i < |acts| && acts[i] == WriteBack(d, Some(Outcome("fired", true)))
    && var s := At(cfg, Init(), acts, i);
    && d in s.runs && s.runs[d].todo != [] && s.runs[d].todo[0] == id
    && id < |s.rows| && s.rows[id].Some?
  }

  /** Run `d` neither ends nor dies between the two actions. */
  ghost predicate SameRun(acts: seq<Action>, d: nat, from: nat, to: nat) {
    forall j :: from < j < to && j < |acts| ==> acts[j] != Launch(d) && acts[j] != Die(d)
  }

  /** The launching run had written the event back as fired before. */
  ghost predicate LaunchedBy(cfg: Config, acts: seq<Action>, i: nat, j: nat, d: nat, id: nat)
    requires CanRun(cfg, Init(), acts)
  {
    i < j < |acts| && WroteFired(cfg, acts, i, d, id) && SameRun(acts, d, i, j) && acts[j] == Launch(d)
  }

  /** Whatever is to be executed was written back as fired by the run that lists it. */
  lemma {:induction false} ListedWasFired(cfg: Config, acts: seq<Action>, k: nat, d: nat, id: nat)
    requires CanRun(cfg, Init(), acts) && k <= |acts|
    requires d in At(cfg, Init(), acts, k).runs && id in At(cfg, Init(), acts, k).runs[d].toExecute
    ensures exists i: nat :: i < k && WroteFired(cfg, acts, i, d, id) && SameRun(acts, d, i, k)
  {
    if k > 0 {
      AtStep(cfg, Init(), acts, k - 1);
      ListGrows(cfg, At(cfg, Init(), acts, k - 1), acts[k - 1], d, id);
      if !WroteFired(cfg, acts, k - 1, d, id) {
        hide Apply, Enabled;
        ListedWasFired(cfg, acts, k - 1, d, id);
        var i: nat :| i < k - 1 && WroteFired(cfg, acts, i, d, id) && SameRun(acts, d, i, k - 1);
        assert SameRun(acts, d, i, k);
      }
    }
  }

  /** A list to execute gains an event only by the write-back of a fired outcome with an addressee. */
  lemma ListGrows(cfg: Config, s: Sys, a: Action, d: nat, id: nat)
    requires Enabled(cfg, s, a)
    requires d in Apply(cfg, s, a).runs && id in Apply(cfg, s, a).runs[d].toExecute
    ensures (d in s.runs && id in s.runs[d].toExecute && a != Launch(d) && a != Die(d))
            || (a == WriteBack(d, Some(Outcome("fired", true))) && s.runs[d].todo[0] == id
                && id < |s.rows| && s.rows[id].Some?)
  {}

  lemma {:induction false} LaunchedWasFired(cfg: Config, acts: seq<Action>, k: nat, id: nat) returns (i: nat, j: nat, d: nat)
    requires CanRun(cfg, Init(), acts) && k <= |acts| && id in At(cfg, Init(), acts, k).launched
    ensures j < k && LaunchedBy(cfg, acts, i, j, d, id)
  {
    AtStep(cfg, Init(), acts, k - 1);
    var s, a := At(cfg, Init(), acts, k - 1), acts[k - 1];
    LaunchedGrows(cfg, s, a, id);
    if id in s.launched {
      hide Apply, Enabled;
      i, j, d := LaunchedWasFired(cfg, acts, k - 1, id);
    } else {
      d, j := a.d, k - 1;
      ListedWasFired(cfg, acts, k - 1, d, id);
      var w: nat :| w < k - 1 && WroteFired(cfg, acts, w, d, id) && SameRun(acts, d, w, k - 1);
      i := w;
    }
  }

  lemma LaunchedGrows(cfg: Config, s: Sys, a: Action, id: nat)
    requires Enabled(cfg, s, a) && id in Apply(cfg, s, a).launched
    ensures id in s.launched || (a.Launch? && id in s.runs[a.d].toExecute)
  {}

  /** What was written back as fired is listed for as long as its run lives, and then launched. */
  lemma {:induction false} FiredStaysListed(cfg: Config, acts: seq<Action>, i: nat, k: nat, d: nat, id: nat)
    requires CanRun(cfg, Init(), acts) && i < k <= |acts| && WroteFired(cfg, acts, i, d, id) && SameRun(acts, d, i, k)
    ensures d in At(cfg, Init(), acts, k).runs && id in At(cfg, Init(), acts, k).runs[d].toExecute
    decreases k
  {
    AtStep(cfg, Init(), acts, k - 1);
    if k - 1 > i {
      FiredStaysListed(cfg, acts, i, k - 1, d, id);
    }
    var s := At(cfg, Init(), acts, k - 1);
    if k - 1 == i {
      assert Apply(cfg, s, acts[i]).runs[d].toExecute == s.runs[d].toExecute + [id];
    }
  }

  lemma {:induction false} LaunchedAtStays(cfg: Config, acts: seq<Action>, j: nat, k: nat, id: nat)
    requires CanRun(cfg, Init(), acts) && j <= k <= |acts| && id in At(cfg, Init(), acts, j).launched
    ensures id in At(cfg, Init(), acts, k).launched
  {
    if j < k {
      LaunchedAtStays(cfg, acts, j, k - 1, id);
      AtStep(cfg, Init(), acts, k - 1);
    }
  }

  /** The row of a fired event says so from the write-back on, until retention deletes it. */
  lemma {:induction false} FiredRowStays(cfg: Config, acts: seq<Action>, i: nat, k: nat, d: nat, id: nat)
    requires cfg.timeout < cfg.reclaim && CanRun(cfg, Init(), acts) && i < k <= |acts| && WroteFired(cfg, acts, i, d, id)
    ensures var s := At(cfg, Init(), acts, k);
            id < |s.rows| && (s.rows[id].Some? ==> s.rows[id].value.verdict == Decided("fired"))
    decreases k
  {
    AtStep(cfg, Init(), acts, k - 1);
    var s, a := At(cfg, Init(), acts, k - 1), acts[k - 1];
    if k - 1 > i {
      FiredRowStays(cfg, acts, i, k - 1, d, id);
      AtKeepsInv(cfg, acts, k - 1);
      StepKeepsInv(cfg, s, a);
      RunEnds(cfg, Apply(cfg, s, a));
      RunStarts(cfg, s, a, []);
      assert [a] + [] == [a];
      DecidedIsFinal(cfg, s, [a], id);
    }
  }

  /** Main result. Over any run of any number of replicas, the executor is started for exactly the events
    * whose kept row a run wrote back as fired, for an addressee, before that same run launched; and such a
    * row says fired until retention deletes it. */
  lemma ExactlyTheFiredAreLaunched(cfg: Config, acts: seq<Action>, id: nat)
    requires cfg.timeout < cfg.reclaim && CanRun(cfg, Init(), acts)
    ensures var s := After(cfg, Init(), acts);
            && (id in s.launched <==> exists i: nat, j: nat, d: nat :: LaunchedBy(cfg, acts, i, j, d, id))
            && (id in s.launched ==> id < |s.rows| && (s.rows[id].None? || s.rows[id].value.verdict == Decided("fired")))
  {
    AtEnd(cfg, Init(), acts);
    hide Enabled, Apply;
    if exists i: nat, j: nat, d: nat :: LaunchedBy(cfg, acts, i, j, d, id) {
      var i: nat, j: nat, d: nat :| LaunchedBy(cfg, acts, i, j, d, id);
      FiredStaysListed(cfg, acts, i, j, d, id);
      AtStep(cfg, Init(), acts, j);
      LaunchTakesAll(cfg, At(cfg, Init(), acts, j), d, id);
      LaunchedAtStays(cfg, acts, j + 1, |acts|, id);
    }
    if id in After(cfg, Init(), acts).launched {
      var i, j, d := LaunchedWasFired(cfg, acts, |acts|, id);
      FiredRowStays(cfg, acts, i, |acts|, d, id);
    }
  }

  lemma LaunchTakesAll(cfg: Config, s: Sys, d: nat, id: nat)
    requires Enabled(cfg, s, Launch(d)) && id in s.runs[d].toExecute
    ensures id in Apply(cfg, s, Launch(d)).launched
  {}

  /** Main result. A write-back meets the run's own claim, or no row at all. A failed run's event is pending
    * again, any other takes its verdict; no other row changes, and the run goes on to its next event. */
  lemma WriteBackSettlesTheClaim(cfg: Config, past: seq<Action>, d: nat, outcome: Option<Outcome>)
    requires cfg.timeout < cfg.reclaim && CanRun(cfg, Init(), past)
    requires Enabled(cfg, After(cfg, Init(), past), WriteBack(d, outcome))
    ensures var s := After(cfg, Init(), past);
            var t, id := Apply(cfg, s, WriteBack(d, outcome)), s.runs[d].todo[0];
            && id < |s.rows| == |t.rows| && t.runs[d].todo == s.runs[d].todo[1..]
            && (forall x :: 0 <= x < |s.rows| && x != id ==> t.rows[x] == s.rows[x])
            && (s.rows[id].None? ==> t.rows[id].None?)
            && (s.rows[id].Some? ==>
                  && s.rows[id] == Some(Row(Processing, Some(s.runs[d].start)))
                  && t.rows[id] == Some(match outcome
                                        case None => Row(Pending, None)
                                        case Some(o) => Row(Decided(o.verdict), Some(s.now))))
  {
    RunKeepsInv(cfg, Init(), past);
    var s := After(cfg, Init(), past);
    assert RunInv(s, s.runs[d]) && s.runs[d].todo[0] in s.runs[d].todo;
    assert Owns(cfg, s, d, s.runs[d].todo[0]) && OwnerInv(cfg, s, s.runs[d].todo[0]);
  }

  /** What a run can do next in any reachable state: while it is live exactly one of claiming, writing back
    * and launching; after its time only die, which launches nothing and leaves its claims as they stand. */
  lemma NextStepOfARun(cfg: Config, past: seq<Action>, d: nat, outcome: Option<Outcome>)
    requires cfg.timeout < cfg.reclaim && CanRun(cfg, Init(), past)
    ensures var s := After(cfg, Init(), past);
            && (Enabled(cfg, s, Start(d)) <==> d !in s.runs)
            && (Enabled(cfg, s, Die(d)) <==> d in s.runs)
            && (d in s.runs ==>
                  var r, live := s.runs[d], s.now - s.runs[d].start <= cfg.timeout;
                  && (Enabled(cfg, s, Claim(d)) <==> live && !r.claimed)
                  && (Enabled(cfg, s, WriteBack(d, outcome)) <==> live && r.claimed && r.todo != [])
                  && (Enabled(cfg, s, Launch(d)) <==> live && r.claimed && r.todo == [])
                  && Apply(cfg, s, Die(d)) == s.(runs := s.runs - {d}))
  {
    RunKeepsInv(cfg, Init(), past);
    var s := After(cfg, Init(), past);
    assert d in s.runs ==> RunInv(s, s.runs[d]);
  }
}

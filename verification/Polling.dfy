/** Adaptive polling of standing intents (`backend/app/ambient/triggers.py`): backoff while quiet, reset
  * on activity, base cadence near a deadline; and the watermark that ends a pass. Times are seconds.
  */
module Polling {
  import opened Options
  import Sources

  datatype Status = Active | Expired

  /** An event watch; `pollable` says its compiled source is registered. */
  datatype Watch = Watch(pollable: bool, base: nat, current: nat, max: nat, multiplier: real, quiet: nat,
                         last: Option<nat>, expires: Option<nat>, status: Status, watermark: string)

  /** What the source answers: it fails, or returns so many new items and a watermark. */
  datatype Answer = Failed | Answered(items: nat, watermark: string)

  predicate Deadlined(w: Watch, now: nat) {
    w.expires.Some? && now >= w.expires.value
  }

  function EffectiveInterval(w: Watch, now: nat): nat {
    if w.expires.Some? && w.expires.value - now <= 2 * w.current && w.base < w.current then w.base else w.current
  }

  /** Is the source asked at this tick? */
  predicate Asks(w: Watch, now: nat) {
    && w.status == Active && w.pollable && !Deadlined(w, now)
    && (w.last.None? || now - w.last.value >= EffectiveInterval(w, now))
  }

  function BackedOff(w: Watch): nat
    requires w.multiplier >= 0.0
  {
    var grown := (w.current as real * w.multiplier).Floor;
    if grown < w.max then grown else w.max
  }

  /** The source was asked, and its watermark is too long for the column: the commit is refused. */
  predicate Overflows(w: Watch, now: nat, answer: Answer) {
    Asks(w, now) && answer.Answered? && answer.items > 0 && |answer.watermark| > Sources.COLUMN
  }

  function Ticked(w: Watch, now: nat, answer: Answer): Watch
    requires w.multiplier >= 0.0
  {
    if w.status != Active || !w.pollable then w
    else if Deadlined(w, now) then w.(status := Expired)
    else if !Asks(w, now) || answer.Failed? || Overflows(w, now, answer) then w
    else if answer.items > 0 then
      w.(last := Some(now), watermark := answer.watermark, quiet := 0, current := w.base)
    else w.(last := Some(now), quiet := w.quiet + 1, current := BackedOff(w))
  }

  /** Is the poll stored? */
  predicate Polls(w: Watch, now: nat, answer: Answer) {
    Asks(w, now) && answer.Answered? && !Overflows(w, now, answer)
  }

  class Poller {
    var watches: seq<Watch>

    constructor (rows: seq<Watch>)
      ensures watches == rows
    {
      watches := rows;
    }

    /** One watch at one tick; `items` counts what is handed to the event store, and `raised` tells that
      * the commit was refused. */
    static method Check(watch: Watch, now: nat, answer: Answer) returns (w: Watch, items: nat, raised: bool)
      requires watch.multiplier >= 0.0
      ensures w == Ticked(watch, now, answer)
      ensures items == if Polls(watch, now, answer) then FirstOf(answer.items) else 0
      ensures raised == Overflows(watch, now, answer)
    {
      w, items, raised := watch, 0, false;
      if w.status != Active || !w.pollable {
        return;
      }
      if w.expires.Some? && now >= w.expires.value {
        w := w.(status := Expired);
        return;
      }
      var effective := w.current;
      if w.expires.Some? && w.expires.value - now <= 2 * w.current {
        effective := if w.base < effective then w.base else effective;
      }
      if w.last.Some? && now - w.last.value < effective {
        return;
      }
      if answer.Failed? {
        return;
      }
      w := w.(last := Some(now));
      if answer.items > 0 {
        w := w.(watermark := answer.watermark);
        w := w.(quiet := 0);
        w := w.(current := w.base);
      } else {
        w := w.(quiet := w.quiet + 1);
        var grown := (w.current as real * w.multiplier).Floor;
        w := w.(current := if grown < w.max then grown else w.max);
      }
      if answer.items > 0 && |w.watermark| > Sources.COLUMN {
        return watch, 0, true;
      }
      items := FirstOf(answer.items);
    }

    /** One pass in the order the database lists the watches. A refused commit is not caught: it ends the
      * pass. */
    method PollDue(now: nat, source: nat -> Answer, order: seq<nat>) returns (handed: nat, raised: bool)
      requires forall i :: 0 <= i < |watches| ==> watches[i].multiplier >= 0.0
      requires IsOrder(order, |watches|)
      modifies this
      ensures watches == Pass(old(watches), now, source, order)
      ensures handed == Handed(old(watches), now, source, order)
      ensures raised == (Reach(old(watches), now, source, order) < |order|)
    {
      hide Ticked, Polls, Overflows;
      handed, raised := 0, false;
      ghost var before := watches;
      var p := 0;
      while p < |order|
        invariant 0 <= p <= |order| && |watches| == |before|
        invariant forall i: nat :: i < |before| ==>
          watches[i] == if i in order[..p] then Ticked(before[i], now, source(i)) else before[i]
        invariant forall q :: 0 <= q < p ==> !Overflows(before[order[q]], now, source(order[q]))
        invariant handed == HandedBy(before, now, source, order[..p])
      {
        var i := order[p];
        assert order[..p + 1][..p] == order[..p] && order[..p + 1] == order[..p] + [i] && i !in order[..p];
        var w, items, failed := Check(watches[i], now, source(i));
        if failed {
          raised := true;
          ReachIs(before, now, source, order, p);
          PassIs(before, watches, now, source, order);
          return;
        }
        watches := watches[i := w];
        handed := handed + items;
        p := p + 1;
      }
      ReachIs(before, now, source, order, p);
      PassIs(before, watches, now, source, order);
    }
  }

  // ── A pass ──

  /** The order names watches, each at most once. */
  ghost predicate IsOrder(order: seq<nat>, n: nat) {
    Distinct(order) && forall p :: 0 <= p < |order| ==> order[p] < n
  }

  /** How many watches the pass gets through before a commit is refused. */
  function Reach(watches: seq<Watch>, now: nat, source: nat -> Answer, order: seq<nat>): (n: nat)
    requires forall p :: 0 <= p < |order| ==> order[p] < |watches|
    ensures n <= |order| && (n < |order| ==> Overflows(watches[order[n]], now, source(order[n])))
    ensures forall q :: 0 <= q < n ==> !Overflows(watches[order[q]], now, source(order[q]))
  {
    if order == [] || Overflows(watches[order[0]], now, source(order[0])) then 0
    else 1 + Reach(watches, now, source, order[1..])
  }

  lemma {:induction false} ReachIs(watches: seq<Watch>, now: nat, source: nat -> Answer, order: seq<nat>, n: nat)
    requires forall p :: 0 <= p < |order| ==> order[p] < |watches|
    requires n <= |order| && (n < |order| ==> Overflows(watches[order[n]], now, source(order[n])))
    requires forall q :: 0 <= q < n ==> !Overflows(watches[order[q]], now, source(order[q]))
    ensures Reach(watches, now, source, order) == n
  {
    hide Overflows;
    if n > 0 {
      ReachIs(watches, now, source, order[1..], n - 1);
    }
  }

  /** Is watch `i` served: visited, with no refused commit before it or at it? */
  predicate Served(watches: seq<Watch>, now: nat, source: nat -> Answer, order: seq<nat>, i: nat)
    requires forall p :: 0 <= p < |order| ==> order[p] < |watches|
  {
    i in order[..Reach(watches, now, source, order)]
  }

  /** A pass: the watches that are served take their step, and no other changes. */
  function Pass(watches: seq<Watch>, now: nat, source: nat -> Answer, order: seq<nat>): seq<Watch>
    requires forall i :: 0 <= i < |watches| ==> watches[i].multiplier >= 0.0
    requires forall p :: 0 <= p < |order| ==> order[p] < |watches|
  {
    seq(|watches|, i requires 0 <= i < |watches| =>
      if Served(watches, now, source, order, i) then Ticked(watches[i], now, source(i)) else watches[i])
  }

  lemma PassIs(watches: seq<Watch>, after: seq<Watch>, now: nat, source: nat -> Answer, order: seq<nat>)
    requires forall i :: 0 <= i < |watches| ==> watches[i].multiplier >= 0.0
    requires forall p :: 0 <= p < |order| ==> order[p] < |watches|
    requires |after| == |watches|
    requires forall i: nat :: i < |watches| ==>
               after[i] == if i in order[..Reach(watches, now, source, order)] then Ticked(watches[i], now, source(i))
                           else watches[i]
    ensures after == Pass(watches, now, source, order)
  {
    hide Ticked;
    var pass := Pass(watches, now, source, order);
    forall i: nat | i < |watches| ensures after[i] == pass[i] {
      assert pass[i] == if Served(watches, now, source, order, i) then Ticked(watches[i], now, source(i)) else watches[i];
    }
  }

  function HandedBy(watches: seq<Watch>, now: nat, source: nat -> Answer, order: seq<nat>): nat
    requires forall p :: 0 <= p < |order| ==> order[p] < |watches|
  {
    if order == [] then 0
    else
      var n := |order| - 1;
      HandedBy(watches, now, source, order[..n])
      + (if Polls(watches[order[n]], now, source(order[n])) then FirstOf(source(order[n]).items) else 0)
  }

  /** What a pass hands to the event store. */
  function Handed(watches: seq<Watch>, now: nat, source: nat -> Answer, order: seq<nat>): nat
    requires forall p :: 0 <= p < |order| ==> order[p] < |watches|
  {
    HandedBy(watches, now, source, order[..Reach(watches, now, source, order)])
  }

  /** At most the first twenty items of a poll are used. */
  function FirstOf(items: nat): nat {
    if items < Sources.MAX_ITEMS then items else Sources.MAX_ITEMS
  }

  // ── Runs ──

  /** A tick and what the source would answer at it. */
  datatype Tick = Tick(at: nat, answer: Answer)

  /** A watch as configured: base below the maximum, a multiplier of at least one. */
  ghost predicate Valid(w: Watch) {
    w.multiplier >= 1.0 && w.base <= w.current <= w.max
  }

  lemma GrowthIsMonotone(current: nat, multiplier: real)
    requires multiplier >= 1.0
    ensures (current as real * multiplier).Floor >= current
  {
    assert current as real * multiplier >= current as real * 1.0;
  }

  lemma BackoffGrows(w: Watch)
    requires Valid(w)
    ensures w.current <= BackedOff(w) <= w.max
  {
    GrowthIsMonotone(w.current, w.multiplier);
  }

  lemma TickKeepsValid(w: Watch, now: nat, answer: Answer)
    requires Valid(w)
    ensures Valid(Ticked(w, now, answer))
  {
    hide BackedOff;
    BackoffGrows(w);
  }

  ghost function Run(w: Watch, ticks: seq<Tick>): (r: Watch)
    requires Valid(w)
    ensures Valid(r) && r.base == w.base && r.max == w.max && r.expires == w.expires && r.pollable == w.pollable
    decreases |ticks|
  {
    if ticks == [] then w
    else
      TickKeepsValid(w, ticks[0].at, ticks[0].answer);
      Run(Ticked(w, ticks[0].at, ticks[0].answer), ticks[1..])
  }

  /** The instants at which the source was asked and its answer was stored. */
  ghost function PollTimes(w: Watch, ticks: seq<Tick>): seq<nat>
    requires Valid(w)
    decreases |ticks|
  {
    if ticks == [] then []
    else
      TickKeepsValid(w, ticks[0].at, ticks[0].answer);
      (if Polls(w, ticks[0].at, ticks[0].answer) then [ticks[0].at] else [])
      + PollTimes(Ticked(w, ticks[0].at, ticks[0].answer), ticks[1..])
  }

  lemma TickInterval(w: Watch, now: nat, answer: Answer)
    requires Valid(w)
    ensures var t := Ticked(w, now, answer);
            && Valid(t) && t.base == w.base && t.max == w.max
            && (t.current < w.current ==> Polls(w, now, answer) && answer.items > 0 && t.current == w.base)
  {
    hide BackedOff;
    BackoffGrows(w);
  }

  /** Main result. The interval stays between base and maximum, and as long as the source reports no
    * items it never shrinks. */
  lemma {:induction false} IntervalNeverShrinksWhileQuiet(w: Watch, ticks: seq<Tick>)
    requires Valid(w)
    ensures w.base <= Run(w, ticks).current <= w.max
    ensures (forall t :: t in ticks ==> t.answer.Failed? || t.answer.items == 0) ==> Run(w, ticks).current >= w.current
    decreases |ticks|
  {
    hide Ticked, Asks;
    if ticks != [] {
      TickInterval(w, ticks[0].at, ticks[0].answer);
      IntervalNeverShrinksWhileQuiet(Ticked(w, ticks[0].at, ticks[0].answer), ticks[1..]);
      assert ticks[0] in ticks && forall t :: t in ticks[1..] ==> t in ticks;
    }
  }

  /** Main result. Two stored polls of a watch are at least its base interval apart, and the first one of a
    * run is at least that far from the last one before it. */
  lemma {:induction false} PollsAreSpaced(w: Watch, ticks: seq<Tick>)
    requires Valid(w)
    ensures var polls := PollTimes(w, ticks);
            && (polls != [] && w.last.Some? ==> polls[0] >= w.last.value + w.base)
            && (forall i :: 0 < i < |polls| ==> polls[i] >= polls[i - 1] + w.base)
    decreases |ticks|
  {
    if ticks != [] {
      TickKeepsValid(w, ticks[0].at, ticks[0].answer);
      var next := Ticked(w, ticks[0].at, ticks[0].answer);
      PollsAreSpaced(next, ticks[1..]);
      var rest := PollTimes(next, ticks[1..]);
      assert next.base == w.base;
      if Polls(w, ticks[0].at, ticks[0].answer) {
        var polls := [ticks[0].at] + rest;
        forall i | 0 < i < |polls| ensures polls[i] >= polls[i - 1] + w.base {
          if i > 1 {
            assert polls[i] == rest[i - 1] && polls[i - 1] == rest[i - 2];
          }
        }
      }
    }
  }

  /** A watch that was due is asked again before its base interval is over exactly when nothing was stored:
    * the source failed, or its watermark did not fit. */
  lemma AskedAgainExactly(w: Watch, now: nat, answer: Answer, again: nat)
    requires Valid(w) && Asks(w, now) && now <= again < now + w.base && !Deadlined(w, again)
    ensures Asks(Ticked(w, now, answer), again) <==> answer.Failed? || Overflows(w, now, answer)
  {
    hide BackedOff;
    BackoffGrows(w);
  }

  ghost predicate Steady(ticks: seq<Tick>, gap: nat) {
    && (forall i :: 0 < i < |ticks| ==> ticks[i - 1].at <= ticks[i].at <= ticks[i - 1].at + gap)
    && (forall i :: 0 <= i < |ticks| ==> Works(ticks[i].answer))
  }

  /** The source answers, and what it answers can be stored. */
  predicate Works(answer: Answer) {
    answer.Answered? && (answer.items > 0 ==> |answer.watermark| <= Sources.COLUMN)
  }

  /** Backoff never costs a watch its deadline: with ticks at most `gap` apart, `gap` at most
    * twice the base interval, and a working source, a watch that is active before its deadline has been
    * polled within base + gap seconds of it when it expires. */
  lemma {:induction false} PolledNearDeadline(w: Watch, ticks: seq<Tick>, gap: nat)
    requires Valid(w) && w.status == Active && w.pollable && w.expires.Some?
    requires Steady(ticks, gap) && gap <= 2 * w.base
    requires |ticks| > 0 && ticks[0].at < w.expires.value <= ticks[|ticks| - 1].at
    requires w.last.Some? ==> w.last.value <= ticks[0].at
    ensures var r := Run(w, ticks);
            && r.status == Expired && r.last.Some?
            && r.last.value < w.expires.value <= r.last.value + w.base + gap
    decreases |ticks|
  {
    var deadline := w.expires.value;
    var rest := ticks[1..];
    TickKeepsValid(w, ticks[0].at, ticks[0].answer);
    var next := Ticked(w, ticks[0].at, ticks[0].answer);
    assert rest[0] == ticks[1] && ticks[1].at <= ticks[0].at + gap;
    assert Steady(rest, gap) by {
      assert forall i :: 0 <= i < |rest| ==> rest[i] == ticks[i + 1];
    }
    if ticks[1].at < deadline {
      PolledNearDeadline(next, rest, gap);
    } else {
      assert next.last.Some? && deadline <= next.last.value + w.base + gap;
      StaysExpired(Ticked(next, rest[0].at, rest[0].answer), rest[1..]);
    }
  }

  lemma {:induction false} StaysExpired(w: Watch, ticks: seq<Tick>)
    requires Valid(w) && w.status == Expired
    ensures Run(w, ticks) == w
    decreases |ticks|
  {
    if ticks != [] {
      StaysExpired(w, ticks[1..]);
    }
  }

  // ── Many watches ──

  /** A pass: its time, the order of the watches, and what each source would answer. */
  datatype Sweep = Sweep(at: nat, order: seq<nat>, source: nat -> Answer)

  ghost predicate FleetValid(watches: seq<Watch>) {
    forall i :: 0 <= i < |watches| ==> Valid(watches[i])
  }

  ghost predicate Ordered(sweeps: seq<Sweep>, n: nat) {
    forall k :: 0 <= k < |sweeps| ==> IsOrder(sweeps[k].order, n)
  }

  lemma PassKeepsValid(watches: seq<Watch>, x: Sweep)
    requires FleetValid(watches) && IsOrder(x.order, |watches|)
    ensures FleetValid(Pass(watches, x.at, x.source, x.order))
  {
    hide Ticked;
    forall i: nat | i < |watches| ensures Valid(Ticked(watches[i], x.at, x.source(i))) {
      TickKeepsValid(watches[i], x.at, x.source(i));
    }
  }

  ghost function FleetRun(watches: seq<Watch>, sweeps: seq<Sweep>): (r: seq<Watch>)
    requires FleetValid(watches) && Ordered(sweeps, |watches|)
    ensures |r| == |watches| && FleetValid(r)
    decreases |sweeps|
  {
    if sweeps == [] then watches
    else
      PassKeepsValid(watches, sweeps[0]);
      FleetRun(Pass(watches, sweeps[0].at, sweeps[0].source, sweeps[0].order), sweeps[1..])
  }

  /** The ticks a watch really gets: the passes in which it is served. */
  ghost function ServedTicks(watches: seq<Watch>, sweeps: seq<Sweep>, i: nat): seq<Tick>
    requires FleetValid(watches) && Ordered(sweeps, |watches|)
    decreases |sweeps|
  {
    if sweeps == [] then []
    else
      PassKeepsValid(watches, sweeps[0]);
      (if Served(watches, sweeps[0].at, sweeps[0].source, sweeps[0].order, i)
       then [Tick(sweeps[0].at, sweeps[0].source(i))] else [])
      + ServedTicks(Pass(watches, sweeps[0].at, sweeps[0].source, sweeps[0].order), sweeps[1..], i)
  }

  /** Main result. A watch among others is the watch on its own, over the passes in which no commit before
    * it or at it was refused: every bound on one watch's run holds for exactly these ticks. */
  lemma {:induction false} EachWatchRunsItsServedTicks(watches: seq<Watch>, sweeps: seq<Sweep>, i: nat)
    requires FleetValid(watches) && Ordered(sweeps, |watches|) && i < |watches|
    ensures FleetRun(watches, sweeps)[i] == Run(watches[i], ServedTicks(watches, sweeps, i))
    decreases |sweeps|
  {
    hide Ticked, Served;
    if sweeps != [] {
      var x := sweeps[0];
      PassKeepsValid(watches, x);
      var next := Pass(watches, x.at, x.source, x.order);
      EachWatchRunsItsServedTicks(next, sweeps[1..], i);
      var rest := ServedTicks(next, sweeps[1..], i);
      if Served(watches, x.at, x.source, x.order, i) {
        assert ([Tick(x.at, x.source(i))] + rest)[1..] == rest;
      } else {
        assert [] + rest == rest;
      }
    }
  }

  /** In every pass the watch is visited, and no commit is refused before it or at it. */
  ghost predicate AlwaysServed(watches: seq<Watch>, sweeps: seq<Sweep>, i: nat)
    requires FleetValid(watches) && Ordered(sweeps, |watches|)
    decreases |sweeps|
  {
    sweeps != [] ==>
      (PassKeepsValid(watches, sweeps[0]);
       && Served(watches, sweeps[0].at, sweeps[0].source, sweeps[0].order, i)
       && AlwaysServed(Pass(watches, sweeps[0].at, sweeps[0].source, sweeps[0].order), sweeps[1..], i))
  }

  ghost predicate SteadySweeps(sweeps: seq<Sweep>, gap: nat, i: nat) {
    && (forall k :: 0 < k < |sweeps| ==> sweeps[k - 1].at <= sweeps[k].at <= sweeps[k - 1].at + gap)
    && (forall k :: 0 <= k < |sweeps| ==> Works(sweeps[k].source(i)))
  }

  lemma {:induction false} ServedThroughout(watches: seq<Watch>, sweeps: seq<Sweep>, i: nat)
    requires FleetValid(watches) && Ordered(sweeps, |watches|) && AlwaysServed(watches, sweeps, i)
    ensures var ticks := ServedTicks(watches, sweeps, i);
            |ticks| == |sweeps| && forall k :: 0 <= k < |sweeps| ==> ticks[k] == Tick(sweeps[k].at, sweeps[k].source(i))
    decreases |sweeps|
  {
    hide Served, Ticked;
    if sweeps != [] {
      var x := sweeps[0];
      PassKeepsValid(watches, x);
      ServedThroughout(Pass(watches, x.at, x.source, x.order), sweeps[1..], i);
    }
  }

  /** Main result. Among any number of watches, one that is served in every pass is polled near its
    * deadline. */
  lemma PolledNearDeadlineAmongOthers(watches: seq<Watch>, sweeps: seq<Sweep>, i: nat, gap: nat)
    requires FleetValid(watches) && Ordered(sweeps, |watches|) && i < |watches| && AlwaysServed(watches, sweeps, i)
    requires watches[i].status == Active && watches[i].pollable && watches[i].expires.Some?
    requires SteadySweeps(sweeps, gap, i) && gap <= 2 * watches[i].base
    requires |sweeps| > 0 && sweeps[0].at < watches[i].expires.value <= sweeps[|sweeps| - 1].at
    requires watches[i].last.Some? ==> watches[i].last.value <= sweeps[0].at
    ensures var r := FleetRun(watches, sweeps)[i];
            && r.status == Expired && r.last.Some?
            && r.last.value < watches[i].expires.value <= r.last.value + watches[i].base + gap
  {
    EachWatchRunsItsServedTicks(watches, sweeps, i);
    ServedThroughout(watches, sweeps, i);
    PolledNearDeadline(watches[i], ServedTicks(watches, sweeps, i), gap);
  }

  // ── The input that fails ──

  /** A watch that is due at every tick: never polled, never expiring. */
  predicate AlwaysDue(w: Watch) {
    w.status == Active && w.pollable && w.last.None? && w.expires.None?
  }

  /** Why the condition is there: a watch whose watermark never fits, listed first, ends every pass. No
    * other watch is ever polled or even expired, though every source works. */
  lemma {:induction false} OneJamStarvesAll(watches: seq<Watch>, sweeps: seq<Sweep>, jam: nat)
    requires FleetValid(watches) && Ordered(sweeps, |watches|) && jam < |watches| && AlwaysDue(watches[jam])
    requires forall k :: 0 <= k < |sweeps| ==>
               && sweeps[k].order != [] && sweeps[k].order[0] == jam
               && sweeps[k].source(jam).Answered? && sweeps[k].source(jam).items > 0
               && |sweeps[k].source(jam).watermark| > Sources.COLUMN
    ensures FleetRun(watches, sweeps) == watches
    decreases |sweeps|
  {
    hide Ticked;
    if sweeps != [] {
      var x := sweeps[0];
      assert Overflows(watches[jam], x.at, x.source(jam));
      assert Reach(watches, x.at, x.source, x.order) == 0;
      PassIs(watches, watches, x.at, x.source, x.order);
      OneJamStarvesAll(watches, sweeps[1..], jam);
    }
  }

  /** What a deduplicating source answers. */
  function Deduped(s: Sources.Watch, items: seq<Sources.Item>): Answer {
    Answered(|Sources.Fresh(items, Sources.SeenKeys(s.watermark))|, Sources.Encode(Sources.NextWindow(s, items)))
  }

  /** Thirteen items without ids are enough for such a watch. */
  lemma ThirteenItemsJam(w: Watch, now: nat, items: seq<Sources.Item>)
    requires AlwaysDue(w)
    requires |items| == 13 && Distinct(Sources.KeysOf(items))
    requires forall k :: 0 <= k < 13 ==> |Sources.Escapes(Sources.ItemKey(items[k]))| == 16
    ensures Overflows(w, now, Deduped(Sources.Watch(Sources.Absent, [], []), items))
  {
    hide Sources.Encode, Sources.Escapes;
    Sources.ThirteenDigestsJam(items, 0);
    Sources.AllAreFresh(items);
  }
}

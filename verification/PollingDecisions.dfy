/** What one tick and one pass do to a watch, and how far its interval backs off. */
module PollingDecisions {
  import opened Options
  import opened Polling

  /** Main result. An active watch whose source is registered expires at its deadline. Before it, it is asked
    * once its interval has passed, at the base interval if the deadline is within twice the current one. An
    * answer with items that fits its column resets the interval; a quiet one multiplies the interval up to the
    * maximum; a failure and a refused commit change nothing. */
  lemma TickDecidesExactly(w: Watch, now: nat, answer: Answer)
    requires w.multiplier >= 0.0
    ensures var t := Ticked(w, now, answer);
            var over := w.expires.Some? && w.expires.value <= now;
            var near := w.expires.Some? && w.expires.value <= now + 2 * w.current;
            var due := w.last.None? || now >= w.last.value + (if near && w.base <= w.current then w.base else w.current);
            var asked := w.status == Active && w.pollable && !over && due;
            var refused := asked && answer.Answered? && answer.items >= 1 && |answer.watermark| >= 256;
            var stored := asked && answer.Answered? && !refused;
            && (w.status == Active && w.pollable && over ==> t == w.(status := Expired))
            && (w.status != Active || !w.pollable || (!over && !stored) ==> t == w)
            && (stored && answer.items >= 1 ==>
                  t == w.(last := Some(now), watermark := answer.watermark, quiet := 0, current := w.base))
            && (stored && answer.items == 0 ==>
                  && t == w.(last := Some(now), quiet := w.quiet + 1, current := t.current)
                  && t.current <= w.max && t.current as real <= w.current as real * w.multiplier
                  && (t.current == w.max || w.current as real * w.multiplier < t.current as real + 1.0))
            && Asks(w, now) == asked && Overflows(w, now, answer) == refused && Polls(w, now, answer) == stored
  {}

  /** The commit of watch `i` is refused. */
  predicate Refused(watches: seq<Watch>, now: nat, source: nat -> Answer, i: nat)
    requires i < |watches|
  {
    && Asks(watches[i], now) && source(i).Answered? && source(i).items >= 1 && |source(i).watermark| >= 256
  }

  /** Main result. A pass takes watch `i` through its tick exactly if the order names it and neither its own
    * commit nor any before it is refused; no other watch changes. */
  lemma PassDecidesExactly(watches: seq<Watch>, now: nat, source: nat -> Answer, order: seq<nat>, i: nat)
    requires forall j :: 0 <= j < |watches| ==> watches[j].multiplier >= 0.0
    requires IsOrder(order, |watches|) && i < |watches|
    ensures var served := exists p :: 0 <= p < |order| && order[p] == i
                            && forall q :: 0 <= q <= p ==> !Refused(watches, now, source, order[q]);
            var after := Pass(watches, now, source, order);
            && |after| == |watches|
            && after[i] == if served then Ticked(watches[i], now, source(i)) else watches[i]
  {
    hide Ticked, Asks;
    var n := Reach(watches, now, source, order);
    if p :| 0 <= p < |order| && order[p] == i && forall q :: 0 <= q <= p ==> !Refused(watches, now, source, order[q]) {
      assert n < |order| ==> Overflows(watches[order[n]], now, source(order[n]));
      assert p < n;
      assert order[..n][p] == i;
    }
    if i in order[..n] {
      var p :| 0 <= p < n && order[..n][p] == i;
      assert forall q :: 0 <= q < n ==> !Overflows(watches[order[q]], now, source(order[q]));
      assert order[p] == i && forall q :: 0 <= q <= p ==> !Refused(watches, now, source, order[q]);
    }
  }

  /** What a pass hands on: up to twenty items of each stored poll, watch by watch up to the refused one. */
  lemma {:induction false} HandedIsTheSum(watches: seq<Watch>, now: nat, source: nat -> Answer, order: seq<nat>)
    requires forall p :: 0 <= p < |order| ==> order[p] < |watches|
    ensures order == [] ==> Handed(watches, now, source, order) == 0
    ensures order != [] ==>
              var w, answer := watches[order[0]], source(order[0]);
              Handed(watches, now, source, order) ==
              if Refused(watches, now, source, order[0]) then 0
              else (if Asks(w, now) && answer.Answered? then if answer.items <= 20 then answer.items else 20 else 0)
                   + Handed(watches, now, source, order[1..])
  {
    hide Asks;
    if order != [] && !Refused(watches, now, source, order[0]) {
      var n := Reach(watches, now, source, order[1..]);
      assert Reach(watches, now, source, order) == n + 1;
      assert order[..n + 1] == [order[0]] + order[1..][..n];
      FirstApart(watches, now, source, order[0], order[1..][..n]);
    }
  }

  lemma {:induction false} FirstApart(watches: seq<Watch>, now: nat, source: nat -> Answer, i: nat, rest: seq<nat>)
    requires i < |watches| && forall p :: 0 <= p < |rest| ==> rest[p] < |watches|
    ensures var order := [i] + rest;
            HandedBy(watches, now, source, order)
            == (if Polls(watches[i], now, source(i)) then FirstOf(source(i).items) else 0) + HandedBy(watches, now, source, rest)
    decreases |rest|
  {
    hide Polls;
    var order := [i] + rest;
    if rest == [] {
      assert order[..0] == [] && HandedBy(watches, now, source, order[..0]) == 0;
    } else {
      assert order[..|order| - 1] == [i] + rest[..|rest| - 1];
      FirstApart(watches, now, source, i, rest[..|rest| - 1]);
    }
  }

  function Power(m: nat, k: nat): nat {
    if k == 0 then 1 else m * Power(m, k - 1)
  }

  predicate Quiet(answer: Answer) {
    answer.Answered? && answer.items == 0
  }

  /** Main result. With a whole multiplier, quiet polls back off geometrically: after `k` of them in a row the
    * interval is the old one times the `k`-th power of the multiplier, or the maximum; and the first poll
    * with items brings it back to the base. */
  lemma {:induction false} QuietPollsBackOff(w: Watch, ticks: seq<Tick>, m: nat)
    requires Valid(w) && w.multiplier == m as real
    requires |PollTimes(w, ticks)| == |ticks| && forall i :: 0 <= i < |ticks| ==> Quiet(ticks[i].answer)
    ensures var grown := w.current * Power(m, |ticks|);
            Run(w, ticks).current == if grown < w.max then grown else w.max
    decreases |ticks|
  {
    hide Asks, Polls, Ticked;
    if ticks != [] {
      var tick := ticks[0];
      TickKeepsValid(w, tick.at, tick.answer);
      PollsAtMostTicks(Ticked(w, tick.at, tick.answer), ticks[1..]);
      assert Quiet(tick.answer);
      QuietStep(w, tick, m);
      QuietPollsBackOff(Ticked(w, tick.at, tick.answer), ticks[1..], m);
      PowerGrows(w.current, m, |ticks| - 1, w.max);
    }
  }

  lemma QuietStep(w: Watch, tick: Tick, m: nat)
    requires Valid(w) && w.multiplier == m as real && Polls(w, tick.at, tick.answer) && Quiet(tick.answer)
    ensures var next := Ticked(w, tick.at, tick.answer);
            && next.max == w.max && next.multiplier == w.multiplier
            && next.current == if w.current * m < w.max then w.current * m else w.max
  {
    WholeProduct(w.current, m);
  }

  lemma PowerGrows(current: nat, m: nat, k: nat, max: nat)
    requires m >= 1
    ensures current * Power(m, k + 1) == (current * m) * Power(m, k)
    ensures max * Power(m, k) >= max
    ensures current * m >= max ==> (current * m) * Power(m, k) >= max
  {
    PowerIsPositive(m, k);
    Associate(current, m, Power(m, k));
    AtLeast(max, Power(m, k));
    if current * m >= max {
      AtLeast(current * m, Power(m, k));
    }
  }

  lemma WholeProduct(a: nat, m: nat)
    ensures (a as real * m as real).Floor == a * m
  {
    assert a as real * m as real == (a * m) as real;
  }

  lemma Associate(a: nat, b: nat, c: nat)
    ensures a * (b * c) == (a * b) * c
  {}

  lemma AtLeast(a: nat, b: nat)
    requires b >= 1
    ensures a * b >= a
  {}

  lemma {:induction false} PowerIsPositive(m: nat, k: nat)
    requires m >= 1
    ensures Power(m, k) >= 1
  {
    if k > 0 {
      PowerIsPositive(m, k - 1);
      AtLeast(Power(m, k - 1), m);
    }
  }

  lemma {:induction false} PollsAtMostTicks(w: Watch, ticks: seq<Tick>)
    requires Valid(w)
    ensures |PollTimes(w, ticks)| <= |ticks|
    decreases |ticks|
  {
    if ticks != [] {
      TickKeepsValid(w, ticks[0].at, ticks[0].answer);
      PollsAtMostTicks(Ticked(w, ticks[0].at, ticks[0].answer), ticks[1..]);
    }
  }
}

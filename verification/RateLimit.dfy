/** The distributed token bucket (`backend/app/ratelimit.py`), over real-valued time. */
module RateLimit {
  import opened Options

  const IDLE_EVICT_S: real := 3600.0
  const KEY_LENGTH: nat := 128

  datatype Bucket = Bucket(tokens: real, ts: real)
  type Table = map<string, Bucket>

  function Clip(key: string): string {
    if |key| <= KEY_LENGTH then key else key[..KEY_LENGTH]
  }

  function Min(a: real, b: real): real { if a <= b then a else b }
  function Max(a: real, b: real): real { if a <= b then b else a }

  /** Tokens available to `key` at time `now`, before anything is spent. */
  function Level(table: Table, key: string, burst: real, rate: real, now: real): real {
    if key !in table then burst
    else Min(burst, table[key].tokens + Max(now - table[key].ts, 0.0) * rate)
  }

  predicate Allowed(table: Table, key: string, burst: real, rate: real, now: real) {
    Level(table, Clip(key), burst, rate, now) >= 1.0
  }

  function AfterCall(table: Table, key: string, burst: real, rate: real, now: real): Table {
    var level := Level(table, Clip(key), burst, rate, now);
    table[Clip(key) := Bucket(if level >= 1.0 then level - 1.0 else level, now)]
  }

  function AfterEvict(table: Table, idle: real, now: real): Table {
    map k | k in table && table[k].ts >= now - idle :: table[k]
  }

  class RateBuckets {
    var rows: Table

    constructor ()
      ensures rows == map[]
    {
      rows := map[];
    }

    method Allow(key: string, burst: real, perS: real, now: real) returns (allowed: bool)
      modifies this
      ensures allowed <==> Allowed(old(rows), key, burst, perS, now)
      ensures rows == AfterCall(old(rows), key, burst, perS, now)
    {
      var k := Clip(key);
      var tokens := burst;
      if k in rows {
        var elapsed := Max(now - rows[k].ts, 0.0);
        tokens := Min(burst, rows[k].tokens + elapsed * perS);
      }
      allowed := tokens >= 1.0;
      if allowed {
        tokens := tokens - 1.0;
      }
      rows := rows[k := Bucket(tokens, now)];
    }

    method EvictIdle(idle: real, now: real) returns (deleted: nat)
      modifies this
      ensures rows == AfterEvict(old(rows), idle, now)
      ensures deleted == |old(rows)| - |rows|
    {
      var keep := map k | k in rows && rows[k].ts >= now - idle :: rows[k];
      assert keep.Keys <= rows.Keys;
      SubsetIsSmaller(keep.Keys, rows.Keys);
      deleted := |rows| - |keep|;
      rows := keep;
    }
  }

  /** What reaches the table: a request spending a token, or the periodic eviction. */
  datatype Event = Call(key: string, now: real) | Evict(now: real)

  function After(table: Table, e: Event, burst: real, rate: real): Table {
    match e
    case Call(key, now) => AfterCall(table, key, burst, rate, now)
    case Evict(now) => AfterEvict(table, IDLE_EVICT_S, now)
  }

  function Run(table: Table, events: seq<Event>, burst: real, rate: real): Table
    decreases |events|
  {
    if events == [] then table else Run(After(table, events[0], burst, rate), events[1..], burst, rate)
  }

  /** Requests on bucket `k` that were granted. */
  function Grants(table: Table, events: seq<Event>, k: string, burst: real, rate: real): nat
    decreases |events|
  {
    if events == [] then 0
    else
      (if events[0].Call? && Clip(events[0].key) == k && Allowed(table, k, burst, rate, events[0].now)
       then 1 else 0)
      + Grants(After(table, events[0], burst, rate), events[1..], k, burst, rate)
  }

  /** The answers a run gives, in order. */
  function Answers(table: Table, events: seq<Event>, burst: real, rate: real): seq<bool>
    decreases |events|
  {
    if events == [] then []
    else
      (if events[0].Call? then [Allowed(table, events[0].key, burst, rate, events[0].now)] else [])
      + Answers(After(table, events[0], burst, rate), events[1..], burst, rate)
  }

  ghost predicate Monotone(events: seq<Event>, from: real) {
    events != [] ==> from <= events[0].now && Monotone(events[1..], events[0].now)
  }

  ghost predicate WellFormed(table: Table, burst: real, now: real) {
    forall k :: k in table ==> 0.0 <= table[k].tokens <= burst && table[k].ts <= now
  }

  /** Eviction can be trusted: an idle bucket has had the time to fill up again. */
  predicate RefillsWhileIdle(burst: real, rate: real) {
    burst <= IDLE_EVICT_S * rate
  }

  lemma Scale(a: real, b: real, rate: real)
    requires a <= b && rate >= 0.0
    ensures a * rate <= b * rate
  {}

  lemma StepKeepsWellFormed(table: Table, e: Event, burst: real, rate: real, from: real)
    requires burst >= 0.0 && rate >= 0.0 && WellFormed(table, burst, from) && from <= e.now
    ensures WellFormed(After(table, e, burst, rate), burst, e.now)
  {
    if e.Call? && Clip(e.key) in table {
      Scale(0.0, Max(e.now - table[Clip(e.key)].ts, 0.0), rate);
    }
  }

  /** Tokens stay within `[0, burst]` over any run. */
  lemma {:induction false} TokensStayInRange(table: Table, events: seq<Event>, burst: real, rate: real, from: real)
    requires burst >= 0.0 && rate >= 0.0 && WellFormed(table, burst, from) && Monotone(events, from)
    ensures WellFormed(Run(table, events, burst, rate), burst, if events == [] then from else events[|events| - 1].now)
    decreases |events|
  {
    if events != [] {
      StepKeepsWellFormed(table, events[0], burst, rate, from);
      TokensStayInRange(After(table, events[0], burst, rate), events[1..], burst, rate, events[0].now);
    }
  }

  /** One event, at its own time: the level of `k` drops by exactly what it granted. */
  lemma StepAccounting(table: Table, e: Event, k: string, burst: real, rate: real, from: real)
    requires burst >= 0.0 && rate >= 0.0 && WellFormed(table, burst, from) && from <= e.now
    requires Clip(k) == k && (e.Call? || RefillsWhileIdle(burst, rate))
    ensures Level(After(table, e, burst, rate), k, burst, rate, e.now)
            + (if e.Call? && Clip(e.key) == k && Allowed(table, k, burst, rate, e.now) then 1.0 else 0.0)
            == Level(table, k, burst, rate, e.now)
  {
    if e.Evict? {
      EvictionKeepsLevelAt(table, k, burst, rate, e.now, e.now);
    } else if Clip(e.key) == k {
      SpentAtOnce(table, e, burst, rate);
    } else {
      hide Level, Clip;
      SameBucketSameLevel(table, After(table, e, burst, rate), k, burst, rate, e.now);
    }
  }

  lemma SpentAtOnce(table: Table, e: Event, burst: real, rate: real)
    requires e.Call?
    ensures var level := Level(table, Clip(e.key), burst, rate, e.now);
            Level(After(table, e, burst, rate), Clip(e.key), burst, rate, e.now) == if level >= 1.0 then level - 1.0 else level
  {
    assert Max(e.now - e.now, 0.0) * rate == 0.0;
  }

  lemma LevelGrows(table: Table, k: string, burst: real, rate: real, from: real, to: real)
    requires burst >= 0.0 && rate >= 0.0 && WellFormed(table, burst, from) && from <= to
    ensures 0.0 <= Level(table, k, burst, rate, from)
    ensures Level(table, k, burst, rate, to) <= Level(table, k, burst, rate, from) + (to - from) * rate
  {
    Refill(from, to, rate);
    if k in table {
      var b := table[k];
      Refill(b.ts, from, rate);
      SplitSpan(b.ts, from, to, rate);
      assert Max(from - b.ts, 0.0) == from - b.ts && Max(to - b.ts, 0.0) == to - b.ts;
      MinGrows(burst, b.tokens + (from - b.ts) * rate, (to - from) * rate);
    }
  }

  lemma Refill(from: real, to: real, rate: real)
    requires from <= to && rate >= 0.0
    ensures (to - from) * rate >= 0.0
  {}

  lemma MinGrows(burst: real, tokens: real, gain: real)
    requires gain >= 0.0
    ensures Min(burst, tokens + gain) <= Min(burst, tokens) + gain
  {}

  lemma SplitSpan(from: real, mid: real, to: real, rate: real)
    ensures (to - from) * rate == (mid - from) * rate + (to - mid) * rate
  {}

  /** The ledger of a whole run: level left over plus grants never exceeds level at the start
    * plus what the elapsed time refills. */
  lemma {:induction false} RunAccounting(table: Table, events: seq<Event>, k: string, burst: real, rate: real,
                                         from: real, to: real)
    requires burst >= 0.0 && rate >= 0.0 && WellFormed(table, burst, from) && Monotone(events, from)
    requires Clip(k) == k
    requires RefillsWhileIdle(burst, rate) || forall e :: e in events ==> e.Call?
    requires if events == [] then from <= to else events[|events| - 1].now <= to
    ensures from <= to
    ensures Grants(table, events, k, burst, rate) as real
            <= Level(table, k, burst, rate, from) + (to - from) * rate
    decreases |events|
  {
    hide Level;
    if events == [] {
      NoCalls(table, k, burst, rate, from, to);
    } else {
      var e, next := events[0], After(table, events[0], burst, rate);
      StepKeepsWellFormed(table, e, burst, rate, from);
      RunAccounting(next, events[1..], k, burst, rate, e.now, to);
      StepAccounting(table, e, k, burst, rate, from);
      LevelGrows(table, k, burst, rate, from, e.now);
      assert Grants(table, events, k, burst, rate) ==
        Grants(next, events[1..], k, burst, rate)
        + (if e.Call? && Clip(e.key) == k && Allowed(table, k, burst, rate, e.now) then 1 else 0);
      AddSpans(Level(table, k, burst, rate, from), Level(table, k, burst, rate, e.now),
               Grants(table, events, k, burst, rate) as real, from, e.now, to, rate);
    }
  }

  lemma NoCalls(table: Table, k: string, burst: real, rate: real, from: real, to: real)
    requires burst >= 0.0 && rate >= 0.0 && WellFormed(table, burst, from) && from <= to
    ensures 0.0 <= Level(table, k, burst, rate, from) + (to - from) * rate
  {
    hide Level;
    LevelGrows(table, k, burst, rate, from, to);
    Refill(from, to, rate);
  }

  lemma AddSpans(before: real, after: real, grants: real, from: real, mid: real, to: real, rate: real)
    requires after <= before + (mid - from) * rate && grants <= after + (to - mid) * rate
    ensures grants <= before + (to - from) * rate
  {
    SplitSpan(from, mid, to, rate);
  }

  /** Main result. Whatever happened before (`past`), the requests of any later stretch of events
    * spanning `to - from` seconds are granted at most `burst + rate * (to - from)` times per
    * bucket, on any number of buckets and with evictions in between. */
  lemma GrantsAreBounded(past: seq<Event>, stretch: seq<Event>, k: string, burst: real, rate: real,
                         start: real, from: real, to: real)
    requires burst >= 0.0 && rate >= 0.0 && Clip(k) == k
    requires Monotone(past, start) && (if past == [] then start else past[|past| - 1].now) <= from
    requires Monotone(stretch, from) && (if stretch == [] then from else stretch[|stretch| - 1].now) <= to
    requires RefillsWhileIdle(burst, rate) || forall e :: e in past + stretch ==> e.Call?
    ensures Grants(Run(map[], past, burst, rate), stretch, k, burst, rate) as real
            <= burst + (to - from) * rate
  {
    TokensStayInRange(map[], past, burst, rate, start);
    assert forall e :: e in stretch ==> e in past + stretch;
    RunAccounting(Run(map[], past, burst, rate), stretch, k, burst, rate, from, to);
  }

  /** Two tables no caller can tell apart from time `from` on. */
  ghost predicate SameLevels(a: Table, b: Table, burst: real, rate: real, from: real) {
    forall k, t :: from <= t ==> Level(a, k, burst, rate, t) == Level(b, k, burst, rate, t)
  }

  lemma EvictionKeepsLevelAt(a: Table, k: string, burst: real, rate: real, now: real, t: real)
    requires rate >= 0.0 && WellFormed(a, burst, now) && now <= t && RefillsWhileIdle(burst, rate)
    ensures Level(AfterEvict(a, IDLE_EVICT_S, now), k, burst, rate, t) == Level(a, k, burst, rate, t)
  {
    if k in a && a[k].ts < now - IDLE_EVICT_S {
      Scale(IDLE_EVICT_S, t - a[k].ts, rate);
    }
  }

  lemma CallKeepsLevelAt(a: Table, b: Table, key: string, k: string, burst: real, rate: real, now: real, t: real)
    requires Level(a, Clip(key), burst, rate, now) == Level(b, Clip(key), burst, rate, now)
    requires Level(a, k, burst, rate, t) == Level(b, k, burst, rate, t)
    ensures Level(AfterCall(a, key, burst, rate, now), k, burst, rate, t)
            == Level(AfterCall(b, key, burst, rate, now), k, burst, rate, t)
  {
    var a', b' := AfterCall(a, key, burst, rate, now), AfterCall(b, key, burst, rate, now);
    if k == Clip(key) {
      hide Level;
      assert a'[k] == b'[k];
      SameBucketSameLevel(a', b', k, burst, rate, t);
    } else {
      hide Level;
      SameBucketSameLevel(a, a', k, burst, rate, t);
      SameBucketSameLevel(b, b', k, burst, rate, t);
    }
  }

  lemma SameBucketSameLevel(a: Table, b: Table, k: string, burst: real, rate: real, t: real)
    requires k in a <==> k in b
    requires k in a && k in b ==> a[k] == b[k]
    ensures Level(a, k, burst, rate, t) == Level(b, k, burst, rate, t)
  {}

  lemma EvictionKeepsLevels(a: Table, b: Table, burst: real, rate: real, from: real, now: real)
    requires rate >= 0.0 && WellFormed(a, burst, now) && from <= now && RefillsWhileIdle(burst, rate)
    requires SameLevels(a, b, burst, rate, from)
    ensures SameLevels(AfterEvict(a, IDLE_EVICT_S, now), b, burst, rate, now)
  {
    forall k, t | now <= t
      ensures Level(AfterEvict(a, IDLE_EVICT_S, now), k, burst, rate, t) == Level(b, k, burst, rate, t)
    {
      EvictionKeepsLevelAt(a, k, burst, rate, now, t);
    }
  }

  lemma CallKeepsLevels(a: Table, b: Table, key: string, burst: real, rate: real, from: real, now: real)
    requires from <= now && SameLevels(a, b, burst, rate, from)
    ensures Level(a, Clip(key), burst, rate, now) == Level(b, Clip(key), burst, rate, now)
    ensures SameLevels(AfterCall(a, key, burst, rate, now), AfterCall(b, key, burst, rate, now), burst, rate, now)
  {
    forall k, t | now <= t
      ensures Level(AfterCall(a, key, burst, rate, now), k, burst, rate, t)
              == Level(AfterCall(b, key, burst, rate, now), k, burst, rate, t)
    {
      CallKeepsLevelAt(a, b, key, k, burst, rate, now, t);
    }
  }

  function WithoutEvictions(events: seq<Event>): seq<Event> {
    if events == [] then []
    else (if events[0].Call? then [events[0]] else []) + WithoutEvictions(events[1..])
  }

  /** Eviction is invisible: a run answers every request as the same run with no eviction does. */
  lemma {:induction false} EvictionIsInvisible(a: Table, b: Table, events: seq<Event>, burst: real, rate: real, from: real)
    requires burst >= 0.0 && rate >= 0.0 && RefillsWhileIdle(burst, rate)
    requires WellFormed(a, burst, from) && WellFormed(b, burst, from) && Monotone(events, from)
    requires SameLevels(a, b, burst, rate, from)
    ensures Answers(a, events, burst, rate) == Answers(b, WithoutEvictions(events), burst, rate)
    decreases |events|
  {
    if events != [] {
      var e, rest := events[0], WithoutEvictions(events[1..]);
      StepKeepsWellFormed(a, e, burst, rate, from);
      if e.Call? {
        StepKeepsWellFormed(b, e, burst, rate, from);
        CallKeepsLevels(a, b, e.key, burst, rate, from, e.now);
        EvictionIsInvisible(After(a, e, burst, rate), After(b, e, burst, rate), events[1..], burst, rate, e.now);
        assert WithoutEvictions(events)[1..] == rest;
      } else {
        WellFormedLater(a, burst, from, e.now);
        EvictionKeepsLevels(a, b, burst, rate, from, e.now);
        WellFormedLater(b, burst, from, e.now);
        EvictionIsInvisible(After(a, e, burst, rate), b, events[1..], burst, rate, e.now);
        assert WithoutEvictions(events) == rest;
      }
    }
  }

  lemma WellFormedLater(table: Table, burst: real, from: real, now: real)
    requires WellFormed(table, burst, from) && from <= now
    ensures WellFormed(table, burst, now)
  {}

  lemma IdleBucketIsFull(tokens: real, ts: real, burst: real, rate: real, now: real)
    requires rate >= 0.0 && RefillsWhileIdle(burst, rate) && tokens >= 0.0 && ts < now - IDLE_EVICT_S
    ensures Level(map["k" := Bucket(tokens, ts)], "k", burst, rate, now) == burst
  {
    Scale(IDLE_EVICT_S, now - ts, rate);
    assert Level(map["k" := Bucket(tokens, ts)], "k", burst, rate, now) == Min(burst, tokens + (now - ts) * rate);
  }

  /** Forgetting a bucket at the earliest moment eviction may do so leaves its level unchanged, for every
    * bucket, if and only if the refill condition holds. */
  lemma RefilledWhileIdleExactly(burst: real, rate: real)
    requires burst >= 0.0 && rate >= 0.0
    ensures RefillsWhileIdle(burst, rate) <==>
            forall tokens, ts, now {:trigger Level(map["k" := Bucket(tokens, ts)], "k", burst, rate, now)} ::
              0.0 <= tokens <= burst && ts < now - IDLE_EVICT_S
              ==> Level(map["k" := Bucket(tokens, ts)], "k", burst, rate, now) == burst
  {
    if RefillsWhileIdle(burst, rate) {
      forall tokens, ts, now | 0.0 <= tokens <= burst && ts < now - IDLE_EVICT_S
        ensures Level(map["k" := Bucket(tokens, ts)], "k", burst, rate, now) == burst
      {
        IdleBucketIsFull(tokens, ts, burst, rate, now);
      }
    } else {
      var gap := burst - IDLE_EVICT_S * rate;
      var extra := if rate == 0.0 then 1.0 else gap / (2.0 * rate);
      assert extra > 0.0 && extra * rate < gap;
      var now := IDLE_EVICT_S + extra;
      assert now * rate == IDLE_EVICT_S * rate + extra * rate;
      assert Level(map["k" := Bucket(0.0, 0.0)], "k", burst, rate, now) < burst;
    }
  }

  // ── What a caller can notice ──

  /** The table with one bucket. */
  function One(tokens: real, ts: real): Table {
    map["k" := Bucket(tokens, ts)]
  }

  ghost predicate CallsOnly(events: seq<Event>) {
    forall e :: e in events ==> e.Call?
  }

  lemma CallOnOne(tokens: real, ts: real, at: real, level: real, burst: real, rate: real)
    requires ts <= at && level == Min(burst, tokens + (at - ts) * rate)
    ensures Allowed(One(tokens, ts), "k", burst, rate, at) <==> level >= 1.0
    ensures After(One(tokens, ts), Call("k", at), burst, rate) == One(if level >= 1.0 then level - 1.0 else level, at)
  {
    assert Max(at - ts, 0.0) == at - ts;
  }

  lemma AnswersOf(table: Table, e: Event, rest: seq<Event>, burst: real, rate: real)
    ensures Answers(table, [e] + rest, burst, rate)
            == (if e.Call? then [Allowed(table, e.key, burst, rate, e.now)] else [])
               + Answers(After(table, e, burst, rate), rest, burst, rate)
    ensures Run(table, [e] + rest, burst, rate) == Run(After(table, e, burst, rate), rest, burst, rate)
    ensures WithoutEvictions([e] + rest) == (if e.Call? then [e] else []) + WithoutEvictions(rest)
  {
    assert ([e] + rest)[1..] == rest;
  }

  lemma MonotoneOf(e: Event, rest: seq<Event>, from: real)
    requires from <= e.now && Monotone(rest, e.now)
    ensures Monotone([e] + rest, from)
  {
    assert ([e] + rest)[1..] == rest;
  }

  /** Two levels of one bucket lead to different answers, if the larger one ever buys a token more. */
  lemma {:induction false} LevelsTellApart(low: real, high: real, ts: real, burst: real, rate: real) returns (events: seq<Event>)
    requires 0.0 <= low < high <= burst && 1.0 <= burst && 0.0 <= rate && (rate > 0.0 || high >= low + 1.0)
    ensures Monotone(events, ts) && CallsOnly(events)
    ensures Answers(One(low, ts), events, burst, rate) != Answers(One(high, ts), events, burst, rate)
    decreases high.Floor
  {
    var wait := if high >= 1.0 then 0.0 else (1.0 - high) / rate;
    assert wait >= 0.0 && wait * rate == (if high >= 1.0 then 0.0 else 1.0 - high);
    var at := ts + wait;
    assert (at - ts) * rate == wait * rate;
    var call := Call("k", at);
    CallOnOne(low, ts, at, low + wait * rate, burst, rate);
    CallOnOne(high, ts, at, high + wait * rate, burst, rate);
    var rest: seq<Event> := [];
    if low >= 1.0 {
      rest := LevelsTellApart(low - 1.0, high - 1.0, ts, burst, rate);
    }
    events := [call] + rest;
    AnswersOf(One(low, ts), call, rest, burst, rate);
    AnswersOf(One(high, ts), call, rest, burst, rate);
    Differ(low >= 1.0, true, Answers(After(One(low, ts), call, burst, rate), rest, burst, rate),
           Answers(After(One(high, ts), call, burst, rate), rest, burst, rate));
    MonotoneOf(call, rest, ts);
  }

  lemma Differ(x: bool, y: bool, a: seq<bool>, b: seq<bool>)
    requires x != y || a != b
    ensures [x] + a != [y] + b
  {
    assert ([x] + a)[0] == x && ([y] + b)[0] == y && ([x] + a)[1..] == a && ([y] + b)[1..] == b;
  }

  /** Calls at one moment, until the bucket holds less than a token. */
  lemma {:induction false} Drain(tokens: real, ts: real, burst: real, rate: real) returns (events: seq<Event>, left: real)
    requires 0.0 <= tokens <= burst
    ensures 0.0 <= left < 1.0 && left <= burst && CallsOnly(events) && Monotone(events, ts)
    ensures events != [] ==> events[|events| - 1].now == ts
    ensures Run(One(tokens, ts), events, burst, rate) == One(left, ts)
    decreases tokens.Floor
  {
    if tokens < 1.0 {
      events, left := [], tokens;
    } else {
      var call, rest := Call("k", ts), [];
      rest, left := Drain(tokens - 1.0, ts, burst, rate);
      CallOnOne(tokens, ts, ts, tokens, burst, rate);
      events := [call] + rest;
      AnswersOf(One(tokens, ts), call, rest, burst, rate);
      MonotoneOf(call, rest, ts);
    }
  }

  /** Two runs that begin alike answer alike if and only if they go on alike. */
  lemma {:induction false} SameBeginning(table: Table, first: seq<Event>, last: seq<Event>, burst: real, rate: real)
    requires CallsOnly(first)
    ensures var t := Run(table, first, burst, rate);
            Answers(t, last, burst, rate) != Answers(t, WithoutEvictions(last), burst, rate)
            ==> Answers(table, first + last, burst, rate) != Answers(table, WithoutEvictions(first + last), burst, rate)
    decreases |first|
  {
    if first == [] {
      assert first + last == last;
    } else {
      var e, rest := first[0], first[1..];
      assert first == [e] + rest && first + last == [e] + (rest + last);
      assert e in first && forall x :: x in rest ==> x in first;
      SameBeginning(After(table, e, burst, rate), rest, last, burst, rate);
      AnswersOf(table, e, rest + last, burst, rate);
      AnswersOf(table, e, WithoutEvictions(rest + last), burst, rate);
      AnswersOf(table, e, rest, burst, rate);
      var a, b := Answers(After(table, e, burst, rate), rest + last, burst, rate),
                  Answers(After(table, e, burst, rate), WithoutEvictions(rest + last), burst, rate);
      var ok := [Allowed(table, e.key, burst, rate, e.now)];
      assert (ok + a)[1..] == a && (ok + b)[1..] == b;
    }
  }

  lemma {:induction false} MonotoneEnd(events: seq<Event>, from: real)
    requires Monotone(events, from) && events != []
    ensures from <= events[0].now <= events[|events| - 1].now
    decreases |events|
  {
    if |events| > 1 {
      MonotoneEnd(events[1..], events[0].now);
    }
  }

  lemma {:induction false} MonotoneJoin(first: seq<Event>, last: seq<Event>, from: real, mid: real)
    requires Monotone(first, from) && from <= mid && Monotone(last, mid)
    requires first != [] ==> first[|first| - 1].now <= mid
    ensures Monotone(first + last, from)
    decreases |first|
  {
    if first == [] {
      assert first + last == last;
      assert last != [] ==> from <= last[0].now;
    } else {
      assert (first + last)[1..] == first[1..] + last;
      MonotoneEnd(first, from);
      MonotoneJoin(first[1..], last, first[0].now, mid);
    }
  }

  /** A bucket that has not filled up again when it is evicted: the next calls tell. */
  lemma EvictionShows(tokens: real, ts: real, now: real, level: real, burst: real, rate: real) returns (events: seq<Event>)
    requires 0.0 <= tokens <= level < burst && 1.0 <= burst && 0.0 <= rate && now > ts + IDLE_EVICT_S
    requires level == tokens + (now - ts) * rate && (rate > 0.0 || level + 1.0 <= burst)
    ensures Monotone(events, now)
    ensures Answers(One(tokens, ts), events, burst, rate) != Answers(One(tokens, ts), WithoutEvictions(events), burst, rate)
  {
    hide Answers, WithoutEvictions;
    var evict, call, rest := Evict(now), Call("k", now), [];
    if level >= 1.0 {
      rest := LevelsTellApart(level - 1.0, burst - 1.0, now, burst, rate);
    }
    events := [evict] + ([call] + rest);
    MonotoneOf(call, rest, now);
    MonotoneOf(evict, [call] + rest, now);
    CallOnOne(tokens, ts, now, level, burst, rate);
    ForgottenAnswers(tokens, ts, now, rest, burst, rate);
    Differ(level >= 1.0, true, Answers(One(if level >= 1.0 then level - 1.0 else level, now), rest, burst, rate),
           Answers(One(burst - 1.0, now), rest, burst, rate));
  }

  /** The first call after the eviction finds a full bucket; without the eviction, what it would have found. */
  lemma ForgottenAnswers(tokens: real, ts: real, now: real, rest: seq<Event>, burst: real, rate: real)
    requires 1.0 <= burst && now > ts + IDLE_EVICT_S && CallsOnly(rest)
    ensures var events, call := [Evict(now)] + ([Call("k", now)] + rest), Call("k", now);
            && Answers(One(tokens, ts), events, burst, rate) == [true] + Answers(One(burst - 1.0, now), rest, burst, rate)
            && Answers(One(tokens, ts), WithoutEvictions(events), burst, rate)
               == [Allowed(One(tokens, ts), "k", burst, rate, now)] + Answers(After(One(tokens, ts), call, burst, rate), rest, burst, rate)
  {
    var evict, call, full := Evict(now), Call("k", now), map[];
    assert After(One(tokens, ts), evict, burst, rate) == full;
    assert After(full, call, burst, rate) == One(burst - 1.0, now) && Allowed(full, "k", burst, rate, now);
    hide After, Allowed, Answers;
    AllCallsStay(rest);
    AnswersOf(One(tokens, ts), evict, [call] + rest, burst, rate);
    AnswersOf(full, call, rest, burst, rate);
    AnswersOf(One(tokens, ts), call, rest, burst, rate);
    assert WithoutEvictions([evict] + ([call] + rest)) == [call] + rest;
    assert [] + Answers(full, [call] + rest, burst, rate) == Answers(full, [call] + rest, burst, rate);
  }

  lemma {:induction false} AllCallsStay(events: seq<Event>)
    requires CallsOnly(events)
    ensures WithoutEvictions(events) == events
  {
    if events != [] {
      assert events[0] in events && forall e :: e in events[1..] ==> e in events;
      AllCallsStay(events[1..]);
      assert events == [events[0]] + events[1..];
    }
  }

  /** The run that empties a bucket, lets it idle just long enough, and evicts it. */
  lemma NoticedRun(burst: real, rate: real) returns (events: seq<Event>)
    requires 1.0 <= burst && 0.0 <= rate && !RefillsWhileIdle(burst, rate)
    ensures Monotone(events, 0.0)
    ensures Answers(map[], events, burst, rate) != Answers(map[], WithoutEvictions(events), burst, rate)
  {
    var call := Call("k", 0.0);
    assert After(map[], call, burst, rate) == One(burst - 1.0, 0.0);
    hide Answers, Run, WithoutEvictions, After;
    var drain, left, ts, tokens := [], 0.0, 0.0, burst - 1.0;
    if rate > 0.0 {
      drain, ts := Emptied(burst - 1.0, burst, rate);
      tokens := 0.0;
    } else {
      RunNothing(One(tokens, 0.0), burst, rate);
    }
    var now, level := JustIdle(tokens, ts, burst, rate);
    var last := EvictionShows(tokens, ts, now, level, burst, rate);
    events := [call] + (drain + last);
    SameBeginning(One(burst - 1.0, 0.0), drain, last, burst, rate);
    MonotoneJoin(drain, last, 0.0, now);
    MonotoneOf(call, drain + last, 0.0);
    SameBeginning(map[], [call], drain + last, burst, rate);
    AnswersOf(map[], call, [], burst, rate);
    RunNothing(After(map[], call, burst, rate), burst, rate);
    assert [call] + [] == [call];
  }

  lemma RunNothing(table: Table, burst: real, rate: real)
    ensures Run(table, [], burst, rate) == table
  {}

  /** Calls that leave a refilling bucket with nothing at all. */
  lemma Emptied(tokens: real, burst: real, rate: real) returns (calls: seq<Event>, ts: real)
    requires 0.0 <= tokens <= burst && 1.0 <= burst && rate > 0.0
    ensures ts > 0.0 && Run(One(tokens, 0.0), calls, burst, rate) == One(0.0, ts) && CallsOnly(calls)
    ensures Monotone(calls, 0.0) && calls != [] && calls[|calls| - 1].now == ts
  {
    var drain, left := Drain(tokens, 0.0, burst, rate);
    ts := (1.0 - left) / rate;
    assert ts > 0.0 && ts * rate == 1.0 - left;
    LastToken(tokens, left, drain, ts, burst, rate);
    calls := drain + [Call("k", ts)];
  }

  /** A moment at which the bucket may be evicted and is not full. */
  lemma JustIdle(tokens: real, ts: real, burst: real, rate: real) returns (now: real, level: real)
    requires 0.0 <= tokens && 0.0 <= rate && tokens + IDLE_EVICT_S * rate < burst
    ensures now > ts + IDLE_EVICT_S && level == tokens + (now - ts) * rate && tokens <= level < burst
    ensures rate == 0.0 ==> level == tokens
  {
    var gap := burst - tokens - IDLE_EVICT_S * rate;
    var extra := if rate == 0.0 then 1.0 else gap / (2.0 * rate);
    assert extra > 0.0 && extra * rate < gap;
    now := ts + IDLE_EVICT_S + extra;
    assert (now - ts) * rate == IDLE_EVICT_S * rate + extra * rate;
    level := tokens + (now - ts) * rate;
    Scale(0.0, now - ts, rate);
  }

  /** Once the bucket holds less than a token, the next whole one is spent the moment it is there. */
  lemma LastToken(tokens: real, left: real, drain: seq<Event>, ts: real, burst: real, rate: real)
    requires 0.0 <= left < 1.0 <= burst && ts > 0.0 && ts * rate == 1.0 - left
    requires Run(One(tokens, 0.0), drain, burst, rate) == One(left, 0.0) && CallsOnly(drain) && Monotone(drain, 0.0)
    requires drain != [] ==> drain[|drain| - 1].now == 0.0
    ensures var all := drain + [Call("k", ts)];
            && Run(One(tokens, 0.0), all, burst, rate) == One(0.0, ts) && CallsOnly(all) && Monotone(all, 0.0)
            && all[|all| - 1].now == ts
  {
    var call := Call("k", ts);
    CallOnOne(left, 0.0, ts, 1.0, burst, rate);
    hide Run, After, Level;
    RunJoin(One(tokens, 0.0), drain, [call], burst, rate);
    AnswersOf(One(left, 0.0), call, [], burst, rate);
    assert [call] + [] == [call];
    MonotoneOf(call, [], 0.0);
    MonotoneJoin(drain, [call], 0.0, 0.0);
  }

  lemma {:induction false} RunJoin(table: Table, first: seq<Event>, last: seq<Event>, burst: real, rate: real)
    ensures Run(table, first + last, burst, rate) == Run(Run(table, first, burst, rate), last, burst, rate)
    decreases |first|
  {
    if first == [] {
      assert first + last == last;
    } else {
      assert (first + last)[1..] == first[1..] + last;
      RunJoin(After(table, first[0], burst, rate), first[1..], last, burst, rate);
    }
  }

  /** Below one token nothing is ever granted, evictions or not. */
  lemma {:induction false} NothingIsGranted(a: Table, b: Table, events: seq<Event>, burst: real, rate: real, from: real)
    requires 0.0 <= burst < 1.0 && rate >= 0.0 && Monotone(events, from) && WellFormed(a, burst, from) && WellFormed(b, burst, from)
    ensures Answers(a, events, burst, rate) == Answers(b, WithoutEvictions(events), burst, rate)
    decreases |events|
  {
    if events != [] {
      var e, rest := events[0], events[1..];
      assert events == [e] + rest;
      StepKeepsWellFormed(a, e, burst, rate, from);
      StepKeepsWellFormed(b, e, burst, rate, from);
      WellFormedLater(b, burst, from, e.now);
      AnswersOf(a, e, rest, burst, rate);
      if e.Call? {
        AnswersOf(b, e, WithoutEvictions(rest), burst, rate);
        NothingIsGranted(After(a, e, burst, rate), After(b, e, burst, rate), rest, burst, rate, e.now);
      } else {
        NothingIsGranted(After(a, e, burst, rate), b, rest, burst, rate, e.now);
        assert WithoutEvictions(events) == WithoutEvictions(rest);
      }
    }
  }

  /** Main result. No caller can tell evictions from none, in any run, if and only if an hour refills a
    * bucket or a bucket never holds a token. */
  lemma EvictionInvisibleExactly(burst: real, rate: real)
    requires burst >= 0.0 && rate >= 0.0
    ensures RefillsWhileIdle(burst, rate) || burst < 1.0
            <==> forall events :: Monotone(events, 0.0)
                   ==> Answers(map[], events, burst, rate) == Answers(map[], WithoutEvictions(events), burst, rate)
  {
    if RefillsWhileIdle(burst, rate) || burst < 1.0 {
      forall events | Monotone(events, 0.0)
        ensures Answers(map[], events, burst, rate) == Answers(map[], WithoutEvictions(events), burst, rate)
      {
        if burst < 1.0 {
          NothingIsGranted(map[], map[], events, burst, rate, 0.0);
        } else {
          EvictionIsInvisible(map[], map[], events, burst, rate, 0.0);
        }
      }
    } else {
      var events := NoticedRun(burst, rate);
    }
  }

  /** The bound needs monotone call times: the stored timestamp follows the caller's clock, so a
    * clock that steps back and forth over one second grants three requests where
    * `burst + rate * 1` allows two. */
  lemma ClockSteppingBackExceedsTheBound()
    ensures var events := [Call("k", 100.0), Call("k", 99.0), Call("k", 100.0), Call("k", 99.0), Call("k", 100.0)];
            Grants(map[], events, "k", 1.0, 1.0) == 3
            && 3.0 > 1.0 + 1.0 * (100.0 - 99.0)
            && !Monotone(events, 99.0)
  {
    var t0: Table := map[];
    var t1 := AfterCall(t0, "k", 1.0, 1.0, 100.0);
    assert Clip("k") == "k" && t1["k"] == Bucket(0.0, 100.0);
    var t2 := AfterCall(t1, "k", 1.0, 1.0, 99.0);
    assert t2["k"] == Bucket(0.0, 99.0);
    var t3 := AfterCall(t2, "k", 1.0, 1.0, 100.0);
    assert t3["k"] == Bucket(0.0, 100.0);
    var t4 := AfterCall(t3, "k", 1.0, 1.0, 99.0);
    assert t4["k"] == Bucket(0.0, 99.0);
    var c100, c99 := Call("k", 100.0), Call("k", 99.0);
    assert Grants(t4, [c100], "k", 1.0, 1.0) == 1;
    assert [c99, c100][1..] == [c100];
    assert Grants(t3, [c99, c100], "k", 1.0, 1.0) == 1;
    assert [c100, c99, c100][1..] == [c99, c100];
    assert Grants(t2, [c100, c99, c100], "k", 1.0, 1.0) == 2;
    assert [c99, c100, c99, c100][1..] == [c100, c99, c100];
    assert Grants(t1, [c99, c100, c99, c100], "k", 1.0, 1.0) == 2;
    assert [c100, c99, c100, c99, c100][1..] == [c99, c100, c99, c100];
    assert !Monotone([c99, c100, c99, c100], 100.0);
  }
}

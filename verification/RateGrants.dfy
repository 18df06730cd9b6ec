/** Exactly which requests the bucket grants, told from the calls before them and not from stored tokens. */
module RateGrants {
  import opened RateLimit

  /** The two keys share a bucket: they are equal, or agree in their first 128 characters. */
  predicate SameBucket(a: string, b: string) {
    a == b || (|a| >= 128 && |b| >= 128 && a[..128] == b[..128])
  }

  lemma SameBucketIsClip(a: string, b: string)
    ensures SameBucket(a, b) <==> Clip(a) == Clip(b)
  {
    assert |a| == 128 ==> a[..128] == a;
    assert |b| == 128 ==> b[..128] == b;
  }

  predicate On(e: Event, key: string) {
    e.Call? && SameBucket(e.key, key)
  }

  predicate InOrder(events: seq<Event>) {
    && (forall i :: 0 <= i < |events| ==> events[i].Call?)
    && (forall i, j :: 0 <= i < j < |events| ==> events[i].now <= events[j].now)
  }

  /** The requests of one bucket that were granted from call `from` up to, not including, call `to`. */
  function Granted(events: seq<Event>, answers: seq<bool>, key: string, from: nat, to: nat): nat
    requires |answers| == |events| && to <= |events|
  {
    if to <= from then 0
    else
      Granted(events, answers, key, from, to - 1)
      + (if On(events[to - 1], key) && answers[to - 1] then 1 else 0)
  }

  lemma {:induction false} AnswerOf(table: Table, events: seq<Event>, burst: real, rate: real, j: nat)
    requires (forall i :: 0 <= i < |events| ==> events[i].Call?) && j < |events|
    ensures var answers := Answers(table, events, burst, rate);
            |answers| == |events|
            && answers[j] == Allowed(Run(table, events[..j], burst, rate), events[j].key, burst, rate, events[j].now)
    decreases |events|
  {
    hide Allowed, After;
    var next := After(table, events[0], burst, rate);
    if |events| > 1 {
      AnswerOf(next, events[1..], burst, rate, if j == 0 then 0 else j - 1);
    }
    if j > 0 {
      assert events[..j][1..] == events[1..][..j - 1];
    }
  }

  lemma {:induction false} OneMoreEvent(table: Table, events: seq<Event>, burst: real, rate: real, m: nat)
    requires 0 < m <= |events|
    ensures Run(table, events[..m], burst, rate) == After(Run(table, events[..m - 1], burst, rate), events[m - 1], burst, rate)
    decreases m
  {
    hide After;
    var init := events[..m];
    if m > 1 {
      var rest := events[1..];
      OneMoreEvent(After(table, events[0], burst, rate), rest, burst, rate, m - 1);
      assert init[1..] == rest[..m - 1] && events[..m - 1][1..] == rest[..m - 2];
    }
  }

  /** What call `i` allows a request at `now`: a full bucket then, less what was granted since. */
  function Room(events: seq<Event>, answers: seq<bool>, key: string, burst: real, rate: real, i: nat, m: nat, now: real): real
    requires |answers| == |events| && i < m <= |events|
  {
    burst + rate * (now - events[i].now) - Granted(events, answers, key, i, m) as real
  }

  ghost predicate Tight(events: seq<Event>, answers: seq<bool>, key: string, burst: real, rate: real, i: nat, m: nat, now: real, level: real)
    requires |answers| == |events| && m <= |events|
  {
    i < m && On(events[i], key) && level == Room(events, answers, key, burst, rate, i, m, now)
  }

  /** The level is the least of the burst and of the rooms that the bucket's own calls leave. */
  ghost predicate LevelIs(events: seq<Event>, answers: seq<bool>, key: string, burst: real, rate: real, m: nat, now: real, level: real)
    requires |answers| == |events| && m <= |events|
  {
    && level <= burst
    && (forall i: nat :: i < m && On(events[i], key) ==> level <= Room(events, answers, key, burst, rate, i, m, now))
    && (level == burst || exists i: nat :: Tight(events, answers, key, burst, rate, i, m, now, level))
  }

  lemma {:induction false} LevelIsExact(events: seq<Event>, key: string, burst: real, rate: real, m: nat, now: real)
    requires InOrder(events) && m <= |events| && forall i :: 0 <= i < m ==> events[i].now <= now
    requires |Answers(map[], events, burst, rate)| == |events|
    ensures LevelIs(events, Answers(map[], events, burst, rate), key, burst, rate, m, now,
                    Level(Run(map[], events[..m], burst, rate), Clip(key), burst, rate, now))
    decreases m
  {
    hide Answers, Run, Level, Clip, After, SameBucket, LevelIs;
    var answers := Answers(map[], events, burst, rate);
    if m == 0 {
      EmptyLevel(events, answers, key, burst, rate, now);
    } else {
      var e := events[m - 1];
      var before := Run(map[], events[..m - 1], burst, rate);
      OneMoreEvent(map[], events, burst, rate, m);
      AnswerOf(map[], events, burst, rate, m - 1);
      SameBucketIsClip(e.key, key);
      if On(e, key) {
        LevelIsExact(events, key, burst, rate, m - 1, e.now);
        var level := Level(before, Clip(key), burst, rate, e.now);
        CallOnBucket(before, e, key, burst, rate, now);
        OwnCall(events, answers, key, burst, rate, m, now, level);
      } else {
        LevelIsExact(events, key, burst, rate, m - 1, now);
        CallElsewhere(before, e, key, burst, rate, now);
        OtherCall(events, answers, key, burst, rate, m, now, Level(before, Clip(key), burst, rate, now));
      }
    }
  }

  lemma EmptyLevel(events: seq<Event>, answers: seq<bool>, key: string, burst: real, rate: real, now: real)
    requires |answers| == |events|
    ensures LevelIs(events, answers, key, burst, rate, 0, now, Level(Run(map[], events[..0], burst, rate), Clip(key), burst, rate, now))
  {
    assert Run(map[], events[..0], burst, rate) == map[];
  }

  lemma CallOnBucket(table: Table, e: Event, key: string, burst: real, rate: real, now: real)
    requires e.Call? && Clip(e.key) == Clip(key) && e.now <= now
    ensures var level := Level(table, Clip(key), burst, rate, e.now);
            && Level(After(table, e, burst, rate), Clip(key), burst, rate, now)
               == Min(burst, (if level >= 1.0 then level - 1.0 else level) + (now - e.now) * rate)
            && Allowed(table, e.key, burst, rate, e.now) == (level >= 1.0)
  {
    assert Max(now - e.now, 0.0) == now - e.now;
  }

  lemma CallElsewhere(table: Table, e: Event, key: string, burst: real, rate: real, now: real)
    requires e.Call? && Clip(e.key) != Clip(key)
    ensures Level(After(table, e, burst, rate), Clip(key), burst, rate, now) == Level(table, Clip(key), burst, rate, now)
  {
    SameBucketSameLevel(table, After(table, e, burst, rate), Clip(key), burst, rate, now);
  }

  lemma OwnRoom(events: seq<Event>, answers: seq<bool>, key: string, burst: real, rate: real, i: nat, m: nat, now: real)
    requires |answers| == |events| && i < m <= |events| && On(events[m - 1], key)
    ensures var spent := if answers[m - 1] then 1.0 else 0.0;
            Room(events, answers, key, burst, rate, i, m, now)
            == (if i == m - 1 then burst else Room(events, answers, key, burst, rate, i, m - 1, events[m - 1].now))
               - spent + (now - events[m - 1].now) * rate
  {
    hide On;
    var at := events[m - 1].now;
    SplitTime(rate, events[i].now, at, now);
    assert Granted(events, answers, key, i, m) as real
        == Granted(events, answers, key, i, m - 1) as real + (if answers[m - 1] then 1.0 else 0.0);
  }

  lemma SplitTime(rate: real, from: real, at: real, now: real)
    ensures rate * (now - from) == rate * (at - from) + (now - at) * rate
  {}

  lemma OwnCall(events: seq<Event>, answers: seq<bool>, key: string, burst: real, rate: real, m: nat, now: real, level: real)
    requires |answers| == |events| && 0 < m <= |events| && On(events[m - 1], key) && answers[m - 1] == (level >= 1.0)
    requires LevelIs(events, answers, key, burst, rate, m - 1, events[m - 1].now, level)
    ensures LevelIs(events, answers, key, burst, rate, m, now,
                    Min(burst, (if level >= 1.0 then level - 1.0 else level) + (now - events[m - 1].now) * rate))
  {
    hide On, Room, LevelIs;
    var gain := (now - events[m - 1].now) * rate;
    forall i: nat | i < m
      ensures Room(events, answers, key, burst, rate, i, m, now)
              == (if i == m - 1 then burst else Room(events, answers, key, burst, rate, i, m - 1, events[m - 1].now))
                 - (if answers[m - 1] then 1.0 else 0.0) + gain
    {
      OwnRoom(events, answers, key, burst, rate, i, m, now);
    }
    LevelMoves(events, answers, key, burst, rate, m, now, level, gain);
  }

  /** Every room moves with the level: down by the token spent, up by the refill. */
  lemma LevelMoves(events: seq<Event>, answers: seq<bool>, key: string, burst: real, rate: real, m: nat, now: real, level: real, gain: real)
    requires |answers| == |events| && 0 < m <= |events| && On(events[m - 1], key) && answers[m - 1] == (level >= 1.0)
    requires LevelIs(events, answers, key, burst, rate, m - 1, events[m - 1].now, level)
    requires forall i: nat :: i < m ==>
               Room(events, answers, key, burst, rate, i, m, now)
               == (if i == m - 1 then burst else Room(events, answers, key, burst, rate, i, m - 1, events[m - 1].now))
                  - (if answers[m - 1] then 1.0 else 0.0) + gain
    ensures LevelIs(events, answers, key, burst, rate, m, now, Min(burst, (if level >= 1.0 then level - 1.0 else level) + gain))
  {
    hide On, Room;
    var after := (if level >= 1.0 then level - 1.0 else level) + gain;
    if level == burst {
      assert Tight(events, answers, key, burst, rate, m - 1, m, now, after);
    } else {
      var i: nat :| Tight(events, answers, key, burst, rate, i, m - 1, events[m - 1].now, level);
      assert Tight(events, answers, key, burst, rate, i, m, now, after);
    }
  }

  lemma OtherCall(events: seq<Event>, answers: seq<bool>, key: string, burst: real, rate: real, m: nat, now: real, level: real)
    requires |answers| == |events| && 0 < m <= |events| && !On(events[m - 1], key)
    requires LevelIs(events, answers, key, burst, rate, m - 1, now, level)
    ensures LevelIs(events, answers, key, burst, rate, m, now, level)
  {
    hide On;
    forall i: nat | i < m - 1
      ensures Room(events, answers, key, burst, rate, i, m, now) == Room(events, answers, key, burst, rate, i, m - 1, now)
    {}
    if level != burst {
      var i: nat :| Tight(events, answers, key, burst, rate, i, m - 1, now, level);
      assert Tight(events, answers, key, burst, rate, i, m, now, level);
    }
  }

  /** Main result. In a run of calls in the order of their times, call `m` is granted exactly if a bucket holds
    * a token at all and, for every earlier call on its bucket, what was granted from that call on and one
    * more stay within the burst and the refill since. So a request is refused only where granting it would
    * break the bound on some stretch. */
  lemma GrantedExactly(events: seq<Event>, burst: real, rate: real, m: nat)
    requires InOrder(events) && m < |events|
    ensures var answers := Answers(map[], events, burst, rate);
            && |answers| == |events|
            && (answers[m] <==>
                  && burst >= 1.0
                  && forall i: nat :: i < m && On(events[i], events[m].key) ==>
                       Granted(events, answers, events[m].key, i, m) as real + 1.0
                       <= burst + rate * (events[m].now - events[i].now))
  {
    hide Answers, Run, Level, Clip, On, Granted;
    var answers := Answers(map[], events, burst, rate);
    var key, now := events[m].key, events[m].now;
    AnswerOf(map[], events, burst, rate, m);
    LevelIsExact(events, key, burst, rate, m, now);
    var level := Level(Run(map[], events[..m], burst, rate), Clip(key), burst, rate, now);
    assert forall i: nat :: i < m && On(events[i], key) ==> level <= Room(events, answers, key, burst, rate, i, m, now);
    if level < 1.0 && burst >= 1.0 {
      var i: nat :| Tight(events, answers, key, burst, rate, i, m, now, level);
    }
  }

  /** What eviction drops: exactly the buckets last used more than the limit ago; every other stays. */
  lemma EvictedExactly(table: Table, now: real, key: string)
    requires key in table
    ensures var after := After(table, Evict(now), 0.0, 0.0);
            after.Keys <= table.Keys && (key in after <==> now - table[key].ts <= 3600.0) && (key in after ==> after[key] == table[key])
  {}
}

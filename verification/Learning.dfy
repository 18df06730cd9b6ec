/** The learners over the policy ledger: re-tiering, digest times and judge bars
  * (`backend/app/ambient/learn.py`), the salience tuner (`backend/app/ambient/salience_learn.py`) and the
  * precision rule (`backend/app/ambient/deliver.py`). Mean rewards are exact reals.
  */
module Learning {
  import opened Options
  import opened PolicyLedger
  import DeliveryModel

  const LEARN_MIN_SAMPLE: nat := 3
  const PROMOTE_MIN_SAMPLE: nat := 5
  const DEMOTE_BELOW: real := -0.3
  const PROMOTE_ABOVE: real := 0.6
  const CLAMP: nat := 120
  const DAY_MINUTES: nat := 1440
  const MIN_URGENCY_CAP: nat := 5
  const DEFAULT_BAR: nat := 2
  const WINDOW: nat := 20
  const MUTE_MIN: nat := 5
  const MUTE_MAX_ENDORSEMENT: real := 0.1
  const FLOOR_MIN: nat := 2
  const FLOOR_MAX: nat := 5
  const FLOOR_MIN_SAMPLE: nat := 10
  const FLOOR_UP_BELOW: real := 0.3
  const FLOOR_DOWN_ABOVE: real := 0.8
  const PRECISION_MIN_SAMPLE: nat := 5
  const PRECISION_FLOOR: real := 0.25

  const ANCHOR: string := "digest_anchor"
  const SLOTS: string := "setting:ambient_digest_times"
  const FLOOR: string := "setting:ambient_salience_min_urgency"

  /** What the learners change: the ledger, the digest times in minutes, the salience urgency floor, and
    * the judge bar of each watch, kept under its ledger category. */
  datatype Learned = Learned(ledger: Ledger, slots: seq<nat>, floor: nat, bars: map<string, nat>)

  predicate StartsWith(s: string, prefix: string) {
    |prefix| <= |s| && s[..|prefix|] == prefix
  }

  /** `None` is the error of an override that would reach the interrupt tier. */
  function AppendPolicy(ledger: Ledger, category: string, owner: Option<nat>, override: Option<int>, source: Source,
                        note: seq<nat>, at: nat): Option<Ledger>
  {
    if override.Some? && override.value < 1 then None
    else Some(ledger + [Policy(NextId(ledger), category, owner, override, source, note, at)])
  }

  function NextId(ledger: Ledger): nat {
    if ledger == [] then 0 else ledger[|ledger| - 1].id + 1
  }

  /** A row without an override, or with one in 1..3, can always be appended. */
  function Added(ledger: Ledger, category: string, owner: Option<nat>, override: Option<int>, source: Source,
                 note: seq<nat>, at: nat): Ledger
    requires override.Some? ==> override.value >= 1
  {
    AppendPolicy(ledger, category, owner, override, source, note, at).value
  }

  ghost predicate Legal(ledger: Ledger) {
    forall i :: 0 <= i < |ledger| && ledger[i].override.Some? ==> 1 <= ledger[i].override.value <= 3
  }

  // ── Re-tiering ──

  /** A category's feedback: the tier of its newest judged row, the mean reward and the sample size. */
  datatype Signal = Signal(category: string, tier: int, mean: real, judged: nat)

  function Retarget(tier: int, mean: real, judged: nat): Option<int> {
    if judged >= LEARN_MIN_SAMPLE && mean <= DEMOTE_BELOW && tier < 3 then Some(tier + 1)
    else if judged >= PROMOTE_MIN_SAMPLE && mean >= PROMOTE_ABOVE && tier > 1 then Some(tier - 1)
    else None
  }

  function EffectiveTier(ledger: Ledger, sig: Signal, owner: Option<nat>): int {
    var override := Override(ledger, sig.category, owner);
    if override.Some? then override.value else sig.tier
  }

  function RetierOne(st: Learned, sig: Signal, owner: Option<nat>, auto: bool, at: nat): Learned
    requires EffectiveTier(st.ledger, sig, owner) >= 0
  {
    var target := Retarget(EffectiveTier(st.ledger, sig, owner), sig.mean, sig.judged);
    if sig.category == "learning" || target.None? || Override(st.ledger, sig.category, owner) == target then st
    else if auto then st.(ledger := Added(st.ledger, sig.category, owner, target, ByLearner, [], at))
    else st.(ledger := Added(st.ledger, sig.category, None, target, Proposal, [], at))
  }

  lemma OverrideIsLegal(ledger: Ledger, category: string, owner: Option<nat>)
    requires Legal(ledger)
    ensures var o := Override(ledger, category, owner); o.Some? ==> 1 <= o.value <= 3
  {}

  lemma RetierKeepsLegal(st: Learned, sig: Signal, owner: Option<nat>, auto: bool, at: nat)
    requires Legal(st.ledger) && 0 <= sig.tier <= 3
    ensures EffectiveTier(st.ledger, sig, owner) >= 0 && Legal(RetierOne(st, sig, owner, auto, at).ledger)
  {
    OverrideIsLegal(st.ledger, sig.category, owner);
  }

  function Retiered(st: Learned, sigs: seq<Signal>, owner: Option<nat>, auto: bool, at: nat): (t: Learned)
    requires Legal(st.ledger) && forall sig :: sig in sigs ==> 0 <= sig.tier <= 3
    ensures Legal(t.ledger)
    decreases |sigs|
  {
    if sigs == [] then st
    else
      RetierKeepsLegal(st, sigs[0], owner, auto, at);
      assert sigs[0] in sigs && forall sig :: sig in sigs[1..] ==> sig in sigs;
      Retiered(RetierOne(st, sigs[0], owner, auto, at), sigs[1..], owner, auto, at)
  }

  // ── Digest times ──

  function Apart(a: nat, b: nat): nat {
    if a < b then b - a else a - b
  }

  /** The slot nearest to a minute of the day, the first one among equals. */
  function Nearest(slots: seq<nat>, minute: nat, upTo: nat): (r: nat)
    requires 0 < upTo <= |slots|
    ensures r < upTo && forall i :: 0 <= i < upTo ==> Apart(slots[r], minute) <= Apart(slots[i], minute)
    ensures forall i :: 0 <= i < r ==> Apart(slots[i], minute) > Apart(slots[r], minute)
  {
    if upTo == 1 then 0
    else
      var r := Nearest(slots, minute, upTo - 1);
      if Apart(slots[upTo - 1], minute) < Apart(slots[r], minute) then upTo - 1 else r
  }

  function Votes(slots: seq<nat>, accepted: seq<nat>, i: nat): seq<nat>
    requires i < |slots|
  {
    if accepted == [] then []
    else
      var last := accepted[|accepted| - 1];
      Votes(slots, accepted[..|accepted| - 1], i) + (if Nearest(slots, last, |slots|) == i then [last] else [])
  }

  function Sum(s: seq<nat>): nat {
    if s == [] then 0 else Sum(s[..|s| - 1]) + s[|s| - 1]
  }

  function Mean(minutes: seq<nat>): nat
    requires minutes != []
  {
    Sum(minutes) / |minutes|
  }

  /** The mean pulled into two hours of the anchor, written as a time of day. */
  function Shift(anchor: nat, mean: nat): nat {
    Clamped(anchor, mean) % DAY_MINUTES
  }

  function Clamped(anchor: nat, mean: nat): (r: nat) {
    var lo, hi := anchor - CLAMP, anchor + CLAMP;
    var near := if mean < hi then mean else hi;
    if lo > near then lo else near
  }

  function ShiftedSlot(slots: seq<nat>, anchor: seq<nat>, accepted: seq<nat>, i: nat): nat
    requires |anchor| == |slots| && i < |slots|
  {
    var votes := Votes(slots, accepted, i);
    if |votes| < LEARN_MIN_SAMPLE then slots[i] else Shift(anchor[i], Mean(votes))
  }

  function Shifted(slots: seq<nat>, anchor: seq<nat>, accepted: seq<nat>): seq<nat>
    requires |anchor| == |slots|
  {
    seq(|slots|, i requires 0 <= i < |slots| => ShiftedSlot(slots, anchor, accepted, i))
  }

  function AnchorRow(ledger: Ledger): Option<Policy> {
    var r := Newest(ledger, (p: Policy) => p.category == ANCHOR);
    if r.Some? then Some(ledger[r.value]) else None
  }

  /** The anchor a pass uses. A row a revert put there reads as one slot that is no time: it is
    * ignored like any anchor of another length, or fails (`None`) where one slot is configured. */
  function AnchorFor(ledger: Ledger, slots: seq<nat>): (r: Option<seq<nat>>)
    ensures r.Some? ==> |r.value| == |slots|
  {
    var row := AnchorRow(ledger);
    if row.None? then Some(slots)
    else if row.value.source == ByUser then if |slots| == 1 then None else Some(slots)
    else if |row.value.note| != |slots| then Some(slots)
    else Some(row.value.note)
  }

  function Anchored(st: Learned, at: nat): Learned {
    if AnchorRow(st.ledger).Some? then st
    else st.(ledger := Added(st.ledger, ANCHOR, None, None, ByLearner, st.slots, at))
  }

  /** Accepted digests of the last two weeks as minutes of their day. The second component is false
    * when an unusable anchor ended the pass. */
  function DigestLearned(st: Learned, accepted: seq<nat>, auto: bool, at: nat): (Learned, bool) {
    if st.slots == [] || |accepted| < LEARN_MIN_SAMPLE then (st, true)
    else
      var t, anchor := Anchored(st, at), AnchorFor(st.ledger, st.slots);
      if anchor.None? then (t, |Votes(st.slots, accepted, 0)| < LEARN_MIN_SAMPLE)
      else
        var proposed := Shifted(st.slots, anchor.value, accepted);
        if proposed == st.slots then (t, true)
        else if auto then
          (t.(slots := proposed, ledger := Added(t.ledger, SLOTS, None, None, ByLearner, [], at)), true)
        else (t.(ledger := Added(t.ledger, SLOTS, None, None, Proposal, proposed, at)), true)
  }

  // ── Judge bars ──

  function Rebar(current: nat, mean: real, judged: nat): Option<nat> {
    if judged < LEARN_MIN_SAMPLE then None
    else if mean <= DEMOTE_BELOW && current < MIN_URGENCY_CAP then Some(current + 1)
    else if mean >= PROMOTE_ABOVE && judged >= PROMOTE_MIN_SAMPLE && current > DEFAULT_BAR then Some(current - 1)
    else None
  }

  function Bar(st: Learned, key: string): nat {
    if key in st.bars then st.bars[key] else DEFAULT_BAR
  }

  function BarLearned(st: Learned, key: string, mean: real, judged: nat, auto: bool, at: nat): Learned {
    var target := Rebar(Bar(st, key), mean, judged);
    if target.None? then st
    else if auto then
      st.(bars := st.bars[key := target.value], ledger := Added(st.ledger, key, None, None, ByLearner, [], at))
    else st.(ledger := Added(st.ledger, key, None, None, Proposal, [target.value], at))
  }

  // ── The salience tuner ──

  function Endorsed(decisions: seq<bool>): (r: nat)
    ensures r <= |decisions|
  {
    if decisions == [] then 0
    else Endorsed(decisions[..|decisions| - 1]) + (if decisions[|decisions| - 1] then 1 else 0)
  }

  function Rate(decisions: seq<bool>): real
    requires decisions != []
  {
    Endorsed(decisions) as real / |decisions| as real
  }

  predicate Muted(ledger: Ledger, category: string) {
    Override(ledger, "salience:" + category, None) == Some(1)
  }

  /** A category's decided verdicts, newest first, at most `WINDOW`; true is an endorsement. */
  datatype Bucket = Bucket(category: string, decisions: seq<bool>)

  /** A judged row, newest first: its category and what became of the verdict. */
  datatype Judged = Judged(category: string, decision: DeliveryModel.Decision)

  /** The decided verdicts of a category among the first `n` rows; an undone one is repudiated. */
  function DecidedOf(rows: seq<Judged>, category: string, n: nat): seq<bool>
    requires n <= |rows|
  {
    if n == 0 then []
    else
      DecidedOf(rows, category, n - 1)
      + (if rows[n - 1].category == category && !rows[n - 1].decision.Undecided? then [rows[n - 1].decision.Applied?] else [])
  }

  function Newest20(decided: seq<bool>): seq<bool> {
    if |decided| <= WINDOW then decided else decided[..WINDOW]
  }

  /** The buckets of the first `n` rows: one per category that has a decided verdict, each with the
    * newest ones. */
  ghost predicate FilledFrom(buckets: seq<Bucket>, rows: seq<Judged>, n: nat)
    requires n <= |rows|
  {
    && (forall i, j :: 0 <= i < j < |buckets| ==> buckets[i].category != buckets[j].category)
    && (forall i :: 0 <= i < |buckets| ==> buckets[i].decisions == Newest20(DecidedOf(rows, buckets[i].category, n)))
    && (forall category :: DecidedOf(rows, category, n) != [] ==> Has(buckets, category))
  }

  ghost predicate Has(buckets: seq<Bucket>, category: string) {
    exists i :: 0 <= i < |buckets| && buckets[i].category == category
  }

  method FindBucket(buckets: seq<Bucket>, category: string) returns (i: nat)
    ensures i <= |buckets| && (i < |buckets| ==> buckets[i].category == category)
    ensures forall j :: 0 <= j < i ==> buckets[j].category != category
  {
    i := 0;
    while i < |buckets| && buckets[i].category != category
      invariant i <= |buckets| && forall j :: 0 <= j < i ==> buckets[j].category != category
    {
      i := i + 1;
    }
  }

  method FillBuckets(rows: seq<Judged>) returns (buckets: seq<Bucket>)
    ensures FilledFrom(buckets, rows, |rows|)
  {
    hide DecidedOf, Newest20, FilledFrom;
    buckets := [];
    NothingFilled(rows);
    for n := 0 to |rows|
      invariant FilledFrom(buckets, rows, n)
    {
      var row := rows[n];
      if row.decision.Undecided? {
        UndecidedKeepsFilled(buckets, rows, n);
        continue;
      }
      var i := FindBucket(buckets, row.category);
      ghost var before := buckets;
      AbsentIsEmpty(buckets, rows, n, row.category, i);
      if i == |buckets| {
        buckets := buckets + [Bucket(row.category, [])];
      }
      if |buckets[i].decisions| < WINDOW {
        buckets := buckets[i := Bucket(row.category, buckets[i].decisions + [row.decision.Applied?])];
      }
      BucketsStayFilled(before, buckets, rows, n, i);
    }
  }

  lemma {:induction false} NothingFilled(rows: seq<Judged>)
    ensures FilledFrom([], rows, 0)
  {}

  lemma {:induction false} UndecidedKeepsFilled(buckets: seq<Bucket>, rows: seq<Judged>, n: nat)
    requires n < |rows| && rows[n].decision.Undecided? && FilledFrom(buckets, rows, n)
    ensures FilledFrom(buckets, rows, n + 1)
  {
    assert forall category :: DecidedOf(rows, category, n + 1) == DecidedOf(rows, category, n);
  }

  /** Where the search for a category stops: at its only bucket, or past the end when it has none. */
  lemma {:induction false} AbsentIsEmpty(buckets: seq<Bucket>, rows: seq<Judged>, n: nat, category: string, i: nat)
    requires n <= |rows| && FilledFrom(buckets, rows, n) && i <= |buckets|
    requires (i < |buckets| ==> buckets[i].category == category) && forall j :: 0 <= j < i ==> buckets[j].category != category
    ensures i == |buckets| ==> DecidedOf(rows, category, n) == []
    ensures forall j :: 0 <= j < |buckets| ==> (buckets[j].category == category <==> j == i)
  {
    hide DecidedOf, Newest20;
  }

  lemma {:induction false} KeepNewest(decided: seq<bool>, b: bool)
    ensures Newest20(decided + [b])
            == if |Newest20(decided)| < WINDOW then Newest20(decided) + [b] else Newest20(decided)
    ensures Newest20([]) == []
  {}

  /** `after` differs from `before` in the bucket `i` of the category only, which may be new. */
  ghost predicate OneBucket(before: seq<Bucket>, after: seq<Bucket>, category: string, i: nat) {
    && i < |after| && |before| <= |after| <= |before| + 1 && (|after| > |before| ==> i == |before|)
    && (forall j :: 0 <= j < |after| && j != i ==> j < |before| && after[j] == before[j])
    && (forall j :: 0 <= j < |after| ==> (after[j].category == category <==> j == i))
    && (i < |before| ==> before[i].category == category)
  }

  lemma {:induction false} OtherBucketsStand(before: seq<Bucket>, after: seq<Bucket>, rows: seq<Judged>, n: nat, i: nat, category: string)
    requires n < |rows| && OneBucket(before, after, rows[n].category, i)
    requires DecidedOf(rows, category, n) != [] ==> Has(before, category)
    requires DecidedOf(rows, category, n + 1) != []
    ensures Has(after, category)
  {
    if category == rows[n].category {
      assert after[i].category == category;
    } else {
      assert DecidedOf(rows, category, n + 1) == DecidedOf(rows, category, n);
      var j :| 0 <= j < |before| && before[j].category == category;
      assert after[j].category == category;
    }
  }

  lemma {:induction false} SameBucketCounts(before: seq<Bucket>, after: seq<Bucket>, rows: seq<Judged>, n: nat, i: nat, j: nat)
    requires n < |rows| && OneBucket(before, after, rows[n].category, i) && j < |after| && j != i
    requires before[j].decisions == Newest20(DecidedOf(rows, before[j].category, n))
    ensures after[j].decisions == Newest20(DecidedOf(rows, after[j].category, n + 1))
  {
    hide Newest20;
    assert DecidedOf(rows, after[j].category, n + 1) == DecidedOf(rows, after[j].category, n);
  }

  /** Counting one more decided row in its bucket keeps the buckets filled. */
  lemma {:induction false} BucketsStayFilled(before: seq<Bucket>, after: seq<Bucket>, rows: seq<Judged>, n: nat, i: nat)
    requires n < |rows| && FilledFrom(before, rows, n) && !rows[n].decision.Undecided?
    requires OneBucket(before, after, rows[n].category, i)
    requires i == |before| ==> DecidedOf(rows, rows[n].category, n) == []
    requires var sofar := if i < |before| then before[i].decisions else [];
             after[i].decisions == if |sofar| < WINDOW then sofar + [rows[n].decision.Applied?] else sofar
    ensures FilledFrom(after, rows, n + 1)
  {
    forall category | DecidedOf(rows, category, n + 1) != [] ensures Has(after, category) {
      OtherBucketsStand(before, after, rows, n, i, category);
    }
    KeepNewest(DecidedOf(rows, rows[n].category, n), rows[n].decision.Applied?);
    forall j | 0 <= j < |after| ensures after[j].decisions == Newest20(DecidedOf(rows, after[j].category, n + 1)) {
      if j != i {
        SameBucketCounts(before, after, rows, n, i, j);
      }
    }
    hide DecidedOf, Newest20, Has;
    forall x, y | 0 <= x < y < |after| ensures after[x].category != after[y].category {
      assert x != i && y != i ==> before[x].category != before[y].category;
    }
  }

  predicate Mutes(ledger: Ledger, b: Bucket) {
    |b.decisions| >= MUTE_MIN && !Muted(ledger, b.category) && Rate(b.decisions) <= MUTE_MAX_ENDORSEMENT
  }

  function AfterMutes(ledger: Ledger, buckets: seq<Bucket>, auto: bool, at: nat): Ledger
    decreases |buckets|
  {
    if buckets == [] then ledger
    else
      var b := buckets[0];
      AfterMutes(if Mutes(ledger, b)
                 then Added(ledger, "salience:" + b.category, None, Some(1), if auto then ByLearner else Proposal, [], at)
                 else ledger, buckets[1..], auto, at)
  }

  function LiveMix(ledger: Ledger, buckets: seq<Bucket>): seq<bool> {
    if buckets == [] then []
    else
      var last := buckets[|buckets| - 1];
      LiveMix(ledger, buckets[..|buckets| - 1]) + (if Muted(ledger, last.category) then [] else last.decisions)
  }

  function FloorMove(floor: nat, live: seq<bool>): Option<nat> {
    if |live| < FLOOR_MIN_SAMPLE then None
    else if Rate(live) < FLOOR_UP_BELOW && floor < FLOOR_MAX then Some(floor + 1)
    else if Rate(live) > FLOOR_DOWN_ABOVE && floor > FLOOR_MIN then Some(floor - 1)
    else None
  }

  function Tuned(st: Learned, buckets: seq<Bucket>, auto: bool, at: nat): Learned {
    var ledger := AfterMutes(st.ledger, buckets, auto, at);
    var target := FloorMove(st.floor, LiveMix(ledger, buckets));
    if target.None? then st.(ledger := ledger)
    else
      st.(floor := if auto then target.value else st.floor,
          ledger := Added(ledger, FLOOR, None, None, if auto then ByLearner else Proposal, [target.value], at))
  }

  // ── Human decisions and the precision rule ──

  function Find(ledger: Ledger, id: nat): Option<Policy> {
    var r := Newest(ledger, (p: Policy) => p.id == id);
    if r.Some? then Some(ledger[r.value]) else None
  }

  /** Carry out an approved proposal that is no tier change. */
  function ApplySpecial(st: Learned, p: Policy): Learned {
    if p.category == FLOOR && p.note != [] then st.(floor := p.note[0])
    else if p.category == SLOTS then st.(slots := p.note)
    else if StartsWith(p.category, "intent:") && p.note != [] then st.(bars := st.bars[p.category := p.note[0]])
    else st
  }

  /** `None`: no such open proposal. The proposal itself stays as it is. */
  function Approved(st: Learned, id: nat, at: nat): Option<Learned>
    requires Legal(st.ledger)
  {
    var p := Find(st.ledger, id);
    if p.None? || p.value.source != Proposal then None
    else if StartsWith(p.value.category, "setting:") || StartsWith(p.value.category, "intent:") then
      var t := ApplySpecial(st, p.value);
      Some(t.(ledger := Added(t.ledger, p.value.category, None, None, ByLearner, [], at)))
    else Some(st.(ledger := Added(st.ledger, p.value.category, None, p.value.override, ByLearner, [], at)))
  }

  function RejectedIn(ledger: Ledger, id: nat): Ledger {
    seq(|ledger|, i requires 0 <= i < |ledger| =>
      if ledger[i].id == id && ledger[i].source == Proposal then ledger[i].(source := Rejected) else ledger[i])
  }

  /** Persistently imprecise: demote one tier. `latest` is the tier of the category's newest row. */
  function PrecisionRuled(st: Learned, category: string, owner: Option<nat>, accepted: nat, judged: nat,
                          latest: Option<nat>, at: nat): Learned
    requires Legal(st.ledger) && accepted <= judged
  {
    if judged < PRECISION_MIN_SAMPLE || accepted as real / judged as real >= PRECISION_FLOOR then st
    else
      var override := Override(st.ledger, category, owner);
      var base := if override.Some? then override.value else if latest.Some? then latest.value else 2;
      var target := if base + 1 < 3 then base + 1 else 3;
      OverrideIsLegal(st.ledger, category, owner);
      if target == base then st
      else st.(ledger := Added(st.ledger, category, owner, Some(target), ByRule, [], at))
  }

  class Learner {
    var ledger: Ledger
    var slots: seq<nat>
    var floor: nat
    var bars: map<string, nat>

    ghost function View(): Learned
      reads this
    {
      Learned(ledger, slots, floor, bars)
    }

    constructor (digestTimes: seq<nat>, urgencyFloor: nat)
      ensures View() == Learned([], digestTimes, urgencyFloor, map[])
    {
      ledger, slots, floor, bars := [], digestTimes, urgencyFloor, map[];
    }

    /** The single application path: refuses an override that would reach tier 0. */
    method ApplyPolicy(category: string, owner: Option<nat>, override: Option<int>, source: Source, note: seq<nat>,
                       at: nat) returns (ok: bool)
      modifies this`ledger
      ensures ok <==> (override.Some? ==> override.value >= 1)
      ensures ok ==> AppendPolicy(old(ledger), category, owner, override, source, note, at) == Some(ledger)
      ensures !ok ==> ledger == old(ledger)
    {
      if override.Some? && override.value < 1 {
        return false;
      }
      ledger := ledger + [Policy(NextId(ledger), category, owner, override, source, note, at)];
      return true;
    }

    method RetierCategory(sig: Signal, owner: Option<nat>, auto: bool, at: nat)
      requires EffectiveTier(ledger, sig, owner) >= 0
      modifies this
      ensures View() == RetierOne(old(View()), sig, owner, auto, at)
    {
      hide InEffect;
      var override, _ := CurrentPolicy(ledger, sig.category, owner);
      var tier := if override.Some? then override.value else sig.tier;
      if sig.category == "learning" {
        return;
      }
      var target: Option<int> := None;
      if sig.judged >= LEARN_MIN_SAMPLE && sig.mean <= DEMOTE_BELOW && tier < 3 {
        target := Some(tier + 1);
      } else if sig.judged >= PROMOTE_MIN_SAMPLE && sig.mean >= PROMOTE_ABOVE && tier > 1 {
        target := Some(tier - 1);
      }
      if target.None? || override == target {
        return;
      }
      if auto {
        var _ := ApplyPolicy(sig.category, owner, target, ByLearner, [], at);
      } else {
        var _ := ApplyPolicy(sig.category, None, target, Proposal, [], at);
      }
    }

    method LearnRetiers(sigs: seq<Signal>, owner: Option<nat>, auto: bool, at: nat)
      requires Legal(ledger) && forall sig :: sig in sigs ==> 0 <= sig.tier <= 3
      modifies this
      ensures View() == Retiered(old(View()), sigs, owner, auto, at)
    {
      hide RetierOne;
      assert sigs[0..] == sigs;
      for k := 0 to |sigs|
        invariant Legal(ledger) && forall sig :: sig in sigs[k..] ==> 0 <= sig.tier <= 3
        invariant Retiered(View(), sigs[k..], owner, auto, at) == Retiered(old(View()), sigs, owner, auto, at)
      {
        assert sigs[k..][0] == sigs[k] && sigs[k..][1..] == sigs[k + 1..] && sigs[k] in sigs[k..];
        OverrideIsLegal(ledger, sigs[k].category, owner);
        RetierKeepsLegal(View(), sigs[k], owner, auto, at);
        RetierCategory(sigs[k], owner, auto, at);
      }
    }

    method CollectVotes(accepted: seq<nat>) returns (votes: seq<seq<nat>>)
      requires slots != []
      ensures |votes| == |slots| && forall i :: 0 <= i < |slots| ==> votes[i] == Votes(slots, accepted, i)
    {
      votes := seq(|slots|, _ => []);
      for k := 0 to |accepted|
        invariant |votes| == |slots| && forall i :: 0 <= i < |slots| ==> votes[i] == Votes(slots, accepted[..k], i)
      {
        assert accepted[..k + 1][..k] == accepted[..k];
        var idx := Nearest(slots, accepted[k], |slots|);
        votes := votes[idx := votes[idx] + [accepted[k]]];
      }
      assert accepted[..|accepted|] == accepted;
    }

    method ProposeSlots(anchor: seq<nat>, votes: seq<seq<nat>>, ghost accepted: seq<nat>) returns (proposed: seq<nat>)
      requires |anchor| == |slots| == |votes| && forall i :: 0 <= i < |slots| ==> votes[i] == Votes(slots, accepted, i)
      ensures proposed == Shifted(slots, anchor, accepted)
    {
      hide Votes, Mean;
      proposed := slots;
      for i := 0 to |slots|
        invariant |proposed| == |slots|
        invariant forall j :: 0 <= j < i ==> proposed[j] == ShiftedSlot(slots, anchor, accepted, j)
        invariant forall j :: i <= j < |slots| ==> proposed[j] == slots[j]
      {
        if |votes[i]| >= LEARN_MIN_SAMPLE {
          var mean := Mean(votes[i]);
          var lo, hi := anchor[i] - CLAMP, anchor[i] + CLAMP;
          var near := if mean < hi then mean else hi;
          var target := if lo > near then lo else near;
          if target % DAY_MINUTES != slots[i] {
            proposed := proposed[i := target % DAY_MINUTES];
          }
        }
      }
    }

    method LearnDigestTimes(accepted: seq<nat>, auto: bool, at: nat) returns (ok: bool)
      modifies this
      ensures (View(), ok) == DigestLearned(old(View()), accepted, auto, at)
    {
      if slots == [] || |accepted| < LEARN_MIN_SAMPLE {
        return true;
      }
      var anchor := AnchorFor(ledger, slots);
      var row := AnchorRow(ledger);
      if row.None? {
        var _ := ApplyPolicy(ANCHOR, None, None, ByLearner, slots, at);
      }
      var votes := CollectVotes(accepted);
      if anchor.None? {
        return |votes[0]| < LEARN_MIN_SAMPLE;
      }
      var proposed := ProposeSlots(anchor.value, votes, accepted);
      if proposed == slots {
        return true;
      }
      if auto {
        slots := proposed;
        var _ := ApplyPolicy(SLOTS, None, None, ByLearner, [], at);
      } else {
        var _ := ApplyPolicy(SLOTS, None, None, Proposal, proposed, at);
      }
      return true;
    }

    method LearnBar(key: string, mean: real, judged: nat, auto: bool, at: nat)
      modifies this
      ensures View() == BarLearned(old(View()), key, mean, judged, auto, at)
    {
      if judged < LEARN_MIN_SAMPLE {
        return;
      }
      var current := if key in bars then bars[key] else DEFAULT_BAR;
      var target := current;
      if mean <= DEMOTE_BELOW && current < MIN_URGENCY_CAP {
        target := current + 1;
      } else if mean >= PROMOTE_ABOVE && judged >= PROMOTE_MIN_SAMPLE && current > DEFAULT_BAR {
        target := current - 1;
      } else {
        return;
      }
      if auto {
        bars := bars[key := target];
        var _ := ApplyPolicy(key, None, None, ByLearner, [], at);
      } else {
        var _ := ApplyPolicy(key, None, None, Proposal, [target], at);
      }
    }

    method RunTuner(buckets: seq<Bucket>, auto: bool, at: nat)
      modifies this
      ensures View() == Tuned(old(View()), buckets, auto, at)
    {
      assert buckets[0..] == buckets;
      for k := 0 to |buckets|
        invariant slots == old(slots) && floor == old(floor) && bars == old(bars)
        invariant AfterMutes(ledger, buckets[k..], auto, at) == AfterMutes(old(ledger), buckets, auto, at)
      {
        var b := buckets[k];
        assert buckets[k..][0] == b && buckets[k..][1..] == buckets[k + 1..];
        if |b.decisions| >= MUTE_MIN && !Muted(ledger, b.category) {
          if Rate(b.decisions) <= MUTE_MAX_ENDORSEMENT {
            var _ := ApplyPolicy("salience:" + b.category, None, Some(1), if auto then ByLearner else Proposal, [], at);
          }
        }
      }
      assert buckets[|buckets|..] == [];
      var live: seq<bool> := [];
      for k := 0 to |buckets|
        invariant live == LiveMix(ledger, buckets[..k])
      {
        assert buckets[..k + 1][..k] == buckets[..k];
        if !Muted(ledger, buckets[k].category) {
          live := live + buckets[k].decisions;
        }
      }
      assert buckets[..|buckets|] == buckets;
      var target := FloorMove(floor, live);
      if target.Some? {
        if auto {
          floor := target.value;
        }
        var _ := ApplyPolicy(FLOOR, None, None, if auto then ByLearner else Proposal, [target.value], at);
      }
    }

    method Approve(id: nat, at: nat) returns (found: bool)
      requires Legal(ledger)
      modifies this
      ensures found <==> Approved(old(View()), id, at).Some?
      ensures View() == if found then Approved(old(View()), id, at).value else old(View())
    {
      var p := Find(ledger, id);
      if p.None? || p.value.source != Proposal {
        return false;
      }
      var row := p.value;
      if StartsWith(row.category, "setting:") || StartsWith(row.category, "intent:") {
        if row.category == FLOOR && row.note != [] {
          floor := row.note[0];
        } else if row.category == SLOTS {
          slots := row.note;
        } else if StartsWith(row.category, "intent:") && row.note != [] {
          bars := bars[row.category := row.note[0]];
        }
        var _ := ApplyPolicy(row.category, None, None, ByLearner, [], at);
      } else {
        var _ := ApplyPolicy(row.category, None, row.override, ByLearner, [], at);
      }
      return true;
    }

    /** Capture-only: the proposal is re-marked and stays inert. */
    method Reject(id: nat) returns (found: bool)
      modifies this`ledger
      ensures found <==> exists i :: 0 <= i < |old(ledger)| && old(ledger)[i].id == id && old(ledger)[i].source == Proposal
      ensures ledger == RejectedIn(old(ledger), id)
    {
      found := false;
      for i := 0 to |ledger|
        invariant |ledger| == |old(ledger)|
        invariant forall j :: 0 <= j < i ==> ledger[j] == RejectedIn(old(ledger), id)[j]
        invariant forall j :: i <= j < |ledger| ==> ledger[j] == old(ledger)[j]
        invariant found <==> exists j :: 0 <= j < i && old(ledger)[j].id == id && old(ledger)[j].source == Proposal
      {
        if ledger[i].id == id && ledger[i].source == Proposal {
          ledger := ledger[i := ledger[i].(source := Rejected)];
          found := true;
        }
      }
    }

    method ApplyPrecisionRule(category: string, owner: Option<nat>, accepted: nat, judged: nat, latest: Option<nat>, at: nat)
      requires Legal(ledger) && accepted <= judged
      modifies this
      ensures View() == PrecisionRuled(old(View()), category, owner, accepted, judged, latest, at)
    {
      if judged < PRECISION_MIN_SAMPLE {
        return;
      }
      if accepted as real / judged as real >= PRECISION_FLOOR {
        return;
      }
      var override, _ := CurrentPolicy(ledger, category, owner);
      OverrideIsLegal(ledger, category, owner);
      var base: int := 2;
      if override.Some? {
        base := override.value;
      } else if latest.Some? {
        base := latest.value;
      }
      var target := if base + 1 < 3 then base + 1 else 3;
      if target == base {
        return;
      }
      ledger := ledger + [Policy(NextId(ledger), category, owner, Some(target), ByRule, [], at)];
    }
  }
}

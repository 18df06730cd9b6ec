/** What the learners can never do, over any run of learner passes, approvals, rejections, reverts,
  * precision rulings and settings edits.
  */
module LearnerRuns {
  import opened Options
  import opened PolicyLedger
  import opened Learning

  // ── Times as text ──

  function Digits(n: nat): string
    requires n < 100
  {
    [('0' as int + n / 10) as char, ('0' as int + n % 10) as char]
  }

  function FormatTime(minutes: nat): string {
    Digits(minutes % DAY_MINUTES / 60) + ":" + Digits(minutes % DAY_MINUTES % 60)
  }

  function Number(s: string): Option<nat> {
    if |s| == 2 && '0' <= s[0] <= '9' && '0' <= s[1] <= '9'
    then Some((s[0] as int - '0' as int) * 10 + (s[1] as int - '0' as int)) else None
  }

  function ParseTime(s: string): Option<nat> {
    if |s| == 5 && s[2] == ':' && Number(s[..2]).Some? && Number(s[3..]).Some?
    then Some(Number(s[..2]).value * 60 + Number(s[3..]).value) else None
  }

  lemma DigitsRead(n: nat)
    requires n < 100
    ensures Number(Digits(n)) == Some(n)
  {
    assert n / 10 * 10 + n % 10 == n;
  }

  /** Formatting then parsing gives the minute of the day; every written time is one of the day's. */
  lemma TimesRoundTrip(minutes: nat)
    ensures ParseTime(FormatTime(minutes)) == Some(minutes % DAY_MINUTES)
  {
    var m := minutes % DAY_MINUTES;
    var s := FormatTime(minutes);
    DigitsRead(m / 60);
    DigitsRead(m % 60);
    assert s[..2] == Digits(m / 60) && s[3..] == Digits(m % 60);
  }

  /** And the text of a time of the day, once read, is written as it was. */
  lemma ParsedTimesRoundTrip(s: string, hour: nat, minute: nat)
    requires |s| == 5 && Number(s[..2]) == Some(hour) && Number(s[3..]) == Some(minute) && hour < 24 && minute < 60
    ensures ParseTime(s).Some? ==> FormatTime(ParseTime(s).value) == s
    ensures ParseTime(s).Some? <==> s[2] == ':'
  {
    hide Number, Digits;
    NumberReads(s[..2]);
    NumberReads(s[3..]);
    WholeHours(hour, minute);
    assert s == s[..2] + [s[2]] + s[3..];
  }

  lemma WholeHours(hour: nat, minute: nat)
    requires hour < 24 && minute < 60
    ensures var m := (hour * 60 + minute) % DAY_MINUTES; m / 60 == hour && m % 60 == minute
  {}

  lemma NumberReads(s: string)
    requires Number(s).Some?
    ensures Digits(Number(s).value) == s
  {
    var n := Number(s).value;
    assert n / 10 == s[0] as int - '0' as int && n % 10 == s[1] as int - '0' as int;
  }

  // ── Digest clamp ──

  predicate Near(a: nat, b: nat) {
    Apart(a, b) <= CLAMP
  }

  lemma {:induction false} MeanInDay(minutes: seq<nat>)
    requires minutes != [] && forall m :: m in minutes ==> m < DAY_MINUTES
    ensures Mean(minutes) < DAY_MINUTES
  {
    SumBelow(minutes);
    Quotient(Sum(minutes), |minutes|);
  }

  lemma {:induction false} SumBelow(minutes: seq<nat>)
    requires forall m :: m in minutes ==> m < DAY_MINUTES
    ensures minutes != [] ==> Sum(minutes) < DAY_MINUTES * |minutes|
    ensures minutes == [] ==> Sum(minutes) == 0
  {
    if minutes != [] {
      var front, last := minutes[..|minutes| - 1], minutes[|minutes| - 1];
      assert minutes == front + [last] && last in minutes && forall m :: m in front ==> m in minutes;
      SumBelow(front);
    }
  }

  lemma Quotient(a: nat, n: nat)
    requires 0 < n && a < DAY_MINUTES * n
    ensures a / n < DAY_MINUTES
  {
    var q := a / n;
    assert q * n <= a;
    assert q >= DAY_MINUTES ==> q * n >= DAY_MINUTES * n;
  }

  /** Main result. A shifted slot stays within two hours of its anchor, with no wrap past midnight,
    * exactly when the anchor lies before 26:00. (Settings admit times up to 29:59.) */
  lemma ShiftStaysNearExactly(anchor: nat, mean: nat)
    requires mean < DAY_MINUTES
    ensures Near(Shift(anchor, mean), anchor) <==> anchor < DAY_MINUTES + CLAMP
    ensures anchor < DAY_MINUTES + CLAMP ==> Shift(anchor, mean) == Clamped(anchor, mean)
  {}

  lemma {:induction false} VotesAreAccepted(slots: seq<nat>, accepted: seq<nat>, i: nat)
    requires i < |slots|
    ensures forall m :: m in Votes(slots, accepted, i) ==> m in accepted
  {
    if accepted != [] {
      VotesAreAccepted(slots, accepted[..|accepted| - 1], i);
      assert accepted == accepted[..|accepted| - 1] + [accepted[|accepted| - 1]];
    }
  }

  lemma ShiftedSlotIsNear(slots: seq<nat>, anchor: seq<nat>, accepted: seq<nat>, i: nat)
    requires |anchor| == |slots| && i < |slots| && forall m :: m in accepted ==> m < DAY_MINUTES
    requires anchor[i] < DAY_MINUTES + CLAMP
    ensures ShiftedSlot(slots, anchor, accepted, i) == slots[i] || Near(ShiftedSlot(slots, anchor, accepted, i), anchor[i])
  {
    var votes := Votes(slots, accepted, i);
    if |votes| >= LEARN_MIN_SAMPLE {
      VotesAreAccepted(slots, accepted, i);
      MeanInDay(votes);
      ShiftStaysNearExactly(anchor[i], Mean(votes));
    }
  }

  // ── Runs ──

  datatype Op =
    | Retier(sigs: seq<Signal>, owner: Option<nat>, auto: bool, at: nat)
    | LearnDigest(accepted: seq<nat>, auto: bool, at: nat)
    | LearnBar(key: string, mean: real, judged: nat, auto: bool, at: nat)
    | Tune(buckets: seq<Bucket>, auto: bool, at: nat)
    | Rule(category: string, owner: Option<nat>, endorsed: nat, judged: nat, latest: Option<nat>, at: nat)
    | Approve(id: nat, at: nat)
    | Reject(id: nat)
    | Revert(category: string, at: nat)
    | SetSlots(slots: seq<nat>)
    | SetFloor(floor: nat)

  /** The learned state; every digest time a person has configured so far, with its slot; and every
    * salience floor a person has set. */
  datatype State = State(st: Learned, configured: set<(nat, nat)>, floors: set<nat>)

  function AsConfigured(slots: seq<nat>): (c: set<(nat, nat)>)
    ensures forall i: nat, m: nat :: (i, m) in c <==> i < |slots| && slots[i] == m
  {
    set i: nat | i < |slots| :: (i, slots[i])
  }

  /** What the callers guarantee: tiers of delivered rows, minutes of a day, settings the validation
    * admits, and judge bars kept under `intent:` categories. */
  predicate Enabled(op: Op) {
    match op
    case Retier(sigs, _, _, _) => forall sig :: sig in sigs ==> 0 <= sig.tier <= 3
    case LearnDigest(accepted, _, _) => forall m :: m in accepted ==> m < DAY_MINUTES
    case LearnBar(key, _, _, _, _) => StartsWith(key, "intent:")
    case Rule(_, _, endorsed, judged, latest, _) => endorsed <= judged && (latest.Some? ==> latest.value <= 3)
    case SetFloor(floor) => 1 <= floor <= 5
    case _ => true
  }

  function Apply(s: State, op: Op): State
    requires Legal(s.st.ledger) && Enabled(op)
  {
    match op
    case Retier(sigs, owner, auto, at) => s.(st := Retiered(s.st, sigs, owner, auto, at))
    case LearnDigest(accepted, auto, at) => s.(st := DigestLearned(s.st, accepted, auto, at).0)
    case LearnBar(key, mean, judged, auto, at) => s.(st := BarLearned(s.st, key, mean, judged, auto, at))
    case Tune(buckets, auto, at) => s.(st := Tuned(s.st, buckets, auto, at))
    case Rule(category, owner, endorsed, judged, latest, at) =>
      s.(st := PrecisionRuled(s.st, category, owner, endorsed, judged, latest, at))
    case Approve(id, at) => if Approved(s.st, id, at).Some? then s.(st := Approved(s.st, id, at).value) else s
    case Reject(id) => s.(st := s.st.(ledger := RejectedIn(s.st.ledger, id)))
    case Revert(category, at) =>
      s.(st := s.st.(ledger := Learning.Added(s.st.ledger, category, None, None, ByUser, [], at)))
    case SetSlots(slots) => s.(st := s.st.(slots := slots), configured := s.configured + AsConfigured(slots))
    case SetFloor(floor) => s.(st := s.st.(floor := floor), floors := s.floors + {floor})
  }

  /** What an open or rejected proposal may carry. */
  ghost predicate ProposalOk(p: Policy) {
    && (p.category == FLOOR && p.note != [] ==> FLOOR_MIN <= p.note[0] <= FLOOR_MAX)
    && (StartsWith(p.category, "intent:") && p.note != [] ==> DEFAULT_BAR <= p.note[0] <= MIN_URGENCY_CAP)
  }

  ghost predicate RowOk(p: Policy) {
    && (p.override.Some? ==> 1 <= p.override.value <= 3)
    && (Inert(p) ==> ProposalOk(p))
  }

  ghost predicate RowsOk(ledger: Ledger) {
    forall i :: 0 <= i < |ledger| ==> RowOk(ledger[i])
  }

  ghost predicate Clamps(s: State) {
    && RowsOk(s.st.ledger)
    && 1 <= s.st.floor <= 5 && (s.st.floor in s.floors || FLOOR_MIN <= s.st.floor <= FLOOR_MAX)
    && (forall key :: key in s.st.bars ==> DEFAULT_BAR <= s.st.bars[key] <= MIN_URGENCY_CAP)
  }

  lemma ClampsAreLegal(s: State)
    requires Clamps(s)
    ensures Legal(s.st.ledger)
  {
    assert forall i :: 0 <= i < |s.st.ledger| ==> RowOk(s.st.ledger[i]);
  }

  lemma AddKeepsRows(ledger: Ledger, category: string, owner: Option<nat>, override: Option<int>, source: Source,
                     note: seq<nat>, at: nat)
    requires RowsOk(ledger) && (override.Some? ==> override.value >= 1)
    requires RowOk(Policy(NextId(ledger), category, owner, override, source, note, at))
    ensures RowsOk(Learning.Added(ledger, category, owner, override, source, note, at))
  {}

  /** The ledger categories the learners write under are told apart by their first letters. */
  lemma CategoriesDiffer(name: string)
    ensures !StartsWith(SLOTS, "intent:") && !StartsWith(ANCHOR, "intent:") && !StartsWith(FLOOR, "intent:")
    ensures SLOTS != FLOOR && ANCHOR != FLOOR
    ensures !StartsWith("salience:" + name, "intent:") && "salience:" + name != FLOOR
    ensures StartsWith(name, "intent:") ==> name != FLOOR
  {
    assert SLOTS[0] == 's' && ANCHOR[0] == 'd' && "intent:"[0] == 'i' && FLOOR[0] == 's' && ("salience:" + name)[0] == 's';
    assert |SLOTS| == 28 && |FLOOR| == 36;
    assert ("salience:" + name)[1] == 'a' && FLOOR[1] == 'e';
  }

  lemma RetierKeepsClamps(s: State, sig: Signal, owner: Option<nat>, auto: bool, at: nat)
    requires Clamps(s) && Legal(s.st.ledger) && 0 <= sig.tier <= 3
    ensures EffectiveTier(s.st.ledger, sig, owner) >= 0
    ensures Clamps(s.(st := RetierOne(s.st, sig, owner, auto, at)))
  {
    OverrideIsLegal(s.st.ledger, sig.category, owner);
  }

  lemma {:induction false} RetiersKeepClamps(s: State, sigs: seq<Signal>, owner: Option<nat>, auto: bool, at: nat)
    requires Clamps(s) && Legal(s.st.ledger) && forall sig :: sig in sigs ==> 0 <= sig.tier <= 3
    ensures Clamps(s.(st := Retiered(s.st, sigs, owner, auto, at)))
    decreases |sigs|
  {
    hide RetierOne, Clamps;
    if sigs != [] {
      assert sigs[0] in sigs && forall sig :: sig in sigs[1..] ==> sig in sigs;
      RetierKeepsClamps(s, sigs[0], owner, auto, at);
      RetierKeepsLegal(s.st, sigs[0], owner, auto, at);
      RetiersKeepClamps(s.(st := RetierOne(s.st, sigs[0], owner, auto, at)), sigs[1..], owner, auto, at);
    }
  }

  lemma {:induction false} MutesKeepRows(ledger: Ledger, buckets: seq<Bucket>, auto: bool, at: nat)
    requires RowsOk(ledger)
    ensures RowsOk(AfterMutes(ledger, buckets, auto, at))
    decreases |buckets|
  {
    hide RowsOk, Mutes;
    if buckets != [] {
      var b, source := buckets[0], if auto then ByLearner else Proposal;
      CategoriesDiffer(b.category);
      AddKeepsRows(ledger, "salience:" + b.category, None, Some(1), source, [], at);
      MutesKeepRows(if Mutes(ledger, b) then Learning.Added(ledger, "salience:" + b.category, None, Some(1), source, [], at)
                    else ledger, buckets[1..], auto, at);
    }
  }

  lemma DigestKeepsClamps(s: State, accepted: seq<nat>, auto: bool, at: nat)
    requires Clamps(s)
    ensures Clamps(s.(st := DigestLearned(s.st, accepted, auto, at).0))
  {
    hide RowsOk, Shifted, AnchorFor;
    CategoriesDiffer("");
    var t := DigestLearned(s.st, accepted, auto, at).0;
    AddKeepsRows(s.st.ledger, ANCHOR, None, None, ByLearner, s.st.slots, at);
    var ledger := Anchored(s.st, at).ledger;
    var anchor := AnchorFor(s.st.ledger, s.st.slots);
    if anchor.Some? {
      AddKeepsRows(ledger, SLOTS, None, None, ByLearner, [], at);
      AddKeepsRows(ledger, SLOTS, None, None, Proposal, Shifted(s.st.slots, anchor.value, accepted), at);
    }
  }

  lemma BarKeepsClamps(s: State, key: string, mean: real, judged: nat, auto: bool, at: nat)
    requires Clamps(s) && StartsWith(key, "intent:")
    ensures Clamps(s.(st := BarLearned(s.st, key, mean, judged, auto, at)))
  {
    hide RowsOk;
    CategoriesDiffer(key);
    var target := Rebar(Bar(s.st, key), mean, judged);
    AddKeepsRows(s.st.ledger, key, None, None, ByLearner, [], at);
    if target.Some? {
      AddKeepsRows(s.st.ledger, key, None, None, Proposal, [target.value], at);
    }
  }

  lemma TuneKeepsClamps(s: State, buckets: seq<Bucket>, auto: bool, at: nat)
    requires Clamps(s)
    ensures Clamps(s.(st := Tuned(s.st, buckets, auto, at)))
  {
    hide RowsOk, Rate, LiveMix, AfterMutes;
    MutesKeepRows(s.st.ledger, buckets, auto, at);
    CategoriesDiffer("");
    var ledger := AfterMutes(s.st.ledger, buckets, auto, at);
    var target := FloorMove(s.st.floor, LiveMix(ledger, buckets));
    if target.Some? {
      AddKeepsRows(ledger, FLOOR, None, None, if auto then ByLearner else Proposal, [target.value], at);
    }
  }

  lemma ApprovalKeepsClamps(s: State, id: nat, at: nat)
    requires Clamps(s) && Legal(s.st.ledger) && Approved(s.st, id, at).Some?
    ensures Clamps(s.(st := Approved(s.st, id, at).value))
  {
    hide StartsWith;
    var p := Find(s.st.ledger, id).value;
    assert RowOk(p);
    AddKeepsRows(s.st.ledger, p.category, None, None, ByLearner, [], at);
    AddKeepsRows(s.st.ledger, p.category, None, p.override, ByLearner, [], at);
  }

  lemma StepKeepsClamps(s: State, op: Op)
    requires Clamps(s) && Legal(s.st.ledger) && Enabled(op)
    ensures Clamps(Apply(s, op))
  {
    match op
    case Retier(sigs, owner, auto, at) =>
      RetiersKeepClamps(s, sigs, owner, auto, at);
    case LearnDigest(accepted, auto, at) =>
      DigestKeepsClamps(s, accepted, auto, at);
    case LearnBar(key, mean, judged, auto, at) =>
      BarKeepsClamps(s, key, mean, judged, auto, at);
    case Tune(buckets, auto, at) =>
      TuneKeepsClamps(s, buckets, auto, at);
    case Rule(category, owner, endorsed, judged, latest, at) =>
      OverrideIsLegal(s.st.ledger, category, owner);
    case Approve(id, at) =>
      if Approved(s.st, id, at).Some? {
        ApprovalKeepsClamps(s, id, at);
      }
    case Reject(id) =>
    case Revert(category, at) =>
    case SetSlots(slots) =>
    case SetFloor(floor) =>
  }

  ghost predicate CanRun(ops: seq<Op>) {
    forall op :: op in ops ==> Enabled(op)
  }

  ghost function RunFrom(s: State, ops: seq<Op>): (t: State)
    requires Clamps(s) && CanRun(ops)
    ensures Clamps(t)
    decreases |ops|
  {
    if ops == [] then s
    else
      ClampsAreLegal(s);
      assert ops[0] in ops && forall op :: op in ops[1..] ==> op in ops;
      StepKeepsClamps(s, ops[0]);
      RunFrom(Apply(s, ops[0]), ops[1..])
  }

  /** Settings as a person left them, judge bars at any value the learner could have given them. */
  ghost function Start(digestTimes: seq<nat>, floor: nat, bars: map<string, nat>): (s: State)
    requires 1 <= floor <= 5 && forall key :: key in bars ==> DEFAULT_BAR <= bars[key] <= MIN_URGENCY_CAP
    ensures Clamps(s)
  {
    State(Learned([], digestTimes, floor, bars), AsConfigured(digestTimes), {floor})
  }

  /** Main result. Over any run every ledgered override is empty or in 1..3, so no learner, rule, mute or
    * approval ever puts a category into the interrupt tier; the salience floor stays a valid setting, where
    * a person put it or in 2..5, and every proposed floor lies in 2..5; and judge bars stay in 2..5. */
  lemma LearnersStayInBounds(digestTimes: seq<nat>, floor: nat, bars: map<string, nat>, ops: seq<Op>, category: string,
                             owner: Option<nat>)
    requires 1 <= floor <= 5 && forall key :: key in bars ==> DEFAULT_BAR <= bars[key] <= MIN_URGENCY_CAP
    requires CanRun(ops)
    ensures var s := RunFrom(Start(digestTimes, floor, bars), ops);
            var st := s.st;
            && (forall i :: 0 <= i < |st.ledger| && st.ledger[i].override.Some? ==> 1 <= st.ledger[i].override.value <= 3)
            && (Override(st.ledger, category, owner).Some? ==> 1 <= Override(st.ledger, category, owner).value <= 3)
            && 1 <= st.floor <= 5 && (st.floor in s.floors || FLOOR_MIN <= st.floor <= FLOOR_MAX)
            && (forall i :: 0 <= i < |st.ledger| && Inert(st.ledger[i]) && st.ledger[i].category == FLOOR && st.ledger[i].note != []
                            ==> FLOOR_MIN <= st.ledger[i].note[0] <= FLOOR_MAX)
            && (forall key :: key in st.bars ==> DEFAULT_BAR <= st.bars[key] <= MIN_URGENCY_CAP)
  {
    var s := RunFrom(Start(digestTimes, floor, bars), ops);
    ClampsAreLegal(s);
    OverrideIsLegal(s.st.ledger, category, owner);
    assert forall i :: 0 <= i < |s.st.ledger| ==> RowOk(s.st.ledger[i]);
  }

  // ── Digest times over runs ──

  /** Nothing but the digest learner writes rows under the anchor's category. */
  predicate KeepsAnchor(op: Op) {
    match op
    case Retier(sigs, _, _, _) => forall sig :: sig in sigs ==> sig.category != ANCHOR
    case Rule(category, _, _, _, _, _) => category != ANCHOR
    case Revert(category, _) => category != ANCHOR
    case _ => true
  }

  /** Each slot is where a person once put it or within two hours of its anchor; nothing is said where the
    * anchor has another number of slots, or lies at 26:00 or later. */
  ghost predicate SlotsOk(row: Option<Policy>, slots: seq<nat>, configured: set<(nat, nat)>) {
    forall i: nat :: i < |slots| ==>
      || (i, slots[i]) in configured
      || (row.Some? && |row.value.note| != |slots|)
      || (row.Some? && |row.value.note| == |slots|
          && (Near(slots[i], row.value.note[i]) || row.value.note[i] >= DAY_MINUTES + CLAMP))
  }

  ghost predicate AnchorInv(s: State) {
    && (forall i :: 0 <= i < |s.st.ledger| && s.st.ledger[i].category == ANCHOR ==> s.st.ledger[i].source == ByLearner)
    && SlotsOk(AnchorRow(s.st.ledger), s.st.slots, s.configured)
    && (forall i :: 0 <= i < |s.st.ledger| && s.st.ledger[i].category == SLOTS && s.st.ledger[i].source == Proposal
                    ==> SlotsOk(AnchorRow(s.st.ledger), s.st.ledger[i].note, s.configured))
  }

  /** A row under another category, appended with no slots proposed, changes nothing here. */
  lemma OtherRowKeepsAnchor(s: State, category: string, owner: Option<nat>, override: Option<int>, source: Source,
                            note: seq<nat>, at: nat)
    requires AnchorInv(s) && category != ANCHOR && (override.Some? ==> override.value >= 1)
    requires category == SLOTS && source == Proposal ==> SlotsOk(AnchorRow(s.st.ledger), note, s.configured)
    ensures var t := s.(st := s.st.(ledger := Learning.Added(s.st.ledger, category, owner, override, source, note, at)));
            AnchorInv(t) && AnchorRow(t.st.ledger) == AnchorRow(s.st.ledger)
  {
    hide SlotsOk;
    var ledger := Learning.Added(s.st.ledger, category, owner, override, source, note, at);
    assert ledger[..|ledger| - 1] == s.st.ledger && Last(ledger, 1)[0] == ledger[|ledger| - 1];
  }

  lemma {:induction false} RetiersKeepAnchor(s: State, sigs: seq<Signal>, owner: Option<nat>, auto: bool, at: nat)
    requires AnchorInv(s) && Legal(s.st.ledger) && forall sig :: sig in sigs ==> 0 <= sig.tier <= 3 && sig.category != ANCHOR
    ensures AnchorInv(s.(st := Retiered(s.st, sigs, owner, auto, at)))
    decreases |sigs|
  {
    hide AnchorInv, Override;
    if sigs != [] {
      var sig := sigs[0];
      assert sig in sigs && forall x :: x in sigs[1..] ==> x in sigs;
      RetierKeepsLegal(s.st, sig, owner, auto, at);
      var target := Retarget(EffectiveTier(s.st.ledger, sig, owner), sig.mean, sig.judged);
      if target.Some? {
        OtherRowKeepsAnchor(s, sig.category, owner, target, ByLearner, [], at);
        NoSlots(s);
        OtherRowKeepsAnchor(s, sig.category, None, target, Proposal, [], at);
      }
      RetiersKeepAnchor(s.(st := RetierOne(s.st, sig, owner, auto, at)), sigs[1..], owner, auto, at);
    }
  }

  lemma NoSlots(s: State)
    ensures SlotsOk(AnchorRow(s.st.ledger), [], s.configured)
  {}

  lemma {:induction false} MutesKeepAnchor(s: State, buckets: seq<Bucket>, auto: bool, at: nat)
    requires AnchorInv(s)
    ensures AnchorInv(s.(st := s.st.(ledger := AfterMutes(s.st.ledger, buckets, auto, at))))
    decreases |buckets|
  {
    hide AnchorInv, Mutes;
    if buckets != [] {
      var b, source := buckets[0], if auto then ByLearner else Proposal;
      assert ("salience:" + b.category)[0] == 's' && ANCHOR[0] == 'd';
      NoSlots(s);
      OtherRowKeepsAnchor(s, "salience:" + b.category, None, Some(1), source, [], at);
      var next := if Mutes(s.st.ledger, b)
                  then Learning.Added(s.st.ledger, "salience:" + b.category, None, Some(1), source, [], at) else s.st.ledger;
      MutesKeepAnchor(s.(st := s.st.(ledger := next)), buckets[1..], auto, at);
    }
  }

  lemma AnchoringKeeps(s: State, at: nat)
    requires AnchorInv(s)
    ensures AnchorInv(s.(st := Anchored(s.st, at)))
  {
    AnchoredRow(s, at);
    hide AnchorRow;
    var t := Anchored(s.st, at);
    if AnchorRow(s.st.ledger).None? {
      assert AnchorRow(t.ledger).value.note == s.st.slots;
      assert CLAMP >= 0 && forall i: nat :: i < |s.st.slots| ==> Near(s.st.slots[i], s.st.slots[i]);
    }
  }

  /** Anchoring for the first time takes the slots as they stand. */
  lemma AnchoredRow(s: State, at: nat)
    requires AnchorInv(s)
    ensures var row := AnchorRow(Anchored(s.st, at).ledger);
            && row.Some? && row.value.source == ByLearner
            && AnchorFor(s.st.ledger, s.st.slots)
               == Some(if |row.value.note| == |s.st.slots| then row.value.note else s.st.slots)
  {
    var t := Anchored(s.st, at);
    if AnchorRow(s.st.ledger).None? {
      assert Last(t.ledger, 1)[0] == t.ledger[|s.st.ledger|];
      assert AnchorRow(t.ledger).value.note == s.st.slots;
    }
  }

  lemma ShiftKeepsSlots(row: Policy, slots: seq<nat>, configured: set<(nat, nat)>, accepted: seq<nat>)
    requires SlotsOk(Some(row), slots, configured) && forall m :: m in accepted ==> m < DAY_MINUTES
    ensures SlotsOk(Some(row), Shifted(slots, if |row.note| == |slots| then row.note else slots, accepted), configured)
  {
    hide ShiftedSlot;
    var anchor := if |row.note| == |slots| then row.note else slots;
    forall i: nat | i < |slots| && anchor[i] < DAY_MINUTES + CLAMP
      ensures ShiftedSlot(slots, anchor, accepted, i) == slots[i] || Near(ShiftedSlot(slots, anchor, accepted, i), anchor[i])
    {
      ShiftedSlotIsNear(slots, anchor, accepted, i);
    }
  }

  lemma DigestKeepsAnchor(s: State, accepted: seq<nat>, auto: bool, at: nat)
    requires AnchorInv(s) && forall m :: m in accepted ==> m < DAY_MINUTES
    ensures AnchorInv(s.(st := DigestLearned(s.st, accepted, auto, at).0))
  {
    AnchoringKeeps(s, at);
    AnchoredRow(s, at);
    var a := s.(st := Anchored(s.st, at));
    var row := AnchorRow(a.st.ledger).value;
    var anchor := if |row.note| == |s.st.slots| then row.note else s.st.slots;
    var proposed := Shifted(s.st.slots, anchor, accepted);
    ShiftKeepsSlots(row, s.st.slots, s.configured, accepted);
    assert SLOTS[0] == 's' && ANCHOR[0] == 'd';
    var moved := a.(st := a.st.(slots := proposed));
    assert AnchorInv(moved);
    hide AnchorInv, SlotsOk, Shifted, Anchored, AnchorFor, AnchorRow;
    NoSlots(moved);
    OtherRowKeepsAnchor(moved, SLOTS, None, None, ByLearner, [], at);
    OtherRowKeepsAnchor(a, SLOTS, None, None, Proposal, proposed, at);
  }

  lemma ApprovalKeepsAnchor(s: State, id: nat, at: nat)
    requires AnchorInv(s) && Legal(s.st.ledger) && Approved(s.st, id, at).Some?
    ensures AnchorInv(s.(st := Approved(s.st, id, at).value))
  {
    hide StartsWith, SlotsOk;
    var p := Find(s.st.ledger, id).value;
    assert p.category != ANCHOR;
    var t := s.(st := ApplySpecial(s.st, p));
    assert AnchorInv(t);
    hide AnchorInv, ApplySpecial;
    OtherRowKeepsAnchor(t, p.category, None, None, ByLearner, [], at);
    OtherRowKeepsAnchor(s, p.category, None, p.override, ByLearner, [], at);
  }

  lemma {:induction false} RejectionKeepsNewest(ledger: Ledger, id: nat)
    requires forall i :: 0 <= i < |ledger| && ledger[i].category == ANCHOR ==> ledger[i].source == ByLearner
    ensures AnchorRow(RejectedIn(ledger, id)) == AnchorRow(ledger)
  {
    var t := RejectedIn(ledger, id);
    var anchor := (p: Policy) => p.category == ANCHOR;
    assert forall i :: 0 <= i < |ledger| ==> (anchor(t[i]) <==> anchor(ledger[i])) && (anchor(t[i]) ==> t[i] == ledger[i]);
  }

  lemma StepKeepsAnchor(s: State, op: Op)
    requires AnchorInv(s) && Legal(s.st.ledger) && Enabled(op) && KeepsAnchor(op)
    ensures AnchorInv(Apply(s, op))
  {
    hide Override, SlotsOk;
    match op
    case Retier(sigs, owner, auto, at) =>
      RetiersKeepAnchor(s, sigs, owner, auto, at);
    case LearnDigest(accepted, auto, at) =>
      DigestKeepsAnchor(s, accepted, auto, at);
    case LearnBar(key, mean, judged, auto, at) =>
      BarKeepsAnchor(s, key, mean, judged, auto, at);
    case Tune(buckets, auto, at) =>
      TuneKeepsAnchor(s, buckets, auto, at);
    case Rule(category, owner, endorsed, judged, latest, at) =>
      RuleKeepsAnchor(s, category, owner, endorsed, judged, latest, at);
    case Approve(id, at) =>
      if Approved(s.st, id, at).Some? {
        ApprovalKeepsAnchor(s, id, at);
      }
    case Reject(id) =>
      RejectionKeepsNewest(s.st.ledger, id);
    case Revert(category, at) =>
      OtherRowKeepsAnchor(s, category, None, None, ByUser, [], at);
    case SetSlots(slots) =>
      SetSlotsKeepsAnchor(s, slots);
    case SetFloor(floor) =>
  }

  lemma SetSlotsKeepsAnchor(s: State, slots: seq<nat>)
    requires AnchorInv(s)
    ensures AnchorInv(s.(st := s.st.(slots := slots), configured := s.configured + AsConfigured(slots)))
  {}

  lemma BarKeepsAnchor(s: State, key: string, mean: real, judged: nat, auto: bool, at: nat)
    requires AnchorInv(s) && StartsWith(key, "intent:")
    ensures AnchorInv(s.(st := BarLearned(s.st, key, mean, judged, auto, at)))
  {
    assert ANCHOR[0] == 'd' && "intent:"[0] == 'i' && SLOTS[0] == 's';
    var target := Rebar(Bar(s.st, key), mean, judged);
    if target.Some? {
      OtherRowKeepsAnchor(s, key, None, None, ByLearner, [], at);
      OtherRowKeepsAnchor(s, key, None, None, Proposal, [target.value], at);
    }
  }

  lemma TuneKeepsAnchor(s: State, buckets: seq<Bucket>, auto: bool, at: nat)
    requires AnchorInv(s)
    ensures AnchorInv(s.(st := Tuned(s.st, buckets, auto, at)))
  {
    MutesKeepAnchor(s, buckets, auto, at);
    CategoriesDiffer("");
    assert FLOOR != SLOTS && FLOOR != ANCHOR;
    hide Rate, LiveMix, AfterMutes;
    var m := s.(st := s.st.(ledger := AfterMutes(s.st.ledger, buckets, auto, at)));
    var target := FloorMove(s.st.floor, LiveMix(m.st.ledger, buckets));
    if target.Some? {
      OtherRowKeepsAnchor(m, FLOOR, None, None, if auto then ByLearner else Proposal, [target.value], at);
    }
  }

  lemma RuleKeepsAnchor(s: State, category: string, owner: Option<nat>, endorsed: nat, judged: nat, latest: Option<nat>, at: nat)
    requires AnchorInv(s) && Legal(s.st.ledger) && endorsed <= judged && category != ANCHOR
    ensures AnchorInv(s.(st := PrecisionRuled(s.st, category, owner, endorsed, judged, latest, at)))
  {
    OverrideIsLegal(s.st.ledger, category, owner);
    hide AnchorInv, Override;
    var t := PrecisionRuled(s.st, category, owner, endorsed, judged, latest, at);
    if t != s.st {
      OtherRowKeepsAnchor(s, category, owner, t.ledger[|s.st.ledger|].override, ByRule, [], at);
    }
  }

  lemma {:induction false} RunKeepsAnchor(s: State, ops: seq<Op>)
    requires Clamps(s) && CanRun(ops) && AnchorInv(s) && forall op :: op in ops ==> KeepsAnchor(op)
    ensures AnchorInv(RunFrom(s, ops))
    decreases |ops|
  {
    hide AnchorInv, Clamps, Apply, KeepsAnchor, Enabled;
    if ops != [] {
      ClampsAreLegal(s);
      assert ops[0] in ops && forall op :: op in ops[1..] ==> op in ops;
      StepKeepsClamps(s, ops[0]);
      StepKeepsAnchor(s, ops[0]);
      RunKeepsAnchor(Apply(s, ops[0]), ops[1..]);
    }
  }

  /** Main result. Over any run in which nothing else writes the anchor's category, each digest slot is
    * where a person once put it or within two hours of its ledgered anchor, as long as the number of
    * slots is the anchor's and the anchor lies before 26:00. */
  lemma DigestTimesStayNearAnchor(digestTimes: seq<nat>, floor: nat, bars: map<string, nat>, ops: seq<Op>, i: nat)
    requires 1 <= floor <= 5 && forall key :: key in bars ==> DEFAULT_BAR <= bars[key] <= MIN_URGENCY_CAP
    requires CanRun(ops) && forall op :: op in ops ==> KeepsAnchor(op)
    ensures var s := RunFrom(Start(digestTimes, floor, bars), ops);
            var row := AnchorRow(s.st.ledger);
            i < |s.st.slots| && row.Some? && |row.value.note| == |s.st.slots| && row.value.note[i] < DAY_MINUTES + CLAMP
            ==> (i, s.st.slots[i]) in s.configured || Near(s.st.slots[i], row.value.note[i])
  {
    RunKeepsAnchor(Start(digestTimes, floor, bars), ops);
  }

  /** The clamp needs the count: where the anchor has another number of slots it is ignored, and each
    * pass can move a slot two hours on from wherever it stands. */
  lemma DriftWithoutAnchor(st: Learned, at: nat)
    requires |st.slots| == 1 && st.slots[0] + CLAMP < DAY_MINUTES
    requires AnchorRow(st.ledger).Some? && AnchorRow(st.ledger).value.source == ByLearner
    requires |AnchorRow(st.ledger).value.note| != 1
    ensures var m := st.slots[0] + CLAMP;
            var t := DigestLearned(st, [m, m, m], true, at).0;
            t.slots == [m] && AnchorRow(t.ledger) == AnchorRow(st.ledger)
  {
    var m := st.slots[0] + CLAMP;
    var accepted := [m, m, m];
    VotesForOne(st.slots, accepted);
    assert Sum([m]) == m && [m, m][..1] == [m] && Sum([m, m]) == 2 * m && accepted[..2] == [m, m];
    assert Mean(accepted) == m;
    assert Shifted(st.slots, st.slots, accepted) == [m];
    var t := DigestLearned(st, accepted, true, at).0;
    assert t.ledger[..|t.ledger| - 1] == st.ledger && Last(t.ledger, 1)[0] == t.ledger[|t.ledger| - 1];
    assert SLOTS[0] == 's' && ANCHOR[0] == 'd';
  }

  /** `k` passes, each with three accepted deliveries two hours after where the slot stands. */
  function DriftPasses(slot: nat, k: nat, at: nat): seq<Op>
    decreases k
  {
    if k == 0 then []
    else [LearnDigest([slot + CLAMP, slot + CLAMP, slot + CLAMP], true, at)] + DriftPasses(slot + CLAMP, k - 1, at)
  }

  lemma DriftStep(s: State, op: Op, at: nat)
    requires Legal(s.st.ledger) && |s.st.slots| == 1 && s.st.slots[0] + CLAMP < DAY_MINUTES
    requires AnchorRow(s.st.ledger).Some? && AnchorRow(s.st.ledger).value.source == ByLearner
    requires |AnchorRow(s.st.ledger).value.note| != 1
    requires var m := s.st.slots[0] + CLAMP; op == LearnDigest([m, m, m], true, at) && Enabled(op)
    ensures var t := Apply(s, op);
            t.st.slots == [s.st.slots[0] + CLAMP] && AnchorRow(t.st.ledger) == AnchorRow(s.st.ledger)
  {
    hide DigestLearned, AnchorRow;
    DriftWithoutAnchor(s.st, at);
  }

  /** Pass by pass the slot goes two hours further, as far as the day reaches. */
  lemma {:induction false} DriftGoesOn(s: State, k: nat, at: nat)
    requires Clamps(s) && |s.st.slots| == 1 && s.st.slots[0] + k * CLAMP < DAY_MINUTES
    requires AnchorRow(s.st.ledger).Some? && AnchorRow(s.st.ledger).value.source == ByLearner
    requires |AnchorRow(s.st.ledger).value.note| != 1
    ensures var ops := DriftPasses(s.st.slots[0], k, at);
            CanRun(ops) && RunFrom(s, ops).st.slots == [s.st.slots[0] + k * CLAMP]
    decreases k
  {
    hide Clamps, AnchorRow, DigestLearned, Apply, RowsOk;
    if k > 0 {
      var m := s.st.slots[0] + CLAMP;
      var first, rest := LearnDigest([m, m, m], true, at), DriftPasses(m, k - 1, at);
      ClampsAreLegal(s);
      StepKeepsClamps(s, first);
      var t := Apply(s, first);
      assert t.st.slots == [m] && AnchorRow(t.st.ledger) == AnchorRow(s.st.ledger) by {
        DriftStep(s, first, at);
      }
      DriftGoesOn(t, k - 1, at);
      assert ([first] + rest)[1..] == rest;
    }
  }

  lemma {:induction false} VotesForOne(slots: seq<nat>, accepted: seq<nat>)
    requires |slots| == 1
    ensures Votes(slots, accepted, 0) == accepted
  {
    if accepted != [] {
      VotesForOne(slots, accepted[..|accepted| - 1]);
      assert accepted == accepted[..|accepted| - 1] + [accepted[|accepted| - 1]];
    }
  }

  /** Reverting the anchor like any category releases the clamp for several slots, and makes every pass
    * with enough votes for it fail for one. */
  lemma RevertedAnchorIsUnusable(st: Learned, at: nat, accepted: seq<nat>, auto: bool, later: nat)
    requires |st.slots| > 0 && |accepted| >= LEARN_MIN_SAMPLE
    ensures var t := st.(ledger := Learning.Added(st.ledger, ANCHOR, None, None, ByUser, [], at));
            && AnchorFor(t.ledger, t.slots) == (if |st.slots| == 1 then None else Some(st.slots))
            && (|st.slots| == 1 ==> !DigestLearned(t, accepted, auto, later).1)
  {
    var ledger := Learning.Added(st.ledger, ANCHOR, None, None, ByUser, [], at);
    assert Last(ledger, 1)[0] == ledger[|st.ledger|];
    if |st.slots| == 1 {
      VotesForOne(st.slots, accepted);
    }
  }

  // ── Taking effect ──

  /** Main result. In auto mode a re-tiering takes effect for its owner at once and moves the category by
    * exactly one tier, within 1..3; in propose mode nothing in effect changes for anybody. */
  lemma RetierTakesEffect(st: Learned, sig: Signal, owner: Option<nat>, auto: bool, at: nat, category: string, who: Option<nat>)
    requires Legal(st.ledger) && 0 <= sig.tier <= 3
    ensures EffectiveTier(st.ledger, sig, owner) >= 0
    ensures var t := RetierOne(st, sig, owner, auto, at);
            && (auto && t != st ==>
                  && Override(t.ledger, sig.category, owner).Some?
                  && var now := Override(t.ledger, sig.category, owner).value;
                  && 1 <= now <= 3
                  && (now == EffectiveTier(st.ledger, sig, owner) + 1 || now == EffectiveTier(st.ledger, sig, owner) - 1))
            && (!auto || category != sig.category ==> Override(t.ledger, category, who) == Override(st.ledger, category, who))
  {
    OverrideIsLegal(st.ledger, sig.category, owner);
    var t := RetierOne(st, sig, owner, auto, at);
    if t != st {
      var p := t.ledger[|st.ledger|];
      assert t.ledger == st.ledger + [p];
      NewRowInEffect(st.ledger, p, sig.category, owner);
      NewRowInEffect(st.ledger, p, category, who);
    }
  }

  lemma NewRowInEffect(ledger: Ledger, p: Policy, category: string, owner: Option<nat>)
    ensures Applies(p, category, owner) ==> Override(ledger + [p], category, owner) == p.override
    ensures p.category != category || Inert(p) ==> Override(ledger + [p], category, owner) == Override(ledger, category, owner)
  {
    var longer := ledger + [p];
    assert longer[..|longer| - 1] == ledger && Last(longer, 1)[0] == p;
  }

  /** Main result. An approved tier proposal always becomes a row without an owner, even when it was
    * learned from one owner's feedback: it takes effect for an owner exactly as far as they have no
    * applied row of their own. */
  lemma ApprovalIsGlobal(st: Learned, id: nat, at: nat, owner: Option<nat>)
    requires Legal(st.ledger) && Find(st.ledger, id).Some? && Find(st.ledger, id).value.source == Proposal
    requires !StartsWith(Find(st.ledger, id).value.category, "setting:")
    requires !StartsWith(Find(st.ledger, id).value.category, "intent:")
    ensures var p := Find(st.ledger, id).value;
            var own := Newest(st.ledger, (q: Policy) => Applies(q, p.category, owner));
            && Approved(st, id, at).Some?
            && var t := Approved(st, id, at).value;
            && (owner.None? || own.None? ==> Override(t.ledger, p.category, owner) == p.override)
            && (owner.Some? && own.Some? ==> Override(t.ledger, p.category, owner) == st.ledger[own.value].override)
  {
    var p := Find(st.ledger, id).value;
    var t := Approved(st, id, at).value;
    var row := t.ledger[|st.ledger|];
    assert t.ledger[..|t.ledger| - 1] == st.ledger && Last(t.ledger, 1)[0] == row;
    assert Applies(row, p.category, None);
  }
}

/** What each learner pass changes, by the numbers: the thresholds, the rows it ledgers and the settings it
  * moves, from the state before the pass. */
module LearningDecisions {
  import opened Options
  import opened PolicyLedger
  import opened Learning
  import DeliveryModel
  import LearnerRuns

  // ── What is in effect ──

  /** The newest row of the lineage that is neither an open nor a rejected proposal. */
  ghost predicate InForce(ledger: Ledger, p: Policy, category: string, owner: Option<nat>) {
    && p in ledger && p.category == category && p.owner == owner && p.source != Proposal && p.source != Rejected
    && forall q :: q in ledger && q.category == category && q.owner == owner && q.source != Proposal && q.source != Rejected
                   ==> q.id <= p.id
  }

  /** Main result. The override in effect is that of the owner's own newest applied row; without one, that of
    * the newest applied row of nobody; without either, there is none. */
  lemma OverrideDecidesExactly(ledger: Ledger, category: string, owner: Option<nat>)
    requires Numbered(ledger)
    ensures forall p :: InForce(ledger, p, category, owner) ==> Override(ledger, category, owner) == p.override
    ensures (forall q :: !InForce(ledger, q, category, owner))
            ==> forall p :: InForce(ledger, p, category, None) ==> Override(ledger, category, owner) == p.override
    ensures (forall q :: !InForce(ledger, q, category, owner)) && (forall q :: !InForce(ledger, q, category, None))
            ==> Override(ledger, category, owner) == None
  {
    NewestIsInForce(ledger, category, owner);
    NewestIsInForce(ledger, category, None);
    forall p | InForce(ledger, p, category, owner) ensures Override(ledger, category, owner) == p.override {
      assert Newest(ledger, (q: Policy) => Applies(q, category, owner)).Some?;
    }
  }

  lemma NewestIsInForce(ledger: Ledger, category: string, owner: Option<nat>)
    requires Numbered(ledger)
    ensures var r := Newest(ledger, (p: Policy) => Applies(p, category, owner));
            && (r.Some? ==> InForce(ledger, ledger[r.value], category, owner))
            && (forall p :: InForce(ledger, p, category, owner) ==> r.Some? && ledger[r.value] == p)
  {
    var r := Newest(ledger, (p: Policy) => Applies(p, category, owner));
    forall p | InForce(ledger, p, category, owner) ensures r.Some? && ledger[r.value] == p {
      var x :| 0 <= x < |ledger| && ledger[x] == p;
    }
  }

  /** A row as a pass appends it. */
  function Entry(ledger: Ledger, category: string, owner: Option<nat>, override: Option<int>, source: Source, note: seq<nat>,
                 at: nat): Policy
  {
    Policy(if ledger == [] then 0 else ledger[|ledger| - 1].id + 1, category, owner, override, source, note, at)
  }

  /** The single application path refuses exactly the interrupt tier, and numbers its rows upwards. */
  lemma AppendDecidesExactly(ledger: Ledger, category: string, owner: Option<nat>, override: Option<int>, source: Source,
                             note: seq<nat>, at: nat)
    ensures AppendPolicy(ledger, category, owner, override, source, note, at)
            == if override.Some? && override.value <= 0 then None
               else Some(ledger + [Entry(ledger, category, owner, override, source, note, at)])
    ensures Numbered(ledger) ==> Numbered(ledger + [Entry(ledger, category, owner, override, source, note, at)])
  {}

  // ── Re-tiering ──

  /** Three judged deliveries at a mean of -0.3 or less cost a tier; five at 0.6 or more win one. */
  function TierMove(tier: int, mean: real, judged: nat): int {
    if judged >= 3 && mean * 10.0 <= -3.0 && tier < 3 then 1
    else if judged >= 5 && mean * 10.0 >= 6.0 && tier > 1 then -1
    else 0
  }

  /** The rows a pass appends for the signals, from the ledger before it. */
  function RetierRows(ledger: Ledger, sigs: seq<Signal>, owner: Option<nat>, auto: bool, at: nat, id: nat): seq<Policy> {
    if sigs == [] then []
    else
      var sig, o := sigs[0], Override(ledger, sigs[0].category, owner);
      var tier := if o.Some? then o.value else sig.tier;
      var move := TierMove(tier, sig.mean, sig.judged);
      if sig.category == "learning" || move == 0 then RetierRows(ledger, sigs[1..], owner, auto, at, id)
      else
        [Policy(id, sig.category, if auto then owner else None, Some(tier + move), if auto then ByLearner else Proposal, [], at)]
        + RetierRows(ledger, sigs[1..], owner, auto, at, id + 1)
  }

  ghost predicate OneSignalEach(sigs: seq<Signal>) {
    forall x, y :: 0 <= x < y < |sigs| ==> sigs[x].category != sigs[y].category
  }

  lemma RetierOneDecides(st: Learned, sig: Signal, owner: Option<nat>, auto: bool, at: nat)
    requires Legal(st.ledger) && 0 <= sig.tier <= 3
    ensures EffectiveTier(st.ledger, sig, owner) >= 0
    ensures RetierOne(st, sig, owner, auto, at)
            == st.(ledger := st.ledger + RetierRows(st.ledger, [sig], owner, auto, at, NextId(st.ledger)))
  {
    OverrideIsLegal(st.ledger, sig.category, owner);
    hide Override, Legal, NextId;
    var rows := RetierRows(st.ledger, [sig], owner, auto, at, NextId(st.ledger));
    OneRow(st.ledger, sig, owner, auto, at, NextId(st.ledger));
    assert st.ledger + [] == st.ledger;
  }

  lemma OneRow(ledger: Ledger, sig: Signal, owner: Option<nat>, auto: bool, at: nat, id: nat)
    ensures var o := Override(ledger, sig.category, owner);
            var tier := if o.Some? then o.value else sig.tier;
            var move := TierMove(tier, sig.mean, sig.judged);
            RetierRows(ledger, [sig], owner, auto, at, id)
            == if sig.category == "learning" || move == 0 then []
               else [Policy(id, sig.category, if auto then owner else None, Some(tier + move),
                            if auto then ByLearner else Proposal, [], at)]
  {
    hide Override, TierMove;
    assert [sig][1..] == [];
    assert RetierRows(ledger, [], owner, auto, at, id) == [] && RetierRows(ledger, [], owner, auto, at, id + 1) == [];
  }

  /** Rows of one category leave every other category's override alone. */
  lemma {:induction false} SameElsewhere(a: Ledger, b: Ledger, sigs: seq<Signal>, owner: Option<nat>, auto: bool, at: nat, id: nat)
    requires forall x :: 0 <= x < |sigs| ==> Override(a, sigs[x].category, owner) == Override(b, sigs[x].category, owner)
    ensures RetierRows(a, sigs, owner, auto, at, id) == RetierRows(b, sigs, owner, auto, at, id)
    decreases |sigs|
  {
    if sigs != [] {
      SameElsewhere(a, b, sigs[1..], owner, auto, at, id);
      SameElsewhere(a, b, sigs[1..], owner, auto, at, id + 1);
    }
  }

  /** Main result. A re-tiering pass over categories that come once each appends exactly one row for each
    * category but "learning" whose effective tier must move, judged on the ledger before the pass: applied
    * for the owner in auto mode, a proposal of nobody's otherwise. It changes nothing else. */
  lemma {:induction false} RetiersDecideExactly(st: Learned, sigs: seq<Signal>, owner: Option<nat>, auto: bool, at: nat)
    requires Legal(st.ledger) && OneSignalEach(sigs) && forall sig :: sig in sigs ==> 0 <= sig.tier <= 3
    ensures Retiered(st, sigs, owner, auto, at)
            == st.(ledger := st.ledger + RetierRows(st.ledger, sigs, owner, auto, at, NextId(st.ledger)))
    decreases |sigs|
  {
    if sigs == [] {
      assert st.ledger + [] == st.ledger;
    } else {
      RetieredStep(st, sigs, owner, auto, at);
      hide RetierOne, Retiered, Override, RetierRows, NextId, EffectiveTier, Legal;
      var sig := sigs[0];
      RetierOneDecides(st, sig, owner, auto, at);
      var t := RetierOne(st, sig, owner, auto, at);
      RetiersDecideExactly(t, sigs[1..], owner, auto, at);
      RowsJoin(st.ledger, sigs, owner, auto, at);
    }
  }

  lemma RowsJoin(ledger: Ledger, sigs: seq<Signal>, owner: Option<nat>, auto: bool, at: nat)
    requires OneSignalEach(sigs) && sigs != []
    ensures var t := ledger + RetierRows(ledger, [sigs[0]], owner, auto, at, NextId(ledger));
            t + RetierRows(t, sigs[1..], owner, auto, at, NextId(t))
            == ledger + RetierRows(ledger, sigs, owner, auto, at, NextId(ledger))
  {
    var first := RetierRows(ledger, [sigs[0]], owner, auto, at, NextId(ledger));
    var t := ledger + first;
    FirstRows(ledger, sigs, owner, auto, at);
    RestRows(ledger, sigs, owner, auto, at, NextId(t));
    hide RetierRows, NextId, OneSignalEach, Override;
    SeqAssoc(ledger, first, RetierRows(ledger, sigs[1..], owner, auto, at, NextId(t)));
  }

  lemma SeqAssoc(a: Ledger, b: Ledger, c: Ledger)
    ensures (a + b) + c == a + (b + c)
  {}

  lemma RetieredStep(st: Learned, sigs: seq<Signal>, owner: Option<nat>, auto: bool, at: nat)
    requires Legal(st.ledger) && OneSignalEach(sigs) && sigs != [] && forall sig :: sig in sigs ==> 0 <= sig.tier <= 3
    ensures 0 <= sigs[0].tier <= 3 && EffectiveTier(st.ledger, sigs[0], owner) >= 0
    ensures Legal(RetierOne(st, sigs[0], owner, auto, at).ledger) && OneSignalEach(sigs[1..])
    ensures forall sig :: sig in sigs[1..] ==> 0 <= sig.tier <= 3
    ensures Retiered(st, sigs, owner, auto, at) == Retiered(RetierOne(st, sigs[0], owner, auto, at), sigs[1..], owner, auto, at)
  {
    hide RetierOne, Override, EffectiveTier;
    assert sigs[0] in sigs && forall x :: x in sigs[1..] ==> x in sigs;
    RetierKeepsLegal(st, sigs[0], owner, auto, at);
  }

  /** The rows of the later signals, whether or not the first one's is there already. */
  lemma RestRows(ledger: Ledger, sigs: seq<Signal>, owner: Option<nat>, auto: bool, at: nat, id: nat)
    requires OneSignalEach(sigs) && sigs != []
    ensures var first := RetierRows(ledger, [sigs[0]], owner, auto, at, NextId(ledger));
            RetierRows(ledger + first, sigs[1..], owner, auto, at, id) == RetierRows(ledger, sigs[1..], owner, auto, at, id)
  {
    hide Override, RetierRows, NextId;
    var first := RetierRows(ledger, [sigs[0]], owner, auto, at, NextId(ledger));
    OneRow(ledger, sigs[0], owner, auto, at, NextId(ledger));
    forall x | 0 <= x < |sigs[1..]|
      ensures Override(ledger + first, sigs[1..][x].category, owner) == Override(ledger, sigs[1..][x].category, owner)
    {
      assert sigs[1..][x] == sigs[x + 1];
      if first != [] {
        assert first == [first[0]] && first[0].category == sigs[0].category;
        LearnerRuns.NewRowInEffect(ledger, first[0], sigs[x + 1].category, owner);
      } else {
        assert ledger + first == ledger;
      }
    }
    SameElsewhere(ledger + first, ledger, sigs[1..], owner, auto, at, id);
  }

  lemma FirstRows(ledger: Ledger, sigs: seq<Signal>, owner: Option<nat>, auto: bool, at: nat)
    requires sigs != []
    ensures var first := RetierRows(ledger, [sigs[0]], owner, auto, at, NextId(ledger));
            && |first| <= 1 && (first != [] ==> first[0].category == sigs[0].category)
            && RetierRows(ledger, sigs, owner, auto, at, NextId(ledger))
               == first + RetierRows(ledger, sigs[1..], owner, auto, at, NextId(ledger + first))
  {
    hide Override;
    assert [sigs[0]][1..] == [];
    var first := RetierRows(ledger, [sigs[0]], owner, auto, at, NextId(ledger));
    assert first == [] ==> ledger + first == ledger;
  }

  // ── Judge bars ──

  /** Main result. Three judged fires at a mean of -0.3 or less raise a watch's bar by one, up to 5; five at
    * 0.6 or more lower it by one, down to 2; the bar starts at 2. The change is made and ledgered in auto
    * mode, proposed otherwise; nothing else changes. */
  lemma BarDecidesExactly(st: Learned, key: string, mean: real, judged: nat, auto: bool, at: nat)
    ensures var bar := if key in st.bars then st.bars[key] else 2;
            var to := if judged >= 3 && mean * 10.0 <= -3.0 && bar < 5 then bar + 1
                      else if judged >= 5 && mean * 10.0 >= 6.0 && bar > 2 then bar - 1 else bar;
            BarLearned(st, key, mean, judged, auto, at)
            == if to == bar then st
               else if auto then
                 st.(bars := st.bars[key := to], ledger := st.ledger + [Entry(st.ledger, key, None, None, ByLearner, [], at)])
               else st.(ledger := st.ledger + [Entry(st.ledger, key, None, None, Proposal, [to], at)])
  {}

  // ── The precision rule ──

  /** Main result. Five judged items of which less than a quarter were accepted demote the category by one
    * tier, from the override in effect, else the newest row's tier, else 2, and never past 3. */
  lemma PrecisionDecidesExactly(st: Learned, category: string, owner: Option<nat>, accepted: nat, judged: nat,
                                latest: Option<nat>, at: nat)
    requires Legal(st.ledger) && accepted <= judged
    ensures var o := Override(st.ledger, category, owner);
            var tier := if o.Some? then o.value else if latest.Some? then latest.value else 2;
            PrecisionRuled(st, category, owner, accepted, judged, latest, at)
            == if judged >= 5 && 4 * accepted < judged && tier != 3
               then st.(ledger := st.ledger
                                  + [Entry(st.ledger, category, owner, Some(if tier < 3 then tier + 1 else 3), ByRule, [], at)])
               else st
  {
    OverrideIsLegal(st.ledger, category, owner);
    if judged > 0 {
      QuarterOf(accepted, judged);
    }
  }

  lemma QuarterOf(a: nat, n: nat)
    requires n > 0
    ensures a as real / n as real >= 0.25 <==> 4 * a >= n
  {
    var q := a as real / n as real;
    assert q * n as real == a as real;
    if q >= 0.25 {
      assert q * n as real >= 0.25 * n as real;
    } else {
      assert q * n as real < 0.25 * n as real;
    }
  }

  // ── The tuner ──

  function Endorsements(decisions: seq<bool>): set<nat> {
    set x: nat | x < |decisions| && decisions[x]
  }

  lemma {:induction false} EndorsedIsCount(decisions: seq<bool>)
    ensures Endorsed(decisions) == |Endorsements(decisions)|
  {
    if decisions == [] {
      assert Endorsements(decisions) == {};
    } else {
      var n := |decisions| - 1;
      EndorsedIsCount(decisions[..n]);
      if decisions[n] {
        assert Endorsements(decisions) == Endorsements(decisions[..n]) + {n};
      } else {
        assert Endorsements(decisions) == Endorsements(decisions[..n]);
      }
    }
  }

  predicate IsMuted(ledger: Ledger, category: string) {
    Override(ledger, "salience:" + category, None) == Some(1)
  }

  /** Five decided verdicts, a tenth of them endorsed at most, and not muted yet. */
  predicate MutesNow(ledger: Ledger, b: Bucket) {
    |b.decisions| >= 5 && !IsMuted(ledger, b.category) && 10 * |Endorsements(b.decisions)| <= |b.decisions|
  }

  function MuteRows(ledger: Ledger, buckets: seq<Bucket>, auto: bool, at: nat, id: nat): seq<Policy> {
    if buckets == [] then []
    else if MutesNow(ledger, buckets[0]) then
      [Policy(id, "salience:" + buckets[0].category, None, Some(1), if auto then ByLearner else Proposal, [], at)]
      + MuteRows(ledger, buckets[1..], auto, at, id + 1)
    else MuteRows(ledger, buckets[1..], auto, at, id)
  }

  ghost predicate OneBucketEach(buckets: seq<Bucket>) {
    forall x, y :: 0 <= x < y < |buckets| ==> buckets[x].category != buckets[y].category
  }

  lemma RateIs(decisions: seq<bool>, num: nat, den: nat)
    requires decisions != [] && den > 0
    ensures Rate(decisions) <= num as real / den as real <==> den * |Endorsements(decisions)| <= num * |decisions|
    ensures Rate(decisions) < num as real / den as real <==> den * |Endorsements(decisions)| < num * |decisions|
  {
    EndorsedIsCount(decisions);
    Fractions(|Endorsements(decisions)|, |decisions|, num, den);
  }

  lemma Fractions(a: nat, n: nat, num: nat, den: nat)
    requires n > 0 && den > 0
    ensures a as real / n as real <= num as real / den as real <==> den * a <= num * n
    ensures a as real / n as real < num as real / den as real <==> den * a < num * n
  {
    var p, q := a as real / n as real, num as real / den as real;
    assert p * n as real == a as real && q * den as real == num as real;
    assert (p * n as real) * den as real == (den * a) as real;
    assert (q * den as real) * n as real == (num * n) as real;
    var m := n as real * den as real;
    assert m > 0.0 && p * m == (den * a) as real && q * m == (num * n) as real;
    Compare(p, q, m);
  }

  lemma Compare(p: real, q: real, m: real)
    requires m > 0.0
    ensures p <= q <==> p * m <= q * m
    ensures p < q <==> p * m < q * m
  {
    if p < q {
      assert (q - p) * m > 0.0;
    }
    if q < p {
      assert (p - q) * m > 0.0;
    }
  }

  lemma MutesIsMutesNow(ledger: Ledger, b: Bucket)
    ensures Mutes(ledger, b) <==> MutesNow(ledger, b)
  {
    if b.decisions != [] {
      RateIs(b.decisions, 1, 10);
    }
  }

  lemma {:induction false} SameMutes(a: Ledger, b: Ledger, buckets: seq<Bucket>, auto: bool, at: nat, id: nat)
    requires forall x :: 0 <= x < |buckets| ==> (IsMuted(a, buckets[x].category) <==> IsMuted(b, buckets[x].category))
    ensures MuteRows(a, buckets, auto, at, id) == MuteRows(b, buckets, auto, at, id)
    decreases |buckets|
  {
    if buckets != [] {
      SameMutes(a, b, buckets[1..], auto, at, id);
      SameMutes(a, b, buckets[1..], auto, at, id + 1);
    }
  }

  lemma MutesApart(a: string, b: string)
    requires a != b
    ensures "salience:" + a != "salience:" + b
  {
    assert ("salience:" + a)[9..] == a && ("salience:" + b)[9..] == b;
  }

  lemma {:induction false} MutesDecide(ledger: Ledger, buckets: seq<Bucket>, auto: bool, at: nat)
    requires OneBucketEach(buckets)
    ensures AfterMutes(ledger, buckets, auto, at) == ledger + MuteRows(ledger, buckets, auto, at, NextId(ledger))
    decreases |buckets|
  {
    if buckets == [] {
      assert ledger + [] == ledger;
    } else {
      hide Override, Mutes;
      MutesIsMutesNow(ledger, buckets[0]);
      if MutesNow(ledger, buckets[0]) {
        var row := Policy(NextId(ledger), "salience:" + buckets[0].category, None, Some(1), if auto then ByLearner else Proposal, [], at);
        var t := ledger + [row];
        MutesDecide(t, buckets[1..], auto, at);
        forall x | 0 <= x < |buckets[1..]|
          ensures IsMuted(t, buckets[1..][x].category) <==> IsMuted(ledger, buckets[1..][x].category)
        {
          assert buckets[1..][x] == buckets[x + 1];
          MutesApart(buckets[0].category, buckets[x + 1].category);
          LearnerRuns.NewRowInEffect(ledger, row, "salience:" + buckets[x + 1].category, None);
        }
        SameMutes(t, ledger, buckets[1..], auto, at, NextId(t));
        assert t + MuteRows(ledger, buckets[1..], auto, at, NextId(t))
               == ledger + ([row] + MuteRows(ledger, buckets[1..], auto, at, NextId(t)));
      } else {
        MutesDecide(ledger, buckets[1..], auto, at);
      }
    }
  }

  /** How many decided verdicts the un-muted categories have, and how many of them are endorsements. */
  function LiveSize(ledger: Ledger, buckets: seq<Bucket>): nat {
    if buckets == [] then 0
    else (if IsMuted(ledger, buckets[0].category) then 0 else |buckets[0].decisions|) + LiveSize(ledger, buckets[1..])
  }

  function LiveEndorsed(ledger: Ledger, buckets: seq<Bucket>): nat {
    if buckets == [] then 0
    else
      (if IsMuted(ledger, buckets[0].category) then 0 else |Endorsements(buckets[0].decisions)|)
      + LiveEndorsed(ledger, buckets[1..])
  }

  lemma EndorsementsAdd(a: seq<bool>, b: seq<bool>)
    ensures |Endorsements(a + b)| == |Endorsements(a)| + |Endorsements(b)|
  {
    EndorsedIsCount(a);
    EndorsedIsCount(b);
    EndorsedIsCount(a + b);
    EndorsedAdds(a, b);
  }

  lemma {:induction false} EndorsedAdds(a: seq<bool>, b: seq<bool>)
    ensures Endorsed(a + b) == Endorsed(a) + Endorsed(b)
  {
    if b == [] {
      assert a + b == a;
    } else {
      var n := |b| - 1;
      assert (a + b)[..|a| + n] == a + b[..n];
      EndorsedAdds(a, b[..n]);
    }
  }

  lemma {:induction false} LiveGrows(ledger: Ledger, buckets: seq<Bucket>, b: Bucket)
    ensures LiveSize(ledger, buckets + [b]) == LiveSize(ledger, buckets) + (if IsMuted(ledger, b.category) then 0 else |b.decisions|)
    ensures LiveEndorsed(ledger, buckets + [b])
            == LiveEndorsed(ledger, buckets) + (if IsMuted(ledger, b.category) then 0 else |Endorsements(b.decisions)|)
    decreases |buckets|
  {
    if buckets == [] {
      assert [] + [b] == [b] && [b][1..] == [];
    } else {
      assert (buckets + [b])[1..] == buckets[1..] + [b];
      LiveGrows(ledger, buckets[1..], b);
    }
  }

  lemma {:induction false} LiveMixCounts(ledger: Ledger, buckets: seq<Bucket>)
    ensures |LiveMix(ledger, buckets)| == LiveSize(ledger, buckets)
    ensures |Endorsements(LiveMix(ledger, buckets))| == LiveEndorsed(ledger, buckets)
    decreases |buckets|
  {
    if buckets == [] {
      assert Endorsements([]) == {};
    } else {
      var n := |buckets| - 1;
      LiveMixCounts(ledger, buckets[..n]);
      LiveGrows(ledger, buckets[..n], buckets[n]);
      assert buckets == buckets[..n] + [buckets[n]];
      var b := if IsMuted(ledger, buckets[n].category) then [] else buckets[n].decisions;
      EndorsementsAdd(LiveMix(ledger, buckets[..n]), b);
      assert Endorsements([]) == {};
    }
  }

  /** Main result. A tuner pass over categories that come once each mutes exactly those with five decided
    * verdicts of which a tenth at most was endorsed. Then, over the categories that are not muted in effect,
    * ten verdicts of which less than three tenths were endorsed raise the urgency floor by one, up to 5, and
    * more than eight tenths lower it by one, down to 2. Each step is ledgered; in propose mode nothing takes
    * effect. */
  lemma TunerDecidesExactly(st: Learned, buckets: seq<Bucket>, auto: bool, at: nat)
    requires OneBucketEach(buckets)
    ensures var muted := st.ledger + MuteRows(st.ledger, buckets, auto, at, NextId(st.ledger));
            var n, good := LiveSize(muted, buckets), LiveEndorsed(muted, buckets);
            var to := if n >= 10 && 10 * good < 3 * n && st.floor < 5 then st.floor + 1
                      else if n >= 10 && 10 * good > 8 * n && st.floor > 2 then st.floor - 1 else st.floor;
            Tuned(st, buckets, auto, at)
            == if to == st.floor then st.(ledger := muted)
               else st.(floor := if auto then to else st.floor,
                        ledger := muted + [Entry(muted, "setting:ambient_salience_min_urgency", None, None,
                                                 if auto then ByLearner else Proposal, [to], at)])
  {
    hide AfterMutes, MuteRows, LiveMix, LiveSize, LiveEndorsed, Rate, Endorsements;
    MutesDecide(st.ledger, buckets, auto, at);
    var muted := st.ledger + MuteRows(st.ledger, buckets, auto, at, NextId(st.ledger));
    LiveMixCounts(muted, buckets);
    var live := LiveMix(muted, buckets);
    if |live| >= 10 {
      RateIs(live, 3, 10);
      RateIs(live, 8, 10);
    }
  }

  // ── Approvals and rejections ──

  /** The open or settled row of this id. */
  ghost predicate RowOfId(ledger: Ledger, p: Policy, id: nat) {
    p in ledger && p.id == id
  }

  /** Main result. Only an open proposal can be approved. What a settings or watch proposal carries is set,
    * what a tier proposal carries goes into effect for nobody in particular, and either way one applied row
    * is ledgered; the proposal itself stays. */
  lemma ApprovalDecidesExactly(st: Learned, id: nat, at: nat, p: Policy)
    requires Numbered(st.ledger) && Legal(st.ledger) && RowOfId(st.ledger, p, id)
    ensures var setting, watch := "setting:" <= p.category, "intent:" <= p.category;
            var done := if p.category == "setting:ambient_salience_min_urgency" && p.note != [] then st.(floor := p.note[0])
                       else if p.category == "setting:ambient_digest_times" then st.(slots := p.note)
                       else if watch && p.note != [] then st.(bars := st.bars[p.category := p.note[0]]) else st;
            Approved(st, id, at)
            == if p.source != Proposal then None
               else Some(done.(ledger := st.ledger + [Entry(st.ledger, p.category, None, if setting || watch then None else p.override,
                                                           ByLearner, [], at)]))
  {
    FindsRow(st.ledger, p, id);
    PrefixIs(p.category, "setting:");
    PrefixIs(p.category, "intent:");
    assert FLOOR[0] == 's' && SLOTS[0] == 's' && "intent:"[0] == 'i';
    var x :| 0 <= x < |st.ledger| && st.ledger[x] == p;
    hide Find, StartsWith, Newest;
  }

  lemma PrefixIs(s: string, prefix: string)
    ensures StartsWith(s, prefix) <==> prefix <= s
  {}

  lemma FindsRow(ledger: Ledger, p: Policy, id: nat)
    requires Numbered(ledger) && RowOfId(ledger, p, id)
    ensures Find(ledger, id) == Some(p)
  {
    var x :| 0 <= x < |ledger| && ledger[x] == p;
  }

  lemma ApprovalOfNothing(st: Learned, id: nat, at: nat)
    requires Legal(st.ledger) && forall p :: !RowOfId(st.ledger, p, id)
    ensures Approved(st, id, at) == None
  {
    var r := Newest(st.ledger, (p: Policy) => p.id == id);
    if r.Some? {
      assert RowOfId(st.ledger, st.ledger[r.value], id);
    }
  }

  /** A rejection re-marks the open proposal of its id, if there is one, and nothing else. */
  lemma RejectionDecidesExactly(ledger: Ledger, id: nat, i: nat)
    requires i < |ledger|
    ensures var after := RejectedIn(ledger, id);
            && |after| == |ledger|
            && after[i] == if ledger[i].id == id && ledger[i].source == Proposal then ledger[i].(source := Rejected) else ledger[i]
  {}

  // ── The judged rows behind a bucket ──

  /** The decided rows of the category before place `n`. */
  function DecidedBefore(rows: seq<Judged>, category: string, n: nat): set<nat> {
    set x: nat | x < n && x < |rows| && rows[x].category == category && rows[x].decision != DeliveryModel.Undecided
  }

  lemma DecidedStep(rows: seq<Judged>, category: string, n: nat)
    requires n < |rows|
    ensures var here := rows[n].category == category && rows[n].decision != DeliveryModel.Undecided;
            && DecidedBefore(rows, category, n + 1) == DecidedBefore(rows, category, n) + (if here then {n} else {})
            && n !in DecidedBefore(rows, category, n)
            && DecidedOf(rows, category, n + 1)
               == DecidedOf(rows, category, n) + (if here then [rows[n].decision == DeliveryModel.Applied] else [])
  {}

  lemma {:induction false} DecidedCounts(rows: seq<Judged>, category: string, n: nat)
    requires n <= |rows|
    ensures |DecidedOf(rows, category, n)| == |DecidedBefore(rows, category, n)|
  {
    if n == 0 {
      assert DecidedBefore(rows, category, 0) == {};
    } else {
      DecidedCounts(rows, category, n - 1);
      DecidedStep(rows, category, n - 1);
    }
  }

  lemma {:induction false} DecidedPlace(rows: seq<Judged>, category: string, n: nat, x: nat)
    requires n <= |rows| && x in DecidedBefore(rows, category, n)
    ensures var place := |DecidedBefore(rows, category, x)|;
            && place < |DecidedOf(rows, category, n)|
            && (DecidedOf(rows, category, n)[place] <==> rows[x].decision == DeliveryModel.Applied)
    decreases n
  {
    DecidedStep(rows, category, n - 1);
    if x == n - 1 {
      DecidedCounts(rows, category, n - 1);
    } else {
      hide DecidedOf;
      DecidedPlace(rows, category, n - 1, x);
    }
  }

  /** Main result. A bucket holds the newest twenty decided verdicts of its category, fewer if there are fewer,
    * in order; only an applied one is an endorsement. */
  lemma BucketsHoldTheNewest(buckets: seq<Bucket>, rows: seq<Judged>, b: nat, x: nat)
    requires FilledFrom(buckets, rows, |rows|) && b < |buckets| && x < |rows|
    ensures var all := |DecidedBefore(rows, buckets[b].category, |rows|)|;
            |buckets[b].decisions| == if all < 20 then all else 20
    ensures var before := |DecidedBefore(rows, buckets[b].category, x)|;
            rows[x].category == buckets[b].category && rows[x].decision != DeliveryModel.Undecided && before < 20
            ==> before < |buckets[b].decisions|
                && (buckets[b].decisions[before] <==> rows[x].decision == DeliveryModel.Applied)
  {
    DecidedCounts(rows, buckets[b].category, |rows|);
    if x in DecidedBefore(rows, buckets[b].category, |rows|) {
      DecidedPlace(rows, buckets[b].category, |rows|, x);
    }
  }

  // ── Digest times ──

  predicate Closest(slots: seq<nat>, minute: nat, i: nat) {
    && i < |slots|
    && forall j :: 0 <= j < |slots| ==> Gap(slots[i], minute) <= Gap(slots[j], minute)
                                        && (j < i ==> Gap(slots[i], minute) < Gap(slots[j], minute))
  }

  function Gap(a: nat, b: nat): nat {
    if a > b then a - b else b - a
  }

  /** How many deliveries voted for the slot, and the sum of their minutes. */
  function Ballot(slots: seq<nat>, accepted: seq<nat>, i: nat): (nat, nat) {
    if accepted == [] then (0, 0)
    else
      var (n, sum) := Ballot(slots, accepted[1..], i);
      if Closest(slots, accepted[0], i) then (n + 1, sum + accepted[0]) else (n, sum)
  }

  lemma {:induction false} BallotGrows(slots: seq<nat>, accepted: seq<nat>, m: nat, i: nat)
    ensures var b, more := Ballot(slots, accepted, i), Ballot(slots, accepted + [m], i);
            more == if Closest(slots, m, i) then (b.0 + 1, b.1 + m) else b
    decreases |accepted|
  {
    if accepted == [] {
      assert [] + [m] == [m] && [m][1..] == [];
    } else {
      assert (accepted + [m])[1..] == accepted[1..] + [m];
      BallotGrows(slots, accepted[1..], m, i);
    }
  }

  lemma NearestIsClosest(slots: seq<nat>, minute: nat, i: nat)
    requires i < |slots|
    ensures Closest(slots, minute, i) <==> Nearest(slots, minute, |slots|) == i
  {
    var r := Nearest(slots, minute, |slots|);
    assert forall j :: 0 <= j < |slots| ==> Gap(slots[j], minute) == Learning.Apart(slots[j], minute);
    assert Gap(slots[r], minute) <= Gap(slots[i], minute);
  }

  lemma {:induction false} VotesAreBallot(slots: seq<nat>, accepted: seq<nat>, i: nat)
    requires i < |slots|
    ensures Ballot(slots, accepted, i) == (|Votes(slots, accepted, i)|, Sum(Votes(slots, accepted, i)))
  {
    if accepted != [] {
      var front, m := accepted[..|accepted| - 1], accepted[|accepted| - 1];
      assert accepted == front + [m];
      VotesAreBallot(slots, front, i);
      BallotGrows(slots, front, m, i);
      NearestIsClosest(slots, m, i);
      var votes := Votes(slots, front, i);
      assert (votes + [m])[..|votes|] == votes && votes + [] == votes;
    }
  }

  /** Where a slot moves: to the mean of its votes, three at least, pulled to within two hours of its anchor. */
  function Moved(slots: seq<nat>, anchor: seq<nat>, accepted: seq<nat>, i: nat): nat
    requires |anchor| == |slots| && i < |slots|
  {
    var (n, sum) := Ballot(slots, accepted, i);
    if n < 3 then slots[i]
    else
      var mean := sum / n;
      (if mean > anchor[i] + 120 then anchor[i] + 120 else if mean + 120 < anchor[i] then anchor[i] - 120 else mean) % 1440
  }

  function AllMoved(slots: seq<nat>, anchor: seq<nat>, accepted: seq<nat>): seq<nat>
    requires |anchor| == |slots|
  {
    seq(|slots|, i requires 0 <= i < |slots| => Moved(slots, anchor, accepted, i))
  }

  /** The newest row of the anchor's category, if there is one. */
  ghost predicate IsAnchor(ledger: Ledger, row: Option<Policy>) {
    && (forall q :: q in ledger && q.category == "digest_anchor" ==> row.Some? && q.id <= row.value.id)
    && (row.Some? ==> row.value in ledger && row.value.category == "digest_anchor")
  }

  lemma AnchorIsNewest(ledger: Ledger, row: Option<Policy>)
    requires Numbered(ledger) && IsAnchor(ledger, row)
    ensures AnchorRow(ledger) == row
  {
    var r := Newest(ledger, (p: Policy) => p.category == ANCHOR);
    if row.Some? {
      var x :| 0 <= x < |ledger| && ledger[x] == row.value;
      assert r.Some? && x <= r.value && ledger[r.value] in ledger;
      assert forall y :: x < y < |ledger| ==> ledger[x].id < ledger[y].id;
    }
    if r.Some? {
      assert ledger[r.value] in ledger;
    }
  }

  /** Main result. A digest-time pass needs a slot and three accepted deliveries. It ledgers the slots as their
    * own anchor if there is none yet. A clearing row in the anchor's place is an error where one slot is
    * configured and is ignored otherwise, like an anchor of another length. Each slot then moves as its votes
    * and its anchor have it; a change is made and ledgered in auto mode, and proposed otherwise. */
  lemma DigestTimesDecideExactly(st: Learned, accepted: seq<nat>, auto: bool, at: nat, row: Option<Policy>)
    requires Numbered(st.ledger) && IsAnchor(st.ledger, row)
    ensures var ledger := if row.None? then st.ledger + [Entry(st.ledger, "digest_anchor", None, None, ByLearner, st.slots, at)]
                          else st.ledger;
            var anchor := if row.Some? && row.value.source != ByUser && |row.value.note| == |st.slots| then row.value.note else st.slots;
            var moved := AllMoved(st.slots, anchor, accepted);
            DigestLearned(st, accepted, auto, at)
            == if st.slots == [] || |accepted| < 3 then (st, true)
               else if row.Some? && row.value.source == ByUser && |st.slots| == 1
               then (st.(ledger := ledger), Ballot(st.slots, accepted, 0).0 < 3)
               else if moved == st.slots then (st.(ledger := ledger), true)
               else if auto
               then (st.(slots := moved,
                         ledger := ledger + [Entry(ledger, "setting:ambient_digest_times", None, None, ByLearner, [], at)]), true)
               else (st.(ledger := ledger + [Entry(ledger, "setting:ambient_digest_times", None, None, Proposal, moved, at)]), true)
  {
    AnchorIsNewest(st.ledger, row);
    AnchorDecides(st, at, row);
    DigestPass(st, accepted, auto, at);
    hide DigestLearned, Entry, AnchorRow, AnchorFor, Anchored, Shifted, AllMoved, Votes, Ballot, IsAnchor, Numbered;
    if st.slots != [] {
      VotesAreBallot(st.slots, accepted, 0);
    }
    var anchor := AnchorFor(st.ledger, st.slots);
    if anchor.Some? {
      ShiftedAreMoved(st.slots, anchor.value, accepted);
    }
  }

  /** The pass from its own anchor, with the rows it adds. */
  lemma DigestPass(st: Learned, accepted: seq<nat>, auto: bool, at: nat)
    ensures var t, anchor := Anchored(st, at), AnchorFor(st.ledger, st.slots);
            DigestLearned(st, accepted, auto, at)
            == if st.slots == [] || |accepted| < 3 then (st, true)
               else if anchor.None? then (t, |Votes(st.slots, accepted, 0)| < 3)
               else
                 var moved := Shifted(st.slots, anchor.value, accepted);
                 if moved == st.slots then (t, true)
                 else if auto
                 then (t.(slots := moved,
                          ledger := t.ledger + [Entry(t.ledger, "setting:ambient_digest_times", None, None, ByLearner, [], at)]), true)
                 else (t.(ledger := t.ledger + [Entry(t.ledger, "setting:ambient_digest_times", None, None, Proposal, moved, at)]), true)
  {
    hide AnchorRow, AnchorFor, Anchored, Shifted, Votes;
  }

  lemma AnchorDecides(st: Learned, at: nat, row: Option<Policy>)
    requires AnchorRow(st.ledger) == row
    ensures AnchorFor(st.ledger, st.slots)
            == if row.Some? && row.value.source == ByUser && |st.slots| == 1 then None
               else Some(if row.Some? && row.value.source != ByUser && |row.value.note| == |st.slots| then row.value.note
                         else st.slots)
    ensures Anchored(st, at)
            == if row.Some? then st
               else st.(ledger := st.ledger + [Entry(st.ledger, "digest_anchor", None, None, ByLearner, st.slots, at)])
  {
    hide AnchorRow;
  }

  lemma ShiftedAreMoved(slots: seq<nat>, anchor: seq<nat>, accepted: seq<nat>)
    requires |anchor| == |slots|
    ensures Shifted(slots, anchor, accepted) == AllMoved(slots, anchor, accepted)
  {
    hide ShiftedSlot, Moved;
    forall i | 0 <= i < |slots| ensures ShiftedSlot(slots, anchor, accepted, i) == Moved(slots, anchor, accepted, i) {
      ShiftedIsMoved(slots, anchor, accepted, i);
    }
  }

  lemma ShiftedIsMoved(slots: seq<nat>, anchor: seq<nat>, accepted: seq<nat>, i: nat)
    requires |anchor| == |slots| && i < |slots|
    ensures ShiftedSlot(slots, anchor, accepted, i) == Moved(slots, anchor, accepted, i)
  {
    VotesAreBallot(slots, accepted, i);
    hide Votes, Ballot, Sum;
  }

  // ── Runs ──

  /** A run of learners does to the learned state what its passes do, one after the other; what a person
    * configures takes effect as it is. */
  lemma RunStepsExactly(s: LearnerRuns.State, op: LearnerRuns.Op)
    requires Legal(s.st.ledger) && LearnerRuns.Enabled(op)
    ensures LearnerRuns.Apply(s, op).st ==
            match op
            case Retier(sigs, owner, auto, at) => Retiered(s.st, sigs, owner, auto, at)
            case LearnDigest(accepted, auto, at) => DigestLearned(s.st, accepted, auto, at).0
            case LearnBar(key, mean, judged, auto, at) => BarLearned(s.st, key, mean, judged, auto, at)
            case Tune(buckets, auto, at) => Tuned(s.st, buckets, auto, at)
            case Rule(category, owner, endorsed, judged, latest, at) =>
              PrecisionRuled(s.st, category, owner, endorsed, judged, latest, at)
            case Approve(id, at) => if Approved(s.st, id, at).Some? then Approved(s.st, id, at).value else s.st
            case Reject(id) => s.st.(ledger := RejectedIn(s.st.ledger, id))
            case Revert(category, at) =>
              s.st.(ledger := s.st.ledger + [Policy(NextId(s.st.ledger), category, None, None, ByUser, [], at)])
            case SetSlots(slots) => s.st.(slots := slots)
            case SetFloor(floor) => s.st.(floor := floor)
  {}
}

/** What each delivery pass does to each row, on the rows of the table alone: who goes out, on which channel,
  * and who waits. */
module DeliveryDecisions {
  import opened Options
  import opened Sorting
  import opened DeliveryModel
  import opened DeliveryRuns
  import PolicyLedger

  /** A row of the bucket that waits for delivery in this tier. */
  predicate WaitsIn(row: Row, bucket: Bucket, tier: int) {
    && row.deliveredAt.None? && row.supersededBy.None? && row.tier == tier
    && (bucket == Everyone || row.owner == bucket.owner)
  }

  predicate Mine(row: Row, bucket: Bucket) {
    bucket == Everyone || row.owner == bucket.owner
  }

  /** More urgent, or as urgent and older. */
  predicate Before(rows: seq<Row>, j: nat, i: nat)
    requires i < |rows| && j < |rows|
  {
    rows[j].urgency > rows[i].urgency || (rows[j].urgency == rows[i].urgency && j < i)
  }

  predicate IsApproval(row: Row) {
    row.category == "hitl" || row.category == "learning"
  }

  /** The rows that wait in the tier before row `i`. */
  function Rivals(rows: seq<Row>, bucket: Bucket, tier: int, i: nat): set<nat>
    requires i < |rows|
  {
    set j: nat | j < |rows| && WaitsIn(rows[j], bucket, tier) && Before(rows, j, i)
  }

  /** Interrupts the bucket has had since the UTC midnight before `now`. */
  function InterruptsToday(rows: seq<Row>, bucket: Bucket, now: nat): set<nat> {
    set j: nat | j < |rows| && Mine(rows[j], bucket) && rows[j].channel == Some(Interrupt)
                 && rows[j].deliveredAt.Some? && rows[j].deliveredAt.value >= now - now % 86400
  }

  function ApprovalsToday(rows: seq<Row>, bucket: Bucket, now: nat): set<nat> {
    set j: nat | j < |rows| && Mine(rows[j], bucket) && IsApproval(rows[j])
                 && rows[j].deliveredAt.Some? && rows[j].deliveredAt.value >= now - now % 86400
  }

  function Sent(row: Row, channel: Channel, now: nat): Row {
    row.(deliveredAt := Some(now), channel := Some(channel))
  }

  lemma BeforeIsAhead(rows: seq<Row>, i: nat, j: nat)
    requires i < |rows| && j < |rows|
    ensures Ahead(UrgencyOf(rows), j, i) <==> Before(rows, j, i)
  {}

  // ── Interrupts ──

  /** In a sorted list of waiting rows, `p` come before the one in place `p`. */
  lemma RivalsArePlace(rows: seq<Row>, bucket: Bucket, tier: int, ids: seq<nat>, p: nat)
    requires Sorted(UrgencyOf(rows), ids) && p < |ids|
    requires forall j: nat :: j in ids <==> j < |rows| && WaitsIn(rows[j], bucket, tier)
    ensures ids[p] < |rows| && |Rivals(rows, bucket, tier, ids[p])| == p
  {
    assert ids[p] in ids;
    forall j: nat
      ensures j in Rivals(rows, bucket, tier, ids[p]) <==> j in ids && Ahead(UrgencyOf(rows), j, ids[p])
    {
      if j < |rows| {
        BeforeIsAhead(rows, ids[p], j);
      }
    }
    PlaceIsCount(UrgencyOf(rows), ids, p, Rivals(rows, bucket, tier, ids[p]));
  }

  lemma CountsInterrupts(rows: seq<Row>, bucket: Bucket, now: nat)
    ensures InterruptsSince(rows, bucket, UtcMidnight(now)) == |InterruptsToday(rows, bucket, now)|
    ensures ApprovalsSince(rows, bucket, UtcMidnight(now)) == |ApprovalsToday(rows, bucket, now)|
  {
    assert (set i: nat | i < |rows| && InBucket(rows[i], bucket) && rows[i].channel == Some(Interrupt)
                         && rows[i].deliveredAt.Some? && rows[i].deliveredAt.value >= UtcMidnight(now))
           == InterruptsToday(rows, bucket, now);
    assert (set i: nat | i < |rows| && InBucket(rows[i], bucket) && rows[i].category in APPROVAL_CATEGORIES
                         && rows[i].deliveredAt.Some? && rows[i].deliveredAt.value >= UtcMidnight(now))
           == ApprovalsToday(rows, bucket, now);
  }

  /** Main result. A pending interrupt goes out exactly if it is not quiet and the interrupts sent today and
    * those before it leave room in the budget; every other one moves to the digest. Nothing else changes. */
  lemma InterruptsDecideExactly(rows: seq<Row>, bucket: Bucket, now: nat, quiet: bool, budget: nat, i: nat)
    requires i < |rows|
    ensures var after := AfterInterrupts(rows, bucket, now, quiet, budget);
            && |after| == |rows|
            && after[i] == if !WaitsIn(rows[i], bucket, 0) then rows[i]
                           else if !quiet && |InterruptsToday(rows, bucket, now)| + |Rivals(rows, bucket, 0, i)| < budget
                           then Sent(rows[i], Interrupt, now)
                           else rows[i].(tier := 2)
  {
    hide Pending, InterruptsSince, UtcMidnight, Rivals, InterruptsToday;
    var ids := Pending(rows, 0, bucket);
    PendingAreRows(rows, 0, bucket);
    CountsInterrupts(rows, bucket, now);
    var room := if quiet then 0 else Left(budget, InterruptsSince(rows, bucket, UtcMidnight(now)));
    var n := if |ids| <= room then |ids| else room;
    Halves(ids, n);
    if i in ids {
      var p :| 0 <= p < |ids| && ids[p] == i;
      RivalsArePlace(rows, bucket, 0, ids, p);
      PrefixHolds(ids, p, n);
    }
  }

  /** Main result. A pending notify goes out, or in quiet hours moves to the digest, exactly if its user is
    * present or its deadline has come. Nothing else changes. */
  lemma NotifiesDecideExactly(rows: seq<Row>, bucket: Bucket, now: nat, quiet: bool, present: bool, i: nat)
    requires i < |rows|
    ensures var after := AfterTier1(rows, bucket, now, quiet, present);
            && |after| == |rows|
            && after[i] == if !WaitsIn(rows[i], bucket, 1)
                              || !(present || (rows[i].noLaterThan.Some? && rows[i].noLaterThan.value <= now)) then rows[i]
                           else if quiet then rows[i].(tier := 2) else Sent(rows[i], Notify, now)
  {
    hide AfterTier1;
    Tier1ActsOnTheReady(rows, bucket, now, quiet, present, i);
  }

  /** The approvals that wait for the digest before row `i`. */
  function ApprovalRivals(rows: seq<Row>, bucket: Bucket, i: nat): set<nat>
    requires i < |rows|
  {
    set j: nat | j < |rows| && WaitsIn(rows[j], bucket, 2) && IsApproval(rows[j]) && Before(rows, j, i)
  }

  predicate FitsDigest(rows: seq<Row>, bucket: Bucket, now: nat, budget: nat, i: nat)
    requires i < |rows|
  {
    IsApproval(rows[i]) ==> |ApprovalsToday(rows, bucket, now)| + |ApprovalRivals(rows, bucket, i)| < budget
  }

  lemma DigestsDecideExactly(rows: seq<Row>, bucket: Bucket, now: nat, budget: nat, i: nat)
    requires i < |rows|
    ensures var after := AfterDigest(rows, bucket, now, budget);
            && |after| == |rows|
            && after[i] == if WaitsIn(rows[i], bucket, 2) && FitsDigest(rows, bucket, now, budget, i)
                           then Sent(rows[i], Digest, now) else rows[i]
  {
    hide AfterDigest, UtcMidnight, ApprovalsSince, UrgencyOf;
    DigestTakesTheMostUrgent(rows, bucket, now, budget, i);
    CountsInterrupts(rows, bucket, now);
    forall j: nat ensures j in ApprovalsAhead(rows, bucket, i) <==> j in ApprovalRivals(rows, bucket, i) {
      if j < |rows| {
        BeforeIsAhead(rows, i, j);
      }
    }
    assert ApprovalsAhead(rows, bucket, i) == ApprovalRivals(rows, bucket, i);
  }

  // ── The whole pass ──

  /** The instant of the bucket's last digest delivery, if it had one. */
  ghost predicate LastDigest(rows: seq<Row>, bucket: Bucket, last: Option<nat>) {
    && (forall j :: 0 <= j < |rows| && Mine(rows[j], bucket) && rows[j].channel == Some(Digest) && rows[j].deliveredAt.Some?
          ==> last.Some? && rows[j].deliveredAt.value <= last.value)
    && (last.Some? ==> exists j :: 0 <= j < |rows| && Mine(rows[j], bucket) && rows[j].channel == Some(Digest)
                                   && rows[j].deliveredAt == last)
  }

  /** A configured time of the local day that lies after the last digest and has come. */
  predicate SlotReached(m: Moment, times: seq<Clock>, last: Option<nat>) {
    exists t :: t in times && (last.Some? ==> last.value < m.midnight + t.hour * 3600 + t.minute * 60)
                && m.midnight + t.hour * 3600 + t.minute * 60 <= m.now
  }

  predicate Impossible(times: seq<Clock>) {
    exists t :: t in times && (t.hour >= 24 || t.minute >= 60)
  }

  /** The row went out in a digest. */
  predicate Digested(row: Row) {
    row.channel == Some(Digest) && row.deliveredAt.Some?
  }

  /** Where the digested rows are the same, the last digest is. */
  lemma LastDigestStays(rows: seq<Row>, after: seq<Row>, bucket: Bucket, last: Option<nat>)
    requires LastDigest(rows, bucket, last) && |after| == |rows|
    requires forall i :: 0 <= i < |rows| ==>
               after[i].owner == rows[i].owner && (Digested(after[i]) <==> Digested(rows[i]))
               && (Digested(rows[i]) ==> after[i].deliveredAt == rows[i].deliveredAt)
    ensures LastDigest(after, bucket, last)
  {
    if last.Some? {
      var j :| 0 <= j < |rows| && Mine(rows[j], bucket) && rows[j].channel == Some(Digest) && rows[j].deliveredAt == last;
      assert Digested(rows[j]) && Digested(after[j]) && after[j].deliveredAt == last;
    }
    forall j | 0 <= j < |after| && Mine(after[j], bucket) && after[j].channel == Some(Digest) && after[j].deliveredAt.Some?
      ensures last.Some? && after[j].deliveredAt.value <= last.value
    {
      assert Digested(after[j]) && Digested(rows[j]);
    }
  }

  lemma DueExactly(rows: seq<Row>, bucket: Bucket, m: Moment, times: seq<Clock>, last: Option<nat>)
    requires LastDigest(rows, bucket, last)
    ensures DigestDue(rows, bucket, m, times) == if Impossible(times) then None else Some(SlotReached(m, times, last))
  {
    assert Impossible(times) <==> exists t :: t in times && !RealTime(t);
    if !Impossible(times) {
      if last.Some? {
        var j :| 0 <= j < |rows| && Mine(rows[j], bucket) && rows[j].channel == Some(Digest) && rows[j].deliveredAt == last;
        assert DigestAfter(rows, bucket, last.value) && !DigestAfter(rows, bucket, last.value + 1);
      } else {
        assert !DigestAfter(rows, bucket, 0);
      }
      hide DigestDue, DigestAfter;
      DigestDueOncePerSlot(rows, bucket, last, m, times);
      assert forall t: Clock :: SecondsOf(t) == t.hour * 3600 + t.minute * 60;
      SlotIsReached(m, times, last);
    }
  }

  lemma SlotIsReached(m: Moment, times: seq<Clock>, last: Option<nat>)
    ensures (exists t :: t in times && (last.Some? ==> last.value < m.midnight + SecondsOf(t))
                         && m.midnight + SecondsOf(t) <= m.now)
            <==> SlotReached(m, times, last)
  {}

  /** Main result. What a whole flush does, by quiet hours and slots: an impossible clock of the quiet hours
    * stops it at once; in quiet hours the real-time steps are all; otherwise an impossible slot stops it after
    * them, and where a slot has been reached since the last digest, each row that waits in tier 2 by then,
    * demoted interrupts included, goes out in a digest exactly if it is no approval or fits the budget. */
  lemma FlushDecidesExactly(rows: seq<Row>, bucket: Bucket, m: Moment, s: Settings, present: bool, last: Option<nat>, i: nat)
    requires i < |rows| && LastDigest(rows, bucket, last)
    ensures var (after, ok) := AfterFlush(rows, bucket, m, s, present);
            var quiet := InQuietHours((m.now - m.midnight) % 86400, s.quietHours);
            && |after| == |rows|
            && if quiet.None? then !ok && after[i] == rows[i]
               else
                 var r0 := AfterInterrupts(rows, bucket, m.now, quiet.value, s.budget);
                 var r1 := AfterTier1(r0, bucket, m.now, quiet.value, present);
                 && |r1| == |rows| && (ok <==> quiet.value || !Impossible(s.digestTimes))
                 && after[i] == if !quiet.value && ok && SlotReached(m, s.digestTimes, last)
                                   && WaitsIn(r1[i], bucket, 2) && FitsDigest(r1, bucket, m.now, s.escalationBudget, i)
                                then Sent(r1[i], Digest, m.now) else r1[i]
  {
    hide AfterInterrupts, AfterTier1, AfterDigest, InQuietHours, DigestDue, SlotReached, Impossible, FitsDigest, LastDigest;
    var quiet := InQuietHours(LocalSecond(m), s.quietHours);
    if quiet.Some? {
      var r0 := AfterInterrupts(rows, bucket, m.now, quiet.value, s.budget);
      var r1 := AfterTier1(r0, bucket, m.now, quiet.value, present);
      InterruptsDecideExactly(rows, bucket, m.now, quiet.value, s.budget, i);
      NotifiesDecideExactly(r0, bucket, m.now, quiet.value, present, i);
      if !quiet.value {
        RealTimeKeepsDigests(rows, bucket, m.now, s.budget, present, last);
        DueExactly(r1, bucket, m, s.digestTimes, last);
        DigestsDecideExactly(r1, bucket, m.now, s.escalationBudget, i);
      }
    }
  }

  lemma RealTimeKeepsDigests(rows: seq<Row>, bucket: Bucket, now: nat, budget: nat, present: bool, last: Option<nat>)
    requires LastDigest(rows, bucket, last)
    requires |AfterInterrupts(rows, bucket, now, false, budget)| == |rows|
    ensures var r1 := AfterTier1(AfterInterrupts(rows, bucket, now, false, budget), bucket, now, false, present);
            |r1| == |rows| && LastDigest(r1, bucket, last)
  {
    hide AfterInterrupts, AfterTier1, LastDigest;
    var r0 := AfterInterrupts(rows, bucket, now, false, budget);
    var r1 := AfterTier1(r0, bucket, now, false, present);
    assert |r1| == |r0| by { Tier1Length(r0, bucket, now, present); }
    forall i | 0 <= i < |rows|
      ensures r1[i].owner == rows[i].owner && (Digested(r1[i]) <==> Digested(rows[i]))
      ensures Digested(rows[i]) ==> r1[i].deliveredAt == rows[i].deliveredAt
    {
      InterruptsDecideExactly(rows, bucket, now, false, budget, i);
      NotifiesDecideExactly(r0, bucket, now, false, present, i);
    }
    LastDigestStays(rows, r1, bucket, last);
  }

  lemma Tier1Length(rows: seq<Row>, bucket: Bucket, now: nat, present: bool)
    ensures |AfterTier1(rows, bucket, now, false, present)| == |rows|
  {}

  /** Main result. A return delivers every pending notify of the bucket, and after more than an hour away it
    * adds a digest. */
  lemma ReturnDecidesExactly(rows: seq<Row>, bucket: Bucket, now: nat, away: nat, budget: nat, i: nat)
    requires i < |rows|
    ensures var after := AfterReturn(rows, bucket, now, away, budget);
            var r1 := seq(|rows|, j requires 0 <= j < |rows| =>
                        if WaitsIn(rows[j], bucket, 1) then Sent(rows[j], Notify, now) else rows[j]);
            && |after| == |rows|
            && after[i] == if away > 3600 && WaitsIn(r1[i], bucket, 2) && FitsDigest(r1, bucket, now, budget, i)
                           then Sent(r1[i], Digest, now) else r1[i]
  {
    hide AfterTier1, AfterDigest, FitsDigest, WaitsIn;
    var t1 := AfterTier1(rows, bucket, now, false, true);
    Tier1Length(rows, bucket, now, true);
    forall j | 0 <= j < |rows| ensures t1[j] == if WaitsIn(rows[j], bucket, 1) then Sent(rows[j], Notify, now) else rows[j] {
      NotifiesDecideExactly(rows, bucket, now, false, true, j);
    }
    assert t1 == seq(|rows|, j requires 0 <= j < |rows| =>
                   if WaitsIn(rows[j], bucket, 1) then Sent(rows[j], Notify, now) else rows[j]);
    DigestsDecideExactly(t1, bucket, now, budget, i);
  }

  // ── Quiet hours and the insert path ──

  /** How far the second `t` of the day lies after `from` on the clock face. */
  function Clockwise(from: nat, t: nat): int {
    (t + 86400 - from) % 86400
  }

  /** Quiet hours are off unless there are exactly two clocks, an error if one of them is no time of day, and
    * else the arc from the first to the second. */
  lemma QuietDecidesExactly(local: nat, ranges: seq<Clock>)
    requires local < 86400
    ensures InQuietHours(local, ranges)
            == if |ranges| != 2 then Some(false)
               else if Impossible(ranges) then None
               else
                 var from, to := ranges[0].hour * 3600 + ranges[0].minute * 60, ranges[1].hour * 3600 + ranges[1].minute * 60;
                 Some(Clockwise(from, local) < Clockwise(from, to))
  {
    hide InQuietHours, Forward, Impossible, Clockwise;
    if |ranges| != 2 {
      NeverQuiet(local, ranges);
    } else {
      ImpossibleOfTwo(ranges);
      if Impossible(ranges) {
        ImpossibleIsAnError(local, ranges);
      } else {
        QuietIsAnArc(local, ranges);
        ForwardIs(ranges[0].hour * 3600 + ranges[0].minute * 60, local);
        ForwardIs(ranges[0].hour * 3600 + ranges[0].minute * 60, ranges[1].hour * 3600 + ranges[1].minute * 60);
      }
    }
  }

  lemma NeverQuiet(local: nat, ranges: seq<Clock>)
    requires |ranges| != 2
    ensures InQuietHours(local, ranges) == Some(false)
  {}

  lemma ImpossibleOfTwo(ranges: seq<Clock>)
    requires |ranges| == 2
    ensures Impossible(ranges) <==> !RealTime(ranges[0]) || !RealTime(ranges[1])
  {
    assert ranges[0] in ranges && ranges[1] in ranges && forall t :: t in ranges ==> t == ranges[0] || t == ranges[1];
  }

  lemma ImpossibleIsAnError(local: nat, ranges: seq<Clock>)
    requires |ranges| == 2 && (!RealTime(ranges[0]) || !RealTime(ranges[1]))
    ensures InQuietHours(local, ranges) == None
  {}

  lemma ForwardIs(from: nat, t: nat)
    requires from < 86400
    ensures Forward(from, t) == Clockwise(from, t)
  {}

  /** Main result. An insert adds one row: on the tier in effect for its category and owner, delivered
    * silently at once on tier 3 and pending otherwise. It supersedes exactly the rows of its key that were
    * pending, and changes no other. */
  lemma InsertDecidesExactly(rows: seq<Row>, ledger: PolicyLedger.Ledger, req: Request, now: nat, i: nat)
    requires i < |rows|
    ensures var after, o := Added(rows, ledger, req, now), PolicyLedger.Override(ledger, req.category, req.owner);
            var tier := if o.Some? then o.value else req.tier;
            && |after| == |rows| + 1
            && after[|rows|] == Row(req.owner, req.category, tier, req.urgency, req.skey, req.noLaterThan,
                                    if tier == 3 then Some(now) else None, if tier == 3 then Some(Silent) else None,
                                    None, None, None)
            && after[i] == if req.skey != "" && rows[i].skey == req.skey
                              && rows[i].deliveredAt.None? && rows[i].supersededBy.None?
                           then rows[i].(supersededBy := Some(|rows|)) else rows[i]
  {}

  /** A batch that is marked takes exactly its rows that are still undelivered by then. */
  lemma BatchMarksExactly(rows: seq<Row>, ids: seq<nat>, channel: Channel, now: nat, i: nat)
    requires i < |rows|
    ensures var after := Delivered(rows, ids, channel, now);
            && |after| == |rows|
            && after[i] == if i in ids && rows[i].deliveredAt.None? then Sent(rows[i], channel, now) else rows[i]
  {}
}

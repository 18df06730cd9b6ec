/** What the outbox guarantees over whole runs of inserts, flushes and user returns, with the salience
  * machine off and passes that do not overlap.
  */
module DeliveryRuns {
  import opened Options
  import opened Sorting
  import opened DeliveryModel
  import PolicyLedger

  // ── One row through one pass ──

  function ChannelOf(tier: int): Channel {
    if tier == 0 then Interrupt else if tier == 1 then Notify else Digest
  }

  /** A row waits or is delivered now, on the channel of the tier it ends with; a real-time row may
    * have been moved to tier 2 first. Nothing else changes. */
  ghost predicate Fate(before: Row, after: Row, now: nat) {
    && after == before.(tier := after.tier, deliveredAt := after.deliveredAt, channel := after.channel)
    && (after.tier == before.tier || (before.tier in {0, 1} && after.tier == 2))
    && ((after.deliveredAt == before.deliveredAt && after.channel == before.channel)
        || (before.deliveredAt.None? && after.deliveredAt == Some(now) && after.channel == Some(ChannelOf(after.tier))
            && after.tier in {0, 1, 2}))
  }

  /** Every live row of the bucket meets its fate; every other row is left alone. */
  ghost predicate Fates(before: seq<Row>, after: seq<Row>, bucket: Bucket, now: nat) {
    && |after| == |before|
    && forall i :: 0 <= i < |before| ==>
         if Live(before[i]) && InBucket(before[i], bucket) then Fate(before[i], after[i], now)
         else after[i] == before[i]
  }

  lemma FatesCompose(a: seq<Row>, b: seq<Row>, c: seq<Row>, bucket: Bucket, now: nat)
    requires Fates(a, b, bucket, now) && Fates(b, c, bucket, now)
    ensures Fates(a, c, bucket, now)
  {
    forall i | 0 <= i < |a|
      ensures if Live(a[i]) && InBucket(a[i], bucket) then Fate(a[i], c[i], now) else c[i] == a[i]
    {
      assert if Live(b[i]) && InBucket(b[i], bucket) then Fate(b[i], c[i], now) else c[i] == b[i];
    }
  }

  lemma InterruptFates(rows: seq<Row>, bucket: Bucket, now: nat, quiet: bool, budget: nat)
    ensures Fates(rows, AfterInterrupts(rows, bucket, now, quiet, budget), bucket, now)
  {
    hide Pending, InterruptsSince;
    var ids := Pending(rows, 0, bucket);
    PendingAreRows(rows, 0, bucket);
    var room := if quiet then 0 else Left(budget, InterruptsSince(rows, bucket, UtcMidnight(now)));
    var n := if |ids| <= room then |ids| else room;
    Halves(ids, n);
  }

  lemma Halves(ids: seq<nat>, n: nat)
    requires n <= |ids| && Distinct(ids)
    ensures forall i: nat :: i in ids <==> i in ids[..n] || i in ids[n..]
    ensures forall i: nat :: !(i in ids[..n] && i in ids[n..])
    ensures Distinct(ids[..n])
  {
    assert ids == ids[..n] + ids[n..];
  }

  lemma {:induction false} ReadyAre(rows: seq<Row>, ids: seq<nat>, present: bool, now: nat)
    requires Within(ids, |rows|)
    ensures forall i: nat :: i in ReadyOf(rows, ids, present, now)
                             <==> i in ids && i < |rows| && IsReady(rows[i], present, now)
  {
    if ids != [] {
      ReadyAre(rows, ids[1..], present, now);
      assert ids == [ids[0]] + ids[1..];
    }
  }

  lemma Tier1Fates(rows: seq<Row>, bucket: Bucket, now: nat, quiet: bool, present: bool)
    ensures Fates(rows, AfterTier1(rows, bucket, now, quiet, present), bucket, now)
  {
    hide Pending, ReadyOf;
    PendingAreRows(rows, 1, bucket);
    ReadyAre(rows, Pending(rows, 1, bucket), present, now);
  }

  lemma {:induction false} DigestAre(rows: seq<Row>, ids: seq<nat>, allowed: nat)
    requires Within(ids, |rows|)
    ensures forall i: nat :: i in DigestOf(rows, ids, allowed) ==> i in ids
    ensures forall i: nat :: i in ids && i < |rows| && rows[i].category !in APPROVAL_CATEGORIES
                             ==> i in DigestOf(rows, ids, allowed)
  {
    if ids != [] {
      var a := if rows[ids[0]].category in APPROVAL_CATEGORIES && allowed > 0 then allowed - 1 else allowed;
      DigestAre(rows, ids[1..], a);
      assert ids == [ids[0]] + ids[1..];
    }
  }

  lemma DigestFates(rows: seq<Row>, bucket: Bucket, now: nat, escalationBudget: nat)
    ensures Fates(rows, AfterDigest(rows, bucket, now, escalationBudget), bucket, now)
  {
    hide Pending, DigestOf, ApprovalsSince;
    PendingAreRows(rows, 2, bucket);
    DigestAre(rows, Pending(rows, 2, bucket), Left(escalationBudget, ApprovalsSince(rows, bucket, UtcMidnight(now))));
  }

  /** Main result. A flush leaves every pending row of its bucket either delivered now, on the channel
    * of the tier it ends with, or pending with its tier unchanged or moved to 2; it touches nothing
    * else, and neither does the user-returned edge. */
  lemma EveryPendingRowIsAccountedFor(rows: seq<Row>, bucket: Bucket, m: Moment, s: Settings, present: bool, away: nat)
    ensures Fates(rows, AfterFlush(rows, bucket, m, s, present).0, bucket, m.now)
    ensures Fates(rows, AfterReturn(rows, bucket, m.now, away, s.escalationBudget), bucket, m.now)
  {
    hide Fates, AfterInterrupts, AfterTier1, AfterDigest, DigestDue;
    assert Fates(rows, rows, bucket, m.now) by {
      Unchanged(rows, bucket, m.now);
    }
    var quiet := InQuietHours(LocalSecond(m), s.quietHours);
    if quiet.Some? {
      var r0 := AfterInterrupts(rows, bucket, m.now, quiet.value, s.budget);
      InterruptFates(rows, bucket, m.now, quiet.value, s.budget);
      var r1 := AfterTier1(r0, bucket, m.now, quiet.value, present);
      Tier1Fates(r0, bucket, m.now, quiet.value, present);
      FatesCompose(rows, r0, r1, bucket, m.now);
      DigestFates(r1, bucket, m.now, s.escalationBudget);
      FatesCompose(rows, r1, AfterDigest(r1, bucket, m.now, s.escalationBudget), bucket, m.now);
    }
    var r1 := AfterTier1(rows, bucket, m.now, false, true);
    Tier1Fates(rows, bucket, m.now, false, true);
    DigestFates(r1, bucket, m.now, s.escalationBudget);
    FatesCompose(rows, r1, AfterDigest(r1, bucket, m.now, s.escalationBudget), bucket, m.now);
  }

  lemma Unchanged(rows: seq<Row>, bucket: Bucket, now: nat)
    ensures Fates(rows, rows, bucket, now)
  {}

  /** Main result. Quiet hours are absolute: the flush delivers nothing, moves every pending interrupt
    * of the bucket to the digest, and every notify that would have gone out now. */
  lemma QuietFlushDeliversNothing(rows: seq<Row>, bucket: Bucket, m: Moment, s: Settings, present: bool)
    requires InQuietHours(LocalSecond(m), s.quietHours) == Some(true)
    ensures var after := AfterFlush(rows, bucket, m, s, present).0;
            && |after| == |rows|
            && forall i :: 0 <= i < |rows| ==>
                 after[i] == rows[i].(tier := if !Live(rows[i]) || !InBucket(rows[i], bucket) then rows[i].tier
                                              else if rows[i].tier == 0 then 2
                                              else if rows[i].tier == 1 && IsReady(rows[i], present, m.now) then 2
                                              else rows[i].tier)
  {
    hide Pending, ReadyOf;
    var ids := Pending(rows, 0, bucket);
    PendingAreRows(rows, 0, bucket);
    assert ids[0..] == ids && ids[..0] == [];
    var r0 := AfterInterrupts(rows, bucket, m.now, true, s.budget);
    assert r0 == Demoted(rows, ids);
    PendingAreRows(r0, 1, bucket);
    ReadyAre(r0, Pending(r0, 1, bucket), present, m.now);
  }

  /** Of the pending rows `ids`, exactly `n` were sent; each of them is more urgent, or older at equal
    * urgency, than each of the others, and those moved to the digest. */
  ghost predicate FirstSent(rows: seq<Row>, after: seq<Row>, ids: seq<nat>, n: nat, now: nat) {
    && |after| == |rows|
    && var sent := set i: nat | i < |rows| && after[i].deliveredAt != rows[i].deliveredAt;
    && |sent| == n
    && (forall i: nat :: i in sent ==> i in ids && after[i] == rows[i].(deliveredAt := Some(now), channel := Some(Interrupt)))
    && (forall j: nat :: j in ids && j < |rows| && j !in sent ==> after[j] == rows[j].(tier := 2))
    && (forall i: nat, j: nat :: i in sent && j in ids && j !in sent ==> Ahead(UrgencyOf(rows), i, j))
  }

  /** Main result. Outside quiet hours exactly as many interrupts go out as are pending and fit what is
    * left of the day's budget, the most urgent ones. */
  lemma InterruptsAreTheMostUrgent(rows: seq<Row>, bucket: Bucket, now: nat, budget: nat)
    ensures var ids := Pending(rows, 0, bucket);
            var room := Left(budget, InterruptsSince(rows, bucket, UtcMidnight(now)));
            FirstSent(rows, AfterInterrupts(rows, bucket, now, false, budget), ids, if |ids| <= room then |ids| else room, now)
  {
    hide Pending, InterruptsSince, UtcMidnight, FirstSent, Demoted, Delivered, Left;
    var ids := Pending(rows, 0, bucket);
    PendingAreRows(rows, 0, bucket);
    var room := Left(budget, InterruptsSince(rows, bucket, UtcMidnight(now)));
    FirstAreSent(rows, ids, if |ids| <= room then |ids| else room, now);
  }

  lemma FirstAreSent(rows: seq<Row>, ids: seq<nat>, n: nat, now: nat)
    requires n <= |ids| && Distinct(ids) && Within(ids, |rows|) && Sorted(UrgencyOf(rows), ids)
    requires forall i: nat :: i in ids ==> i < |rows| && Live(rows[i])
    ensures FirstSent(rows, Delivered(Demoted(rows, ids[n..]), ids[..n], Interrupt, now), ids, n, now)
  {
    hide Ahead, Sorted, Demoted, Delivered, UrgencyOf;
    Halves(ids, n);
    HalvesAreOrdered(UrgencyOf(rows), ids, n);
    SentAre(rows, ids, n, now);
    var after := Delivered(Demoted(rows, ids[n..]), ids[..n], Interrupt, now);
    var sent := set i: nat | i < |rows| && after[i].deliveredAt != rows[i].deliveredAt;
    assert forall i: nat :: i in sent <==> i in ids[..n];
    MembersCard(ids[..n], sent);
  }

  lemma HalvesAreOrdered(score: nat -> real, ids: seq<nat>, n: nat)
    requires Sorted(score, ids) && n <= |ids|
    ensures forall i: nat, j: nat :: i in ids[..n] && j in ids[n..] ==> Ahead(score, i, j)
  {
    forall i: nat, j: nat | i in ids[..n] && j in ids[n..] ensures Ahead(score, i, j) {
      var p :| 0 <= p < n && ids[..n][p] == i;
      var q :| 0 <= q < |ids| - n && ids[n..][q] == j;
      assert ids[p] == i && ids[n + q] == j;
    }
  }

  lemma SentAre(rows: seq<Row>, ids: seq<nat>, n: nat, now: nat)
    requires n <= |ids| && Distinct(ids) && Within(ids, |rows|)
    requires forall i: nat :: i in ids ==> i < |rows| && Live(rows[i])
    ensures var after := Delivered(Demoted(rows, ids[n..]), ids[..n], Interrupt, now);
            && |after| == |rows|
            && (forall i: nat :: i < |rows| ==> (after[i].deliveredAt != rows[i].deliveredAt <==> i in ids[..n]))
            && (forall i: nat :: i in ids[..n] ==> after[i] == rows[i].(deliveredAt := Some(now), channel := Some(Interrupt)))
            && (forall j: nat :: j in ids[n..] ==> after[j] == rows[j].(tier := 2))
  {
    Halves(ids, n);
  }

  /** Main result. The tier-1 flush acts on exactly the pending rows whose user is present or whose
    * deadline has passed: it delivers them, or in quiet hours moves them to the digest. */
  lemma Tier1ActsOnTheReady(rows: seq<Row>, bucket: Bucket, now: nat, quiet: bool, present: bool, i: nat)
    requires i < |rows|
    ensures var after := AfterTier1(rows, bucket, now, quiet, present);
            && |after| == |rows|
            && after[i] == if !(Live(rows[i]) && InBucket(rows[i], bucket) && rows[i].tier == 1
                                && (present || (rows[i].noLaterThan.Some? && now >= rows[i].noLaterThan.value))) then rows[i]
                           else if quiet then rows[i].(tier := 2)
                           else rows[i].(deliveredAt := Some(now), channel := Some(Notify))
  {
    hide Pending, ReadyOf;
    PendingAreRows(rows, 1, bucket);
    ReadyAre(rows, Pending(rows, 1, bucket), present, now);
  }

  // ── The digest ──

  function Approvals(rows: seq<Row>, ids: seq<nat>): seq<nat>
    requires Within(ids, |rows|)
  {
    if ids == [] then []
    else (if rows[ids[0]].category in APPROVAL_CATEGORIES then [ids[0]] else []) + Approvals(rows, ids[1..])
  }

  function Others(rows: seq<Row>, ids: seq<nat>): seq<nat>
    requires Within(ids, |rows|)
  {
    if ids == [] then []
    else (if rows[ids[0]].category in APPROVAL_CATEGORIES then [] else [ids[0]]) + Others(rows, ids[1..])
  }

  /** A batch keeps everything but the approvals past the allowance. */
  lemma {:induction false} ApprovalsArePrefix(rows: seq<Row>, ids: seq<nat>, allowed: nat)
    requires Within(ids, |rows|)
    ensures Within(DigestOf(rows, ids, allowed), |rows|)
    ensures Others(rows, DigestOf(rows, ids, allowed)) == Others(rows, ids)
    ensures Approvals(rows, DigestOf(rows, ids, allowed))
            == Approvals(rows, ids)[..if |Approvals(rows, ids)| <= allowed then |Approvals(rows, ids)| else allowed]
  {
    if ids != [] {
      var approval := rows[ids[0]].category in APPROVAL_CATEGORIES;
      var a := if approval && allowed > 0 then allowed - 1 else allowed;
      ApprovalsArePrefix(rows, ids[1..], a);
      var rest := DigestOf(rows, ids[1..], a);
      if !approval || allowed > 0 {
        assert ([ids[0]] + rest)[1..] == rest;
      }
    }
  }

  predicate WaitsForDigest(row: Row, bucket: Bucket) {
    Live(row) && InBucket(row, bucket) && row.tier == 2
  }

  /** The pending approvals that come before row `i`: more urgent, or older at equal urgency. */
  function ApprovalsAhead(rows: seq<Row>, bucket: Bucket, i: nat): set<nat> {
    set j: nat | j < |rows| && WaitsForDigest(rows[j], bucket) && rows[j].category in APPROVAL_CATEGORIES
                 && Ahead(UrgencyOf(rows), j, i)
  }

  /** Main result. A digest delivers exactly the pending tier-2 rows of its bucket that are no approval or
    * have fewer approvals before them than the day's budget has left, and touches nothing else. */
  lemma DigestTakesTheMostUrgent(rows: seq<Row>, bucket: Bucket, now: nat, budget: nat, i: nat)
    requires i < |rows|
    ensures var after := AfterDigest(rows, bucket, now, budget);
            var room := Left(budget, ApprovalsSince(rows, bucket, UtcMidnight(now)));
            && |after| == |rows|
            && after[i] == if WaitsForDigest(rows[i], bucket)
                              && (rows[i].category in APPROVAL_CATEGORIES ==> |ApprovalsAhead(rows, bucket, i)| < room)
                           then rows[i].(deliveredAt := Some(now), channel := Some(Digest)) else rows[i]
  {
    hide Pending, DigestOf, ApprovalsSince, UtcMidnight, Left, ApprovalsAhead;
    var room := Left(budget, ApprovalsSince(rows, bucket, UtcMidnight(now)));
    var ids := Pending(rows, 2, bucket);
    PendingAreRows(rows, 2, bucket);
    ApprovalsArePrefix(rows, ids, room);
    BatchHolds(rows, bucket, ids, room, i);
  }

  lemma BatchHolds(rows: seq<Row>, bucket: Bucket, ids: seq<nat>, room: nat, i: nat)
    requires Within(ids, |rows|) && Sorted(UrgencyOf(rows), ids) && i < |rows|
    requires forall j: nat :: j in ids <==> j < |rows| && WaitsForDigest(rows[j], bucket)
    ensures i in DigestOf(rows, ids, room)
            <==> WaitsForDigest(rows[i], bucket)
                 && (rows[i].category in APPROVAL_CATEGORIES ==> |ApprovalsAhead(rows, bucket, i)| < room)
  {
    hide DigestOf, Sorted, Ahead, UrgencyOf;
    ApprovalsArePrefix(rows, ids, room);
    var batch, all := DigestOf(rows, ids, room), Approvals(rows, ids);
    ApprovalsAre(rows, ids);
    ApprovalsAre(rows, batch);
    OthersAre(rows, ids);
    OthersAre(rows, batch);
    if i in all {
      ApprovalsSorted(rows, UrgencyOf(rows), ids);
      var p :| 0 <= p < |all| && all[p] == i;
      PlaceIsCount(UrgencyOf(rows), all, p, ApprovalsAhead(rows, bucket, i));
      SortedIsDistinct(UrgencyOf(rows), all);
      PrefixHolds(all, p, if |all| <= room then |all| else room);
    } else if rows[i].category in APPROVAL_CATEGORIES {
      assert i in Approvals(rows, batch) ==> i in all;
    }
  }

  lemma {:induction false} OthersAre(rows: seq<Row>, ids: seq<nat>)
    requires Within(ids, |rows|)
    ensures forall i: nat :: i in Others(rows, ids) <==> i in ids && i < |rows| && rows[i].category !in APPROVAL_CATEGORIES
  {
    if ids != [] {
      OthersAre(rows, ids[1..]);
      assert ids == [ids[0]] + ids[1..];
    }
  }

  lemma {:induction false} ApprovalsSorted(rows: seq<Row>, score: nat -> real, ids: seq<nat>)
    requires Within(ids, |rows|) && Sorted(score, ids)
    ensures Sorted(score, Approvals(rows, ids))
  {
    hide Ahead;
    if ids != [] {
      var rest := Approvals(rows, ids[1..]);
      ApprovalsSorted(rows, score, ids[1..]);
      ApprovalsAre(rows, ids[1..]);
      forall q | 0 <= q < |rest| ensures Ahead(score, ids[0], rest[q]) {
        assert rest[q] in rest;
        var x :| 0 <= x < |ids| - 1 && ids[1..][x] == rest[q];
        assert ids[x + 1] == rest[q];
      }
    }
  }

  /** Main result. A digest is due exactly when a configured time of the local day has been reached
    * since the last digest delivery, if there was one; so a missed time is caught up once. */
  lemma DigestDueOncePerSlot(rows: seq<Row>, bucket: Bucket, last: Option<nat>, m: Moment, times: seq<Clock>)
    requires match last
             case Some(at) => DigestAfter(rows, bucket, at) && !DigestAfter(rows, bucket, at + 1)
             case None => !DigestAfter(rows, bucket, 0)
    requires forall t :: t in times ==> RealTime(t)
    ensures DigestDue(rows, bucket, m, times)
            == Some(exists t :: t in times && (last.Some? ==> last.value < m.midnight + SecondsOf(t))
                                && m.midnight + SecondsOf(t) <= m.now)
  {
    var slot := LatestSlot(m, times);
    if slot.Some? && last.Some? && slot.value <= last.value {
      assert DigestAfter(rows, bucket, slot.value);
    }
  }

  /** A digest with nothing in it covers no slot: the next row to come is flushed at once. */
  lemma EmptyDigestStaysDue(rows: seq<Row>, bucket: Bucket, m: Moment, s: Settings, later: Moment)
    requires DigestBatch(rows, bucket, m.now, s.escalationBudget) == []
    requires later.midnight == m.midnight && later.now >= m.now
    requires DigestDue(rows, bucket, m, s.digestTimes) == Some(true)
    ensures DigestDue(AfterDigest(rows, bucket, m.now, s.escalationBudget), bucket, later, s.digestTimes) == Some(true)
  {
    assert AfterDigest(rows, bucket, m.now, s.escalationBudget) == rows;
    var slot, next := LatestSlot(m, s.digestTimes), LatestSlot(later, s.digestTimes);
    assert next.Some? && slot.value <= next.value;
  }

  // ── Runs ──

  datatype Op =
    | Add(ledger: PolicyLedger.Ledger, req: Request, at: nat)
    | Flush(bucket: Bucket, m: Moment, s: Settings, present: bool)
    | Return(bucket: Bucket, at: nat, away: nat, s: Settings)

  function Apply(rows: seq<Row>, op: Op): seq<Row> {
    match op
    case Add(ledger, req, at) => Added(rows, ledger, req, at)
    case Flush(bucket, m, s, present) => AfterFlush(rows, bucket, m, s, present).0
    case Return(bucket, at, away, s) => AfterReturn(rows, bucket, at, away, s.escalationBudget)
  }

  function Run(rows: seq<Row>, ops: seq<Op>): seq<Row>
    decreases |ops|
  {
    if ops == [] then rows else Run(Apply(rows, ops[0]), ops[1..])
  }

  /** A run is its operations in order. */
  lemma {:induction false} RunEndsWithItsLastOp(rows: seq<Row>, ops: seq<Op>, op: Op)
    ensures Run(rows, []) == rows && Run(rows, ops + [op]) == Apply(Run(rows, ops), op)
    decreases |ops|
  {
    hide Apply;
    if ops == [] {
      assert [] + [op] == [op] && [op][1..] == [] && Run(Apply(rows, op), []) == Apply(rows, op);
    } else {
      assert (ops + [op])[1..] == ops[1..] + [op];
      RunEndsWithItsLastOp(Apply(rows, ops[0]), ops[1..], op);
    }
  }

  /** With tenancy off every pass works on all rows, with tenancy on on one owner's; each bucket's
    * budgets are fixed. */
  predicate Regime(op: Op, tenancy: bool, budgets: Bucket -> (nat, nat)) {
    match op
    case Add(_, _, _) => true
    case Flush(bucket, _, s, _) => bucket.Only? == tenancy && budgets(bucket) == (s.budget, s.escalationBudget)
    case Return(bucket, _, _, s) => bucket.Only? == tenancy && budgets(bucket) == (s.budget, s.escalationBudget)
  }

  /** The interrupts of a bucket in one UTC day. */
  ghost function InterruptsOn(rows: seq<Row>, bucket: Bucket, day: nat): set<nat> {
    set i: nat | i < |rows| && InBucket(rows[i], bucket) && rows[i].channel == Some(Interrupt)
                 && rows[i].deliveredAt.Some? && rows[i].deliveredAt.value / DAY == day
  }

  /** The approvals a bucket's digests delivered in one UTC day. */
  ghost function DigestApprovalsOn(rows: seq<Row>, bucket: Bucket, day: nat): set<nat> {
    set i: nat | i < |rows| && InBucket(rows[i], bucket) && rows[i].channel == Some(Digest)
                 && rows[i].category in APPROVAL_CATEGORIES
                 && rows[i].deliveredAt.Some? && rows[i].deliveredAt.value / DAY == day
  }

  ghost predicate WithinBudgets(rows: seq<Row>, tenancy: bool, budgets: Bucket -> (nat, nat)) {
    forall bucket: Bucket, day: nat :: bucket.Only? == tenancy ==>
      && |InterruptsOn(rows, bucket, day)| <= budgets(bucket).0
      && |DigestApprovalsOn(rows, bucket, day)| <= budgets(bucket).1
  }

  lemma {:induction false} AddsAtMost(before: set<nat>, after: set<nat>, added: seq<nat>)
    requires forall i: nat :: i in after ==> i in before || i in added
    ensures |after| <= |before| + |added|
    decreases |added|
  {
    if added == [] {
      SubsetIsSmaller(after, before);
    } else {
      AddsAtMost(before + {added[0]}, after, added[1..]);
      assert added == [added[0]] + added[1..];
      SubsetIsSmaller(before + {added[0]}, before + {added[0]});
      if added[0] in before {
        assert before + {added[0]} == before;
      }
    }
  }

  lemma SameDay(t: nat, now: nat)
    ensures t / DAY == now / DAY ==> t >= UtcMidnight(now)
  {}

  /** The interrupts of a day grow by what this pass chose, on its own day and in its own bucket. */
  lemma NewInterrupts(rows: seq<Row>, bucket: Bucket, now: nat, gone: seq<nat>, chosen: seq<nat>, b: Bucket, day: nat)
    requires b.Only? == bucket.Only? && forall i: nat :: i in chosen ==> i < |rows| && InBucket(rows[i], bucket) && Live(rows[i])
    ensures var after := Delivered(Demoted(rows, gone), chosen, Interrupt, now);
            && DigestApprovalsOn(after, b, day) == DigestApprovalsOn(rows, b, day)
            && forall i: nat :: i in InterruptsOn(after, b, day) ==>
                 i in InterruptsOn(rows, b, day) || (b == bucket && day == now / DAY && i in chosen)
  {}

  lemma CountedToday(rows: seq<Row>, bucket: Bucket, now: nat)
    ensures |InterruptsOn(rows, bucket, now / DAY)| <= InterruptsSince(rows, bucket, UtcMidnight(now))
    ensures |DigestApprovalsOn(rows, bucket, now / DAY)| <= ApprovalsSince(rows, bucket, UtcMidnight(now))
  {
    var since := UtcMidnight(now);
    forall i | 0 <= i < |rows| && rows[i].deliveredAt.Some? && rows[i].deliveredAt.value / DAY == now / DAY
      ensures rows[i].deliveredAt.value >= since
    {
      SameDay(rows[i].deliveredAt.value, now);
    }
    hide UtcMidnight;
    SubsetIsSmaller(InterruptsOn(rows, bucket, now / DAY),
               set i: nat | i < |rows| && InBucket(rows[i], bucket) && rows[i].channel == Some(Interrupt)
                            && rows[i].deliveredAt.Some? && rows[i].deliveredAt.value >= since);
    SubsetIsSmaller(DigestApprovalsOn(rows, bucket, now / DAY),
               set i: nat | i < |rows| && InBucket(rows[i], bucket) && rows[i].category in APPROVAL_CATEGORIES
                            && rows[i].deliveredAt.Some? && rows[i].deliveredAt.value >= since);
  }

  lemma InterruptsStayWithin(rows: seq<Row>, bucket: Bucket, now: nat, quiet: bool, budget: nat, b: Bucket, day: nat)
    requires b.Only? == bucket.Only? && (b == bucket ==> |InterruptsOn(rows, b, day)| <= budget)
    ensures var after := AfterInterrupts(rows, bucket, now, quiet, budget);
            && |InterruptsOn(after, b, day)| <= (if b == bucket then budget else |InterruptsOn(rows, b, day)|)
            && DigestApprovalsOn(after, b, day) == DigestApprovalsOn(rows, b, day)
  {
    var ids := Pending(rows, 0, bucket);
    PendingAreRows(rows, 0, bucket);
    hide Pending, InterruptsSince, UtcMidnight, InterruptsOn, DigestApprovalsOn, Demoted, Delivered;
    var room := if quiet then 0 else Left(budget, InterruptsSince(rows, bucket, UtcMidnight(now)));
    var n := if |ids| <= room then |ids| else room;
    Halves(ids, n);
    NewInterrupts(rows, bucket, now, ids[n..], ids[..n], b, day);
    var after := AfterInterrupts(rows, bucket, now, quiet, budget);
    var added := if b == bucket && day == now / DAY then ids[..n] else [];
    AddsAtMost(InterruptsOn(rows, b, day), InterruptsOn(after, b, day), added);
    CountedToday(rows, bucket, now);
  }

  lemma Tier1Irrelevant(rows: seq<Row>, bucket: Bucket, now: nat, quiet: bool, present: bool, b: Bucket, day: nat)
    ensures var after := AfterTier1(rows, bucket, now, quiet, present);
            InterruptsOn(after, b, day) == InterruptsOn(rows, b, day)
            && DigestApprovalsOn(after, b, day) == DigestApprovalsOn(rows, b, day)
  {
    hide Pending, ReadyOf;
    PendingAreRows(rows, 1, bucket);
    ReadyAre(rows, Pending(rows, 1, bucket), present, now);
  }

  lemma DigestAddsNoInterrupt(rows: seq<Row>, bucket: Bucket, now: nat, budget: nat, b: Bucket, day: nat)
    ensures InterruptsOn(AfterDigest(rows, bucket, now, budget), b, day) == InterruptsOn(rows, b, day)
  {
    hide Pending, DigestOf, ApprovalsSince, Left;
    var ids := Pending(rows, 2, bucket);
    PendingAreRows(rows, 2, bucket);
    DigestAre(rows, ids, Left(budget, ApprovalsSince(rows, bucket, UtcMidnight(now))));
  }

  lemma DigestStaysWithin(rows: seq<Row>, bucket: Bucket, now: nat, budget: nat, b: Bucket, day: nat)
    requires b.Only? == bucket.Only? && (b == bucket ==> |DigestApprovalsOn(rows, b, day)| <= budget)
    ensures |DigestApprovalsOn(AfterDigest(rows, bucket, now, budget), b, day)|
            <= if b == bucket then budget else |DigestApprovalsOn(rows, b, day)|
  {
    hide Pending, DigestOf, InterruptsOn;
    var ids := Pending(rows, 2, bucket);
    var allowed := Left(budget, ApprovalsSince(rows, bucket, UtcMidnight(now)));
    PendingAreRows(rows, 2, bucket);
    DigestAre(rows, ids, allowed);
    ApprovalsArePrefix(rows, ids, allowed);
    var batch := DigestOf(rows, ids, allowed);
    ApprovalsAre(rows, batch);
    var after := AfterDigest(rows, bucket, now, budget);
    var before := DigestApprovalsOn(rows, b, day);
    if b != bucket {
      assert DigestApprovalsOn(after, b, day) == before;
    } else if day != now / DAY {
      SubsetIsSmaller(DigestApprovalsOn(after, b, day), before);
    } else {
      AddsAtMost(before, DigestApprovalsOn(after, b, day), Approvals(rows, batch));
      CountedToday(rows, bucket, now);
    }
  }

  lemma {:induction false} ApprovalsAre(rows: seq<Row>, ids: seq<nat>)
    requires Within(ids, |rows|)
    ensures forall i: nat :: i in Approvals(rows, ids)
                             <==> i in ids && i < |rows| && rows[i].category in APPROVAL_CATEGORIES
  {
    if ids != [] {
      ApprovalsAre(rows, ids[1..]);
      assert ids == [ids[0]] + ids[1..];
    }
  }

  lemma AddKeepsBudgets(rows: seq<Row>, ledger: PolicyLedger.Ledger, req: Request, at: nat, b: Bucket, day: nat)
    ensures var after := Added(rows, ledger, req, at);
            InterruptsOn(after, b, day) == InterruptsOn(rows, b, day)
            && DigestApprovalsOn(after, b, day) == DigestApprovalsOn(rows, b, day)
  {}

  lemma StepKeepsBudgets(rows: seq<Row>, op: Op, tenancy: bool, budgets: Bucket -> (nat, nat))
    requires WithinBudgets(rows, tenancy, budgets) && Regime(op, tenancy, budgets)
    ensures WithinBudgets(Apply(rows, op), tenancy, budgets)
  {
    hide AfterInterrupts, AfterTier1, AfterDigest, InterruptsOn, DigestApprovalsOn, Added, DigestDue;
    forall b: Bucket, day: nat | b.Only? == tenancy
      ensures |InterruptsOn(Apply(rows, op), b, day)| <= budgets(b).0
      ensures |DigestApprovalsOn(Apply(rows, op), b, day)| <= budgets(b).1
    {
      match op
      case Add(ledger, req, at) =>
        AddKeepsBudgets(rows, ledger, req, at, b, day);
      case Flush(bucket, m, s, present) =>
        var quiet := InQuietHours(LocalSecond(m), s.quietHours);
        if quiet.Some? {
          var r0 := AfterInterrupts(rows, bucket, m.now, quiet.value, s.budget);
          InterruptsStayWithin(rows, bucket, m.now, quiet.value, s.budget, b, day);
          Tier1Irrelevant(r0, bucket, m.now, quiet.value, present, b, day);
          DigestStaysWithin(AfterTier1(r0, bucket, m.now, quiet.value, present), bucket, m.now, s.escalationBudget, b, day);
          DigestAddsNoInterrupt(AfterTier1(r0, bucket, m.now, quiet.value, present), bucket, m.now, s.escalationBudget, b, day);
        }
      case Return(bucket, at, away, s) =>
        Tier1Irrelevant(rows, bucket, at, false, true, b, day);
        DigestStaysWithin(AfterTier1(rows, bucket, at, false, true), bucket, at, s.escalationBudget, b, day);
        DigestAddsNoInterrupt(AfterTier1(rows, bucket, at, false, true), bucket, at, s.escalationBudget, b, day);
    }
  }

  lemma {:induction false} RunKeepsBudgets(rows: seq<Row>, ops: seq<Op>, tenancy: bool, budgets: Bucket -> (nat, nat))
    requires WithinBudgets(rows, tenancy, budgets) && forall op :: op in ops ==> Regime(op, tenancy, budgets)
    ensures WithinBudgets(Run(rows, ops), tenancy, budgets)
    decreases |ops|
  {
    hide WithinBudgets, Regime, Apply;
    if ops != [] {
      assert ops[0] in ops && forall op :: op in ops[1..] ==> op in ops;
      StepKeepsBudgets(rows, ops[0], tenancy, budgets);
      RunKeepsBudgets(Apply(rows, ops[0]), ops[1..], tenancy, budgets);
    }
  }

  lemma EmptyIsWithinBudgets(tenancy: bool, budgets: Bucket -> (nat, nat))
    ensures WithinBudgets([], tenancy, budgets)
  {
    forall b: Bucket, day: nat ensures InterruptsOn([], b, day) == {} && DigestApprovalsOn([], b, day) == {} {}
  }

  /** Main result. Over any run from an empty outbox, in every UTC day, each bucket's interrupts stay within
    * its notification budget and the approvals its digests deliver within its escalation budget. */
  lemma BudgetsHold(ops: seq<Op>, tenancy: bool, budgets: Bucket -> (nat, nat))
    requires forall op :: op in ops ==> Regime(op, tenancy, budgets)
    ensures WithinBudgets(Run([], ops), tenancy, budgets)
  {
    EmptyIsWithinBudgets(tenancy, budgets);
    RunKeepsBudgets([], ops, tenancy, budgets);
  }

  // ── Superseding ──

  /** At most one row of a key is live, and a superseded row names a newer one of its key. */
  ghost predicate Collapsed(rows: seq<Row>) {
    && (forall i, j :: 0 <= i < j < |rows| && rows[i].skey == rows[j].skey != "" ==> !(Live(rows[i]) && Live(rows[j])))
    && (forall i :: 0 <= i < |rows| && rows[i].supersededBy.Some? ==>
          && i < rows[i].supersededBy.value < |rows| && rows[i].skey != ""
          && rows[rows[i].supersededBy.value].skey == rows[i].skey)
  }

  lemma FatesKeepCollapsed(before: seq<Row>, after: seq<Row>, bucket: Bucket, now: nat)
    requires Collapsed(before) && Fates(before, after, bucket, now)
    ensures Collapsed(after)
  {
    forall i | 0 <= i < |before|
      ensures after[i].skey == before[i].skey && after[i].supersededBy == before[i].supersededBy
      ensures Live(after[i]) ==> Live(before[i])
    {
      assert if Live(before[i]) && InBucket(before[i], bucket) then Fate(before[i], after[i], now)
             else after[i] == before[i];
    }
  }

  lemma StepKeepsCollapsed(rows: seq<Row>, op: Op)
    requires Collapsed(rows)
    ensures Collapsed(Apply(rows, op))
  {
    hide AfterFlush, AfterReturn;
    match op
    case Add(ledger, req, at) =>
      hide PolicyLedger.Override;
    case Flush(bucket, m, s, present) =>
      EveryPendingRowIsAccountedFor(rows, bucket, m, s, present, 0);
      FatesKeepCollapsed(rows, AfterFlush(rows, bucket, m, s, present).0, bucket, m.now);
    case Return(bucket, at, away, s) =>
      EveryPendingRowIsAccountedFor(rows, bucket, Moment(at, 0), s, true, away);
      FatesKeepCollapsed(rows, AfterReturn(rows, bucket, at, away, s.escalationBudget), bucket, at);
  }

  /** Main result. Over any run at most one live row carries a key, and following the superseded rows
    * of a key leads to ever newer ones. */
  lemma {:induction false} KeysStayCollapsed(rows: seq<Row>, ops: seq<Op>)
    requires Collapsed(rows)
    ensures Collapsed(Run(rows, ops))
    decreases |ops|
  {
    hide Collapsed, Apply;
    if ops != [] {
      StepKeepsCollapsed(rows, ops[0]);
      KeysStayCollapsed(Apply(rows, ops[0]), ops[1..]);
    }
  }
}

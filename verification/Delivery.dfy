/** The delivery outbox (`backend/app/ambient/deliver.py`): the insert path, the three flushes and the
  * user-returned edge, one owner bucket at a time.
  */
module DeliveryModel {
  import opened Options
  import opened Sorting
  import PolicyLedger

  const DAY: nat := 86400
  const LONG_ABSENCE: nat := 3600
  const APPROVAL_CATEGORIES: set<string> := {"hitl", "learning"}

  datatype Channel = Interrupt | Notify | Digest | Silent
  datatype Verdict = Escalate | Retain | Drop
  datatype Decision = Undecided | Applied | Declined | Undone

  /** The delivery fields as they stood before a verdict was carried out. */
  datatype Prior = Prior(tier: int, deliveredAt: Option<nat>, channel: Option<Channel>, seenAt: Option<nat>)

  /** The salience record of a row. */
  datatype Record = Record(verdict: Verdict, decision: Decision, prior: Option<Prior>)

  /** An outbox row; its id is its place in creation order. */
  datatype Row = Row(owner: Option<nat>, category: string, tier: int, urgency: nat, skey: string,
                     noLaterThan: Option<nat>, deliveredAt: Option<nat>, channel: Option<Channel>,
                     supersededBy: Option<nat>, seenAt: Option<nat>, salience: Option<Record>)

  /** Whose rows a pass works on: everybody's with tenancy off, else one owner's. */
  datatype Bucket = Everyone | Only(owner: Option<nat>)

  predicate InBucket(row: Row, bucket: Bucket) {
    bucket.Everyone? || row.owner == bucket.owner
  }

  predicate Live(row: Row) {
    row.deliveredAt.None? && row.supersededBy.None?
  }

  // ── Clocks ──

  /** A configured `HH:MM`; the settings check lets hours up to 29 through. */
  datatype Clock = Clock(hour: nat, minute: nat)

  predicate RealTime(c: Clock) {
    c.hour < 24 && c.minute < 60
  }

  function SecondsOf(c: Clock): nat {
    c.hour * 3600 + c.minute * 60
  }

  /** `None` is the error a clock that is no time of day raises. `local` is the second of the local day. */
  function InQuietHours(local: nat, ranges: seq<Clock>): Option<bool> {
    if |ranges| != 2 then Some(false)
    else if !RealTime(ranges[0]) || !RealTime(ranges[1]) then None
    else
      var start, end := SecondsOf(ranges[0]), SecondsOf(ranges[1]);
      if start <= end then Some(start <= local < end) else Some(local >= start || local < end)
  }

  /** How far `t` lies after `start` on the 24-hour circle. */
  function Forward(start: nat, t: nat): nat {
    (t + DAY - start % DAY) % DAY
  }

  /** Main result. Quiet hours are the half-open arc from start to end on the clock face, whether or
    * not it passes midnight; a range whose ends coincide is never quiet. */
  lemma QuietIsAnArc(local: nat, ranges: seq<Clock>)
    requires local < DAY && |ranges| == 2 && RealTime(ranges[0]) && RealTime(ranges[1])
    ensures InQuietHours(local, ranges)
            == Some(Forward(SecondsOf(ranges[0]), local) < Forward(SecondsOf(ranges[0]), SecondsOf(ranges[1])))
  {
    var start, end := SecondsOf(ranges[0]), SecondsOf(ranges[1]);
    assert start < DAY && end < DAY;
    Wrap(start, local);
    Wrap(start, end);
  }

  lemma Wrap(start: nat, t: nat)
    requires start < DAY && t < DAY
    ensures Forward(start, t) == if start <= t then t - start else t + DAY - start
  {}

  /** Instants and the local midnight before them; daylight saving is outside the model. */
  datatype Moment = Moment(now: nat, midnight: int)

  /** The latest configured time of the local day that `now` has reached. */
  function LatestSlot(m: Moment, times: seq<Clock>): (r: Option<int>)
    ensures match r
            case Some(at) => at <= m.now && exists t :: t in times && at == m.midnight + SecondsOf(t)
            case None => true
    ensures forall t :: t in times && m.midnight + SecondsOf(t) <= m.now
                        ==> r.Some? && m.midnight + SecondsOf(t) <= r.value
  {
    if times == [] then None
    else
      var at, rest := m.midnight + SecondsOf(times[0]), LatestSlot(m, times[1..]);
      if at <= m.now && (rest.None? || rest.value < at) then Some(at) else rest
  }

  predicate DigestAfter(rows: seq<Row>, bucket: Bucket, at: int) {
    exists i :: 0 <= i < |rows| && InBucket(rows[i], bucket) && rows[i].channel == Some(Digest)
                && rows[i].deliveredAt.Some? && rows[i].deliveredAt.value >= at
  }

  /** `None` is the error of an impossible clock. */
  function DigestDue(rows: seq<Row>, bucket: Bucket, m: Moment, times: seq<Clock>): Option<bool> {
    if exists t :: t in times && !RealTime(t) then None
    else
      var slot := LatestSlot(m, times);
      Some(slot.Some? && !DigestAfter(rows, bucket, slot.value))
  }

  // ── Selecting ──

  function UrgencyOf(rows: seq<Row>): nat -> real {
    (i: nat) => if i < |rows| then rows[i].urgency as real else 0.0
  }

  /** The pending rows of a tier, most urgent first, then oldest first. */
  function Pending(rows: seq<Row>, tier: int, bucket: Bucket): seq<nat> {
    SortBy(UrgencyOf(rows), Where(|rows|, (i: nat) =>
      i < |rows| && rows[i].tier == tier && Live(rows[i]) && InBucket(rows[i], bucket)))
  }

  function InterruptsSince(rows: seq<Row>, bucket: Bucket, since: nat): nat {
    |set i: nat | i < |rows| && InBucket(rows[i], bucket) && rows[i].channel == Some(Interrupt)
             && rows[i].deliveredAt.Some? && rows[i].deliveredAt.value >= since|
  }

  function ApprovalsSince(rows: seq<Row>, bucket: Bucket, since: nat): nat {
    |set i: nat | i < |rows| && InBucket(rows[i], bucket) && rows[i].category in APPROVAL_CATEGORIES
             && rows[i].deliveredAt.Some? && rows[i].deliveredAt.value >= since|
  }

  /** The UTC midnight before `now`. */
  function UtcMidnight(now: nat): nat {
    now - now % DAY
  }

  function Left(budget: nat, used: nat): nat {
    if used < budget then budget - used else 0
  }

  predicate IsReady(row: Row, present: bool, now: nat) {
    present || (row.noLaterThan.Some? && now >= row.noLaterThan.value)
  }

  ghost predicate Within(ids: seq<nat>, n: nat) {
    forall p :: 0 <= p < |ids| ==> ids[p] < n
  }

  function ReadyOf(rows: seq<Row>, ids: seq<nat>, present: bool, now: nat): seq<nat>
    requires Within(ids, |rows|)
  {
    if ids == [] then []
    else
      (if IsReady(rows[ids[0]], present, now) then [ids[0]] else []) + ReadyOf(rows, ids[1..], present, now)
  }

  /** Everything but the approvals that no longer fit. */
  function DigestOf(rows: seq<Row>, ids: seq<nat>, allowed: nat): seq<nat>
    requires Within(ids, |rows|)
  {
    if ids == [] then []
    else
      if rows[ids[0]].category !in APPROVAL_CATEGORIES then [ids[0]] + DigestOf(rows, ids[1..], allowed)
      else if allowed > 0 then [ids[0]] + DigestOf(rows, ids[1..], allowed - 1)
      else DigestOf(rows, ids[1..], allowed)
  }

  // ── Writing ──

  function Demoted(rows: seq<Row>, ids: seq<nat>): seq<Row> {
    seq(|rows|, i requires 0 <= i < |rows| => if i in ids then rows[i].(tier := 2) else rows[i])
  }

  function Delivered(rows: seq<Row>, ids: seq<nat>, channel: Channel, now: nat): seq<Row> {
    seq(|rows|, i requires 0 <= i < |rows| =>
      if i in ids && rows[i].deliveredAt.None? then rows[i].(deliveredAt := Some(now), channel := Some(channel))
      else rows[i])
  }

  function Superseded(rows: seq<Row>, skey: string, newer: nat): seq<Row> {
    seq(|rows|, i requires 0 <= i < |rows| =>
      if skey != "" && rows[i].skey == skey && i != newer && Live(rows[i]) then rows[i].(supersededBy := Some(newer))
      else rows[i])
  }

  datatype Request = Request(owner: Option<nat>, category: string, tier: int, urgency: nat, skey: string,
                             noLaterThan: Option<nat>)

  function NewRow(ledger: PolicyLedger.Ledger, req: Request, now: nat): Row {
    var override := PolicyLedger.Override(ledger, req.category, req.owner);
    var tier := if override.Some? then override.value else req.tier;
    var silent := tier == 3;
    Row(req.owner, req.category, tier, req.urgency, req.skey, req.noLaterThan,
        if silent then Some(now) else None, if silent then Some(Silent) else None, None, None, None)
  }

  function Added(rows: seq<Row>, ledger: PolicyLedger.Ledger, req: Request, now: nat): seq<Row> {
    Superseded(rows + [NewRow(ledger, req, now)], req.skey, |rows|)
  }

  /** One owner's effective settings. */
  datatype Settings = Settings(quietHours: seq<Clock>, digestTimes: seq<Clock>, budget: nat, escalationBudget: nat)

  function AfterInterrupts(rows: seq<Row>, bucket: Bucket, now: nat, quiet: bool, budget: nat): seq<Row> {
    var ids := Pending(rows, 0, bucket);
    var room := if quiet then 0 else Left(budget, InterruptsSince(rows, bucket, UtcMidnight(now)));
    var n := if |ids| <= room then |ids| else room;
    Delivered(Demoted(rows, ids[n..]), ids[..n], Interrupt, now)
  }

  function AfterTier1(rows: seq<Row>, bucket: Bucket, now: nat, quiet: bool, present: bool): seq<Row> {
    PendingAreRows(rows, 1, bucket);
    var ready := ReadyOf(rows, Pending(rows, 1, bucket), present, now);
    if quiet then Demoted(rows, ready) else Delivered(rows, ready, Notify, now)
  }

  function DigestBatch(rows: seq<Row>, bucket: Bucket, now: nat, escalationBudget: nat): seq<nat> {
    PendingAreRows(rows, 2, bucket);
    DigestOf(rows, Pending(rows, 2, bucket),
             Left(escalationBudget, ApprovalsSince(rows, bucket, UtcMidnight(now))))
  }

  function AfterDigest(rows: seq<Row>, bucket: Bucket, now: nat, escalationBudget: nat): seq<Row> {
    Delivered(rows, DigestBatch(rows, bucket, now, escalationBudget), Digest, now)
  }

  /** A whole pass over one bucket; the second component is false when it ended in an error. */
  function AfterFlush(rows: seq<Row>, bucket: Bucket, m: Moment, s: Settings, present: bool): (seq<Row>, bool) {
    var quiet := InQuietHours(LocalSecond(m), s.quietHours);
    if quiet.None? then (rows, false)
    else
      var r0 := AfterInterrupts(rows, bucket, m.now, quiet.value, s.budget);
      var r1 := AfterTier1(r0, bucket, m.now, quiet.value, present);
      if quiet.value then (r1, true)
      else
        var due := DigestDue(r1, bucket, m, s.digestTimes);
        if due.None? then (r1, false)
        else (if due.value then AfterDigest(r1, bucket, m.now, s.escalationBudget) else r1, true)
  }

  function LocalSecond(m: Moment): nat {
    (m.now - m.midnight) % DAY
  }

  function AfterReturn(rows: seq<Row>, bucket: Bucket, now: nat, away: nat, escalationBudget: nat): seq<Row> {
    var r1 := AfterTier1(rows, bucket, now, false, true);
    if away > LONG_ABSENCE then AfterDigest(r1, bucket, now, escalationBudget) else r1
  }

  lemma PendingAreRows(rows: seq<Row>, tier: int, bucket: Bucket)
    ensures Distinct(Pending(rows, tier, bucket)) && Sorted(UrgencyOf(rows), Pending(rows, tier, bucket))
    ensures Within(Pending(rows, tier, bucket), |rows|)
    ensures forall i: nat :: i in Pending(rows, tier, bucket)
                             <==> i < |rows| && rows[i].tier == tier && Live(rows[i]) && InBucket(rows[i], bucket)
  {
    var chosen := (i: nat) => i < |rows| && rows[i].tier == tier && Live(rows[i]) && InBucket(rows[i], bucket);
    WhereIsExact(|rows|, chosen);
    SortMeaning(UrgencyOf(rows), Where(|rows|, chosen));
    var ids := Pending(rows, tier, bucket);
    SortedIsDistinct(UrgencyOf(rows), ids);
    assert forall p :: 0 <= p < |ids| ==> ids[p] in ids;
  }

  lemma DemotedStep(rows: seq<Row>, ids: seq<nat>, i: nat)
    requires i < |rows|
    ensures Demoted(rows, ids + [i]) == Demoted(rows, ids)[i := Demoted(rows, ids)[i].(tier := 2)]
  {}

  lemma NothingSelected(rows: seq<Row>, present: bool, now: nat)
    ensures ReadyOf(rows, [], present, now) == [] && DigestOf(rows, [], now) == []
  {}

  lemma DeadlineKept(rows: seq<Row>, ids: seq<nat>, i: nat)
    requires i < |rows|
    ensures |Demoted(rows, ids)| == |rows| && Demoted(rows, ids)[i].noLaterThan == rows[i].noLaterThan
  {}

  lemma DemotedNone(rows: seq<Row>)
    ensures Demoted(rows, []) == rows && forall c, now :: Delivered(rows, [], c, now) == rows
  {}

  lemma {:induction false} ReadyStep(rows: seq<Row>, ids: seq<nat>, x: nat, present: bool, now: nat)
    requires x < |ids| && Within(ids, |rows|)
    ensures Within(ids[x..], |rows|) && Within(ids[x + 1..], |rows|)
    ensures ReadyOf(rows, ids[x..], present, now)
            == (if IsReady(rows[ids[x]], present, now) then [ids[x]] else []) + ReadyOf(rows, ids[x + 1..], present, now)
  {
    assert ids[x..][0] == ids[x] && ids[x..][1..] == ids[x + 1..];
  }

  lemma {:induction false} DigestStep(rows: seq<Row>, ids: seq<nat>, x: nat, allowed: nat)
    requires x < |ids| && Within(ids, |rows|)
    ensures Within(ids[x..], |rows|) && Within(ids[x + 1..], |rows|)
    ensures DigestOf(rows, ids[x..], allowed)
            == if rows[ids[x]].category !in APPROVAL_CATEGORIES then [ids[x]] + DigestOf(rows, ids[x + 1..], allowed)
               else if allowed > 0 then [ids[x]] + DigestOf(rows, ids[x + 1..], allowed - 1)
               else DigestOf(rows, ids[x + 1..], allowed)
  {
    assert ids[x..][0] == ids[x] && ids[x..][1..] == ids[x + 1..];
  }

  class Outbox {
    var rows: seq<Row>

    constructor ()
      ensures rows == []
    {
      rows := [];
    }

    /** The insert path: policy override, silent delivery, supersede-collapse. */
    method AddDelivery(ledger: PolicyLedger.Ledger, req: Request, now: nat) returns (id: nat)
      modifies this
      ensures id == |old(rows)| && rows == Added(old(rows), ledger, req, now)
    {
      var override, _ := PolicyLedger.CurrentPolicy(ledger, req.category, req.owner);
      var tier := req.tier;
      if override.Some? {
        tier := override.value;
      }
      var row := Row(req.owner, req.category, tier, req.urgency, req.skey, req.noLaterThan, None, None, None, None, None);
      if tier == 3 {
        row := row.(deliveredAt := Some(now), channel := Some(Silent));
      }
      id := |rows|;
      rows := rows + [row];
      ghost var inserted := rows;
      assert inserted == old(rows) + [NewRow(ledger, req, now)];
      if req.skey != "" {
        for i := 0 to |rows|
          invariant |rows| == |inserted|
          invariant forall j :: 0 <= j < i ==> rows[j] == Superseded(inserted, req.skey, id)[j]
          invariant forall j :: i <= j < |rows| ==> rows[j] == inserted[j]
        {
          if rows[i].skey == req.skey && i != id && Live(rows[i]) {
            rows := rows[i := rows[i].(supersededBy := Some(id))];
          }
        }
      }
      assert rows == Superseded(inserted, req.skey, id);
    }

    /** Dispatch has happened; mark what is still undelivered by now. */
    method DeliverBatch(channel: Channel, ids: seq<nat>, now: nat) returns (written: nat)
      modifies this
      ensures rows == Delivered(old(rows), ids, channel, now)
      ensures written == 0 <==> rows == old(rows)
    {
      written := 0;
      for i := 0 to |rows|
        invariant |rows| == |old(rows)|
        invariant forall j :: 0 <= j < i ==> rows[j] == Delivered(old(rows), ids, channel, now)[j]
        invariant forall j :: i <= j < |rows| ==> rows[j] == old(rows)[j]
        invariant written == 0 <==> rows == old(rows)
      {
        if i in ids && rows[i].deliveredAt.None? {
          assert rows[i] != rows[i].(deliveredAt := Some(now), channel := Some(channel));
          rows := rows[i := rows[i].(deliveredAt := Some(now), channel := Some(channel))];
          written := written + 1;
          assert rows[i] != old(rows)[i];
        }
      }
    }

    method FlushInterrupts(bucket: Bucket, now: nat, quiet: bool, budget: nat)
      modifies this
      ensures rows == AfterInterrupts(old(rows), bucket, now, quiet, budget)
    {
      hide Pending, Demoted, Delivered, InterruptsSince, UtcMidnight;
      var chosen: seq<nat> := [];
      ghost var demoted: seq<nat> := [];
      var used := InterruptsSince(rows, bucket, UtcMidnight(now));
      var ids := Pending(rows, 0, bucket);
      PendingAreRows(rows, 0, bucket);
      DemotedNone(rows);
      ghost var room := if quiet then 0 else Left(budget, used);
      ghost var usedAtFirst := used;
      for x := 0 to |ids|
        invariant x <= room ==> chosen == ids[..x] && demoted == []
        invariant x > room ==> chosen == ids[..room] && demoted == ids[room..x]
        invariant used == usedAtFirst + |chosen|
        invariant |rows| == |old(rows)| && rows == Demoted(old(rows), demoted)
      {
        assert ids[x] in ids;
        assert ids[..x + 1] == ids[..x] + [ids[x]];
        assert x >= room ==> ids[room..x + 1] == ids[room..x] + [ids[x]];
        DemotedStep(old(rows), demoted, ids[x]);
        if quiet || used >= budget {
          rows := rows[ids[x] := rows[ids[x]].(tier := 2)];
          demoted := demoted + [ids[x]];
        } else {
          used := used + 1;
          chosen := chosen + [ids[x]];
        }
      }
      assert chosen == ids[..if |ids| <= room then |ids| else room];
      assert demoted == ids[if |ids| <= room then |ids| else room..];
      var _ := DeliverBatch(Interrupt, chosen, now);
    }

    method FlushTier1(bucket: Bucket, now: nat, quiet: bool, present: bool)
      modifies this
      ensures rows == AfterTier1(old(rows), bucket, now, quiet, present)
    {
      hide Pending, Demoted, Delivered, ReadyOf;
      var chosen: seq<nat> := [];
      var ids := Pending(rows, 1, bucket);
      PendingAreRows(rows, 1, bucket);
      DemotedNone(rows);
      ghost var done: seq<nat> := [];
      assert ids[0..] == ids;
      for x := 0 to |ids|
        invariant |rows| == |old(rows)| && Within(ids[x..], |rows|)
        invariant done + ReadyOf(old(rows), ids[x..], present, now) == ReadyOf(old(rows), ids, present, now)
        invariant rows == if quiet then Demoted(old(rows), done) else old(rows)
        invariant chosen == if quiet then [] else done
      {
        ReadyStep(old(rows), ids, x, present, now);
        DemotedStep(old(rows), done, ids[x]);
        DeadlineKept(old(rows), done, ids[x]);
        if IsReady(rows[ids[x]], present, now) {
          if quiet {
            rows := rows[ids[x] := rows[ids[x]].(tier := 2)];
          } else {
            chosen := chosen + [ids[x]];
          }
          done := done + [ids[x]];
        }
      }
      assert ids[|ids|..] == [];
      NothingSelected(old(rows), present, now);
      assert done + [] == done && done == ReadyOf(old(rows), ids, present, now);
      DemotedNone(rows);
      assert Delivered(rows, [], Notify, now) == rows;
      var _ := DeliverBatch(Notify, chosen, now);
    }

    method DigestFlush(bucket: Bucket, now: nat, escalationBudget: nat) returns (flushed: nat)
      modifies this
      ensures rows == AfterDigest(old(rows), bucket, now, escalationBudget)
      ensures flushed == 0 <==> rows == old(rows)
    {
      hide Pending, Delivered, DigestOf, ApprovalsSince, UtcMidnight;
      var chosen: seq<nat> := [];
      var allowed := Left(escalationBudget, ApprovalsSince(rows, bucket, UtcMidnight(now)));
      var ids := Pending(rows, 2, bucket);
      PendingAreRows(rows, 2, bucket);
      assert ids[0..] == ids;
      for x := 0 to |ids|
        invariant rows == old(rows) && Within(ids[x..], |rows|)
        invariant chosen + DigestOf(rows, ids[x..], allowed) == DigestBatch(rows, bucket, now, escalationBudget)
      {
        DigestStep(rows, ids, x, allowed);
        var skip := false;
        if rows[ids[x]].category in APPROVAL_CATEGORIES {
          if allowed <= 0 {
            skip := true;
          } else {
            allowed := allowed - 1;
          }
        }
        if !skip {
          chosen := chosen + [ids[x]];
        }
      }
      NothingSelected(rows, true, allowed);
      assert ids[|ids|..] == [];
      assert chosen + [] == chosen && chosen == DigestBatch(rows, bucket, now, escalationBudget);
      flushed := DeliverBatch(Digest, chosen, now);
    }

    method FlushBucket(bucket: Bucket, m: Moment, s: Settings, present: bool) returns (ok: bool)
      modifies this
      ensures (rows, ok) == AfterFlush(old(rows), bucket, m, s, present)
    {
      var quiet := InQuietHours(LocalSecond(m), s.quietHours);
      if quiet.None? {
        return false;
      }
      FlushInterrupts(bucket, m.now, quiet.value, s.budget);
      FlushTier1(bucket, m.now, quiet.value, present);
      if !quiet.value {
        var due := DigestDue(rows, bucket, m, s.digestTimes);
        if due.None? {
          return false;
        }
        if due.value {
          var _ := DigestFlush(bucket, m.now, s.escalationBudget);
        }
      }
      return true;
    }

    method OnUserReturned(bucket: Bucket, now: nat, away: nat, escalationBudget: nat)
      modifies this
      ensures rows == AfterReturn(old(rows), bucket, now, away, escalationBudget)
    {
      FlushTier1(bucket, now, false, true);
      if away > LONG_ABSENCE {
        var _ := DigestFlush(bucket, now, escalationBudget);
      }
    }
  }
}

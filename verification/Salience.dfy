/** The salience machine (`backend/app/ambient/salience.py`): which missed deliveries are judged, what a
  * verdict does to a row, and the human's apply, decline and undo.
  */
module SalienceModel {
  import opened Options
  import opened Sorting
  import opened DeliveryModel

  datatype Action = Apply | Decline | Undo
  datatype Outcome = Ok | Noop | Conflict | Missing

  function PriorOf(row: Row): Prior {
    Prior(row.tier, row.deliveredAt, row.channel, row.seenAt)
  }

  /** Carry out a verdict: an escalation pulls the row back for the next digest. */
  function Performed(row: Row, verdict: Verdict, byHuman: bool, now: nat): Row {
    if verdict.Escalate? then row.(tier := 2, deliveredAt := None, channel := None)
    else if verdict.Drop? && byHuman && row.seenAt.None? then row.(seenAt := Some(now))
    else row
  }

  /** Take a verdict back; `prior` is missing only if the row was gone when it was carried out. */
  function Restored(row: Row, record: Record): Row {
    match record.verdict
    case Retain => row
    case Drop => row.(seenAt := if record.prior.Some? then record.prior.value.seenAt else None)
    case Escalate =>
      if record.prior.Some? then
        row.(tier := record.prior.value.tier, channel := record.prior.value.channel,
             deliveredAt := record.prior.value.deliveredAt)
      else row.(channel := None, deliveredAt := None)
  }

  function Judged(row: Row, verdict: Verdict, auto: bool, now: nat): Row {
    if auto then Performed(row, verdict, false, now).(salience := Some(Record(verdict, Applied, Some(PriorOf(row)))))
    else row.(salience := Some(Record(verdict, Undecided, None)))
  }

  /** A decision on a row whose record says what it says. */
  function DecideOn(row: Row, action: Action, now: nat): (Row, Outcome) {
    if row.salience.None? then (row, Conflict)
    else
      var record := row.salience.value;
      match action
      case Apply =>
        if record.decision.Applied? then (row, Noop)
        else if !record.decision.Undecided? then (row, Conflict)
        else
          (Performed(row, record.verdict, true, now)
             .(salience := Some(Record(record.verdict, Applied, Some(PriorOf(row))))), Ok)
      case Decline =>
        if record.decision.Declined? then (row, Noop)
        else if !record.decision.Undecided? then (row, Conflict)
        else (row.(salience := Some(record.(decision := Declined))), Ok)
      case Undo =>
        if !record.decision.Applied? then (row, Conflict)
        else if record.verdict.Escalate? && row.deliveredAt.Some? then (row, Conflict)
        else (Restored(row, record).(salience := Some(record.(decision := Undone))), Ok)
  }

  // ── The pass ──

  predicate Missed(row: Row) {
    row.tier <= 1 && row.seenAt.None? && row.supersededBy.None? && row.deliveredAt.Some?
  }

  function Recurrence(rows: seq<Row>, i: nat): nat
    requires i < |rows|
  {
    if rows[i].skey == "" then 1 else |set j: nat | j < |rows| && rows[j].skey == rows[i].skey|
  }

  predicate Prefilter(rows: seq<Row>, i: nat, minUrgency: nat)
    requires i < |rows|
  {
    Missed(rows[i]) && (rows[i].urgency >= minUrgency || Recurrence(rows, i) >= 3)
  }

  /** The missed rows that were never judged, most urgent first. */
  function MissedIds(rows: seq<Row>): seq<nat> {
    SortBy(UrgencyOf(rows), Where(|rows|, (i: nat) => i < |rows| && Missed(rows[i]) && rows[i].salience.None?))
  }

  function Candidates(rows: seq<Row>, limit: nat): seq<nat> {
    if |MissedIds(rows)| <= limit then MissedIds(rows) else MissedIds(rows)[..limit]
  }

  lemma MissedIdsAre(rows: seq<Row>)
    ensures Sorted(UrgencyOf(rows), MissedIds(rows))
    ensures forall i: nat :: i in MissedIds(rows) <==> i < |rows| && Missed(rows[i]) && rows[i].salience.None?
  {
    var chosen := (i: nat) => i < |rows| && Missed(rows[i]) && rows[i].salience.None?;
    WhereIsExact(|rows|, chosen);
    SortMeaning(UrgencyOf(rows), Where(|rows|, chosen));
  }

  lemma CandidatesAre(rows: seq<Row>, limit: nat)
    ensures var ids := Candidates(rows, limit);
            && Distinct(ids) && Within(ids, |rows|) && |ids| <= limit
            && (forall p :: 0 <= p < |ids| ==> Missed(rows[ids[p]]) && rows[ids[p]].salience.None?)
            && (forall i: nat :: i < |rows| && Missed(rows[i]) && rows[i].salience.None? && i !in ids
                  ==> |ids| == limit && forall p :: 0 <= p < |ids| ==> Ahead(UrgencyOf(rows), ids[p], i))
  {
    hide MissedIds, Missed, Sorted, Ahead, UrgencyOf;
    MissedIdsAre(rows);
    FirstOf(UrgencyOf(rows), MissedIds(rows), limit);
    assert forall p :: 0 <= p < |MissedIds(rows)| ==> MissedIds(rows)[p] in MissedIds(rows);
  }

  lemma FirstOf(score: nat -> real, all: seq<nat>, limit: nat)
    requires Sorted(score, all)
    ensures var ids := if |all| <= limit then all else all[..limit];
            && Distinct(ids)
            && forall i: nat :: i in all && i !in ids ==>
                 |ids| == limit && forall p :: 0 <= p < |ids| ==> Ahead(score, ids[p], i)
  {
    SortedIsDistinct(score, all);
    var ids := if |all| <= limit then all else all[..limit];
    forall i: nat | i in all && i !in ids
      ensures |ids| == limit && forall p :: 0 <= p < |ids| ==> Ahead(score, ids[p], i)
    {
      var q :| 0 <= q < |all| && all[q] == i;
      assert forall p :: 0 <= p < |ids| ==> ids[p] == all[p] && ids[p] in ids;
    }
  }

  /** What the judge answers for each row; `None` where it fails. */
  type Judge = nat -> Option<Verdict>

  /** The categories and owners whose deliveries are not to be judged. */
  type Mutes = set<(string, Option<nat>)>

  function PassRow(rows: seq<Row>, i: nat, minUrgency: nat, auto: bool, muted: Mutes, judge: Judge, now: nat): Row
    requires i < |rows|
  {
    if (rows[i].category, rows[i].owner) !in muted && Prefilter(rows, i, minUrgency) && judge(i).Some?
    then Judged(rows[i], judge(i).value, auto, now) else rows[i]
  }

  function PassOn(rows: seq<Row>, limit: nat, minUrgency: nat, auto: bool, muted: Mutes, judge: Judge, now: nat)
    : seq<Row>
  {
    seq(|rows|, i requires 0 <= i < |rows| =>
      if i in Candidates(rows, limit) then PassRow(rows, i, minUrgency, auto, muted, judge, now) else rows[i])
  }

  class SalienceDesk {
    const outbox: Outbox

    constructor (deliveries: Outbox)
      ensures outbox == deliveries
    {
      outbox := deliveries;
    }

    method Perform(i: nat, verdict: Verdict, byHuman: bool, now: nat) returns (prior: Option<Prior>)
      modifies outbox
      ensures i >= |old(outbox.rows)| ==> prior.None? && outbox.rows == old(outbox.rows)
      ensures i < |old(outbox.rows)| ==>
                && prior == Some(PriorOf(old(outbox.rows)[i]))
                && outbox.rows == old(outbox.rows)[i := Performed(old(outbox.rows)[i], verdict, byHuman, now)]
    {
      if i >= |outbox.rows| {
        return None;
      }
      var row := outbox.rows[i];
      prior := Some(Prior(row.tier, row.deliveredAt, row.channel, row.seenAt));
      if verdict.Escalate? {
        row := row.(tier := 2);
        row := row.(deliveredAt := None);
        row := row.(channel := None);
      } else if verdict.Drop? && byHuman && row.seenAt.None? {
        row := row.(seenAt := Some(now));
      }
      outbox.rows := outbox.rows[i := row];
    }

    method ApplyVerdict(i: nat, verdict: Verdict, auto: bool, now: nat)
      modifies outbox
      ensures outbox.rows == if i < |old(outbox.rows)|
                             then old(outbox.rows)[i := Judged(old(outbox.rows)[i], verdict, auto, now)]
                             else old(outbox.rows)
    {
      var prior: Option<Prior> := None;
      if auto {
        prior := Perform(i, verdict, false, now);
      }
      if i >= |outbox.rows| {
        return;
      }
      var record := Record(verdict, if auto then Applied else Undecided, prior);
      outbox.rows := outbox.rows[i := outbox.rows[i].(salience := Some(record))];
    }

    /** The decision surface: read the record, carry the action out, close the record. */
    method Decide(i: nat, action: Action, now: nat) returns (outcome: Outcome)
      modifies outbox
      ensures i >= |old(outbox.rows)| ==> outcome == Missing && outbox.rows == old(outbox.rows)
      ensures i < |old(outbox.rows)| ==>
                && outcome == DecideOn(old(outbox.rows)[i], action, now).1
                && outbox.rows == old(outbox.rows)[i := DecideOn(old(outbox.rows)[i], action, now).0]
    {
      if i >= |outbox.rows| {
        return Missing;
      }
      if outbox.rows[i].salience.None? {
        return Conflict;
      }
      var record := outbox.rows[i].salience.value;
      if action.Apply? {
        if record.decision.Applied? {
          return Noop;
        }
        if !record.decision.Undecided? {
          return Conflict;
        }
        var prior := Perform(i, record.verdict, true, now);
        Close(i, record.(prior := prior), Applied);
        return Ok;
      }
      if action.Decline? {
        if record.decision.Declined? {
          return Noop;
        }
        if !record.decision.Undecided? {
          return Conflict;
        }
        Close(i, record, Declined);
        return Ok;
      }
      if !record.decision.Applied? {
        return Conflict;
      }
      var row := outbox.rows[i];
      if record.verdict.Escalate? {
        if row.deliveredAt.Some? {
          return Conflict;
        }
        if record.prior.Some? {
          row := row.(tier := record.prior.value.tier);
        }
        row := row.(channel := if record.prior.Some? then record.prior.value.channel else None);
        row := row.(deliveredAt := if record.prior.Some? then record.prior.value.deliveredAt else None);
      } else if record.verdict.Drop? {
        row := row.(seenAt := if record.prior.Some? then record.prior.value.seenAt else None);
      }
      outbox.rows := outbox.rows[i := row];
      Close(i, record, Undone);
      return Ok;
    }

    method Close(i: nat, record: Record, decision: Decision)
      requires i < |outbox.rows|
      modifies outbox
      ensures outbox.rows
              == old(outbox.rows)[i := old(outbox.rows)[i].(salience := Some(record.(decision := decision)))]
    {
      outbox.rows := outbox.rows[i := outbox.rows[i].(salience := Some(record.(decision := decision)))];
    }

    method RunPass(limit: nat, minUrgency: nat, auto: bool, muted: Mutes, judge: Judge, now: nat)
      modifies outbox
      ensures outbox.rows == PassOn(old(outbox.rows), limit, minUrgency, auto, muted, judge, now)
    {
      var ids := Candidates(outbox.rows, limit);
      CandidatesAre(outbox.rows, limit);
      ghost var before := outbox.rows;
      hide Candidates, Judged, Missed, Recurrence;
      for x := 0 to |ids|
        invariant |outbox.rows| == |before|
        invariant forall i: nat :: i < |before| ==> outbox.rows[i].skey == before[i].skey
        invariant forall i: nat :: i < |before| ==>
          outbox.rows[i] == if i in ids[..x] then PassRow(before, i, minUrgency, auto, muted, judge, now) else before[i]
      {
        var i := ids[x];
        assert ids[..x + 1] == ids[..x] + [i] && i !in ids[..x];
        SameRecurrence(outbox.rows, before, i);
        KeepsKey(before, i, minUrgency, auto, muted, judge, now);
        if (outbox.rows[i].category, outbox.rows[i].owner) !in muted {
          if Prefilter(outbox.rows, i, minUrgency) {
            var verdict := judge(i);
            if verdict.Some? {
              ApplyVerdict(i, verdict.value, auto, now);
            }
          }
        }
        assert outbox.rows[i] == PassRow(before, i, minUrgency, auto, muted, judge, now);
      }
      assert ids[..|ids|] == ids;
    }
  }

  lemma KeepsKey(rows: seq<Row>, i: nat, minUrgency: nat, auto: bool, muted: Mutes, judge: Judge, now: nat)
    requires i < |rows|
    ensures PassRow(rows, i, minUrgency, auto, muted, judge, now).skey == rows[i].skey
  {}

  lemma SameRecurrence(a: seq<Row>, b: seq<Row>, i: nat)
    requires |a| == |b| && i < |a| && forall j: nat :: j < |a| ==> a[j].skey == b[j].skey
    ensures Recurrence(a, i) == Recurrence(b, i)
  {
    assert (set j: nat | j < |a| && a[j].skey == a[i].skey) == (set j: nat | j < |b| && b[j].skey == b[i].skey);
  }

  /** Main result. The pass re-judges only what was delivered in real time, not seen, not superseded and
    * never judged before; it never delivers, never raises a tier above the digest and never marks a row
    * seen. */
  lemma PassNeverInterrupts(rows: seq<Row>, limit: nat, minUrgency: nat, auto: bool, muted: Mutes, judge: Judge,
                            now: nat, i: nat)
    requires i < |rows|
    ensures var after := PassOn(rows, limit, minUrgency, auto, muted, judge, now)[i];
            after != rows[i] ==>
              && rows[i].tier <= 1 && rows[i].seenAt.None? && rows[i].supersededBy.None? && rows[i].deliveredAt.Some?
              && rows[i].salience.None? && (rows[i].category, rows[i].owner) !in muted
              && (rows[i].urgency >= minUrgency || Recurrence(rows, i) >= 3)
              && (after == rows[i].(salience := after.salience)
                  || (auto && after == rows[i].(salience := after.salience, tier := 2, deliveredAt := None, channel := None)))
  {
    CandidatesAre(rows, limit);
    hide Candidates;
  }

  /** Main result. First decision wins: after any decision that went through, replaying it is a no-op,
    * or refused for an undo, contradicting it is refused, and neither changes the row. Applied is the
    * only decision that can still be undone. */
  lemma FirstDecisionWins(row: Row, first: Action, second: Action, at: nat, later: nat)
    requires DecideOn(row, first, at).1 == Ok
    ensures var decided := DecideOn(row, first, at).0;
            && (first.Apply? && second.Undo? && row.salience.value.verdict.Escalate?
                ==> DecideOn(decided, second, later).1 == Ok)
            && (!(first.Apply? && second.Undo?) ==>
                  && DecideOn(decided, second, later).0 == decided
                  && DecideOn(decided, second, later).1 == (if first == second && !first.Undo? then Noop else Conflict))
  {}

  /** Main result. Undoing an applied verdict gives back the row as it was, but for the record of the
    * decisions; the record keeps the verdict and what the row looked like. */
  lemma UndoRestores(row: Row, at: nat, later: nat)
    requires DecideOn(row, Apply, at).1 == Ok
    ensures var applied := DecideOn(row, Apply, at).0;
            var undone := DecideOn(applied, Undo, later).0;
            && DecideOn(applied, Undo, later).1 == Ok
            && undone.(salience := row.salience) == row
            && undone.salience == Some(Record(row.salience.value.verdict, Undone, Some(PriorOf(row))))
  {}

  /** An escalated interrupt no longer counts against its day: it makes room for one more. */
  lemma EscalationFreesBudget(rows: seq<Row>, i: nat, bucket: Bucket, since: nat, byHuman: bool, now: nat)
    requires i < |rows| && InBucket(rows[i], bucket) && rows[i].channel == Some(Interrupt)
    requires rows[i].deliveredAt.Some? && rows[i].deliveredAt.value >= since
    ensures InterruptsSince(rows[i := Performed(rows[i], Escalate, byHuman, now)], bucket, since)
            == InterruptsSince(rows, bucket, since) - 1
  {
    var after := rows[i := Performed(rows[i], Escalate, byHuman, now)];
    var counted := set j: nat | j < |rows| && InBucket(rows[j], bucket) && rows[j].channel == Some(Interrupt)
                                && rows[j].deliveredAt.Some? && rows[j].deliveredAt.value >= since;
    var left := set j: nat | j < |after| && InBucket(after[j], bucket) && after[j].channel == Some(Interrupt)
                             && after[j].deliveredAt.Some? && after[j].deliveredAt.value >= since;
    assert counted == left + {i} && i !in left;
  }
}

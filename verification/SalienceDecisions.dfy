/** What the salience pass and the three decisions do to each row, on the rows of the table alone. */
module SalienceDecisions {
  import opened Options
  import opened Sorting
  import opened DeliveryModel
  import opened SalienceModel
  import Deliveries = DeliveryDecisions

  /** Sent in real time, not seen, not superseded, and never judged. */
  predicate Unjudged(row: Row) {
    row.tier <= 1 && row.seenAt.None? && row.supersededBy.None? && row.deliveredAt.Some? && row.salience.None?
  }

  /** The missed, never judged rows before row `i`: more urgent, or as urgent and older. */
  function Ahead(rows: seq<Row>, i: nat): set<nat>
    requires i < |rows|
  {
    set j: nat | j < |rows| && Unjudged(rows[j]) && Deliveries.Before(rows, j, i)
  }

  /** The rows of the same key; a row without one stands alone. */
  function Kin(rows: seq<Row>, i: nat): set<nat>
    requires i < |rows|
  {
    set j: nat | j < |rows| && (j == i || (rows[i].skey != "" && rows[j].skey == rows[i].skey))
  }

  lemma KinIsRecurrence(rows: seq<Row>, i: nat)
    requires i < |rows|
    ensures Recurrence(rows, i) == |Kin(rows, i)|
  {
    if rows[i].skey == "" {
      assert Kin(rows, i) == {i};
    } else {
      assert Kin(rows, i) == set j: nat | j < |rows| && rows[j].skey == rows[i].skey;
    }
  }

  lemma ChosenExactly(rows: seq<Row>, limit: nat, i: nat)
    requires i < |rows|
    ensures i in Candidates(rows, limit) <==> Unjudged(rows[i]) && |Ahead(rows, i)| < limit
  {
    hide MissedIds, UrgencyOf;
    MissedIdsAre(rows);
    var all := MissedIds(rows);
    SortedIsDistinct(UrgencyOf(rows), all);
    assert forall j: nat :: j in all <==> j < |rows| && Unjudged(rows[j]);
    if i in all {
      var p :| 0 <= p < |all| && all[p] == i;
      forall j: nat ensures j in Ahead(rows, i) <==> j in all && Sorting.Ahead(UrgencyOf(rows), j, i) {
        if j < |rows| {
          Deliveries.BeforeIsAhead(rows, i, j);
        }
      }
      hide Sorted, Sorting.Ahead, Ahead, Distinct;
      PlaceIsCount(UrgencyOf(rows), all, p, Ahead(rows, i));
      PrefixHolds(all, p, if |all| <= limit then |all| else limit);
      assert all[..|all|] == all;
    } else {
      assert i in Candidates(rows, limit) ==> i in all;
    }
  }

  /** Main result. A pass re-judges a row exactly if it is a missed real-time delivery that was never judged,
    * has fewer than `limit` such rows before it, is not muted for its owner, is urgent enough or the third of
    * its key at least, and the judge answers. In auto mode the verdict is applied, and an escalation sends the
    * row back for the digest; in propose mode it is only recorded. Every other row is left alone. */
  lemma PassDecidesExactly(rows: seq<Row>, limit: nat, minUrgency: nat, auto: bool, muted: Mutes, judge: Judge, now: nat, i: nat)
    requires i < |rows|
    ensures var after := PassOn(rows, limit, minUrgency, auto, muted, judge, now);
            var judged := Unjudged(rows[i]) && |Ahead(rows, i)| < limit && (rows[i].category, rows[i].owner) !in muted
                          && (rows[i].urgency >= minUrgency || |Kin(rows, i)| >= 3) && judge(i).Some?;
            && |after| == |rows|
            && after[i] == if !judged then rows[i]
                           else if !auto then rows[i].(salience := Some(Record(judge(i).value, Undecided, None)))
                           else
                             var marked := rows[i].(salience := Some(Record(judge(i).value, Applied,
                               Some(Prior(rows[i].tier, rows[i].deliveredAt, rows[i].channel, rows[i].seenAt)))));
                             if judge(i).value == Escalate then marked.(tier := 2, deliveredAt := None, channel := None) else marked
  {
    ChosenExactly(rows, limit, i);
    KinIsRecurrence(rows, i);
    hide Candidates, Recurrence, Ahead, Kin;
  }

  /** Main result. What each decision does to a row that carries a record: an apply and a decline need it
    * undecided, an undo needs it applied and, for an escalation, not yet delivered again; a repeated apply or
    * decline is a no-op and any other clash a conflict. */
  lemma DecisionsDecideExactly(row: Row, action: Action, now: nat, record: Record)
    requires row.salience == Some(record)
    ensures var (after, outcome) := DecideOn(row, action, now);
            && (outcome == Ok <==> match action
                                   case Apply => record.decision == Undecided
                                   case Decline => record.decision == Undecided
                                   case Undo => record.decision == Applied && (record.verdict == Escalate ==> row.deliveredAt.None?))
            && (outcome == Noop <==> (action == Apply && record.decision == Applied) || (action == Decline && record.decision == Declined))
            && outcome != Missing
            && (outcome != Ok ==> after == row)
            && (outcome == Ok && action == Decline ==> after == row.(salience := Some(record.(decision := Declined))))
            && (outcome == Ok && action == Apply ==>
                  var prior := Prior(row.tier, row.deliveredAt, row.channel, row.seenAt);
                  var marked := row.(salience := Some(Record(record.verdict, Applied, Some(prior))));
                  after == match record.verdict
                           case Escalate => marked.(tier := 2, deliveredAt := None, channel := None)
                           case Drop => marked.(seenAt := if row.seenAt.None? then Some(now) else row.seenAt)
                           case Retain => marked)
            && (outcome == Ok && action == Undo ==>
                  var marked := row.(salience := Some(record.(decision := Undone)));
                  after == match record.verdict
                           case Escalate =>
                             if record.prior.Some?
                             then marked.(tier := record.prior.value.tier, channel := record.prior.value.channel,
                                          deliveredAt := record.prior.value.deliveredAt)
                             else marked.(channel := None, deliveredAt := None)
                           case Drop => marked.(seenAt := if record.prior.Some? then record.prior.value.seenAt else None)
                           case Retain => marked)
  {}

  lemma NoRecordNoDecision(row: Row, action: Action, now: nat)
    requires row.salience == None
    ensures DecideOn(row, action, now) == (row, Conflict)
  {}
}

/** The lifetime delivery history of one outbox row, under every interleaving of flush batches and
  * salience operations.
  *
  * A flush chooses a row in one transaction and marks it in a later one; the pass and the three
  * decisions read, act and close in separate transactions. Between any two transactions any other may
  * run, and a process may die: its batch is then never marked, its task never goes on.
  */
module DeliveryHistory {
  import opened Options
  import opened DeliveryModel
  import opened SalienceModel
  import Runs = DeliveryRuns
  import PolicyLedger

  /** A salience operation in flight on the row: the pass after its selection, with what stood before
    * it acted; or a decision with the record it read and, once it has acted, the record to write. */
  datatype Task =
    | Judging(verdict: Verdict, auto: bool, prior: Option<Prior>)
    | Deciding(action: Action, read: Record, closing: Option<Record>)

  /** The row; the flush batches that hold it; the tasks in flight; the channels it was marked delivered
    * on so far; the deliveries it was pulled back from; and how often it was given back. */
  datatype History = History(row: Row, batches: seq<Channel>, tasks: seq<Task>, marks: seq<Channel>,
                             pulled: seq<Prior>, restores: nat)

  function Fresh(row: Row): History {
    History(row, [], [], if row.channel.Some? then [row.channel.value] else [], [], 0)
  }

  datatype Step =
    | Choose(channel: Channel)
    | Mark(batch: nat, at: nat)
    | Demote
    | Supersede(newer: nat)
    | See(at: nat)
    | Select(verdict: Verdict, auto: bool)
    | Read(action: Action)
    | Act(task: nat, at: nat)
    | Close(task: nat)
    | Drop(batch: nat)
    | Abandon(task: nat)

  predicate Enabled(h: History, s: Step) {
    match s
    case Choose(channel) => Live(h.row) && h.row.tier in {0, 1, 2} && channel == Runs.ChannelOf(h.row.tier)
    case Mark(batch, _) => batch < |h.batches|
    case Demote => Live(h.row) && h.row.tier in {0, 1}
    case Supersede(_) => Live(h.row)
    case See(_) => h.row.seenAt.None?
    case Select(_, _) => Missed(h.row) && h.row.salience.None?
    case Read(_) => h.row.salience.Some?
    case Act(task, _) => task < |h.tasks| && !Acted(h.tasks[task])
    case Close(task) => task < |h.tasks| && Acted(h.tasks[task])
    case Drop(batch) => batch < |h.batches|
    case Abandon(task) => task < |h.tasks|
  }

  /** Has the task's acting transaction run? In propose mode the pass has none. */
  predicate Acted(t: Task) {
    match t
    case Judging(_, auto, prior) => !auto || prior.Some?
    case Deciding(_, _, closing) => closing.Some?
  }

  function Without<T>(s: seq<T>, i: nat): seq<T>
    requires i < |s|
  {
    s[..i] + s[i + 1..]
  }

  function Marked(h: History, channel: Channel, at: nat): History {
    if h.row.deliveredAt.None? then
      h.(row := h.row.(deliveredAt := Some(at), channel := Some(channel)), marks := h.marks + [channel])
    else h
  }

  /** Carry out a verdict, counting the pull. */
  function Pulled(h: History, verdict: Verdict, byHuman: bool, at: nat): History {
    var row := Performed(h.row, verdict, byHuman, at);
    if h.row.deliveredAt.Some? && row.deliveredAt.None? then
      h.(row := row, pulled := h.pulled + [PriorOf(h.row)])
    else h.(row := row)
  }

  function GivenBack(h: History, record: Record): History {
    var row := Restored(h.row, record);
    if h.row.deliveredAt.None? && row.deliveredAt.Some? then h.(row := row, restores := h.restores + 1)
    else h.(row := row)
  }

  function ActOn(h: History, k: nat, at: nat): History
    requires k < |h.tasks| && !Acted(h.tasks[k])
  {
    match h.tasks[k]
    case Judging(verdict, _, _) =>
      Pulled(h, verdict, false, at).(tasks := h.tasks[k := Judging(verdict, true, Some(PriorOf(h.row)))])
    case Deciding(action, read, _) =>
      match action
      case Apply =>
        if !read.decision.Undecided? then h.(tasks := Without(h.tasks, k))
        else Pulled(h, read.verdict, true, at)
               .(tasks := h.tasks[k := Deciding(Apply, read, Some(Record(read.verdict, Applied, Some(PriorOf(h.row)))))])
      case Decline =>
        if !read.decision.Undecided? then h.(tasks := Without(h.tasks, k))
        else h.(tasks := h.tasks[k := Deciding(Decline, read, Some(read.(decision := Declined)))])
      case Undo =>
        if !read.decision.Applied? || (read.verdict.Escalate? && h.row.deliveredAt.Some?)
        then h.(tasks := Without(h.tasks, k))
        else GivenBack(h, read).(tasks := h.tasks[k := Deciding(Undo, read, Some(read.(decision := Undone)))])
  }

  function ClosedRecord(t: Task): Record
    requires Acted(t)
  {
    match t
    case Judging(verdict, auto, prior) => Record(verdict, if auto then Applied else Undecided, if auto then prior else None)
    case Deciding(_, _, closing) => closing.value
  }

  function After(h: History, s: Step): History
    requires Enabled(h, s)
  {
    match s
    case Choose(channel) => h.(batches := h.batches + [channel])
    case Mark(batch, at) => Marked(h, h.batches[batch], at).(batches := Without(h.batches, batch))
    case Demote => h.(row := h.row.(tier := 2))
    case Supersede(newer) => h.(row := h.row.(supersededBy := Some(newer)))
    case See(at) => h.(row := h.row.(seenAt := Some(at)))
    case Select(verdict, auto) => h.(tasks := h.tasks + [Judging(verdict, auto, None)])
    case Read(action) => h.(tasks := h.tasks + [Deciding(action, h.row.salience.value, None)])
    case Act(task, at) => ActOn(h, task, at)
    case Close(task) =>
      h.(row := h.row.(salience := Some(ClosedRecord(h.tasks[task]))), tasks := Without(h.tasks, task))
    case Drop(batch) => h.(batches := Without(h.batches, batch))
    case Abandon(task) => h.(tasks := Without(h.tasks, task))
  }

  predicate CanRun(h: History, steps: seq<Step>)
    decreases |steps|
  {
    steps != [] ==> Enabled(h, steps[0]) && CanRun(After(h, steps[0]), steps[1..])
  }

  function RunFrom(h: History, steps: seq<Step>): History
    requires CanRun(h, steps)
    decreases |steps|
  {
    if steps == [] then h else RunFrom(After(h, steps[0]), steps[1..])
  }

  /** A row as the insert path leaves it. */
  predicate Inserted(row: Row) {
    && row.salience.None? && row.supersededBy.None? && row.seenAt.None?
    && if row.tier == 3 then row.deliveredAt.Some? && row.channel == Some(Silent)
       else row.deliveredAt.None? && row.channel.None?
  }

  // ── Whatever interleaves ──

  ghost predicate Balanced(h: History) {
    |h.marks| + h.restores == |h.pulled| + (if h.row.deliveredAt.Some? then 1 else 0)
  }

  lemma StepKeepsBalance(h: History, s: Step)
    requires Balanced(h) && Enabled(h, s)
    ensures Balanced(After(h, s))
  {}

  /** A row starts balanced, delivered silently or not at all. */
  lemma NewRowIsBalanced(rows: seq<Row>, ledger: PolicyLedger.Ledger, req: Request, at: nat)
    ensures var after := Added(rows, ledger, req, at); |after| > 0 && Balanced(Fresh(after[|after| - 1]))
  {}

  /** Main result. However flushes and salience operations interleave, overlap or break off, a row's
    * deliveries balance: marks and undone pull-backs on one side, pull-backs and the present delivery
    * on the other. Nothing but a pull-back ever makes a second mark possible. */
  lemma {:induction false} DeliveriesBalance(h: History, steps: seq<Step>)
    requires Balanced(h) && CanRun(h, steps)
    ensures Balanced(RunFrom(h, steps))
    ensures |RunFrom(h, steps).marks| <= 1 + |RunFrom(h, steps).pulled|
    decreases |steps|
  {
    if steps != [] {
      StepKeepsBalance(h, steps[0]);
      DeliveriesBalance(After(h, steps[0]), steps[1..]);
    }
  }

  // ── What every run keeps ──

  predicate RealTime(c: Channel) {
    c.Interrupt? || c.Notify?
  }

  /** What stood before an escalation: a delivery that was taken back, or nothing but a place in the digest. */
  ghost predicate PriorOk(h: History, verdict: Verdict, p: Prior) {
    && (p.deliveredAt.None? ==> p.tier == 2)
    && (p.deliveredAt.Some? ==> p.channel.Some? && p.channel.value in h.marks)
    && (verdict.Escalate? && p.deliveredAt.Some? ==> p in h.pulled)
  }

  ghost predicate RecordOk(h: History, r: Record) {
    r.decision.Applied? ==> r.prior.Some? && PriorOk(h, r.verdict, r.prior.value)
  }

  ghost predicate TaskOk(h: History, t: Task) {
    match t
    case Judging(verdict, auto, prior) => prior.Some? ==> auto && PriorOk(h, verdict, prior.value)
    case Deciding(_, read, closing) =>
      && h.row.salience.Some? && RecordOk(h, read)
      && (closing.Some? ==> RecordOk(h, closing.value) && !closing.value.decision.Undecided?)
  }

  /** Salience begins after a real-time delivery; what is pulled back waits for the digest. */
  ghost predicate RowOk(h: History) {
    && Silent !in h.batches
    && (h.marks == [] ==> h.row.deliveredAt.None? && h.tasks == [] && h.row.salience.None?
                          && (Digest in h.batches ==> h.row.tier >= 2))
    && (h.marks != [] && h.row.deliveredAt.None? ==> h.row.tier == 2)
    && (h.marks != [] && !RealTime(h.marks[0])
        ==> h.row.salience.None? && h.tasks == [] && h.row.tier >= 2 && h.row.deliveredAt.Some?)
    && (h.row.deliveredAt.Some? ==> h.row.channel.Some? && h.row.channel.value in h.marks)
  }

  ghost predicate Inv(h: History) {
    && RowOk(h)
    && (h.row.salience.Some? ==> RecordOk(h, h.row.salience.value))
    && (forall k :: 0 <= k < |h.tasks| ==> TaskOk(h, h.tasks[k]))
  }

  lemma FreshKeeps(row: Row)
    requires Inserted(row)
    ensures Inv(Fresh(row))
  {}

  lemma WithoutIsIn<T>(s: seq<T>, i: nat)
    requires i < |s|
    ensures forall x :: x in Without(s, i) ==> x in s
  {}

  /** Nothing known about priors is lost while marks and pull-backs only grow. */
  lemma TasksStay(h: History, t: History)
    requires forall k :: 0 <= k < |h.tasks| ==> TaskOk(h, h.tasks[k])
    requires h.row.salience.Some? ==> t.row.salience.Some?
    requires (forall c :: c in h.marks ==> c in t.marks) && (forall p :: p in h.pulled ==> p in t.pulled)
    ensures forall x :: x in h.tasks ==> TaskOk(t, x)
  {
    forall x | x in h.tasks ensures TaskOk(t, x) {
      var k :| 0 <= k < |h.tasks| && h.tasks[k] == x;
      assert TaskOk(h, h.tasks[k]);
    }
  }

  lemma ActKeepsTasks(h: History, k: nat, at: nat)
    requires Inv(h) && k < |h.tasks| && !Acted(h.tasks[k])
    ensures var t := ActOn(h, k, at);
            && (t.row.salience.Some? ==> RecordOk(t, t.row.salience.value))
            && (forall x :: 0 <= x < |t.tasks| ==> TaskOk(t, t.tasks[x]))
  {
    TasksStay(h, ActOn(h, k, at));
    assert TaskOk(h, h.tasks[k]);
    WithoutIsIn(h.tasks, k);
  }

  lemma StepKeepsTasks(h: History, s: Step)
    requires Inv(h) && Enabled(h, s)
    ensures var t := After(h, s);
            && (t.row.salience.Some? ==> RecordOk(t, t.row.salience.value))
            && (forall k :: 0 <= k < |t.tasks| ==> TaskOk(t, t.tasks[k]))
  {
    if s.Act? {
      ActKeepsTasks(h, s.task, s.at);
    } else {
      TasksStay(h, After(h, s));
      if s.Close? || s.Abandon? {
        assert TaskOk(h, h.tasks[s.task]);
        WithoutIsIn(h.tasks, s.task);
      }
    }
  }

  lemma StepKeepsRow(h: History, s: Step)
    requires Inv(h) && Enabled(h, s)
    ensures RowOk(After(h, s))
  {
    match s
    case Act(task, _) => assert TaskOk(h, h.tasks[task]);
    case Mark(batch, _) => WithoutIsIn(h.batches, batch); assert h.batches[batch] in h.batches;
    case Drop(batch) => WithoutIsIn(h.batches, batch);
    case _ =>
  }

  lemma StepKeepsInv(h: History, s: Step)
    requires Inv(h) && Enabled(h, s)
    ensures Inv(After(h, s))
  {
    StepKeepsTasks(h, s);
    StepKeepsRow(h, s);
  }

  lemma {:induction false} RunKeepsInv(h: History, steps: seq<Step>)
    requires Inv(h) && CanRun(h, steps)
    ensures Inv(RunFrom(h, steps))
    decreases |steps|
  {
    hide Inv, After, Enabled;
    if steps != [] {
      StepKeepsInv(h, steps[0]);
      RunKeepsInv(After(h, steps[0]), steps[1..]);
    }
  }

  /** In every run, whatever overlaps or dies: undoing an escalation while the row waits
    * gives back a delivery the row really had, tier, time and channel, unless what it undoes had found
    * the row pulled back already; then the row stays in the digest. */
  lemma UndoGivesBackADelivery(row: Row, steps: seq<Step>, k: nat, at: nat)
    requires Inserted(row) && CanRun(Fresh(row), steps)
    requires var h := RunFrom(Fresh(row), steps);
             k < |h.tasks| && h.tasks[k].Deciding? && h.tasks[k].action.Undo? && h.tasks[k].closing.None?
             && h.tasks[k].read.verdict.Escalate? && h.tasks[k].read.decision.Applied? && h.row.deliveredAt.None?
    ensures var h := RunFrom(Fresh(row), steps);
            var t, prior := After(h, Act(k, at)).row, h.tasks[k].read.prior;
            && prior.Some? && (t.deliveredAt.Some? <==> prior.value.deliveredAt.Some?)
            && (t.deliveredAt.None? ==> t.tier == 2)
            && (t.deliveredAt.Some? ==> exists p :: p in h.pulled && t.tier == p.tier && t.deliveredAt == p.deliveredAt
                                                    && t.channel == p.channel)
  {
    FreshKeeps(row);
    RunKeepsInv(Fresh(row), steps);
    var h := RunFrom(Fresh(row), steps);
    assert TaskOk(h, h.tasks[k]);
  }

  // ── When a delivered row is delivered again ──

  predicate IsProposal(r: Record) {
    r.verdict.Escalate? && r.decision.Undecided?
  }

  /** Will the task, if it goes on, pull the row back, at once or through its proposal? */
  predicate PullsYet(t: Task) {
    match t
    case Judging(verdict, auto, prior) => verdict.Escalate? && (auto ==> prior.None?)
    case Deciding(action, read, closing) => action.Apply? && IsProposal(read) && closing.None?
  }

  /** A row the pass may still judge, an open proposal to escalate, or an escalation in flight. */
  predicate Pullable(h: History) {
    || (Missed(h.row) && h.row.salience.None?)
    || (h.row.salience.Some? && IsProposal(h.row.salience.value))
    || exists k :: 0 <= k < |h.tasks| && PullsYet(h.tasks[k])
  }

  /** Delivered for good. */
  ghost predicate Settled(h: History) {
    h.row.deliveredAt.Some? && !Pullable(h)
  }

  lemma SettledStays(h: History, s: Step)
    requires Inv(h) && Settled(h) && Enabled(h, s)
    ensures Settled(After(h, s)) && After(h, s).marks == h.marks
  {
    var t := After(h, s);
    if s.Act? || s.Close? || s.Abandon? {
      assert TaskOk(h, h.tasks[s.task]);
      assert !PullsYet(h.tasks[s.task]);
      WithoutIsIn(h.tasks, s.task);
    }
    forall k | 0 <= k < |t.tasks| ensures !PullsYet(t.tasks[k]) {
      assert t.tasks[k] in h.tasks ==> exists j :: 0 <= j < |h.tasks| && h.tasks[j] == t.tasks[k];
    }
  }

  lemma {:induction false} SettledForGood(h: History, steps: seq<Step>)
    requires Inv(h) && Settled(h) && CanRun(h, steps)
    ensures RunFrom(h, steps).marks == h.marks
    decreases |steps|
  {
    hide Inv, After, Enabled, Settled;
    if steps != [] {
      StepKeepsInv(h, steps[0]);
      SettledStays(h, steps[0]);
      SettledForGood(After(h, steps[0]), steps[1..]);
    }
  }

  /** A superseded row that no batch holds is never marked again. */
  lemma {:induction false} LeftBehind(h: History, steps: seq<Step>)
    requires h.row.supersededBy.Some? && h.batches == [] && CanRun(h, steps)
    ensures RunFrom(h, steps).marks == h.marks
    decreases |steps|
  {
    if steps != [] {
      LeftBehind(After(h, steps[0]), steps[1..]);
    }
  }

  /** The run that pulls a delivered row back. */
  lemma PullRun(h: History) returns (steps: seq<Step>)
    requires Inv(h) && h.row.deliveredAt.Some? && Pullable(h)
    ensures CanRun(h, steps)
    ensures var t := RunFrom(h, steps);
            && t.row.deliveredAt.None? && t.row.tier == 2 && t.marks == h.marks && t.batches == h.batches
            && t.row.supersededBy == h.row.supersededBy
  {
    if k: nat :| k < |h.tasks| && PullsYet(h.tasks[k]) {
      if h.tasks[k].Judging? && !h.tasks[k].auto {
        var c := After(h, Close(k));
        var rest := ProposalRun(c);
        RunCons(h, Close(k), rest);
        steps := [Close(k)] + rest;
      } else {
        RunNone(After(h, Act(k, 0)));
        RunCons(h, Act(k, 0), []);
        steps := [Act(k, 0)] + [];
      }
    } else if h.row.salience.Some? && IsProposal(h.row.salience.value) {
      steps := ProposalRun(h);
    } else {
      var c := After(h, Select(Escalate, true));
      var k := |h.tasks|;
      RunNone(After(c, Act(k, 0)));
      RunCons(c, Act(k, 0), []);
      RunCons(h, Select(Escalate, true), [Act(k, 0)] + []);
      steps := [Select(Escalate, true)] + ([Act(k, 0)] + []);
    }
  }

  lemma ProposalRun(h: History) returns (steps: seq<Step>)
    requires h.row.deliveredAt.Some? && h.row.salience.Some? && IsProposal(h.row.salience.value)
    ensures CanRun(h, steps)
    ensures var t := RunFrom(h, steps);
            && t.row.deliveredAt.None? && t.row.tier == 2 && t.marks == h.marks && t.batches == h.batches
            && t.row.supersededBy == h.row.supersededBy
  {
    var c, k := After(h, Read(Apply)), |h.tasks|;
    RunNone(After(c, Act(k, 0)));
    RunCons(c, Act(k, 0), []);
    RunCons(h, Read(Apply), [Act(k, 0)] + []);
    steps := [Read(Apply)] + ([Act(k, 0)] + []);
  }

  /** An undelivered row takes the mark of a batch that holds it. */
  lemma MarkRun(h: History, batch: nat)
    requires batch < |h.batches| && h.row.deliveredAt.None?
    ensures CanRun(h, [Mark(batch, 0)]) && RunFrom(h, [Mark(batch, 0)]).marks == h.marks + [h.batches[batch]]
  {
    RunNone(After(h, Mark(batch, 0)));
    RunCons(h, Mark(batch, 0), []);
    assert [Mark(batch, 0)] + [] == [Mark(batch, 0)];
  }

  lemma DigestRun(h: History)
    requires Live(h.row) && h.row.tier == 2
    ensures var steps := [Choose(Digest), Mark(|h.batches|, 0)];
            CanRun(h, steps) && RunFrom(h, steps).marks == h.marks + [Digest]
  {
    MarkRun(After(h, Choose(Digest)), |h.batches|);
    RunCons(h, Choose(Digest), [Mark(|h.batches|, 0)]);
    assert [Choose(Digest)] + [Mark(|h.batches|, 0)] == [Choose(Digest), Mark(|h.batches|, 0)];
  }

  /** Main result, for every reachable state, whatever overlapped or died on the way. A delivered row can
    * be delivered once more exactly while it is pullable and a batch holds it or may still choose it. */
  lemma RedeliveryExactly(row: Row, steps: seq<Step>)
    requires Inserted(row) && CanRun(Fresh(row), steps) && RunFrom(Fresh(row), steps).row.deliveredAt.Some?
    ensures var h := RunFrom(Fresh(row), steps);
            Pullable(h) && (h.row.supersededBy.None? || h.batches != [])
            <==> exists more :: CanRun(h, more) && |RunFrom(h, more).marks| > |h.marks|
  {
    FreshKeeps(row);
    RunKeepsInv(Fresh(row), steps);
    hide Inv, CanRun, RunFrom, Fresh, Inserted, Pullable;
    var h := RunFrom(Fresh(row), steps);
    if Pullable(h) && (h.row.supersededBy.None? || h.batches != []) {
      var first := PullRun(h);
      var t := RunFrom(h, first);
      var last: seq<Step>;
      if h.batches != [] {
        last := [Mark(0, 0)];
        MarkRun(t, 0);
      } else {
        last := [Choose(Digest), Mark(|t.batches|, 0)];
        DigestRun(t);
      }
      RunInTwo(h, first, last);
    } else if !Pullable(h) {
      forall more | CanRun(h, more) ensures RunFrom(h, more).marks == h.marks {
        SettledForGood(h, more);
      }
    } else {
      forall more | CanRun(h, more) ensures RunFrom(h, more).marks == h.marks {
        LeftBehind(h, more);
      }
    }
  }

  // ── When a row reaches the human in real time again ──

  ghost predicate RealTimeHeld(h: History) {
    exists b :: b in h.batches && RealTime(b)
  }

  /** Is there a real-time mark among those from the `n`-th on? */
  ghost predicate RealTimeSince(h: History, n: nat) {
    exists i :: n <= i < |h.marks| && RealTime(h.marks[i])
  }

  lemma NoneHeldStays(h: History, s: Step)
    requires Inv(h) && Enabled(h, s) && h.marks != [] && !RealTimeHeld(h)
    ensures var t := After(h, s);
            && !RealTimeHeld(t) && h.marks <= t.marks && t.marks != []
            && forall i :: |h.marks| <= i < |t.marks| ==> !RealTime(t.marks[i])
  {
    var t := After(h, s);
    if s.Mark? || s.Drop? {
      WithoutIsIn(h.batches, s.batch);
      assert h.batches[s.batch] in h.batches;
    }
    if s.Choose? {
      assert h.row.tier == 2;
    }
  }

  lemma {:induction false} NoneHeldForGood(h: History, steps: seq<Step>)
    requires Inv(h) && CanRun(h, steps) && h.marks != [] && !RealTimeHeld(h)
    ensures var t := RunFrom(h, steps);
            && h.marks <= t.marks
            && forall i :: |h.marks| <= i < |t.marks| ==> !RealTime(t.marks[i])
    decreases |steps|
  {
    hide Inv, After, Enabled, RealTimeHeld;
    if steps != [] {
      StepKeepsInv(h, steps[0]);
      NoneHeldStays(h, steps[0]);
      NoneHeldForGood(After(h, steps[0]), steps[1..]);
    }
  }

  /** Main result, for every reachable state. Once delivered, a row can reach its human in real time again
    * exactly while a real-time batch chosen before still holds it and it is, or can be, pulled back. */
  lemma SecondRealTimeExactly(row: Row, steps: seq<Step>)
    requires Inserted(row) && CanRun(Fresh(row), steps) && RunFrom(Fresh(row), steps).marks != []
    ensures var h := RunFrom(Fresh(row), steps);
            RealTimeHeld(h) && (h.row.deliveredAt.None? || Pullable(h))
            <==> exists more :: CanRun(h, more) && RealTimeSince(RunFrom(h, more), |h.marks|)
  {
    FreshKeeps(row);
    RunKeepsInv(Fresh(row), steps);
    hide Inv, CanRun, RunFrom, Fresh, Inserted, Pullable;
    var h := RunFrom(Fresh(row), steps);
    if RealTimeHeld(h) && (h.row.deliveredAt.None? || Pullable(h)) {
      var b :| 0 <= b < |h.batches| && RealTime(h.batches[b]);
      var first := [];
      if h.row.deliveredAt.None? {
        RunNone(h);
      } else {
        first := PullRun(h);
      }
      var t := RunFrom(h, first);
      MarkRun(t, b);
      RunInTwo(h, first, [Mark(b, 0)]);
      assert RunFrom(h, first + [Mark(b, 0)]).marks[|h.marks|] == h.batches[b];
    } else if !RealTimeHeld(h) {
      forall more | CanRun(h, more) ensures !RealTimeSince(RunFrom(h, more), |h.marks|) {
        NoneHeldForGood(h, more);
      }
    } else {
      forall more | CanRun(h, more) ensures !RealTimeSince(RunFrom(h, more), |h.marks|) {
        SettledForGood(h, more);
      }
    }
  }

  // ── Histories without an unsafe escalation ──

  /** At most one delivery, or a real-time one and then one digest. */
  ghost predicate Good(marks: seq<Channel>) {
    |marks| <= 1 || (|marks| == 2 && RealTime(marks[0]) && marks[1] == Digest)
  }

  /** An escalation that now takes a delivery back. */
  predicate PullsNow(h: History, s: Step) {
    s.Act? && s.task < |h.tasks| && !Acted(h.tasks[s.task]) && PullsYet(h.tasks[s.task]) && h.row.deliveredAt.Some?
  }

  /** Taking this delivery back may cost another one: the digest already went out and another can come,
    * or a real-time batch still holds the row. */
  ghost predicate Spoils(h: History) {
    || (h.row.channel == Some(Digest) && (h.row.supersededBy.None? || h.batches != []))
    || RealTimeHeld(h)
  }

  ghost predicate Safe(h: History, s: Step) {
    PullsNow(h, s) ==> !Spoils(h)
  }

  ghost predicate IsSafe(h: History, steps: seq<Step>)
    requires CanRun(h, steps)
    decreases |steps|
  {
    steps != [] ==> Safe(h, steps[0]) && IsSafe(After(h, steps[0]), steps[1..])
  }

  ghost predicate SafeInv(h: History) {
    && Good(h.marks)
    && (h.marks != [] && h.row.deliveredAt.None? ==> !RealTimeHeld(h))
    && (|h.marks| == 2 ==> (h.row.deliveredAt.Some? && h.row.channel == Some(Digest))
                           || (h.row.supersededBy.Some? && h.batches == []))
  }

  lemma SafeMark(h: History, batch: nat, at: nat)
    requires Inv(h) && SafeInv(h) && batch < |h.batches|
    ensures SafeInv(After(h, Mark(batch, at)))
  {
    hide TaskOk, RecordOk;
    WithoutIsIn(h.batches, batch);
    assert h.batches[batch] in h.batches;
  }

  lemma SafeAct(h: History, k: nat, at: nat)
    requires Inv(h) && SafeInv(h) && Enabled(h, Act(k, at)) && Safe(h, Act(k, at))
    ensures SafeInv(After(h, Act(k, at)))
  {
    ActKeeps(h, k, at);
    hide After;
    assert TaskOk(h, h.tasks[k]);
  }

  /** What acting can do to the row's delivery. */
  lemma ActKeeps(h: History, k: nat, at: nat)
    requires Inv(h) && Enabled(h, Act(k, at))
    ensures var t := After(h, Act(k, at));
            && t.batches == h.batches && t.marks == h.marks && t.row.supersededBy == h.row.supersededBy
            && (h.row.deliveredAt.Some? && t.row.deliveredAt.None? ==> PullsNow(h, Act(k, at)))
            && (h.row.deliveredAt.Some? && t.row.deliveredAt.Some? ==> t.row.channel == h.row.channel)
            && (h.row.deliveredAt.None? && t.row.deliveredAt.Some? ==> |h.marks| > 0)
  {
    assert TaskOk(h, h.tasks[k]);
  }

  lemma SafeStep(h: History, s: Step)
    requires Inv(h) && SafeInv(h) && Enabled(h, s) && Safe(h, s)
    ensures SafeInv(After(h, s))
  {
    hide TaskOk, RecordOk;
    match s
    case Mark(batch, at) => SafeMark(h, batch, at);
    case Drop(batch) =>
      WithoutIsIn(h.batches, batch);
      assert h.batches[batch] in h.batches;
    case Act(k, at) => SafeAct(h, k, at);
    case _ =>
  }

  lemma {:induction false} SafeRun(h: History, steps: seq<Step>)
    requires Inv(h) && SafeInv(h) && CanRun(h, steps) && IsSafe(h, steps)
    ensures Inv(RunFrom(h, steps)) && SafeInv(RunFrom(h, steps))
    decreases |steps|
  {
    hide Inv, SafeInv, After, Enabled, Safe;
    if steps != [] {
      StepKeepsInv(h, steps[0]);
      SafeStep(h, steps[0]);
      SafeRun(After(h, steps[0]), steps[1..]);
    }
  }

  /** Main result. Over every interleaving, overlap and crash: while no escalation takes back a delivery
    * that a digest made or that a real-time batch still holds, a row is delivered at most once, and after
    * an escalation at most once more, by a digest: its human is never reached in real time again. */
  lemma LifetimeHistory(row: Row, steps: seq<Step>)
    requires Inserted(row) && CanRun(Fresh(row), steps) && IsSafe(Fresh(row), steps)
    ensures Good(RunFrom(Fresh(row), steps).marks)
    ensures var h := RunFrom(Fresh(row), steps);
            |h.marks| == 2 && h.row.supersededBy.None? ==> h.row.deliveredAt.Some? && h.row.channel == Some(Digest)
  {
    FreshKeeps(row);
    SafeRun(Fresh(row), steps);
  }

  /** However a safe run goes on, its history stays good. */
  ghost predicate GoodForever(h: History) {
    forall more :: CanRun(h, more) && IsSafe(h, more) ==> Good(RunFrom(h, more).marks)
  }

  /** Main result. The guard is exact: an escalation that takes a delivery back is safe if and only if the
    * history stays good however the run safely goes on. */
  lemma SafeExactly(row: Row, steps: seq<Step>, k: nat, at: nat)
    requires Inserted(row) && CanRun(Fresh(row), steps) && IsSafe(Fresh(row), steps)
    requires PullsNow(RunFrom(Fresh(row), steps), Act(k, at))
    ensures var h := RunFrom(Fresh(row), steps);
            !Spoils(h) <==> GoodForever(After(h, Act(k, at)))
  {
    FreshKeeps(row);
    SafeRun(Fresh(row), steps);
    var h := RunFrom(Fresh(row), steps);
    StepKeepsInv(h, Act(k, at));
    if Spoils(h) {
      Spoiled(h, k, at);
    } else {
      SafeStep(h, Act(k, at));
      forall more | CanRun(After(h, Act(k, at)), more) && IsSafe(After(h, Act(k, at)), more)
        ensures Good(RunFrom(After(h, Act(k, at)), more).marks)
      {
        SafeRun(After(h, Act(k, at)), more);
      }
    }
  }

  lemma Spoiled(h: History, k: nat, at: nat)
    requires Inv(h) && SafeInv(h) && PullsNow(h, Act(k, at)) && Spoils(h)
    ensures !GoodForever(After(h, Act(k, at)))
  {
    var t := After(h, Act(k, at));
    assert TaskOk(h, h.tasks[k]);
    assert t.row.deliveredAt.None? && t.row.tier == 2 && t.batches == h.batches && t.marks == h.marks != [];
    if RealTimeHeld(h) {
      var b :| 0 <= b < |h.batches| && RealTime(h.batches[b]);
      MarkRun(t, b);
      assert CanRun(t, [Mark(b, 0)]) && IsSafe(t, [Mark(b, 0)]);
    } else if h.batches != [] {
      MarkRun(t, 0);
      assert CanRun(t, [Mark(0, 0)]) && IsSafe(t, [Mark(0, 0)]);
    } else {
      DigestRun(t);
      var more := [Choose(Digest), Mark(|t.batches|, 0)];
      assert CanRun(t, more) && IsSafe(t, more);
    }
  }

  // ── Inputs that fail ──

  /** The judge proposes to escalate a real-time delivery. */
  function Proposal(): seq<Step> {
    [Choose(Interrupt), Mark(0, 1), Select(Escalate, false), Close(0)]
  }

  /** An open apply acts, and a digest follows. */
  function Click(task: nat, at: nat): seq<Step> {
    [Act(task, at), Choose(Digest), Mark(0, at + 1)]
  }

  /** Two apply clicks that both read the undecided record, with a digest after each has acted. */
  function DoubleClick(): seq<Step> {
    [Read(Apply)] + ([Read(Apply)] + (Click(0, 2) + Click(1, 4)))
  }

  /** An apply acts and dies before it closes the record; the digest goes out; the user clicks again. */
  function CrashAndRetry(): seq<Step> {
    [Read(Apply)] + (Click(0, 2) + ([Abandon(0)] + ([Read(Apply)] + Click(0, 4))))
  }

  /** Two notify batches hold the row, and the first one is marked. */
  function TwoBatches(): seq<Step> {
    [Choose(Notify), Choose(Notify), Mark(0, 1)]
  }

  /** The row is escalated; then the second batch is marked. */
  function StaleMark(): seq<Step> {
    [Select(Escalate, true), Act(0, 2), Close(0), Mark(0, 3)]
  }

  lemma RunNone(h: History)
    ensures CanRun(h, []) && RunFrom(h, []) == h
  {}

  lemma RunCons(h: History, s: Step, rest: seq<Step>)
    requires Enabled(h, s) && CanRun(After(h, s), rest)
    ensures CanRun(h, [s] + rest) && RunFrom(h, [s] + rest) == RunFrom(After(h, s), rest)
  {
    assert ([s] + rest)[1..] == rest;
  }

  lemma {:induction false} RunInTwo(h: History, first: seq<Step>, second: seq<Step>)
    requires CanRun(h, first) && CanRun(RunFrom(h, first), second)
    ensures CanRun(h, first + second) && RunFrom(h, first + second) == RunFrom(RunFrom(h, first), second)
    decreases |first|
  {
    if first == [] {
      assert first + second == second;
    } else {
      assert (first + second)[1..] == first[1..] + second;
      RunInTwo(After(h, first[0]), first[1..], second);
    }
  }

  /** "A double-clicked button can never double-apply" fails when the clicks overlap: the second one acts
    * on the record it read before the first one closed, and the row goes into a second digest. */
  lemma OverlappingAppliesDigestTwice(row: Row)
    requires Inserted(row) && row.tier == 0
    ensures CanRun(Fresh(row), Proposal() + DoubleClick())
    ensures RunFrom(Fresh(row), Proposal() + DoubleClick()).marks == [Interrupt, Digest, Digest]
  {
    ProposalRuns(row);
    hide CanRun, RunFrom, Proposal, DoubleClick, Fresh, Inserted;
    BothClicks(RunFrom(Fresh(row), Proposal()));
    RunInTwo(Fresh(row), Proposal(), DoubleClick());
  }

  /** It fails without any overlap too: an apply that dies between acting and closing leaves the record
    * undecided, and a click after the digest pulls the row back again. */
  lemma CrashedApplyDigestsTwice(row: Row)
    requires Inserted(row) && row.tier == 0
    ensures CanRun(Fresh(row), Proposal() + CrashAndRetry())
    ensures RunFrom(Fresh(row), Proposal() + CrashAndRetry()).marks == [Interrupt, Digest, Digest]
  {
    ProposalRuns(row);
    hide CanRun, RunFrom, Proposal, CrashAndRetry, Fresh, Inserted;
    RetriedClick(RunFrom(Fresh(row), Proposal()));
    RunInTwo(Fresh(row), Proposal(), CrashAndRetry());
  }

  /** Clicking apply on an open proposal reads it. */
  lemma ReadOpens(h: History)
    requires h.row.salience == Some(Record(Escalate, Undecided, None))
    ensures Enabled(h, Read(Apply))
    ensures After(h, Read(Apply)) == h.(tasks := h.tasks + [Deciding(Apply, Record(Escalate, Undecided, None), None)])
  {}

  lemma DiesAlone(h: History)
    requires |h.tasks| == 1
    ensures Enabled(h, Abandon(0)) && After(h, Abandon(0)) == h.(tasks := [])
  {}

  lemma RetriedClick(h: History)
    requires Proposed(h)
    ensures CanRun(h, CrashAndRetry()) && RunFrom(h, CrashAndRetry()).marks == [Interrupt, Digest, Digest]
  {
    hide CanRun, RunFrom, After, Click, Enabled;
    ReadOpens(h);
    var h1 := After(h, Read(Apply));
    EachClick(h1, 0, 2);
    var h2 := RunFrom(h1, Click(0, 2));
    DiesAlone(h2);
    var h3 := After(h2, Abandon(0));
    ReadOpens(h3);
    var h4 := After(h3, Read(Apply));
    EachClick(h4, 0, 4);
    RunCons(h3, Read(Apply), Click(0, 4));
    RunCons(h2, Abandon(0), [Read(Apply)] + Click(0, 4));
    RunInTwo(h1, Click(0, 2), [Abandon(0)] + ([Read(Apply)] + Click(0, 4)));
    RunCons(h, Read(Apply), Click(0, 2) + ([Abandon(0)] + ([Read(Apply)] + Click(0, 4))));
  }

  lemma ProposalRuns(row: Row)
    requires Inserted(row) && row.tier == 0
    ensures CanRun(Fresh(row), Proposal())
    ensures Proposed(RunFrom(Fresh(row), Proposal()))
  {}

  ghost predicate Proposed(h: History) {
    && h.row.salience == Some(Record(Escalate, Undecided, None)) && h.tasks == [] && h.batches == []
    && h.row.supersededBy.None? && h.row.deliveredAt.Some? && h.marks == [Interrupt]
  }

  lemma BothClicks(h: History)
    requires Proposed(h)
    ensures CanRun(h, DoubleClick()) && RunFrom(h, DoubleClick()).marks == [Interrupt, Digest, Digest]
  {
    hide CanRun, RunFrom, After, Click, Enabled;
    ReadOpens(h);
    var h1 := After(h, Read(Apply));
    ReadOpens(h1);
    var h2 := After(h1, Read(Apply));
    EachClick(h2, 0, 2);
    EachClick(RunFrom(h2, Click(0, 2)), 1, 4);
    RunInTwo(h2, Click(0, 2), Click(1, 4));
    RunCons(h1, Read(Apply), Click(0, 2) + Click(1, 4));
    RunCons(h, Read(Apply), [Read(Apply)] + (Click(0, 2) + Click(1, 4)));
  }

  /** A click that acts on an undecided escalation sends the delivered row into one more digest. */
  lemma EachClick(h: History, k: nat, at: nat)
    requires k < |h.tasks| && h.tasks[k] == Deciding(Apply, Record(Escalate, Undecided, None), None)
    requires h.batches == [] && h.row.supersededBy.None? && h.row.deliveredAt.Some?
    ensures CanRun(h, Click(k, at))
    ensures var t := RunFrom(h, Click(k, at));
            && t.marks == h.marks + [Digest] && t.batches == [] && t.row.deliveredAt.Some? && t.row.supersededBy.None?
            && t.row.salience == h.row.salience
            && |t.tasks| == |h.tasks| && forall j :: 0 <= j < |h.tasks| && j != k ==> t.tasks[j] == h.tasks[j]
  {
    var h1 := After(h, Act(k, at));
    var h2 := After(h1, Choose(Digest));
    var h3 := After(h2, Mark(0, at + 1));
    RunNone(h3);
    RunCons(h2, Mark(0, at + 1), []);
    RunCons(h1, Choose(Digest), [Mark(0, at + 1)] + []);
    RunCons(h, Act(k, at), [Choose(Digest)] + ([Mark(0, at + 1)] + []));
    assert Click(k, at) == [Act(k, at)] + ([Choose(Digest)] + ([Mark(0, at + 1)] + []));
  }

  /** A batch chosen before an escalation and marked after it interrupts the human a second time. */
  lemma StaleBatchNotifiesTwice(row: Row)
    requires Inserted(row) && row.tier == 1
    ensures CanRun(Fresh(row), TwoBatches() + StaleMark())
    ensures var h := RunFrom(Fresh(row), TwoBatches() + StaleMark());
            h.marks == [Notify, Notify] && h.row.salience.Some? && h.row.salience.value.decision.Applied?
  {
    TwoBatchesRun(row);
    hide CanRun, RunFrom, TwoBatches, StaleMark, Fresh, Inserted;
    StaleMarkRuns(RunFrom(Fresh(row), TwoBatches()));
    RunInTwo(Fresh(row), TwoBatches(), StaleMark());
  }

  ghost predicate HeldTwice(h: History) {
    && h.row.tier == 1 && h.row.deliveredAt.Some? && h.row.salience.None? && h.row.seenAt.None? && h.row.supersededBy.None?
    && h.tasks == [] && h.batches == [Notify] && h.marks == [Notify]
  }

  lemma TwoBatchesRun(row: Row)
    requires Inserted(row) && row.tier == 1
    ensures CanRun(Fresh(row), TwoBatches()) && HeldTwice(RunFrom(Fresh(row), TwoBatches()))
  {}

  lemma StaleMarkRuns(h: History)
    requires HeldTwice(h)
    ensures CanRun(h, StaleMark())
    ensures var t := RunFrom(h, StaleMark());
            t.marks == [Notify, Notify] && t.row.salience.Some? && t.row.salience.value.decision.Applied?
  {
    var h1 := After(h, Select(Escalate, true));
    var h2 := After(h1, Act(0, 2));
    var h3 := After(h2, Close(0));
    assert Enabled(h, Select(Escalate, true)) && Enabled(h1, Act(0, 2)) && Enabled(h2, Close(0));
    assert h3.batches == [Notify] && h3.row.deliveredAt.None? && h3.marks == [Notify] && h3.row.salience.Some?;
    MarkLast(h3);
    hide CanRun, RunFrom, After, Enabled;
    RunCons(h2, Close(0), [Mark(0, 3)]);
    RunCons(h1, Act(0, 2), [Close(0)] + [Mark(0, 3)]);
    RunCons(h, Select(Escalate, true), [Act(0, 2)] + ([Close(0)] + [Mark(0, 3)]));
    assert StaleMark() == [Select(Escalate, true)] + ([Act(0, 2)] + ([Close(0)] + [Mark(0, 3)]));
  }

  lemma MarkLast(h: History)
    requires h.batches == [Notify] && h.row.deliveredAt.None?
    ensures CanRun(h, [Mark(0, 3)])
    ensures var t := RunFrom(h, [Mark(0, 3)]); t.marks == h.marks + [Notify] && t.row.salience == h.row.salience
  {
    RunNone(After(h, Mark(0, 3)));
    RunCons(h, Mark(0, 3), []);
    assert [Mark(0, 3)] + [] == [Mark(0, 3)];
  }

  // ── The passes are such steps ──

  /** What a flush does to a pending row is a move to the digest, a delivery, both or neither. */
  lemma FlushIsSteps(before: Row, after: Row, now: nat)
    requires Live(before) && Runs.Fate(before, after, now)
    ensures exists steps :: CanRun(Fresh(before), steps) && RunFrom(Fresh(before), steps).row == after
  {
    var h := Fresh(before);
    var c := Runs.ChannelOf(after.tier);
    var moved := h.(row := before.(tier := after.tier));
    var send: seq<Step> := if after.deliveredAt == before.deliveredAt then [] else [Choose(c), Mark(0, now)];
    assert CanRun(moved, send) && RunFrom(moved, send).row == after by {
      if send != [] {
        var h2 := After(moved, Choose(c));
        RunNone(After(h2, Mark(0, now)));
        RunCons(h2, Mark(0, now), []);
        RunCons(moved, Choose(c), [Mark(0, now)] + []);
        assert send == [Choose(c)] + ([Mark(0, now)] + []);
      }
    }
    if after.tier != before.tier {
      RunCons(h, Demote, send);
    }
  }

  /** An uninterrupted decision is its three transactions in a row. */
  lemma DecisionIsSteps(h: History, action: Action, at: nat)
    requires h.row.salience.Some? && h.tasks == []
    ensures var r := After(h, Read(action));
            var a := After(r, Act(0, at));
            var c := if a.tasks == [] then a else After(a, Close(0));
            c.row == DecideOn(h.row, action, at).0 && c.tasks == []
            && (a.tasks != [] <==> DecideOn(h.row, action, at).1 == Ok)
  {
  }

  /** So is an uninterrupted judgement by the pass, which acts only in auto mode. */
  lemma PassIsSteps(h: History, verdict: Verdict, auto: bool, at: nat)
    requires Missed(h.row) && h.row.salience.None? && h.tasks == []
    ensures var s := After(h, Select(verdict, auto));
            Enabled(s, Act(0, at)) == auto
            && var a := if auto then After(s, Act(0, at)) else s;
            Enabled(a, Close(0)) && After(a, Close(0)).row == Judged(h.row, verdict, auto, at) && After(a, Close(0)).tasks == []
  {}

  /** What an insert does to an earlier row is nothing or one step. */
  lemma InsertIsSteps(rows: seq<Row>, ledger: PolicyLedger.Ledger, req: Request, at: nat, i: nat)
    requires i < |rows|
    ensures var after, step := Added(rows, ledger, req, at), Supersede(|rows|);
            i < |after| && (after[i] == rows[i] || (Enabled(Fresh(rows[i]), step) && after[i] == After(Fresh(rows[i]), step).row))
  {}

  /** Seeing a row marks it; a batch that is dropped is never marked and leaves the row as it is. */
  lemma SeenAndDropped(h: History, at: nat, batch: nat)
    ensures Enabled(h, See(at)) ==> After(h, See(at)) == h.(row := h.row.(seenAt := Some(at)))
    ensures Enabled(h, Step.Drop(batch)) <==> batch < |h.batches|
    ensures batch < |h.batches| ==>
              var t := After(h, Step.Drop(batch));
              t == h.(batches := t.batches) && |t.batches| == |h.batches| - 1
              && forall j :: 0 <= j < |t.batches| ==> t.batches[j] == h.batches[if j < batch then j else j + 1]
  {}
}

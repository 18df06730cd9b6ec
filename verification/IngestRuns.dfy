/** A projected tool row and its agent over any run of card refreshes and operator acts. */
module IngestRuns {
  import opened Options
  import opened Ingest

  /** `Refresh` carries the card's text for the skill, or nothing where the card dropped it. */
  datatype Op =
    | Refresh(card: Option<string>)
    | Toggle(on: bool)
    | Edit(text: string)
    | HandBack
    | StopAgent
    | StartAgent
    | Delete
    | Restore

  function After(t: Tool, op: Op): Tool {
    match op
    case Refresh(card) => if card.Some? then Listed(t, card.value) else Unlisted(t)
    case Toggle(on) => if t.deleted then t else t.(active := on)
    case Edit(text) => if t.deleted || text == t.description then t else t.(description := text, byOperator := true)
    case HandBack => if t.deleted then t else t.(byOperator := false)
    case StopAgent => AgentStopped(t)
    case StartAgent => AgentStarted(t)
    case Delete => t.(deleted := true)
    case Restore => t.(deleted := false)
  }

  function Run(t: Tool, ops: seq<Op>): Tool
    decreases |ops|
  {
    if ops == [] then t else Run(After(t, ops[0]), ops[1..])
  }

  // ── What the operator wants ──

  /** Did the latest card list the skill? A row is born from a card that does. */
  function ListedAfter(listed: bool, ops: seq<Op>): bool
    decreases |ops|
  {
    if ops == [] then listed
    else ListedAfter(if ops[0].Refresh? then ops[0].card.Some? else listed, ops[1..])
  }

  function WantedAfter(wanted: bool, ops: seq<Op>): bool
    decreases |ops|
  {
    if ops == [] then wanted else WantedAfter(if ops[0].Toggle? then ops[0].on else wanted, ops[1..])
  }

  /** Refreshes, edits, and toggles made while the skill is listed. */
  predicate Plain(listed: bool, ops: seq<Op>)
    decreases |ops|
  {
    ops != [] ==>
      && (ops[0].Refresh? || ops[0].Edit? || ops[0].HandBack? || (ops[0].Toggle? && listed))
      && Plain(if ops[0].Refresh? then ops[0].card.Some? else listed, ops[1..])
  }

  predicate InStep(t: Tool, listed: bool, wanted: bool) {
    && !t.deleted
    && (if listed then t.state.Present? && t.active == wanted
        else !t.active && t.state == (if wanted then Gone else Unset))
  }

  /** Main result. Over any run of card refreshes, edits and toggles made while the skill is listed, the
    * tool is active exactly when the operator's last setting is on and the latest card lists it. */
  lemma {:induction false} ActiveIffWantedAndListed(t: Tool, listed: bool, wanted: bool, ops: seq<Op>)
    requires InStep(t, listed, wanted) && Plain(listed, ops)
    ensures InStep(Run(t, ops), ListedAfter(listed, ops), WantedAfter(wanted, ops))
    ensures Run(t, ops).active <==> WantedAfter(wanted, ops) && ListedAfter(listed, ops)
    decreases |ops|
  {
    if ops != [] {
      var nowListed := if ops[0].Refresh? then ops[0].card.Some? else listed;
      var nowWanted := if ops[0].Toggle? then ops[0].on else wanted;
      ActiveIffWantedAndListed(After(t, ops[0]), nowListed, nowWanted, ops[1..]);
    }
  }

  lemma NewToolIsInStep(skill: Skill, key: string)
    ensures InStep(NewTool(skill, key), true, true)
  {}

  /** In service, or out of it only until the card or the agent comes back. */
  predicate Stands(t: Tool) {
    t.active || t.state.Gone? || t.state.AgentOff?
  }

  predicate KeepsRow(op: Op) {
    !op.Delete? && !op.Restore?
  }

  /** Main result, for toggles at any time. Refreshes, edits and the agent's stops and starts never change
    * whether a row stands; a switch-on always makes it stand; and a switch-off is honoured exactly when
    * the row is not out of service because of its card or its agent. */
  lemma OnlyTogglesDecide(t: Tool, op: Op)
    requires !t.deleted && KeepsRow(op)
    ensures !After(t, op).deleted
    ensures op.Toggle? && op.on ==> Stands(After(t, op))
    ensures op.Toggle? && !op.on ==> (Stands(After(t, op)) <==> t.state.Gone? || t.state.AgentOff?)
    ensures !op.Toggle? ==> Stands(After(t, op)) == Stands(t)
    ensures op.Refresh? && op.card.Some? ==> (After(t, op).active <==> if t.state.AgentOff? then t.active else Stands(t))
    ensures op.StartAgent? && t.state.AgentOff? ==> After(t, op).active
  {}

  predicate NoToggle(ops: seq<Op>) {
    forall op :: op in ops ==> KeepsRow(op) && !op.Toggle?
  }

  /** Main result. However often card and agent go and come back, they end by undoing exactly what they
    * did: once the skill is listed and the agent does not hold the row, it is active exactly if it stood
    * at the start. */
  lemma {:induction false} ComingsAndGoingsCancel(t: Tool, ops: seq<Op>, text: string)
    requires !t.deleted && NoToggle(ops)
    ensures var r := Listed(Run(t, ops), text);
            && Stands(Run(t, ops)) == Stands(t) && !Run(t, ops).deleted
            && (!r.state.AgentOff? ==> (r.active <==> Stands(t)))
    decreases |ops|
  {
    if ops != [] {
      assert ops[0] in ops && forall op :: op in ops[1..] ==> op in ops;
      OnlyTogglesDecide(t, ops[0]);
      ComingsAndGoingsCancel(After(t, ops[0]), ops[1..], text);
    }
  }

  /** Switching a row off while its card has dropped it: the skill's return switches it on again. */
  lemma OffWhileGoneIsForgotten(t: Tool, text: string)
    requires !t.deleted && t.state.Gone?
    ensures Listed(After(t, Toggle(false)), text).active
  {}

  // ── What refreshes leave alone ──

  predicate OnlyRefreshes(ops: seq<Op>) {
    forall op :: op in ops ==> op.Refresh?
  }

  /** Main result. No sequence of refreshes revives a deleted row or one its agent holds, and none
    * changes an operator's wording. */
  lemma {:induction false} RefreshesReviveNothing(t: Tool, ops: seq<Op>)
    requires OnlyRefreshes(ops)
    ensures Run(t, ops).deleted == t.deleted
    ensures (t.deleted || t.state.AgentOff?) && !t.active ==> !Run(t, ops).active
    ensures t.state.AgentOff? && !t.active ==> Run(t, ops).state.AgentOff?
    ensures t.byOperator ==> Run(t, ops).byOperator && Run(t, ops).description == t.description
    decreases |ops|
  {
    if ops != [] {
      assert ops[0] in ops && forall op :: op in ops[1..] ==> op in ops;
      RefreshesReviveNothing(After(t, ops[0]), ops[1..]);
    }
  }

  /** A row deleted while its skill was gone, relisted and then restored stays out of service: the return
    * was spent on the deleted row, and no later refresh makes up for it. */
  lemma {:induction false} RestoreAfterReturnStaysOff(t: Tool, text: string, ops: seq<Op>)
    requires !t.active && t.state.Gone? && OnlyRefreshes(ops)
    ensures var r := After(After(After(t, Delete), Refresh(Some(text))), Restore);
            !r.deleted && !Run(r, ops).active
  {
    StaysOff(After(After(After(t, Delete), Refresh(Some(text))), Restore), ops);
  }

  lemma {:induction false} StaysOff(t: Tool, ops: seq<Op>)
    requires !t.active && (t.state.Present? || t.state.Unset?) && OnlyRefreshes(ops)
    ensures !Run(t, ops).active
    decreases |ops|
  {
    if ops != [] {
      assert ops[0] in ops && forall op :: op in ops[1..] ==> op in ops;
      StaysOff(After(t, ops[0]), ops[1..]);
    }
  }

  // ── The agent ──

  /** An agent's status after card fetches that succeed or fail. */
  function Fetched(status: AgentStatus, fetches: seq<bool>): AgentStatus
    decreases |fetches|
  {
    if fetches == [] then status else Fetched(Refreshed(status, fetches[0], false), fetches[1..])
  }

  /** Main result. "An operator's `inactive` is theirs alone to undo" holds exactly as long as no fetch
    * fails: a failure turns the status into an error, and the next good card into `active`. */
  lemma {:induction false} InactiveSurvivesExactly(fetches: seq<bool>)
    ensures Fetched(AgentInactive, fetches) == AgentInactive <==> false !in fetches
    ensures false in fetches ==>
              Fetched(AgentInactive, fetches)
              == if fetches[|fetches| - 1] then AgentActive else AgentError
    decreases |fetches|
  {
    if fetches != [] {
      assert fetches == [fetches[0]] + fetches[1..];
      if fetches[0] {
        InactiveSurvivesExactly(fetches[1..]);
      } else {
        ErrorFollowsFetches(fetches[1..]);
      }
    }
  }

  lemma {:induction false} ErrorFollowsFetches(fetches: seq<bool>)
    ensures Fetched(AgentError, fetches) == if fetches == [] || !fetches[|fetches| - 1] then AgentError else AgentActive
    ensures Fetched(AgentActive, fetches) == if fetches == [] || fetches[|fetches| - 1] then AgentActive else AgentError
    decreases |fetches|
  {
    if fetches != [] {
      ErrorFollowsFetches(fetches[1..]);
    }
  }

  /** And then the rows the agent's stop took out of service stay out: no refresh brings them back, and
    * neither does setting the agent, active by now, to active. */
  lemma StoppedRowsAreStranded(tools: seq<Tool>, i: nat, ops: seq<Op>)
    requires i < |tools| && !tools[i].deleted && tools[i].active && OnlyRefreshes(ops)
    ensures var stopped := Cascaded(tools, AgentActive, AgentInactive);
            var agent := Fetched(AgentInactive, [false, true]);
            && agent == AgentActive
            && !Run(stopped[i], ops).active
            && Cascaded([Run(stopped[i], ops)], agent, AgentActive) == [Run(stopped[i], ops)]
  {
    var stopped := Cascaded(tools, AgentActive, AgentInactive);
    InactiveSurvivesExactly([false, true]);
    RefreshesReviveNothing(stopped[i], ops);
    assert [false, true][0] == false;
  }
}

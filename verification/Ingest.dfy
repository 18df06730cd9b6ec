/** Remote-agent skills as tool rows (`backend/app/a2a/manager.py`, `backend/app/toolschema.py`,
  * `backend/app/api/remote_agents.py`, `backend/app/api/tools.py`): card refreshes against what operators
  * set by hand.
  */
module Ingest {
  import opened Options

  /** What the card or the agent last did to a row. */
  datatype IngestState = Unset | Present | Gone | AgentOff

  /** A tool row projected from a skill; `byOperator` says whose the description is. */
  datatype Tool = Tool(skill: string, key: string, active: bool, state: IngestState, deleted: bool,
                       description: string, byOperator: bool)

  datatype Skill = Skill(id: string, name: string, text: string)

  datatype AgentStatus = AgentActive | AgentInactive | AgentError

  // ── One row ──

  function Described(t: Tool, text: string): Tool {
    if t.byOperator then t else t.(description := text)
  }

  /** The card lists the skill. */
  function Listed(t: Tool, text: string): Tool {
    var d := Described(t, text);
    d.(active := d.active || (d.state.Gone? && !d.deleted), state := if d.state.AgentOff? then AgentOff else Present)
  }

  /** The card no longer lists it. */
  function Unlisted(t: Tool): Tool {
    if t.active then t.(active := false, state := Gone)
    else if t.state.Present? then t.(state := Unset)
    else t
  }

  function AgentStopped(t: Tool): Tool {
    if !t.deleted && t.active then t.(active := false, state := AgentOff) else t
  }

  function AgentStarted(t: Tool): Tool {
    if !t.deleted && t.state.AgentOff? then t.(active := true, state := Present) else t
  }

  // ── A card over the table ──

  function Sanitize(key: string): string {
    seq(|key|, i requires 0 <= i < |key| => if NameChar(key[i]) then key[i] else '_')
  }

  predicate NameChar(c: char) {
    'a' <= c <= 'z' || 'A' <= c <= 'Z' || '0' <= c <= '9' || c == '_' || c == '-'
  }

  function NamesOf(keys: set<string>): set<string> {
    set k | k in keys :: Sanitize(k)
  }

  /** The row a skill id stands for: the last of the first `n` rows that carry it. */
  function RowOf(tools: seq<Tool>, n: nat, id: string): (r: Option<nat>)
    requires n <= |tools|
    ensures r.Some? ==> r.value < n && tools[r.value].skill == id && forall i :: r.value < i < n ==> tools[i].skill != id
    ensures r.None? ==> forall i :: 0 <= i < n ==> tools[i].skill != id
  {
    if n == 0 then None else if tools[n - 1].skill == id then Some(n - 1) else RowOf(tools, n - 1, id)
  }

  function KeyFor(agent: string, skill: Skill, suffix: string, keys: set<string>): string {
    var key := agent + "." + skill.name;
    if key in keys || Sanitize(key) in NamesOf(keys) then key + "-" + suffix else key
  }

  function NewTool(skill: Skill, key: string): Tool {
    Tool(skill.id, key, true, Present, false, skill.text, false)
  }

  /** The rows and the taken keys after the first `k` skills of a card; ids are looked up among the first
    * `n` rows only, which are those that were there before. */
  function Projected(tools: seq<Tool>, keys: set<string>, agent: string, skills: seq<Skill>, suffix: nat -> string,
                     n: nat, k: nat): (r: (seq<Tool>, set<string>))
    requires n <= |tools| && k <= |skills|
    ensures |r.0| >= |tools| && forall i :: 0 <= i < |tools| ==> r.0[i].skill == tools[i].skill
  {
    if k == 0 then (tools, keys)
    else
      var (before, taken) := Projected(tools, keys, agent, skills, suffix, n, k - 1);
      var skill := skills[k - 1];
      var row := RowOf(before, n, skill.id);
      if row.Some? then (before[row.value := Listed(before[row.value], skill.text)], taken)
      else
        var key := KeyFor(agent, skill, suffix(k - 1), taken);
        (before + [NewTool(skill, key)], taken + {key})
  }

  predicate InCard(skills: seq<Skill>, id: string) {
    exists k :: 0 <= k < |skills| && skills[k].id == id
  }

  function Missed(tools: seq<Tool>, n: nat, skills: seq<Skill>): seq<Tool>
    requires n <= |tools|
  {
    seq(|tools|, i requires 0 <= i < |tools| =>
      if i < n && RowOf(tools, n, tools[i].skill) == Some(i) && !InCard(skills, tools[i].skill) then Unlisted(tools[i])
      else tools[i])
  }

  function Ingested(tools: seq<Tool>, foreign: set<string>, agent: string, skills: seq<Skill>, suffix: nat -> string): seq<Tool> {
    Missed(Projected(tools, KeysOf(tools) + foreign, agent, skills, suffix, |tools|, |skills|).0, |tools|, skills)
  }

  function KeysOf(tools: seq<Tool>): set<string> {
    set i | 0 <= i < |tools| :: tools[i].key
  }

  class AgentTools {
    const name: string
    var status: AgentStatus
    var tools: seq<Tool>

    constructor (agentName: string)
      ensures name == agentName && status == AgentInactive && tools == []
    {
      name, status, tools := agentName, AgentInactive, [];
    }

    /** Project a card's skills; `foreign` are the keys of all other tools. */
    method IngestCard(skills: seq<Skill>, foreign: set<string>, suffix: nat -> string)
      modifies this`tools
      ensures tools == Ingested(old(tools), foreign, name, skills, suffix)
    {
      var n := |tools|;
      ProjectSkills(skills, foreign, suffix);
      MarkMissing(n, skills);
    }

    method ProjectSkills(skills: seq<Skill>, foreign: set<string>, suffix: nat -> string)
      modifies this`tools
      ensures tools == Projected(old(tools), KeysOf(old(tools)) + foreign, name, skills, suffix, |old(tools)|, |skills|).0
    {
      hide RowOf, Listed, NamesOf, Sanitize, KeysOf;
      var n := |tools|;
      var taken := KeysOf(tools) + foreign;
      ghost var keys := taken;
      for k := 0 to |skills|
        invariant n == |old(tools)| <= |tools|
        invariant (tools, taken) == Projected(old(tools), keys, name, skills, suffix, n, k)
      {
        var skill := skills[k];
        var row := RowOf(tools, n, skill.id);
        if row.None? {
          var key := name + "." + skill.name;
          if key in taken || Sanitize(key) in NamesOf(taken) {
            key := key + "-" + suffix(k);
          }
          taken := taken + {key};
          tools := tools + [Tool(skill.id, key, true, Present, false, skill.text, false)];
        } else {
          Relist(row.value, skill.text);
        }
      }
    }

    method MarkMissing(n: nat, skills: seq<Skill>)
      requires n <= |tools|
      modifies this`tools
      ensures tools == Missed(old(tools), n, skills)
    {
      hide RowOf, Unlisted, InCard;
      for i := 0 to n
        invariant |tools| == |old(tools)|
        invariant forall j :: 0 <= j < i ==> tools[j] == Missed(old(tools), n, skills)[j]
        invariant forall j :: i <= j < |tools| ==> tools[j] == old(tools)[j]
        invariant forall j :: 0 <= j < |tools| ==> tools[j].skill == old(tools)[j].skill
      {
        SameSkillsSameRows(tools, old(tools), n, tools[i].skill);
        UnlistedKeepsSkill(tools[i]);
        if RowOf(tools, n, tools[i].skill) == Some(i) && !InCard(skills, tools[i].skill) {
          Unlist(i);
        }
      }
    }

    method Relist(i: nat, text: string)
      requires i < |tools|
      modifies this`tools
      ensures tools == old(tools)[i := Listed(old(tools)[i], text)]
    {
      var row := tools[i];
      if !row.byOperator {
        row := row.(description := text);
      }
      if row.state.Gone? && !row.deleted {
        row := row.(active := true);
      }
      if !row.state.AgentOff? {
        row := row.(state := Present);
      }
      tools := tools[i := row];
    }

    method Unlist(i: nat)
      requires i < |tools|
      modifies this`tools
      ensures tools == old(tools)[i := Unlisted(old(tools)[i])]
    {
      var row := tools[i];
      if row.active {
        row := row.(active := false);
        row := row.(state := Gone);
      } else if row.state.Present? {
        row := row.(state := Unset);
      }
      tools := tools[i := row];
    }

    /** A card fetch: a failure is recorded on the agent, a good card recovers an agent in error. */
    method RefreshAgent(card: Option<seq<Skill>>, activate: bool, foreign: set<string>, suffix: nat -> string)
      modifies this
      ensures status == Refreshed(old(status), card.Some?, activate)
      ensures tools == if card.Some? then Ingested(old(tools), foreign, name, card.value, suffix) else old(tools)
    {
      if card.None? {
        status := AgentError;
        return;
      }
      if status.AgentError? || (activate && status.AgentInactive?) {
        status := AgentActive;
      }
      IngestCard(card.value, foreign, suffix);
    }

    /** The operator sets the agent's status; its tools follow. */
    method PatchAgent(to: AgentStatus)
      modifies this
      ensures status == to
      ensures tools == Cascaded(old(tools), old(status), to)
    {
      var wasActive := status.AgentActive?;
      status := to;
      if wasActive && !to.AgentActive? {
        for i := 0 to |tools|
          invariant |tools| == |old(tools)| && status == to
          invariant forall j :: 0 <= j < |tools| ==> tools[j] == if j < i then AgentStopped(old(tools)[j]) else old(tools)[j]
        {
          if !tools[i].deleted && tools[i].active {
            tools := tools[i := tools[i].(active := false, state := AgentOff)];
          }
        }
      } else if !wasActive && to.AgentActive? {
        for i := 0 to |tools|
          invariant |tools| == |old(tools)| && status == to
          invariant forall j :: 0 <= j < |tools| ==> tools[j] == if j < i then AgentStarted(old(tools)[j]) else old(tools)[j]
        {
          if !tools[i].deleted && tools[i].state.AgentOff? {
            tools := tools[i := tools[i].(active := true, state := Present)];
          }
        }
      }
    }
  }

  function Refreshed(status: AgentStatus, ok: bool, activate: bool): AgentStatus {
    if !ok then AgentError
    else if status.AgentError? || (activate && status.AgentInactive?) then AgentActive
    else status
  }

  function Cascaded(tools: seq<Tool>, was: AgentStatus, to: AgentStatus): seq<Tool> {
    seq(|tools|, i requires 0 <= i < |tools| =>
      if was.AgentActive? && !to.AgentActive? then AgentStopped(tools[i])
      else if !was.AgentActive? && to.AgentActive? then AgentStarted(tools[i])
      else tools[i])
  }

  lemma UnlistedKeepsSkill(t: Tool)
    ensures Unlisted(t).skill == t.skill && forall text :: Listed(t, text).skill == t.skill
  {}

  lemma {:induction false} SameSkillsSameRows(a: seq<Tool>, b: seq<Tool>, n: nat, id: string)
    requires n <= |a| && |a| == |b| && forall j :: 0 <= j < n ==> a[j].skill == b[j].skill
    ensures RowOf(a, n, id) == RowOf(b, n, id)
  {
    if n > 0 {
      SameSkillsSameRows(a, b, n - 1, id);
    }
  }

  // ── What a refresh does to each row ──

  /** The text of the last mention of an id among the first `k` skills. */
  function TextOf(skills: seq<Skill>, id: string, k: nat): (r: Option<string>)
    requires k <= |skills|
    ensures r.Some? <==> exists j :: 0 <= j < k && skills[j].id == id
  {
    if k == 0 then None else if skills[k - 1].id == id then Some(skills[k - 1].text) else TextOf(skills, id, k - 1)
  }

  lemma ListedTwice(t: Tool, a: string, b: string)
    ensures Listed(Listed(t, a), b) == Listed(t, b)
  {}

  lemma {:induction false} ProjectedRows(tools: seq<Tool>, keys: set<string>, agent: string, skills: seq<Skill>,
                                         suffix: nat -> string, k: nat, i: nat)
    requires k <= |skills| && i < |tools|
    ensures var r := Projected(tools, keys, agent, skills, suffix, |tools|, k).0;
            var text := TextOf(skills, tools[i].skill, k);
            r[i] == if text.Some? && RowOf(tools, |tools|, tools[i].skill) == Some(i) then Listed(tools[i], text.value) else tools[i]
  {
    hide Listed, RowOf, Sanitize;
    if k > 0 {
      ProjectedRows(tools, keys, agent, skills, suffix, k - 1, i);
      var before := Projected(tools, keys, agent, skills, suffix, |tools|, k - 1).0;
      var head := before[..|tools|];
      SameSkillsSameRows(tools, head, |tools|, skills[k - 1].id);
      PrefixRows(before, |tools|, skills[k - 1].id);
      var text := TextOf(skills, tools[i].skill, k - 1);
      if text.Some? {
        ListedTwice(tools[i], text.value, skills[k - 1].text);
      }
    }
  }

  lemma {:induction false} PrefixRows(tools: seq<Tool>, n: nat, id: string)
    requires n <= |tools|
    ensures RowOf(tools[..n], n, id) == RowOf(tools, n, id)
    decreases n
  {
    if n > 0 {
      PrefixRows(tools, n - 1, id);
      PrefixRows(tools[..n], n - 1, id);
      assert tools[..n][..n - 1] == tools[..n - 1];
    }
  }

  /** Main result. A refresh takes each row that stands for its skill through exactly one of the two
    * steps: listed with the card's text, or unlisted. A row shadowed by a later one of the same skill id
    * is never touched again. */
  lemma RefreshRows(tools: seq<Tool>, foreign: set<string>, agent: string, skills: seq<Skill>, suffix: nat -> string, i: nat)
    requires i < |tools|
    ensures var after := Ingested(tools, foreign, agent, skills, suffix);
            var text := TextOf(skills, tools[i].skill, |skills|);
            && |after| >= |tools|
            && after[i] == if RowOf(tools, |tools|, tools[i].skill) != Some(i) then tools[i]
                           else if text.Some? then Listed(tools[i], text.value)
                           else Unlisted(tools[i])
  {
    hide Listed, Unlisted;
    var keys := KeysOf(tools) + foreign;
    ProjectedRows(tools, keys, agent, skills, suffix, |skills|, i);
    var p := Projected(tools, keys, agent, skills, suffix, |tools|, |skills|).0;
    SameSkillsSameRows(tools, p[..|tools|], |tools|, tools[i].skill);
    PrefixRows(p, |tools|, tools[i].skill);
  }

  /** The random suffixes do not collide with what is taken when they are drawn. */
  ghost predicate SuffixesFree(tools: seq<Tool>, keys: set<string>, agent: string, skills: seq<Skill>, suffix: nat -> string) {
    forall k: nat :: k < |skills| ==>
      Sanitize(agent + "." + skills[k].name + "-" + suffix(k))
      !in NamesOf(Projected(tools, keys, agent, skills, suffix, |tools|, k).1)
  }

  /** The rows from `n` on go by names of their own. */
  ghost predicate OwnNames(n: nat, keys: set<string>, rows: seq<Tool>, taken: set<string>) {
    && keys <= taken && n <= |rows|
    && (forall i :: n <= i < |rows| ==> rows[i].key in taken && Sanitize(rows[i].key) !in NamesOf(keys))
    && (forall i, j :: n <= i < j < |rows| ==> Sanitize(rows[i].key) != Sanitize(rows[j].key))
  }

  lemma OneMoreName(n: nat, keys: set<string>, rows: seq<Tool>, taken: set<string>, t: Tool)
    requires OwnNames(n, keys, rows, taken) && Sanitize(t.key) !in NamesOf(taken)
    ensures OwnNames(n, keys, rows + [t], taken + {t.key})
  {
    hide Sanitize, NamesOf;
    NamesGrow(keys, taken);
    forall i | n <= i < |rows| ensures Sanitize(rows[i].key) != Sanitize(t.key) {
      NameIsTaken(rows[i].key, taken);
    }
  }

  lemma KeyIsFree(tools: seq<Tool>, keys: set<string>, agent: string, skills: seq<Skill>, suffix: nat -> string, k: nat)
    requires k < |skills| && SuffixesFree(tools, keys, agent, skills, suffix)
    ensures var taken := Projected(tools, keys, agent, skills, suffix, |tools|, k).1;
            Sanitize(KeyFor(agent, skills[k], suffix(k), taken)) !in NamesOf(taken)
  {
    hide Projected, Sanitize, NamesOf;
  }

  /** Main result. No row an ingest adds can be mistaken for another tool: the name under which a model
    * sees it differs from every name taken before and from those of the other new rows, given that the
    * random suffixes do not collide. */
  lemma {:induction false} NewNamesAreFree(tools: seq<Tool>, keys: set<string>, agent: string, skills: seq<Skill>,
                                           suffix: nat -> string, k: nat)
    requires k <= |skills| && SuffixesFree(tools, keys, agent, skills, suffix)
    ensures var (rows, taken) := Projected(tools, keys, agent, skills, suffix, |tools|, k); OwnNames(|tools|, keys, rows, taken)
  {
    hide Sanitize, NamesOf, RowOf, KeyFor, OwnNames, SuffixesFree, Listed;
    if k == 0 {
      assert OwnNames(|tools|, keys, tools, keys) by {
        NoNewNames(tools, keys);
      }
    } else {
      NewNamesAreFree(tools, keys, agent, skills, suffix, k - 1);
      var (before, taken) := Projected(tools, keys, agent, skills, suffix, |tools|, k - 1);
      var key := KeyFor(agent, skills[k - 1], suffix(k - 1), taken);
      KeyIsFree(tools, keys, agent, skills, suffix, k - 1);
      OneMoreName(|tools|, keys, before, taken, NewTool(skills[k - 1], key));
      var row := RowOf(before, |tools|, skills[k - 1].id);
      if row.Some? {
        SameKeys(|tools|, keys, before, taken, row.value, Listed(before[row.value], skills[k - 1].text));
      }
    }
  }

  lemma NoNewNames(tools: seq<Tool>, keys: set<string>)
    ensures OwnNames(|tools|, keys, tools, keys)
  {}

  lemma SameKeys(n: nat, keys: set<string>, rows: seq<Tool>, taken: set<string>, i: nat, t: Tool)
    requires OwnNames(n, keys, rows, taken) && i < n
    ensures OwnNames(n, keys, rows[i := t], taken)
  {}

  lemma NamesGrow(a: set<string>, b: set<string>)
    requires a <= b
    ensures NamesOf(a) <= NamesOf(b)
  {}

  lemma NameIsTaken(key: string, keys: set<string>)
    requires key in keys
    ensures Sanitize(key) in NamesOf(keys)
  {}
}

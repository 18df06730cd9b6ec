/** What a card and an agent's status do to each tool row, and which rows a card adds. */
module IngestDecisions {
  import opened Options
  import opened Ingest

  /** No later row stands for the same skill. */
  ghost predicate Stands(tools: seq<Tool>, i: nat)
    requires i < |tools|
  {
    forall j :: i < j < |tools| ==> tools[j].skill != tools[i].skill
  }

  /** The card's last mention of the skill is its `k`-th. */
  ghost predicate LastMention(skills: seq<Skill>, id: string, k: nat) {
    k < |skills| && skills[k].id == id && forall j :: k < j < |skills| ==> skills[j].id != id
  }

  lemma {:induction false} RowStands(tools: seq<Tool>, n: nat, i: nat)
    requires i < n <= |tools|
    ensures RowOf(tools, n, tools[i].skill) == Some(i) <==> forall j :: i < j < n ==> tools[j].skill != tools[i].skill
  {
    if i < n - 1 {
      RowStands(tools, n - 1, i);
    }
  }

  lemma {:induction false} TextOfMention(skills: seq<Skill>, id: string, n: nat, k: nat)
    requires k < n <= |skills| && skills[k].id == id && forall j :: k < j < n ==> skills[j].id != id
    ensures TextOf(skills, id, n) == Some(skills[k].text)
  {
    if k < n - 1 {
      TextOfMention(skills, id, n - 1, k);
    }
  }

  /** Main result. A card over the rows that were there before. A row shadowed by a later one is left alone. A
    * listed one takes the wording of the last mention, unless the operator owns it; it comes back into
    * service if the card had dropped it and it is not deleted; an agent's hold stays. An unlisted one goes
    * out of service and is marked as dropped, or, if it was out already, loses its mark of presence. */
  lemma CardDecidesExactly(tools: seq<Tool>, foreign: set<string>, agent: string, skills: seq<Skill>, suffix: nat -> string, i: nat)
    requires i < |tools|
    ensures var after := Ingested(tools, foreign, agent, skills, suffix);
            var t := tools[i];
            && |after| >= |tools|
            && (!Stands(tools, i) ==> after[i] == t)
            && (forall k: nat :: Stands(tools, i) && LastMention(skills, t.skill, k) ==>
                  after[i] == Tool(t.skill, t.key, t.active || (t.state == Gone && !t.deleted),
                                   if t.state == AgentOff then AgentOff else Present, t.deleted,
                                   if t.byOperator then t.description else skills[k].text, t.byOperator))
            && (Stands(tools, i) && (forall k :: 0 <= k < |skills| ==> skills[k].id != t.skill) ==>
                  after[i] == if t.active then t.(active := false, state := Gone)
                              else if t.state == Present then t.(state := Unset) else t)
  {
    hide Ingested;
    RefreshRows(tools, foreign, agent, skills, suffix, i);
    RowStands(tools, |tools|, i);
    forall k: nat | LastMention(skills, tools[i].skill, k)
      ensures TextOf(skills, tools[i].skill, |skills|) == Some(skills[k].text)
    {
      TextOfMention(skills, tools[i].skill, |skills|, k);
    }
  }

  /** ASCII letters and digits and the dash, by their codes. */
  predicate Safe(c: char) {
    var n := c as int;
    48 <= n < 58 || 65 <= n < 91 || 97 <= n < 123 || n == 45
  }

  /** A model cannot tell the two keys apart: they differ only where neither has a letter, a digit or a dash. */
  ghost predicate LooksLike(a: string, b: string) {
    |a| == |b| && forall p :: 0 <= p < |a| ==> a[p] == b[p] || (!Safe(a[p]) && !Safe(b[p]))
  }

  lemma LooksLikeIsSanitized(a: string, b: string)
    ensures LooksLike(a, b) <==> Sanitize(a) == Sanitize(b)
  {
    if Sanitize(a) == Sanitize(b) {
      assert |a| == |b|;
      forall p | 0 <= p < |a| ensures a[p] == b[p] || (!Safe(a[p]) && !Safe(b[p])) {
        assert Sanitize(a)[p] == Sanitize(b)[p];
      }
    }
  }

  /** Main result. What the `k`-th skill of a card adds: nothing if an earlier row stands for it; otherwise one
    * row, listed and in service, whose key is the plain one exactly if no taken key looks like it. */
  lemma SkillDecidesExactly(tools: seq<Tool>, keys: set<string>, agent: string, skills: seq<Skill>, suffix: nat -> string, k: nat)
    requires k < |skills|
    ensures var (rows, taken) := Projected(tools, keys, agent, skills, suffix, |tools|, k);
            var (after, takenAfter) := Projected(tools, keys, agent, skills, suffix, |tools|, k + 1);
            var plain := agent + "." + skills[k].name;
            var key := if exists t :: t in taken && LooksLike(t, plain) then plain + "-" + suffix(k) else plain;
            if exists i :: 0 <= i < |tools| && tools[i].skill == skills[k].id
            then |after| == |rows| && after[|tools|..] == rows[|tools|..] && takenAfter == taken
            else after == rows + [Tool(skills[k].id, key, true, Present, false, skills[k].text, false)] && takenAfter == taken + {key}
  {
    hide LooksLike, Sanitize, Listed;
    var (rows, taken) := Projected(tools, keys, agent, skills, suffix, |tools|, k);
    var plain := agent + "." + skills[k].name;
    forall t ensures LooksLike(t, plain) <==> Sanitize(t) == Sanitize(plain) {
      LooksLikeIsSanitized(t, plain);
    }
    assert Sanitize(plain) in NamesOf(taken) <==> exists t :: t in taken && LooksLike(t, plain);
    assert plain in taken ==> LooksLike(plain, plain) by { LooksLikeIsSanitized(plain, plain); }
    assert forall i :: 0 <= i < |tools| ==> rows[i].skill == tools[i].skill;
    assert RowOf(rows, |tools|, skills[k].id).Some? <==> exists i :: 0 <= i < |tools| && tools[i].skill == skills[k].id;
  }

  /** A card starts from the keys of every tool, its own and others', and its new rows are not touched by the
    * marking of dropped ones. */
  lemma NewRowsStay(tools: seq<Tool>, foreign: set<string>, agent: string, skills: seq<Skill>, suffix: nat -> string)
    ensures var keys := (set i | 0 <= i < |tools| :: tools[i].key) + foreign;
            var rows := Projected(tools, keys, agent, skills, suffix, |tools|, |skills|).0;
            var after := Ingested(tools, foreign, agent, skills, suffix);
            |after| == |rows| && after[|tools|..] == rows[|tools|..]
            && Projected(tools, keys, agent, skills, suffix, |tools|, 0) == (tools, keys)
  {
    hide RowOf, Unlisted, InCard;
    assert KeysOf(tools) == set i | 0 <= i < |tools| :: tools[i].key;
  }

  /** Main result. An agent's tools follow it: stopping it takes exactly its live, active rows out of service
    * under its own mark, starting it brings back exactly the live rows under that mark, and any other change
    * of status touches none. */
  lemma StatusDecidesExactly(tools: seq<Tool>, was: AgentStatus, to: AgentStatus, i: nat)
    requires i < |tools|
    ensures var t := tools[i];
            && |Cascaded(tools, was, to)| == |tools|
            && Cascaded(tools, was, to)[i] ==
               if was == AgentActive && to != AgentActive && t.active && !t.deleted then t.(active := false, state := AgentOff)
               else if was != AgentActive && to == AgentActive && t.state == AgentOff && !t.deleted
                    then t.(active := true, state := Present)
               else t
  {}

  /** Main result. A fetch: a failure means error, a good card ends one, and only registration's first fetch
    * activates an inactive agent. */
  lemma FetchDecidesExactly(status: AgentStatus, ok: bool, activate: bool)
    ensures Refreshed(status, ok, activate) == AgentError <==> !ok
    ensures ok ==> (Refreshed(status, ok, activate) == AgentInactive <==> status == AgentInactive && !activate)
  {}
}

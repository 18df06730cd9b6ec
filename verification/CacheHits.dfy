/** That the cache caches: when a loaded entry is served, and when it is loaded again. */
module CacheHits {
  import opened Options
  import opened RegistryCacheModel
  import opened Coherence
  import Listener

  /** What makes an entry of `q` go: an invalidation of a registry it embeds, a listener callback for one, a
    * change of mode, or another load of `q`. */
  predicate Disturbs(s: Sys, a: Action, q: Registry) {
    match a
    case Invalidate(r) => q in Closure(r)
    case RunTask(i) => i < |s.link.tasks| && (s.link.tasks[i].MarkOne? ==> q in Closure(s.link.tasks[i].registry))
    case FlipMode(mode) => mode != s.cache.mode
    case Cached(access, p) => p == q && access.Begin?
    case _ => false
  }

  /** No such thing between the two actions. */
  ghost predicate Undisturbed(cfg: Config, acts: seq<Action>, q: Registry, from: nat, to: nat)
    requires CanRun(cfg, Start(), acts) && to <= |acts|
  {
    forall j: nat :: from < j < to ==> !Disturbs(At(cfg, Start(), acts, j), acts[j], q)
  }

  ghost predicate Holds(s: Sys, q: Registry, rows: Rows, at: nat) {
    && q in s.cache.data && s.cache.data[q] == rows && q in s.cache.loadedMono && s.cache.loadedMono[q] == at
    && q in s.cache.generation && q !in s.loads && at <= s.now
  }

  lemma FinishHolds(cfg: Config, s: Sys, q: Registry)
    requires Enabled(cfg, s, Cached(Finish, q)) && Inv(cfg, s)
    ensures var t := Apply(cfg, s, Cached(Finish, q));
            && Holds(t, q, s.loads[q].rows.value, s.now)
            && (q in t.cache.dirty <==> s.loads[q].gen != s.cache.generation[q])
  {
    assert EntryInv(cfg, s, q);
  }

  lemma AccessHolds(cfg: Config, s: Sys, access: Access, p: Registry, q: Registry, rows: Rows, at: nat)
    requires AccessEnabled(cfg, s, access, p) && Holds(s, q, rows, at) && !(p == q && access.Begin?)
    ensures var t := AfterAccess(s, access, p); Holds(t, q, rows, at) && (q in t.cache.dirty <==> q in s.cache.dirty)
  {
    hide NeedsLoad;
  }

  lemma StepHolds(cfg: Config, s: Sys, a: Action, q: Registry, rows: Rows, at: nat)
    requires Enabled(cfg, s, a) && Holds(s, q, rows, at) && !Disturbs(s, a, q)
    ensures var t := Apply(cfg, s, a); Holds(t, q, rows, at) && (q in t.cache.dirty <==> q in s.cache.dirty)
  {
    EveryRegistry(q);
    hide NeedsLoad, Closure, AccessEnabled, AfterAccess, LinkEnabled, AfterLink;
    if a.Cached? {
      AccessHolds(cfg, s, a.access, a.q, q, rows, at);
    }
  }

  lemma {:induction false} StaysHeld(cfg: Config, acts: seq<Action>, f: nat, k: nat, q: Registry)
    requires CanRun(cfg, Start(), acts) && f < k <= |acts| && acts[f] == Cached(Finish, q)
    requires Undisturbed(cfg, acts, q, f, k)
    ensures var s, t := At(cfg, Start(), acts, f), At(cfg, Start(), acts, k);
            && q in s.loads && s.loads[q].rows.Some? && q in s.cache.generation
            && Holds(t, q, s.loads[q].rows.value, s.now)
            && (q in t.cache.dirty <==> s.loads[q].gen != s.cache.generation[q])
    decreases k
  {
    hide Holds, Enabled, Apply;
    AtStep(cfg, Start(), acts, k - 1);
    if k - 1 == f {
      ReachableInv(cfg, acts, f);
      FinishHolds(cfg, At(cfg, Start(), acts, f), q);
      FinishHadRows(cfg, At(cfg, Start(), acts, f), q);
    } else {
      StaysHeld(cfg, acts, f, k - 1, q);
      var s := At(cfg, Start(), acts, f);
      StepHolds(cfg, At(cfg, Start(), acts, k - 1), acts[k - 1], q, s.loads[q].rows.value, s.now);
    }
  }

  lemma FinishHadRows(cfg: Config, s: Sys, q: Registry)
    requires Enabled(cfg, s, Cached(Finish, q))
    ensures q in s.loads && s.loads[q].rows.Some? && q in s.cache.generation
  {}

  /** Main result. After a load of `q` has finished and nothing has disturbed the entry since: if the
    * generation stood still during the load, an unforced read within the TTL is a hit with the rows that load
    * read, and starts no load. At the TTL or later, after a load that an invalidation had overtaken, or when
    * forced, a read starts a load and is no hit. */
  lemma HitExactlyWithinTtl(cfg: Config, acts: seq<Action>, f: nat, k: nat, q: Registry)
    requires CanRun(cfg, Start(), acts) && f < k <= |acts| && acts[f] == Cached(Finish, q)
    requires Undisturbed(cfg, acts, q, f, k)
    ensures var s, t := At(cfg, Start(), acts, f), At(cfg, Start(), acts, k);
            && q in s.loads && s.loads[q].rows.Some? && q in s.cache.generation
            && var fits := s.loads[q].gen == s.cache.generation[q] && t.now < s.now + cfg.ttl;
            && (Enabled(cfg, t, Cached(Hit, q)) <==> fits)
            && (Enabled(cfg, t, Cached(Begin(false), q)) <==> !fits)
            && Enabled(cfg, t, Cached(Begin(true), q))
            && (fits ==> Served(t, Cached(Hit, q)) == s.loads[q].rows)
  {
    StaysHeld(cfg, acts, f, k, q);
  }

  /** The generation stands still during a load exactly if no invalidation reached `q` since it began. */
  lemma {:induction false} GenerationStandsExactly(cfg: Config, acts: seq<Action>, b: nat, k: nat, q: Registry)
    requires CanRun(cfg, Start(), acts) && b <= k <= |acts|
    ensures var s, t := At(cfg, Start(), acts, b), At(cfg, Start(), acts, k);
            && q in s.cache.generation && q in t.cache.generation && s.cache.generation[q] <= t.cache.generation[q]
            && (s.cache.generation[q] == t.cache.generation[q] <==> forall j: nat :: b <= j < k ==> !Reaches(At(cfg, Start(), acts, j), acts[j], q))
    decreases k
  {
    hide Apply, Enabled, Inv;
    ReachableInv(cfg, acts, b);
    HasGeneration(cfg, At(cfg, Start(), acts, b), q);
    if b < k {
      GenerationStandsExactly(cfg, acts, b, k - 1, q);
      AtStep(cfg, Start(), acts, k - 1);
      GenerationStep(cfg, At(cfg, Start(), acts, k - 1), acts[k - 1], q);
    }
  }

  /** An invalidation, local or from the listener, of a registry that `q` embeds. */
  predicate Reaches(s: Sys, a: Action, q: Registry) {
    match a
    case Invalidate(r) => q in Closure(r)
    case RunTask(i) => i < |s.link.tasks| && (s.link.tasks[i].MarkOne? ==> q in Closure(s.link.tasks[i].registry))
    case _ => false
  }

  lemma HasGeneration(cfg: Config, s: Sys, q: Registry)
    requires Inv(cfg, s)
    ensures q in s.cache.generation
  {
    assert EntryInv(cfg, s, q);
  }

  lemma GenerationStep(cfg: Config, s: Sys, a: Action, q: Registry)
    requires Enabled(cfg, s, a) && q in s.cache.generation
    ensures var t := Apply(cfg, s, a);
            q in t.cache.generation
            && t.cache.generation[q] == s.cache.generation[q] + (if Reaches(s, a, q) then 1 else 0)
  {
    EveryRegistry(q);
    hide NeedsLoad, Closure;
  }

  /** Main result. What an invalidation does to each registry: tools are embedded in skills and these in the
    * sub-agent records, settings and sub-agents in nothing. What it reaches gets a new generation and is
    * loaded by the next read, whatever its age; all else keeps its generation, and all rows stay. */
  lemma InvalidationDecidesExactly(c: Cache, r: Registry, q: Registry, force: bool, now: nat, ttl: nat)
    requires ValidCache(c) && q in REGISTRIES
    ensures var after := Marked(c, Closure(r));
            var reached := q == r || (r == Tools && q == Skills) || (q == SubAgents && (r == Tools || r == Skills));
            && ValidCache(after) && after.mode == c.mode && after.data == c.data && after.loadedMono == c.loadedMono
            && after.generation[q] == c.generation[q] + (if reached then 1 else 0)
            && (q in after.dirty <==> q in c.dirty || reached)
            && NeedsLoad(after, q, force, now, ttl) == (reached || NeedsLoad(c, q, force, now, ttl))
  {}

  /** Main result. After a change of mode no registry is served before it has been loaded again; setting the
    * mode it has does nothing at all. */
  lemma FlipDecidesExactly(cfg: Config, s: Sys, mode: Mode, q: Registry, access: Access)
    ensures var t := Apply(cfg, s, FlipMode(mode));
            && t.cache.mode == mode
            && (mode == s.cache.mode ==> t.cache == s.cache)
            && (mode != s.cache.mode ==> !Enabled(cfg, t, Cached(Hit, q)))
            && t.cache.data == s.cache.data && t.cache.loadedMono == s.cache.loadedMono
            && t.cache.generation == s.cache.generation && t.loads == s.loads
  {
    EveryRegistry(q);
  }

  /** Main result. Every reconnect reloads: a connection that comes up, dies and is noticed comes up again,
    * and once the task its hook left has run, no registry is served before it is loaded. */
  lemma ReconnectReloads(cfg: Config, s: Sys, q: Registry)
    requires !s.link.alive && !s.link.session.connected
    ensures Enabled(cfg, s, OnLink(Connect))
    ensures var up := Apply(cfg, s, OnLink(Connect));
            var dead := Apply(cfg, up, OnLink(SessionDies));
            && up.link.alive && up.link.session == Listener.Session(true, true)
            && up.link.tasks == s.link.tasks + (if s.link.session.ever then [MarkAll] else [])
            && Enabled(cfg, dead, OnLink(NoticeLoss))
            && var noticed := Apply(cfg, dead, OnLink(NoticeLoss));
            && noticed.link.session == Listener.Session(false, true)
            && Enabled(cfg, noticed, OnLink(Connect))
            && var again := Apply(cfg, noticed, OnLink(Connect));
            && again.link.tasks == up.link.tasks + [MarkAll]
            && Enabled(cfg, again, RunTask(|up.link.tasks|))
            && !Enabled(cfg, Apply(cfg, again, RunTask(|up.link.tasks|)), Cached(Hit, q))
  {
    EveryRegistry(q);
  }

  /** What a read gets: a hit the stored rows, decided at once; a load the rows it read, decided when it began
    * and stored from then on; no other action serves anything. */
  lemma ReadsServeExactly(cfg: Config, s: Sys, a: Action)
    requires Enabled(cfg, s, a)
    ensures match a
            case Cached(Hit, q) => q in s.cache.data && Served(s, a) == Some(s.cache.data[q]) && DecidedAt(s, a) == s.step
            case Cached(Finish, q) =>
              && q in s.loads && s.loads[q].rows.Some? && Served(s, a) == s.loads[q].rows && DecidedAt(s, a) == s.loads[q].begun
              && q in Apply(cfg, s, a).cache.data && Some(Apply(cfg, s, a).cache.data[q]) == Served(s, a)
            case _ => Served(s, a).None?
  {}
}

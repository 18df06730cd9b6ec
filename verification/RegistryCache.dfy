/** The per-process registry cache in memory mode (`backend/app/registry_cache.py`).
  *
  * `RegistryCache` is the object the process holds. Cached rows are represented by what matters
  * about them: the database version and the time they were read at.
  */
module RegistryCacheModel {
  import opened Options

  datatype Registry = Tools | Skills | SubAgents | Settings
  datatype Mode = Bypass | Memory

  const REGISTRIES: set<Registry> := {Tools, Skills, SubAgents, Settings}

  /** The rows of one registry, as read by a single load. */
  datatype Rows = Rows(version: nat, readAt: nat)

  datatype Cache = Cache(mode: Mode,
                         dirty: set<Registry>,
                         generation: map<Registry, nat>,
                         data: map<Registry, Rows>,
                         loadedMono: map<Registry, nat>)

  ghost predicate ValidCache(c: Cache) {
    c.generation.Keys == REGISTRIES && c.data.Keys == c.loadedMono.Keys
  }

  /** Registries whose records embed rows of `r`. */
  function Dependents(r: Registry): seq<Registry> {
    match r
    case Tools => [Skills]
    case Skills => [SubAgents]
    case _ => []
  }

  ghost predicate ClosedUnderDependents(rs: set<Registry>) {
    forall r, d :: r in rs && d in Dependents(r) ==> d in rs
  }

  function Closure(r: Registry): set<Registry> {
    match r
    case Tools => {Tools, Skills, SubAgents}
    case Skills => {Skills, SubAgents}
    case _ => {r}
  }

  /** `Closure(r)` is the least set that holds `r` and every registry embedding a member. */
  lemma ClosureIsLeast(r: Registry, rs: set<Registry>)
    ensures r in Closure(r) && ClosedUnderDependents(Closure(r))
    ensures r in rs && ClosedUnderDependents(rs) ==> Closure(r) <= rs
  {
    if r in rs && ClosedUnderDependents(rs) {
      assert forall d :: d in Dependents(r) ==> d in rs;
      assert Dependents(Tools)[0] == Skills && Dependents(Skills)[0] == SubAgents;
    }
  }

  function Marked(c: Cache, rs: set<Registry>): Cache {
    c.(dirty := c.dirty + rs,
       generation := map q | q in c.generation :: if q in rs then c.generation[q] + 1 else c.generation[q])
  }

  lemma MarkedTwice(c: Cache, rs: set<Registry>, r: Registry)
    requires r !in rs
    ensures Marked(Marked(c, rs), {r}) == Marked(c, rs + {r})
  {
    assert (c.dirty + rs) + {r} == c.dirty + (rs + {r});
  }

  lemma IsRegistry(r: Registry)
    ensures r in REGISTRIES
  {
    match r case _ =>
  }

  lemma MarkedNothing(c: Cache)
    ensures Marked(c, {}) == c
  {}

  function ModeSet(c: Cache, mode: Mode): Cache {
    if mode == c.mode then c else c.(mode := mode, dirty := REGISTRIES)
  }

  predicate NeedsLoad(c: Cache, r: Registry, force: bool, now: nat, ttl: nat) {
    force || r in c.dirty || r !in c.data || r !in c.loadedMono || now - c.loadedMono[r] >= ttl
  }

  /** A finished load: stored whatever happened meanwhile, clean only if no invalidation did. */
  function Loaded(c: Cache, r: Registry, gen: nat, rows: Rows, now: nat): Cache
    requires r in c.generation
  {
    c.(data := c.data[r := rows],
       loadedMono := c.loadedMono[r := now],
       dirty := if c.generation[r] == gen then c.dirty - {r} else c.dirty)
  }

  class RegistryCache {
    var mode: Mode
    var dirty: set<Registry>
    var generation: map<Registry, nat>
    var data: map<Registry, Rows>
    var loadedMono: map<Registry, nat>

    ghost function View(): Cache
      reads this
    {
      Cache(mode, dirty, generation, data, loadedMono)
    }

    constructor ()
      ensures View() == InitialCache() && ValidCache(View())
    {
      mode, dirty, data, loadedMono := Bypass, REGISTRIES, map[], map[];
      generation := map[Tools := 0, Skills := 0, SubAgents := 0, Settings := 0];
    }

    method Bump(reg: Registry)
      requires ValidCache(View())
      modifies this
      ensures View() == Marked(old(View()), {reg}) && ValidCache(View())
    {
      generation := generation[reg := generation[reg] + 1];
      dirty := dirty + {reg};
    }

    /** The worklist: the registry, then everything that embeds it, each bumped once. */
    method MarkDirty(registry: Registry)
      requires ValidCache(View())
      modifies this
      ensures View() == Marked(old(View()), Closure(registry)) && ValidCache(View())
    {
      hide Marked, Closure, Dependents;
      MarkedNothing(View());
      ClosureIsLeast(registry, {});
      var queue := [registry];
      var seen: set<Registry> := {};
      while queue != []
        invariant View() == Marked(old(View()), seen) && ValidCache(View())
        invariant registry in seen || registry in queue
        invariant seen <= Closure(registry) && forall q :: q in queue ==> q in Closure(registry)
        invariant forall q, d :: q in seen && d in Dependents(q) ==> d in seen || d in queue
        decreases REGISTRIES - seen, |queue|
      {
        var reg := queue[|queue| - 1];
        ghost var waiting := queue;
        queue := queue[..|queue| - 1];
        assert forall q :: q in waiting ==> q in queue || q == reg;
        if reg in seen {
          continue;
        }
        MarkedTwice(old(View()), seen, reg);
        IsRegistry(reg);
        seen := seen + {reg};
        Bump(reg);
        queue := queue + Dependents(reg);
      }
      assert ClosedUnderDependents(seen);
      ClosureIsLeast(registry, seen);
      assert seen == Closure(registry);
    }

    /** A live mode flip; the warm loads that follow it are ordinary reads. */
    method SetMode(m: Mode)
      modifies this
      ensures View() == ModeSet(old(View()), m)
    {
      if m == mode {
        return;
      }
      mode := m;
      dirty := REGISTRIES;
    }

    /** The decision taken under the registry's lock: serve the entry, or start a load at `gen`. */
    method Decide(r: Registry, force: bool, now: nat, ttl: nat) returns (hit: Option<Rows>, gen: nat)
      requires ValidCache(View())
      ensures hit == if NeedsLoad(View(), r, force, now, ttl) then None else Some(data[r])
      ensures gen == generation[r]
    {
      var expired := r !in loadedMono || now - loadedMono[r] >= ttl;
      gen := generation[r];
      if force || r in dirty || r !in data || expired {
        hit := None;
      } else {
        hit := Some(data[r]);
      }
    }

    method FinishLoad(r: Registry, gen: nat, rows: Rows, now: nat) returns (served: Rows)
      requires ValidCache(View())
      modifies this
      ensures View() == Loaded(old(View()), r, gen, rows, now) && ValidCache(View())
      ensures served == rows
    {
      data := data[r := rows];
      loadedMono := loadedMono[r := now];
      if generation[r] == gen {
        dirty := dirty - {r};
      }
      served := data[r];
    }
  }

  function InitialCache(): Cache {
    Cache(Bypass, REGISTRIES, map[Tools := 0, Skills := 0, SubAgents := 0, Settings := 0], map[], map[])
  }
}

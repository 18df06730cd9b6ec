/** One replica's cache against a database that other tasks and replicas write.
  *
  * `await` points are the only interleaving points, so a load is three actions (begin, read,
  * finish) and everything else is one. `floor` and `announced` are bookkeeping of the model: the
  * database version when a registry was last invalidated here, and when a peer last announced a
  * change to it after this replica's first LISTEN.
  */
module Coherence {
  import opened Options
  import opened RegistryCacheModel
  import Listener

  /** The TTL of an entry, and the longest a load may take. */
  datatype Config = Config(ttl: nat, maxLoad: nat)

  /** A load in flight: who may write the entry until it ends, because it holds the lock. */
  datatype Load = Load(begun: nat, gen: nat, startDb: nat, startAt: nat, rows: Option<Rows>)

  /** A task the listener callbacks spawned and the event loop has not run yet. */
  datatype Task = MarkOne(registry: Registry) | MarkAll

  /** The LISTEN link: `alive` is the server side of the session, `session` what the supervisor
    * believes, `inbox` the notifications delivered to the socket and not yet seen. */
  datatype Link = Link(alive: bool, session: Listener.Session, inbox: seq<Registry>, tasks: seq<Task>,
                       announced: map<Registry, nat>)

  datatype Sys = Sys(cache: Cache, loads: map<Registry, Load>, db: nat, now: nat, step: nat,
                     floor: map<Registry, nat>, link: Link)

  datatype Access = Hit | Begin(force: bool) | Read | Finish | Fail
  datatype LinkEvent = PeerAnnounce(r: Registry) | SessionDies | NoticeLoss | Connect | Receive

  datatype Action =
    | Write
    | Tick(elapsed: nat)
    | FlipMode(mode: Mode)
    | Invalidate(r: Registry)
    | RunTask(i: nat)
    | Cached(access: Access, q: Registry)
    | OnLink(event: LinkEvent)

  function Zeros(): map<Registry, nat> {
    map[Tools := 0, Skills := 0, SubAgents := 0, Settings := 0]
  }

  function Start(): Sys {
    Sys(InitialCache(), map[], 0, 0, 0, Zeros(), Link(false, Listener.Session(false, false), [], [], Zeros()))
  }

  predicate AccessEnabled(cfg: Config, s: Sys, a: Access, q: Registry) {
    match a
    case Hit => q !in s.loads && !NeedsLoad(s.cache, q, false, s.now, cfg.ttl) && q in s.cache.data
    case Begin(force) => q !in s.loads && NeedsLoad(s.cache, q, force, s.now, cfg.ttl) && q in s.cache.generation
    case Read => q in s.loads && s.loads[q].rows.None?
    case Finish =>
      && q in s.loads && s.loads[q].rows.Some? && q in s.cache.generation
      && s.now <= s.loads[q].startAt + cfg.maxLoad
    case Fail => q in s.loads
  }

  function AfterAccess(s: Sys, a: Access, q: Registry): Sys
    requires a.Begin? || a.Finish? ==> q in s.cache.generation
    requires a.Read? || a.Finish? ==> q in s.loads
    requires a.Finish? ==> s.loads[q].rows.Some?
  {
    match a
    case Hit => s
    case Begin(_) => s.(loads := s.loads[q := Load(s.step, s.cache.generation[q], s.db, s.now, None)])
    case Read => s.(loads := s.loads[q := s.loads[q].(rows := Some(Rows(s.db, s.now)))])
    case Finish =>
      s.(cache := Loaded(s.cache, q, s.loads[q].gen, s.loads[q].rows.value, s.now), loads := s.loads - {q})
    case Fail => s.(loads := s.loads - {q})
  }

  predicate LinkEnabled(l: Link, e: LinkEvent) {
    match e
    case NoticeLoss => l.session.connected && !l.alive
    case Connect => !l.session.connected && !l.alive
    case Receive => l.inbox != []
    case _ => true
  }

  function AfterLink(l: Link, e: LinkEvent, db: nat): Link
    requires LinkEnabled(l, e)
  {
    match e
    case PeerAnnounce(r) =>
      l.(announced := if l.session.ever then l.announced[r := db] else l.announced,
         inbox := if l.alive then l.inbox + [r] else l.inbox)
    case SessionDies => l.(alive := false, inbox := [])
    case NoticeLoss => l.(session := Listener.Gone(l.session))
    case Connect =>
      l.(alive := true, session := Listener.Held(l.session), inbox := [],
         tasks := if Listener.HookRuns(l.session) then l.tasks + [MarkAll] else l.tasks)
    case Receive => l.(inbox := l.inbox[1..], tasks := l.tasks + [MarkOne(l.inbox[0])])
  }

  function MarkIn(s: Sys, rs: set<Registry>): Sys {
    s.(cache := Marked(s.cache, rs),
       floor := map q | q in s.floor :: if q in rs then s.db else s.floor[q])
  }

  function TaskScope(t: Task): set<Registry> {
    if t.MarkAll? then REGISTRIES else Closure(t.registry)
  }

  predicate Enabled(cfg: Config, s: Sys, a: Action) {
    match a
    case RunTask(i) => i < |s.link.tasks|
    case Cached(access, q) => AccessEnabled(cfg, s, access, q)
    case OnLink(e) => LinkEnabled(s.link, e)
    case _ => true
  }

  function Effect(cfg: Config, s: Sys, a: Action): Sys
    requires Enabled(cfg, s, a)
  {
    match a
    case Write => s.(db := s.db + 1)
    case Tick(elapsed) => s.(now := s.now + elapsed)
    case FlipMode(mode) => s.(cache := ModeSet(s.cache, mode))
    case Invalidate(r) => MarkIn(s, Closure(r))
    case RunTask(i) =>
      MarkIn(s.(link := s.link.(tasks := s.link.tasks[..i] + s.link.tasks[i + 1..])), TaskScope(s.link.tasks[i]))
    case Cached(access, q) => AfterAccess(s, access, q)
    case OnLink(e) => s.(link := AfterLink(s.link, e, s.db))
  }

  function Apply(cfg: Config, s: Sys, a: Action): Sys
    requires Enabled(cfg, s, a)
  {
    Effect(cfg, s, a).(step := s.step + 1)
  }

  // ── What holds in every reachable state ──

  ghost predicate EntryInv(cfg: Config, s: Sys, r: Registry) {
    && r in s.cache.generation && r in s.floor && s.floor[r] <= s.db
    && (r in s.cache.data <==> r in s.cache.loadedMono)
    && (r in s.cache.data ==>
          && (r !in s.cache.dirty ==> s.cache.data[r].version >= s.floor[r])
          && s.cache.data[r].version <= s.db
          && s.cache.data[r].readAt <= s.cache.loadedMono[r] <= s.now
          && s.cache.loadedMono[r] <= s.cache.data[r].readAt + cfg.maxLoad)
    && (r in s.loads ==>
          var l := s.loads[r];
          && l.begun < s.step && l.startDb <= s.db && l.startAt <= s.now
          && l.gen <= s.cache.generation[r]
          && (if l.gen == s.cache.generation[r] then l.startDb >= s.floor[r] else r in s.cache.dirty)
          && (l.rows.Some? ==> l.startDb <= l.rows.value.version <= s.db && l.startAt <= l.rows.value.readAt <= s.now))
  }

  /** Every registry embedding `r` has been invalidated since `r` was last announced. */
  ghost predicate Covered(floor: map<Registry, nat>, announced: map<Registry, nat>, r: Registry) {
    r in announced && forall q :: q in Closure(r) ==> q in floor && floor[q] >= announced[r]
  }

  /** Something that is bound to invalidate `r`, or to reconnect and invalidate everything. */
  ghost predicate Outstanding(l: Link, r: Registry) {
    r in l.inbox || MarkOne(r) in l.tasks || MarkAll in l.tasks || (l.session.ever && !l.alive)
  }

  ghost predicate CoverageInv(floor: map<Registry, nat>, l: Link, db: nat, r: Registry) {
    && r in l.announced && l.announced[r] <= db
    && (!l.session.ever ==> l.announced[r] == 0)
    && (Covered(floor, l.announced, r) || Outstanding(l, r))
  }

  ghost predicate Inv(cfg: Config, s: Sys) {
    && (s.link.alive ==> s.link.session.ever)
    && (forall r :: EntryInv(cfg, s, r))
    && (forall r :: CoverageInv(s.floor, s.link, s.db, r))
  }

  lemma EveryRegistry(r: Registry)
    ensures r in REGISTRIES && r in Zeros() && Zeros()[r] == 0
  {
    match r case _ =>
  }

  lemma StartInv(cfg: Config)
    ensures Inv(cfg, Start())
  {
    forall r: Registry
      ensures r in REGISTRIES && r in Zeros() && Zeros()[r] == 0
    {
      EveryRegistry(r);
    }
  }

  lemma AccessKeepsEntry(cfg: Config, s: Sys, a: Access, q: Registry, r: Registry)
    requires EntryInv(cfg, s, r) && AccessEnabled(cfg, s, a, q)
    ensures EntryInv(cfg, AfterAccess(s, a, q).(step := s.step + 1), r)
  {
    hide NeedsLoad;
  }

  lemma MarkKeepsEntry(cfg: Config, s: Sys, rs: set<Registry>, r: Registry)
    requires EntryInv(cfg, s, r)
    ensures EntryInv(cfg, MarkIn(s, rs).(step := s.step + 1), r)
  {}

  lemma StepKeepsEntry(cfg: Config, s: Sys, a: Action, r: Registry)
    requires EntryInv(cfg, s, r) && Enabled(cfg, s, a)
    ensures EntryInv(cfg, Apply(cfg, s, a), r)
  {
    EveryRegistry(r);
    match a
    case Cached(access, q) => AccessKeepsEntry(cfg, s, access, q, r);
    case Invalidate(q) => MarkKeepsEntry(cfg, s, Closure(q), r);
    case RunTask(i) =>
      MarkKeepsEntry(cfg, s.(link := s.link.(tasks := s.link.tasks[..i] + s.link.tasks[i + 1..])),
                     TaskScope(s.link.tasks[i]), r);
    case _ =>
  }

  lemma LinkKeepsCoverage(floor: map<Registry, nat>, l: Link, e: LinkEvent, db: nat, r: Registry)
    requires CoverageInv(floor, l, db, r) && (l.alive ==> l.session.ever) && LinkEnabled(l, e)
    requires forall q: Registry :: q in floor
    ensures CoverageInv(floor, AfterLink(l, e, db), db, r)
  {
    var t := AfterLink(l, e, db);
    assert forall x :: x in l.tasks ==> x in t.tasks;
    match e
    case Receive =>
      assert l.inbox == [l.inbox[0]] + l.inbox[1..];
      assert t.tasks[|l.tasks|] == MarkOne(l.inbox[0]);
    case Connect => assert l.session.ever ==> t.tasks[|l.tasks|] == MarkAll;
    case PeerAnnounce(q) => assert l.alive ==> t.inbox == l.inbox + [q];
    case _ =>
  }

  lemma MarkCovers(s: Sys, rs: set<Registry>, r: Registry)
    requires forall q: Registry :: q in s.floor && s.floor[q] <= s.db
    requires r in s.link.announced && s.link.announced[r] <= s.db
    ensures Covered(s.floor, s.link.announced, r) || Closure(r) <= rs
            ==> Covered(MarkIn(s, rs).floor, s.link.announced, r)
  {}

  lemma TaskKeepsCoverage(s: Sys, i: nat, r: Registry)
    requires CoverageInv(s.floor, s.link, s.db, r) && i < |s.link.tasks|
    requires forall q: Registry :: q in s.floor && s.floor[q] <= s.db
    ensures var t := s.(link := s.link.(tasks := s.link.tasks[..i] + s.link.tasks[i + 1..]));
            CoverageInv(MarkIn(t, TaskScope(s.link.tasks[i])).floor, t.link, s.db, r)
  {
    var tasks, task := s.link.tasks, s.link.tasks[i];
    var t := s.(link := s.link.(tasks := tasks[..i] + tasks[i + 1..]));
    assert tasks == tasks[..i] + [task] + tasks[i + 1..];
    assert forall x :: x in tasks ==> x in t.link.tasks || x == task;
    forall q: Registry ensures q in REGISTRIES { EveryRegistry(q); }
    MarkCovers(t, TaskScope(task), r);
  }

  lemma StepKeepsInv(cfg: Config, s: Sys, a: Action)
    requires Inv(cfg, s) && Enabled(cfg, s, a)
    ensures Inv(cfg, Apply(cfg, s, a))
  {
    hide AccessEnabled, AfterAccess, ModeSet;
    var t := Apply(cfg, s, a);
    forall q: Registry ensures q in s.floor && s.floor[q] <= s.db {
      assert EntryInv(cfg, s, q);
    }
    forall r: Registry ensures EntryInv(cfg, t, r) {
      StepKeepsEntry(cfg, s, a, r);
    }
    forall r: Registry ensures CoverageInv(t.floor, t.link, t.db, r) {
      assert CoverageInv(s.floor, s.link, s.db, r);
      match a
      case OnLink(e) => LinkKeepsCoverage(s.floor, s.link, e, s.db, r);
      case Invalidate(q) => MarkCovers(s, Closure(q), r);
      case RunTask(i) => TaskKeepsCoverage(s, i, r);
      case Cached(access, q) => AccessKeepsRest(cfg, s, access, q);
      case _ =>
    }
    if a.Cached? {
      AccessKeepsRest(cfg, s, a.access, a.q);
    }
  }

  lemma AccessKeepsRest(cfg: Config, s: Sys, a: Access, q: Registry)
    requires AccessEnabled(cfg, s, a, q)
    ensures var t := AfterAccess(s, a, q);
            t.floor == s.floor && t.link == s.link && t.db == s.db && t.now == s.now
  {}

  // ── Runs ──

  ghost predicate CanRun(cfg: Config, s: Sys, acts: seq<Action>)
    decreases |acts|
  {
    acts != [] ==> Enabled(cfg, s, acts[0]) && CanRun(cfg, Apply(cfg, s, acts[0]), acts[1..])
  }

  /** The state before the `k`-th action of a run. */
  ghost function At(cfg: Config, s: Sys, acts: seq<Action>, k: nat): Sys
    requires CanRun(cfg, s, acts) && k <= |acts|
    decreases k
  {
    if k == 0 then s else At(cfg, Apply(cfg, s, acts[0]), acts[1..], k - 1)
  }

  lemma {:induction false} AtStep(cfg: Config, s: Sys, acts: seq<Action>, k: nat)
    requires CanRun(cfg, s, acts) && k < |acts|
    ensures Enabled(cfg, At(cfg, s, acts, k), acts[k])
    ensures At(cfg, s, acts, k + 1) == Apply(cfg, At(cfg, s, acts, k), acts[k])
    decreases k
  {
    hide Enabled, Apply;
    if k > 0 {
      AtStep(cfg, Apply(cfg, s, acts[0]), acts[1..], k - 1);
    }
  }

  lemma {:induction false} ReachableInv(cfg: Config, acts: seq<Action>, k: nat)
    requires CanRun(cfg, Start(), acts) && k <= |acts|
    ensures Inv(cfg, At(cfg, Start(), acts, k)) && At(cfg, Start(), acts, k).step == k
  {
    hide Inv, Enabled, Effect;
    if k == 0 {
      StartInv(cfg);
    } else {
      ReachableInv(cfg, acts, k - 1);
      AtStep(cfg, Start(), acts, k - 1);
      StepKeepsInv(cfg, At(cfg, Start(), acts, k - 1), acts[k - 1]);
      StepGrows(cfg, At(cfg, Start(), acts, k - 1), acts[k - 1]);
    }
  }

  /** The database version and the floors only move forward. */
  lemma StepGrows(cfg: Config, s: Sys, a: Action)
    requires Inv(cfg, s) && Enabled(cfg, s, a)
    ensures Apply(cfg, s, a).step == s.step + 1 && Apply(cfg, s, a).db >= s.db
    ensures forall q :: q in s.floor ==> q in Apply(cfg, s, a).floor && Apply(cfg, s, a).floor[q] >= s.floor[q]
    ensures forall q :: q in s.link.announced ==>
              q in Apply(cfg, s, a).link.announced && Apply(cfg, s, a).link.announced[q] >= s.link.announced[q]
  {
    hide AccessEnabled, AfterAccess, ModeSet, Marked;
    forall q: Registry
      ensures q in s.floor && s.floor[q] <= s.db && q in s.link.announced && s.link.announced[q] <= s.db
    {
      assert EntryInv(cfg, s, q) && CoverageInv(s.floor, s.link, s.db, q);
    }
    if a.Cached? {
      AccessKeepsRest(cfg, s, a.access, a.q);
    }
  }

  lemma {:induction false} RunGrows(cfg: Config, acts: seq<Action>, i: nat, k: nat)
    requires CanRun(cfg, Start(), acts) && i <= k <= |acts|
    ensures At(cfg, Start(), acts, i).db <= At(cfg, Start(), acts, k).db
    ensures forall q: Registry :: q in At(cfg, Start(), acts, i).floor && q in At(cfg, Start(), acts, k).floor
              && At(cfg, Start(), acts, i).floor[q] <= At(cfg, Start(), acts, k).floor[q]
    ensures forall q: Registry :: q in At(cfg, Start(), acts, i).link.announced && q in At(cfg, Start(), acts, k).link.announced
              && At(cfg, Start(), acts, i).link.announced[q] <= At(cfg, Start(), acts, k).link.announced[q]
    decreases k - i
  {
    hide Enabled, Apply;
    ReachableInv(cfg, acts, i);
    forall q: Registry
      ensures q in At(cfg, Start(), acts, i).floor && q in At(cfg, Start(), acts, i).link.announced
    {
      assert EntryInv(cfg, At(cfg, Start(), acts, i), q);
      assert CoverageInv(At(cfg, Start(), acts, i).floor, At(cfg, Start(), acts, i).link, At(cfg, Start(), acts, i).db, q);
    }
    if i < k {
      AtStep(cfg, Start(), acts, i);
      StepGrows(cfg, At(cfg, Start(), acts, i), acts[i]);
      RunGrows(cfg, acts, i + 1, k);
    }
  }

  /** A load in flight began at an earlier action of this run and remembers the database then. */
  lemma {:induction false} LoadBeganInRun(cfg: Config, acts: seq<Action>, k: nat, q: Registry)
    requires CanRun(cfg, Start(), acts) && k <= |acts|
    requires q in At(cfg, Start(), acts, k).loads
    ensures var l := At(cfg, Start(), acts, k).loads[q];
            l.begun < k && l.startDb == At(cfg, Start(), acts, l.begun).db
  {
    if k > 0 {
      AtStep(cfg, Start(), acts, k - 1);
      ReachableInv(cfg, acts, k - 1);
      LoadCarriesOver(cfg, At(cfg, Start(), acts, k - 1), acts[k - 1], q);
      if q in At(cfg, Start(), acts, k - 1).loads {
        hide Enabled, Apply;
        LoadBeganInRun(cfg, acts, k - 1, q);
      }
    }
  }

  lemma LoadCarriesOver(cfg: Config, s: Sys, a: Action, q: Registry)
    requires Enabled(cfg, s, a) && q in Apply(cfg, s, a).loads
    ensures var l := Apply(cfg, s, a).loads[q];
            if q in s.loads then l.begun == s.loads[q].begun && l.startDb == s.loads[q].startDb
            else l.begun == s.step && l.startDb == s.db
  {
    hide NeedsLoad, Loaded, Marked, ModeSet;
  }

  // ── Reads ──

  /** The rows a memory-mode read returns at this action, if it returns any. */
  ghost function Served(s: Sys, a: Action): Option<Rows> {
    if a.Cached? && a.access.Hit? && a.q in s.cache.data then Some(s.cache.data[a.q])
    else if a.Cached? && a.access.Finish? && a.q in s.loads then s.loads[a.q].rows
    else None
  }

  /** The action at which that read got the lock and made its decision. */
  ghost function DecidedAt(s: Sys, a: Action): nat {
    if a.Cached? && a.access.Finish? && a.q in s.loads then s.loads[a.q].begun else s.step
  }

  /** Main result. Under every interleaving of reads, refreshes, invalidations, listener callbacks
    * and mode flips: a memory-mode read that decides after `invalidate(r)` returned never serves
    * rows older than the database was at that invalidation, for `r` or any registry embedding it. */
  lemma NoPreWriteRows(cfg: Config, acts: seq<Action>, i: nat, k: nat, r: Registry)
    requires CanRun(cfg, Start(), acts) && i < k < |acts|
    requires acts[i] == Invalidate(r) && acts[k].Cached? && acts[k].q in Closure(r)
    requires Served(At(cfg, Start(), acts, k), acts[k]).Some?
    requires DecidedAt(At(cfg, Start(), acts, k), acts[k]) > i
    ensures Served(At(cfg, Start(), acts, k), acts[k]).value.version >= At(cfg, Start(), acts, i).db
  {
    var s, q := At(cfg, Start(), acts, k), acts[k].q;
    ReachableInv(cfg, acts, k);
    AtStep(cfg, Start(), acts, k);
    assert EntryInv(cfg, s, q);
    if acts[k].access.Hit? {
      AtStep(cfg, Start(), acts, i);
      ReachableInv(cfg, acts, i);
      assert EntryInv(cfg, At(cfg, Start(), acts, i), q);
      RunGrows(cfg, acts, i + 1, k);
      assert At(cfg, Start(), acts, i + 1).floor[q] == At(cfg, Start(), acts, i).db;
    } else {
      LoadBeganInRun(cfg, acts, k, q);
      RunGrows(cfg, acts, i, s.loads[q].begun);
    }
  }

  /** The ceiling on any staleness: the rows served were read at most one TTL and one load ago. */
  lemma ServedRowsAreYoung(cfg: Config, acts: seq<Action>, k: nat)
    requires CanRun(cfg, Start(), acts) && k < |acts|
    requires Served(At(cfg, Start(), acts, k), acts[k]).Some?
    ensures At(cfg, Start(), acts, k).now <= Served(At(cfg, Start(), acts, k), acts[k]).value.readAt + cfg.ttl + cfg.maxLoad
  {
    ReachableInv(cfg, acts, k);
    AtStep(cfg, Start(), acts, k);
    assert EntryInv(cfg, At(cfg, Start(), acts, k), acts[k].q);
  }

  /** Nothing is on its way from the listener: the session is up and every callback has run. */
  ghost predicate Settled(l: Link) {
    l.alive && l.inbox == [] && l.tasks == []
  }

  /** Main result. Once the listener has settled, over any pattern of lost connections, a cache hit
    * on `r` or a registry embedding it is at least as new as every change to `r` that a peer
    * announced after this replica's first LISTEN. */
  lemma AnnouncedChangesAreSeen(cfg: Config, acts: seq<Action>, j: nat, k: nat, r: Registry)
    requires CanRun(cfg, Start(), acts) && j < k < |acts|
    requires acts[j] == OnLink(PeerAnnounce(r)) && At(cfg, Start(), acts, j).link.session.ever
    requires Settled(At(cfg, Start(), acts, k).link)
    requires acts[k].Cached? && acts[k].access.Hit? && acts[k].q in Closure(r)
    requires Served(At(cfg, Start(), acts, k), acts[k]).Some?
    ensures Served(At(cfg, Start(), acts, k), acts[k]).value.version >= At(cfg, Start(), acts, j).db
  {
    var s, q := At(cfg, Start(), acts, k), acts[k].q;
    ReachableInv(cfg, acts, k);
    AtStep(cfg, Start(), acts, k);
    AtStep(cfg, Start(), acts, j);
    RunGrows(cfg, acts, j + 1, k);
    assert EntryInv(cfg, s, q) && CoverageInv(s.floor, s.link, s.db, r);
    assert At(cfg, Start(), acts, j + 1).link.announced[r] == At(cfg, Start(), acts, j).db;
  }

  /** One action in front of a run. */
  lemma StepFirst(cfg: Config, s: Sys, a: Action, rest: seq<Action>)
    requires Enabled(cfg, s, a) && CanRun(cfg, Apply(cfg, s, a), rest)
    ensures CanRun(cfg, s, [a] + rest)
    ensures forall k: nat :: k <= |rest| ==> At(cfg, s, [a] + rest, k + 1) == At(cfg, Apply(cfg, s, a), rest, k)
  {
    assert ([a] + rest)[1..] == rest;
  }

  /** The first load of a registry, before the listener has ever connected. */
  function FirstLoad(r: Registry): seq<Action> {
    [FlipMode(Memory)] + ([Cached(Begin(false), r)] + ([Cached(Read, r)] + [Cached(Finish, r)]))
  }

  /** A peer writes and announces, the listener connects for the first time, and the entry is read. */
  function MissedChange(r: Registry): seq<Action> {
    [Write] + ([OnLink(PeerAnnounce(r))] + ([OnLink(Connect)] + [Cached(Hit, r)]))
  }

  /** The condition `ever` is exact. Before the first LISTEN any clean, unexpired entry can go stale
    * for good: a peer writes and announces, the first connect runs no reload hook, the listener is
    * settled, and the hit serves rows older than the announced change. */
  lemma FirstConnectCatchesNothingUp(cfg: Config, s: Sys, r: Registry)
    requires Inv(cfg, s) && !s.link.session.ever && !s.link.session.connected && s.link.tasks == []
    requires Enabled(cfg, s, Cached(Hit, r))
    ensures var acts := MissedChange(r);
            && CanRun(cfg, s, acts)
            && Settled(At(cfg, s, acts, 3).link) && Served(At(cfg, s, acts, 3), acts[3]).Some?
            && At(cfg, s, acts, 1).db > Served(At(cfg, s, acts, 3), acts[3]).value.version
  {
    assert EntryInv(cfg, s, r);
    var s1 := Apply(cfg, s, Write);
    var s2 := Apply(cfg, s1, OnLink(PeerAnnounce(r)));
    var s3 := Apply(cfg, s2, OnLink(Connect));
    assert CanRun(cfg, Apply(cfg, s3, Cached(Hit, r)), []);
    assert [Cached(Hit, r)][1..] == [] && CanRun(cfg, s3, [Cached(Hit, r)]);
    hide CanRun, Apply, Enabled;
    StepFirst(cfg, s2, OnLink(Connect), [Cached(Hit, r)]);
    StepFirst(cfg, s1, OnLink(PeerAnnounce(r)), [OnLink(Connect)] + [Cached(Hit, r)]);
    StepFirst(cfg, s, Write, [OnLink(PeerAnnounce(r))] + ([OnLink(Connect)] + [Cached(Hit, r)]));
  }

  /** And such an entry is there after the first load: the run from the start. */
  lemma StaleAfterFirstConnect(cfg: Config, r: Registry)
    requires cfg.ttl > 0
    ensures var acts := FirstLoad(r) + MissedChange(r);
            && CanRun(cfg, Start(), acts) && Settled(At(cfg, Start(), acts, 7).link)
            && Served(At(cfg, Start(), acts, 7), acts[7]).Some?
            && At(cfg, Start(), acts, 5).db > Served(At(cfg, Start(), acts, 7), acts[7]).value.version
  {
    var s1 := Apply(cfg, Start(), FlipMode(Memory));
    FirstLoadRuns(cfg, r, s1);
    var s2 := Apply(cfg, s1, Cached(Begin(false), r));
    var s3 := Apply(cfg, s2, Cached(Read, r));
    var s4 := Apply(cfg, s3, Cached(Finish, r));
    StartInv(cfg);
    StepKeepsInv(cfg, Start(), FlipMode(Memory));
    StepKeepsInv(cfg, s1, Cached(Begin(false), r));
    StepKeepsInv(cfg, s2, Cached(Read, r));
    StepKeepsInv(cfg, s3, Cached(Finish, r));
    FirstConnectCatchesNothingUp(cfg, s4, r);
    hide CanRun, Apply, Enabled, MissedChange, Inv;
    var m := MissedChange(r);
    StepFirst(cfg, s3, Cached(Finish, r), m);
    StepFirst(cfg, s2, Cached(Read, r), [Cached(Finish, r)] + m);
    StepFirst(cfg, s1, Cached(Begin(false), r), [Cached(Read, r)] + ([Cached(Finish, r)] + m));
    StepFirst(cfg, Start(), FlipMode(Memory), [Cached(Begin(false), r)] + ([Cached(Read, r)] + ([Cached(Finish, r)] + m)));
    var acts := FirstLoad(r) + m;
    assert acts == [FlipMode(Memory)] + ([Cached(Begin(false), r)] + ([Cached(Read, r)] + ([Cached(Finish, r)] + m)));
    assert |m| == 4 ==> At(cfg, Start(), acts, 4 + 3) == At(cfg, s4, m, 3);
  }

  lemma FirstLoadRuns(cfg: Config, r: Registry, s1: Sys)
    requires cfg.ttl > 0 && s1 == Apply(cfg, Start(), FlipMode(Memory))
    ensures Enabled(cfg, s1, Cached(Begin(false), r))
    ensures var s2 := Apply(cfg, s1, Cached(Begin(false), r));
            && Enabled(cfg, s2, Cached(Read, r))
            && var s3 := Apply(cfg, s2, Cached(Read, r));
               && Enabled(cfg, s3, Cached(Finish, r))
               && var s4 := Apply(cfg, s3, Cached(Finish, r));
                  Enabled(cfg, s4, Cached(Hit, r)) && s4.link == Start().link
  {
    EveryRegistry(r);
  }
}

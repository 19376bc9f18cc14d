/**
 The workflow-config cache (modules/ltconfig.ts): a map kept for TTL_MS, one
 shared load, and an `invalidate` that forgets both. The methods of the class
 are the synchronous pieces of the source; everything between two of them may
 interleave, which the step system below spells out.
 */
module ConfigCache {
  import opened Basics

  /** A table's rows, grouped by workflow type. */
  type Rows = map<string, seq<string>>

  datatype Table = Workflows | Roles | InvocationRoles

  const TABLES: set<Table> := {Workflows, Roles, InvocationRoles}

  datatype Database = Database(workflows: Rows, roles: Rows, invocationRoles: Rows) {
    function In(table: Table): Rows {
      match table
      case Workflows => workflows
      case Roles => roles
      case InvocationRoles => invocationRoles
    }
  }

  /** A workflow's settings, its roles, and the roles that may invoke it. */
  datatype Config = Config(settings: seq<string>, roles: seq<string>, invocationRoles: seq<string>)

  type Configs = map<string, Config>

  function RowsOf(rows: Rows, workflowType: string): seq<string> {
    if workflowType in rows then rows[workflowType] else []
  }

  /** The map built from the three tables: one config for each workflow, with what the other two have for it. */
  function Assemble(workflows: Rows, roles: Rows, invocationRoles: Rows): Configs {
    map w | w in workflows :: Config(workflows[w], RowsOf(roles, w), RowsOf(invocationRoles, w))
  }

  /** The map has, for each workflow and nothing else, its row, its roles, and the roles that may invoke it. */
  ghost predicate BuiltFrom(configs: Configs, workflows: Rows, roles: Rows, invocationRoles: Rows) {
    && (forall w :: w in configs <==> w in workflows)
    && forall w :: w in configs ==>
         && configs[w].settings == workflows[w]
         && configs[w].roles == (if w in roles then roles[w] else [])
         && configs[w].invocationRoles == (if w in invocationRoles then invocationRoles[w] else [])
  }

  lemma AssembleBuilds(workflows: Rows, roles: Rows, invocationRoles: Rows)
    ensures BuiltFrom(Assemble(workflows, roles, invocationRoles), workflows, roles, invocationRoles)
  {
  }

  /** The map is the one this state of the database has. */
  ghost predicate IsMapOf(configs: Configs, db: Database) {
    BuiltFrom(configs, db.workflows, db.roles, db.invocationRoles)
  }

  type LoadId = nat
  type ReadId = nat

  /** One query's answer: a table's rows, the state of the database they are from, and when. */
  datatype Read = Read(rows: Rows, version: nat, at: int)

  /** A map one load fetched: which load, when it began, and its three queries' answers. */
  datatype Loaded = Loaded(configs: Configs, load: LoadId, begun: int, answers: map<Table, Read>)

  /** The three fields of the cache. */
  datatype Fields = Fields(configs: Option<Loaded>, loadedAt: int, loadPromise: Option<LoadId>)

  const EMPTY := Fields(None, 0, None)

  /** What a caller gets: the kept map, or a load to wait for. */
  datatype Answer = Kept(what: Loaded) | Await(load: LoadId)

  predicate Fresh(f: Fields, now: int, ttl: int) {
    f.configs.Some? && now - f.loadedAt < ttl
  }

  /** Answer one caller; `next` is the id a load started here would get. */
  function Ask(f: Fields, now: int, ttl: int, next: LoadId): (Fields, Answer) {
    if Fresh(f, now, ttl) then (f, Kept(f.configs.value))
    else if f.loadPromise.Some? then (f, Await(f.loadPromise.value))
    else (f.(loadPromise := Some(next)), Await(next))
  }

  /** What a load's `then` leaves behind. */
  function Keep(f: Fields, what: Loaded, now: int): Fields {
    f.(configs := Some(what), loadedAt := now)
  }

  /** What a load's `finally` leaves behind. */
  function Settle(f: Fields): Fields {
    f.(loadPromise := None)
  }

  class LTConfigCache {
    const ttl: int
    var configs: Option<Loaded>
    var loadedAt: int
    var loadPromise: Option<LoadId>

    function State(): Fields
      reads this
    {
      Fields(configs, loadedAt, loadPromise)
    }

    constructor (ttl: int)
      ensures this.ttl == ttl && State() == EMPTY
    {
      this.ttl := ttl;
      configs, loadedAt, loadPromise := None, 0, None;
    }

    method EnsureLoaded(now: int, next: LoadId) returns (answer: Answer)
      modifies this
      ensures (State(), answer) == Ask(old(State()), now, ttl, next)
    {
      if configs.Some? && now - loadedAt < ttl {
        return Kept(configs.value);
      }
      if loadPromise.None? {
        loadPromise := Some(next);
      }
      return Await(loadPromise.value);
    }

    /** The `then` callback of a load, whichever load the cache now waits for. */
    method OnLoaded(what: Loaded, now: int)
      modifies this
      ensures State() == Keep(old(State()), what, now)
    {
      configs := Some(what);
      loadedAt := now;
    }

    /** The `finally` callback of a load, whichever load the cache now waits for. */
    method OnSettled()
      modifies this
      ensures State() == Settle(old(State()))
    {
      loadPromise := None;
    }

    method Invalidate()
      modifies this
      ensures State() == EMPTY
    {
      configs := None;
      loadedAt := 0;
      loadPromise := None;
    }
  }

  // ── Interleaved steps ──────────────────────────────────────────────────────

  /**
   A load has some of its three queries answered, or has run its `then` (or
   failed) with its `finally` still to come.
   */
  datatype Phase = Reading(answers: map<Table, Read>) | Settled(outcome: Option<Loaded>)

  datatype Load = Load(begun: int, phase: Phase)

  datatype Served = Served(what: Loaded, at: int, kept: bool)

  /** A state of the database and the time it came to be. */
  datatype Version = Version(db: Database, since: int)

  datatype System = System(
    cache: Fields,
    now: int,
    history: seq<Version>,
    loads: map<LoadId, Load>,
    begun: seq<int>,
    waiting: map<ReadId, LoadId>,
    served: map<ReadId, Served>,
    asked: nat,
    invalidations: nat)
  {
    /** The loads begun so far are numbered in order; this is the next number. */
    function NextLoad(): LoadId {
      |begun|
    }
  }

  function Start(db: Database, now: int): System {
    System(EMPTY, now, [Version(db, now)], map[], [], map[], map[], 0, 0)
  }

  datatype Step =
    | Tick(ms: nat)
    | Write(db: Database)
    | Access
    | Fetch(load: LoadId, table: Table)
    | Succeed(load: LoadId)
    | Fail(load: LoadId)
    | Finally(load: LoadId)
    | Invalidate

  predicate Enabled(s: System, step: Step) {
    match step
    case Fetch(l, table) => l in s.loads && s.loads[l].phase.Reading? && table !in s.loads[l].phase.answers
    case Succeed(l) => l in s.loads && s.loads[l].phase.Reading? && s.loads[l].phase.answers.Keys == TABLES
    case Fail(l) => l in s.loads && !s.loads[l].phase.Settled?
    case Finally(l) => l in s.loads && s.loads[l].phase.Settled?
    case _ => s.history != []
  }

  /** What a load whose queries are all answered comes to. */
  function ResultOf(l: LoadId, load: Load): Loaded
    requires load.phase.Reading? && load.phase.answers.Keys == TABLES
  {
    var answers := load.phase.answers;
    var configs := Assemble(answers[Workflows].rows, answers[Roles].rows, answers[InvocationRoles].rows);
    Loaded(configs, l, load.begun, answers)
  }

  function Apply(s: System, step: Step, ttl: int): System
    requires Enabled(s, step) && s.history != []
  {
    match step
    case Tick(ms) => s.(now := s.now + ms)
    case Write(db) => s.(history := s.history + [Version(db, s.now)])
    case Access =>
      var (cache, answer) := Ask(s.cache, s.now, ttl, s.NextLoad());
      var s' := s.(cache := cache, asked := s.asked + 1);
      (match answer
       case Kept(what) => s'.(served := s.served[s.asked := Served(what, s.now, true)])
       case Await(l) =>
         var s'' := s'.(waiting := s.waiting[s.asked := l]);
         if s.cache.loadPromise.Some? then s''
         else s''.(loads := s.loads[l := Load(s.now, Reading(map[]))], begun := s.begun + [s.now]))
    case Fetch(l, table) =>
      var v := |s.history| - 1;
      var read := Read(s.history[v].db.In(table), v, s.now);
      s.(loads := s.loads[l := s.loads[l].(phase := Reading(s.loads[l].phase.answers[table := read]))])
    case Succeed(l) =>
      var what := ResultOf(l, s.loads[l]);
      s.(cache := Keep(s.cache, what, s.now), loads := s.loads[l := s.loads[l].(phase := Settled(Some(what)))])
    case Fail(l) => s.(loads := s.loads[l := s.loads[l].(phase := Settled(None))])
    case Finally(l) =>
      var got := set r | r in s.waiting && s.waiting[r] == l;
      var outcome := s.loads[l].phase.outcome;
      var answered := if outcome.None? then map[] else map r | r in got :: Served(outcome.value, s.now, false);
      s.(cache := Settle(s.cache), loads := s.loads - {l}, waiting := s.waiting - got, served := s.served + answered)
    case Invalidate => s.(cache := EMPTY, invalidations := s.invalidations + 1)
  }

  ghost predicate Runs(s: System, steps: seq<Step>, ttl: int)
    decreases |steps|
  {
    s.history != [] && (steps == [] || (Enabled(s, steps[0]) && Runs(Apply(s, steps[0], ttl), steps[1..], ttl)))
  }

  ghost function After(s: System, steps: seq<Step>, ttl: int): System
    requires Runs(s, steps, ttl)
    decreases |steps|
  {
    if steps == [] then s else After(Apply(s, steps[0], ttl), steps[1..], ttl)
  }

  /** No load in flight has taken longer than `limit`. */
  ghost predicate Timely(s: System, limit: int) {
    forall l :: l in s.loads ==> s.now - s.loads[l].begun <= limit
  }

  ghost predicate TimelyRun(s: System, steps: seq<Step>, ttl: int, limit: int)
    requires Runs(s, steps, ttl)
    decreases |steps|
  {
    Timely(s, limit) && (steps != [] ==> TimelyRun(Apply(s, steps[0], ttl), steps[1..], ttl, limit))
  }

  /** One step more at the end of a run. */
  lemma {:induction false} Extend(s: System, steps: seq<Step>, step: Step, ttl: int)
    requires Runs(s, steps, ttl) && Enabled(After(s, steps, ttl), step)
    ensures After(s, steps, ttl).history != []
    ensures Runs(s, steps + [step], ttl) && After(s, steps + [step], ttl) == Apply(After(s, steps, ttl), step, ttl)
    ensures forall limit :: TimelyRun(s, steps, ttl, limit) && Timely(After(s, steps + [step], ttl), limit)
              ==> TimelyRun(s, steps + [step], ttl, limit)
    decreases |steps|
  {
    var more := steps + [step];
    if steps == [] {
      assert more[1..] == [] && more[0] == step;
    } else {
      assert more[1..] == steps[1..] + [step];
      Extend(Apply(s, steps[0], ttl), steps[1..], step, ttl);
    }
  }

  // ── How many loads can be in flight ────────────────────────────────────────

  /** Loads in flight the cache no longer waits for. */
  function Orphans(s: System): set<LoadId> {
    if s.cache.loadPromise.Some? then s.loads.Keys - {s.cache.loadPromise.value} else s.loads.Keys
  }

  ghost predicate Counted(s: System) {
    && s.history != []
    && (s.cache.loadPromise.Some? ==> s.cache.loadPromise.value in s.loads)
    && (forall l :: l in s.loads ==> l < s.NextLoad())
    && |Orphans(s)| <= s.invalidations
  }

  lemma CountedStep(s: System, step: Step, ttl: int)
    requires Counted(s) && Enabled(s, step)
    ensures Counted(Apply(s, step, ttl))
  {
    hide Counted;
    match step
    case Access => CountedAccess(s, ttl);
    case Finally(l) => CountedFinally(s, l, ttl);
    case Invalidate => CountedInvalidate(s, ttl);
    case _ => CountedElse(s, step, ttl);
  }

  lemma CountedElse(s: System, step: Step, ttl: int)
    requires Counted(s) && Enabled(s, step) && !step.Access? && !step.Finally? && !step.Invalidate?
    ensures Counted(Apply(s, step, ttl))
  {
    hide Apply;
    SameLoads(s, step, ttl);
  }

  lemma SameLoads(s: System, step: Step, ttl: int)
    requires s.history != [] && Enabled(s, step) && !step.Access? && !step.Finally? && !step.Invalidate?
    ensures var s' := Apply(s, step, ttl);
      && s'.history != [] && s'.loads.Keys == s.loads.Keys && s'.cache.loadPromise == s.cache.loadPromise
      && s'.begun == s.begun && s'.invalidations == s.invalidations
  {
    hide ResultOf;
  }

  /** A load is started only when none is awaited. */
  lemma AccessStarts(s: System, ttl: int)
    requires s.history != []
    ensures var s' := Apply(s, Access, ttl);
      && s'.history == s.history && s'.invalidations == s.invalidations
      && if Fresh(s.cache, s.now, ttl) || s.cache.loadPromise.Some?
         then s'.loads == s.loads && s'.cache == s.cache && s'.begun == s.begun
         else s'.loads == s.loads[s.NextLoad() := Load(s.now, Reading(map[]))] && s'.begun == s.begun + [s.now]
              && s'.cache.loadPromise == Some(s.NextLoad())
  {
  }

  /** A load that is started is then awaited. */
  lemma CountedAccess(s: System, ttl: int)
    requires Counted(s)
    ensures Counted(Apply(s, Access, ttl))
    ensures s.cache == EMPTY
        ==> s.NextLoad() !in s.loads && Apply(s, Access, ttl).loads.Keys == s.loads.Keys + {s.NextLoad()}
  {
    hide Apply, Orphans;
    AccessStarts(s, ttl);
    AccessOrphansNone(s, ttl);
  }

  lemma AccessOrphansNone(s: System, ttl: int)
    requires Counted(s)
    ensures Orphans(Apply(s, Access, ttl)) == Orphans(s)
  {
    hide Apply;
    AccessStarts(s, ttl);
    if !Fresh(s.cache, s.now, ttl) && s.cache.loadPromise.None? {
      assert s.NextLoad() !in s.loads;
    }
  }

  /** An orphan's `finally` may orphan the awaited load, but is itself gone. */
  lemma CountedFinally(s: System, l: LoadId, ttl: int)
    requires Counted(s) && Enabled(s, Finally(l))
    ensures Counted(Apply(s, Finally(l), ttl))
  {
    var a, b := Orphans(s), Orphans(Apply(s, Finally(l), ttl));
    if s.cache.loadPromise == Some(l) {
      assert b == a;
    } else if s.cache.loadPromise.Some? {
      assert b == a - {l} + {s.cache.loadPromise.value};
    } else {
      assert b == a - {l};
    }
  }

  /** An invalidation orphans the awaited load. */
  lemma CountedInvalidate(s: System, ttl: int)
    requires Counted(s)
    ensures Counted(Apply(s, Invalidate, ttl))
  {
  }

  /**
   In every run, loads in flight never exceed one plus the invalidations so
   far; so there is one at most without any.
   */
  lemma {:induction false} InFlightBound(s: System, steps: seq<Step>, ttl: int)
    requires Counted(s) && Runs(s, steps, ttl)
    ensures Counted(After(s, steps, ttl))
    ensures |After(s, steps, ttl).loads| <= 1 + After(s, steps, ttl).invalidations
    decreases |steps|
  {
    if steps == [] {
      if s.cache.loadPromise.Some? {
        assert s.loads.Keys == Orphans(s) + {s.cache.loadPromise.value};
      }
      assert |s.loads| == |s.loads.Keys|;
    } else {
      CountedStep(s, steps[0], ttl);
      InFlightBound(Apply(s, steps[0], ttl), steps[1..], ttl);
    }
  }

  /** The bound is reached: n invalidations can leave n + 1 loads in flight. */
  lemma {:induction false} InFlightBoundReached(s: System, n: nat, ttl: int) returns (steps: seq<Step>)
    requires Counted(s) && s.cache == EMPTY
    ensures Runs(s, steps, ttl)
    ensures After(s, steps, ttl).invalidations == s.invalidations + n
    ensures |After(s, steps, ttl).loads| == |s.loads| + n + 1
    decreases n
  {
    var s' := StartsLoad(s, ttl);
    if n == 0 {
      steps := [Access];
      assert steps[1..] == [];
      assert After(s, steps, ttl) == After(s', [], ttl);
    } else {
      CountedInvalidate(s', ttl);
      var s'' := Apply(s', Invalidate, ttl);
      var rest := InFlightBoundReached(s'', n - 1, ttl);
      steps := [Access, Invalidate] + rest;
      TwoStepsMore(s, Access, Invalidate, rest, ttl);
    }
  }

  lemma StartsLoad(s: System, ttl: int) returns (s': System)
    requires Counted(s) && s.cache == EMPTY
    ensures s' == Apply(s, Access, ttl) && Counted(s') && s'.invalidations == s.invalidations
        && |s'.loads| == |s.loads| + 1
  {
    CountedAccess(s, ttl);
    s' := Apply(s, Access, ttl);
    assert |s'.loads| == |s'.loads.Keys| && |s.loads| == |s.loads.Keys|;
  }

  lemma TwoStepsMore(s: System, one: Step, two: Step, rest: seq<Step>, ttl: int)
    requires s.history != [] && Enabled(s, one)
    requires var s' := Apply(s, one, ttl); s'.history != [] && Enabled(s', two) && Runs(Apply(s', two, ttl), rest, ttl)
    ensures Runs(s, [one, two] + rest, ttl)
    ensures After(s, [one, two] + rest, ttl) == After(Apply(Apply(s, one, ttl), two, ttl), rest, ttl)
  {
  }

  // ── What is served ─────────────────────────────────────────────────────────

  /** The database had these rows in the table at a moment of the load that read them. */
  ghost predicate GenuineRead(s: System, table: Table, read: Read, begun: int, until: int) {
    && begun <= read.at <= until
    && read.version < |s.history| && s.history[read.version].db.In(table) == read.rows
    && s.history[read.version].since <= read.at
    && (read.version + 1 < |s.history| ==> read.at <= s.history[read.version + 1].since)
  }

  /** `what` is the result of one load that ran, each table as the database had it at a moment of that load. */
  ghost predicate Genuine(s: System, what: Loaded, until: int) {
    && what.load < |s.begun| && s.begun[what.load] == what.begun && what.answers.Keys == TABLES
    && BuiltFrom(what.configs, what.answers[Workflows].rows, what.answers[Roles].rows,
                 what.answers[InvocationRoles].rows)
    && forall table :: table in TABLES ==> GenuineRead(s, table, what.answers[table], what.begun, until)
  }

  /** What a load in flight has come to, if it has. */
  function Result(load: Load): Option<Loaded> {
    match load.phase
    case Reading(_) => None
    case Settled(outcome) => outcome
  }

  ghost predicate SoundLoad(s: System, l: LoadId)
    requires l in s.loads
  {
    && l < |s.begun| && s.loads[l].begun == s.begun[l] <= s.now
    && (s.loads[l].phase.Reading? ==>
          var answers := s.loads[l].phase.answers;
          forall table :: table in answers ==> GenuineRead(s, table, answers[table], s.begun[l], s.now))
    && (Result(s.loads[l]).Some? ==> Genuine(s, Result(s.loads[l]).value, s.now) && Result(s.loads[l]).value.load == l)
  }

  ghost predicate Sound(s: System) {
    && s.history != [] && s.history[|s.history| - 1].since <= s.now && 0 <= s.now
    && (forall l :: l in s.loads ==> SoundLoad(s, l))
    && (forall r :: r in s.waiting ==> r < s.asked)
    && (s.cache.configs.Some? ==> Genuine(s, s.cache.configs.value, s.cache.loadedAt) && s.cache.loadedAt <= s.now)
    && (forall r :: r in s.served
          ==> r < s.asked && Genuine(s, s.served[r].what, s.served[r].at) && s.served[r].at <= s.now)
  }

  /** The database's past and the loads' past are only added to, and time only passes. */
  ghost predicate Later(s: System, s': System) {
    && s.history != [] && s.history[|s.history| - 1].since <= s.now <= s'.now && s.begun <= s'.begun
    && (s'.history == s.history || exists db :: s'.history == s.history + [Version(db, s.now)])
  }

  /** So what was genuine stays genuine. */
  lemma StaysGenuine(s: System, s': System)
    requires Later(s, s')
    ensures CarriesOver(s, s')
  {
    forall table, read, begun, until | GenuineRead(s, table, read, begun, until) && until <= s.now
      ensures GenuineRead(s', table, read, begun, until)
    {
    }
  }

  lemma StepIsLater(s: System, step: Step, ttl: int)
    requires Sound(s) && Enabled(s, step)
    ensures Later(s, Apply(s, step, ttl))
  {
    hide Apply, SoundLoad, Genuine;
    if step.Access? {
      AccessPast(s, ttl);
    } else {
      StepPast(s, step, ttl);
    }
  }

  lemma AccessPast(s: System, ttl: int)
    requires s.history != []
    ensures var s' := Apply(s, Access, ttl);
      s'.history == s.history && s'.now == s.now && s.begun <= s'.begun
  {
  }

  lemma StepPast(s: System, step: Step, ttl: int)
    requires s.history != [] && Enabled(s, step) && !step.Access?
    ensures var s' := Apply(s, step, ttl);
      && s'.begun == s.begun && s.now <= s'.now
      && s'.history == if step.Write? then s.history + [Version(step.db, s.now)] else s.history
  {
    hide ResultOf;
  }

  lemma SoundStep(s: System, step: Step, ttl: int)
    requires Sound(s) && Enabled(s, step)
    ensures Sound(Apply(s, step, ttl))
  {
    StepIsLater(s, step, ttl);
    StaysGenuine(s, Apply(s, step, ttl));
    match step
    case Access => SoundAccess(s, ttl);
    case Fetch(l, table) => SoundFetch(s, l, table, ttl);
    case Succeed(l) => SoundSettle(s, step, l, ttl);
    case Fail(l) => SoundSettle(s, step, l, ttl);
    case Finally(l) => SoundFinally(s, l, ttl);
    case _ => SoundElse(s, step, ttl);
  }

  /** What carries over from a sound state: everything but what the step itself touches. */
  ghost predicate CarriesOver(s: System, s': System) {
    && Later(s, s')
    && (forall table, read, begun, until :: GenuineRead(s, table, read, begun, until) && until <= s.now
          ==> GenuineRead(s', table, read, begun, until))
    && (forall what, until :: Genuine(s, what, until) && until <= s.now ==> Genuine(s', what, until))
  }

  lemma SoundElse(s: System, step: Step, ttl: int)
    requires Sound(s) && Enabled(s, step) && CarriesOver(s, Apply(s, step, ttl))
    requires step.Tick? || step.Write? || step.Invalidate?
    ensures Sound(Apply(s, step, ttl))
  {
  }

  lemma SoundAccess(s: System, ttl: int)
    requires Sound(s) && CarriesOver(s, Apply(s, Access, ttl))
    ensures Sound(Apply(s, Access, ttl))
  {
    hide Genuine, GenuineRead;
    var s' := Apply(s, Access, ttl);
    forall l | l in s'.loads ensures SoundLoad(s', l) {
      assert l in s.loads ==> SoundLoad(s, l);
    }
    SoundReads(s, ttl);
  }

  lemma SoundReads(s: System, ttl: int)
    requires Sound(s) && CarriesOver(s, Apply(s, Access, ttl))
    ensures var s' := Apply(s, Access, ttl);
      && (forall r :: r in s'.waiting ==> r < s'.asked)
      && (forall r :: r in s'.served
            ==> r < s'.asked && Genuine(s', s'.served[r].what, s'.served[r].at) && s'.served[r].at <= s'.now)
  {
    hide Genuine, GenuineRead;
    if Fresh(s.cache, s.now, ttl) {
      GenuineLater(s, s.cache.configs.value, s.cache.loadedAt, s.now);
    }
  }

  lemma GenuineLater(s: System, what: Loaded, until: int, later: int)
    requires Genuine(s, what, until) && until <= later
    ensures Genuine(s, what, later)
  {
    assert forall t :: t in TABLES ==> GenuineRead(s, t, what.answers[t], what.begun, until);
  }

  lemma SoundFetch(s: System, l: LoadId, table: Table, ttl: int)
    requires Sound(s) && Enabled(s, Fetch(l, table)) && CarriesOver(s, Apply(s, Fetch(l, table), ttl))
    ensures Sound(Apply(s, Fetch(l, table), ttl))
  {
    var s' := Apply(s, Fetch(l, table), ttl);
    assert SoundLoad(s, l);
    forall m | m in s'.loads ensures SoundLoad(s', m) {
      assert SoundLoad(s, m);
    }
  }

  lemma ResultIsGenuine(s: System, l: LoadId)
    requires Sound(s) && Enabled(s, Succeed(l))
    ensures Genuine(s, ResultOf(l, s.loads[l]), s.now)
  {
    assert SoundLoad(s, l);
    var answers := s.loads[l].phase.answers;
    AssembleBuilds(answers[Workflows].rows, answers[Roles].rows, answers[InvocationRoles].rows);
  }

  lemma SoundSettle(s: System, step: Step, l: LoadId, ttl: int)
    requires Sound(s) && Enabled(s, step) && CarriesOver(s, Apply(s, step, ttl))
    requires step == Succeed(l) || step == Fail(l)
    ensures Sound(Apply(s, step, ttl))
  {
    hide Genuine, GenuineRead, ResultOf;
    var s' := Apply(s, step, ttl);
    assert SoundLoad(s, l);
    if step.Succeed? {
      ResultIsGenuine(s, l);
      assert ResultOf(l, s.loads[l]).load == l by {
        ResultIsOwn(l, s.loads[l]);
      }
    }
    forall m | m in s'.loads ensures SoundLoad(s', m) {
      assert SoundLoad(s, m);
    }
  }

  lemma ResultIsOwn(l: LoadId, load: Load)
    requires load.phase.Reading? && load.phase.answers.Keys == TABLES
    ensures ResultOf(l, load).load == l
  {
  }

  lemma SoundFinally(s: System, l: LoadId, ttl: int)
    requires Sound(s) && Enabled(s, Finally(l)) && CarriesOver(s, Apply(s, Finally(l), ttl))
    ensures Sound(Apply(s, Finally(l), ttl))
  {
    hide Genuine, GenuineRead;
    var s' := Apply(s, Finally(l), ttl);
    assert SoundLoad(s, l);
    forall m | m in s'.loads ensures SoundLoad(s', m) {
      assert SoundLoad(s, m);
    }
  }

  /** In every run, invalidations racing loads included, each map served is the result of one real earlier load. */
  lemma {:induction false} ServedIsGenuine(s: System, steps: seq<Step>, ttl: int)
    requires Sound(s) && Runs(s, steps, ttl)
    ensures Sound(After(s, steps, ttl))
    ensures var t := After(s, steps, ttl);
      forall r :: r in t.served ==> Genuine(t, t.served[r].what, t.served[r].at)
    decreases |steps|
  {
    if steps != [] {
      SoundStep(s, steps[0], ttl);
      ServedIsGenuine(Apply(s, steps[0], ttl), steps[1..], ttl);
    }
  }

  // ── Who is answered by what ────────────────────────────────────────────────

  /** A read is answered from a young map, or waits for the load in flight, or for one it starts. */
  lemma AccessAnswers(s: System, ttl: int)
    requires s.history != []
    ensures var s', r := Apply(s, Access, ttl), s.asked;
      if s.cache.configs.Some? && s.now - s.cache.loadedAt < ttl then
        s' == s.(asked := r + 1, served := s.served[r := Served(s.cache.configs.value, s.now, true)])
      else if s.cache.loadPromise.Some? then
        s' == s.(asked := r + 1, waiting := s.waiting[r := s.cache.loadPromise.value])
      else
        s' == s.(asked := r + 1, waiting := s.waiting[r := |s.begun|],
                 loads := s.loads[|s.begun| := Load(s.now, Reading(map[]))], begun := s.begun + [s.now],
                 cache := Fields(s.cache.configs, s.cache.loadedAt, Some(|s.begun|)))
  {
  }

  /**
   A load's `finally` answers the reads waiting for it, with what it came to if
   it came to anything, and no others.
   */
  lemma FinallyAnswers(s: System, l: LoadId, ttl: int)
    requires s.history != [] && Enabled(s, Finally(l))
    ensures var s', outcome := Apply(s, Finally(l), ttl), s.loads[l].phase.outcome;
      && (forall r :: r in s'.waiting <==> r in s.waiting && s.waiting[r] != l)
      && (forall r :: r in s'.waiting ==> s'.waiting[r] == s.waiting[r])
      && (forall r :: r in s'.served <==> r in s.served || (outcome.Some? && r in s.waiting && s.waiting[r] == l))
      && (forall r :: r in s'.served ==>
            s'.served[r] == if outcome.Some? && r in s.waiting && s.waiting[r] == l
                            then Served(outcome.value, s.now, false) else s.served[r])
      && (forall m :: m in s'.loads <==> m in s.loads && m != l)
      && (forall m :: m in s'.loads ==> s'.loads[m] == s.loads[m])
      && s'.cache == Fields(s.cache.configs, s.cache.loadedAt, None)
  {
  }

  /** The read waits for this load, or was answered by it, or gave up with it. */
  ghost predicate AnsweredBy(s: System, r: ReadId, l: LoadId) {
    && s.history != [] && r < s.asked
    && (forall m :: m in s.loads && Result(s.loads[m]).Some? ==> Result(s.loads[m]).value.load == m)
    && (r in s.waiting ==> s.waiting[r] == l && r !in s.served)
    && (r in s.served ==> s.served[r].what.load == l && !s.served[r].kept)
  }

  /** In every run, a read that waits for a load is answered by that very load, if at all. */
  lemma {:induction false} AnsweredByItsLoad(s: System, steps: seq<Step>, r: ReadId, l: LoadId, ttl: int)
    requires AnsweredBy(s, r, l) && Runs(s, steps, ttl)
    ensures AnsweredBy(After(s, steps, ttl), r, l)
    decreases |steps|
  {
    if steps != [] {
      AnsweredByStep(s, steps[0], r, l, ttl);
      AnsweredByItsLoad(Apply(s, steps[0], ttl), steps[1..], r, l, ttl);
    }
  }

  lemma AnsweredByStep(s: System, step: Step, r: ReadId, l: LoadId, ttl: int)
    requires AnsweredBy(s, r, l) && Enabled(s, step)
    ensures AnsweredBy(Apply(s, step, ttl), r, l)
  {
    match step
    case Access => AccessAnswers(s, ttl);
    case Finally(m) => FinallyAnswers(s, m, ttl);
    case _ =>
  }

  // ── Whether it is one state of the database ────────────────────────────────

  /** The three queries were answered from the same state. */
  ghost predicate OneVersion(what: Loaded)
    requires what.answers.Keys == TABLES
  {
    forall t, u :: t in TABLES && u in TABLES ==> what.answers[t].version == what.answers[u].version
  }

  /** The three tables as state `v` has them. */
  ghost predicate FromState(s: System, what: Loaded, v: nat)
    requires what.answers.Keys == TABLES
  {
    v < |s.history| && forall t :: t in TABLES ==> what.answers[t].rows == s.history[v].db.In(t)
  }

  /**
   A map read from one state is that state's map. Where every write leaves
   every table different from all it was before, only such a map can be: the
   tables are all some state's exactly when they were read from one.
   */
  lemma WholeExactly(s: System, what: Loaded, until: int)
    requires Genuine(s, what, until)
    ensures OneVersion(what) ==> FromState(s, what, what.answers[Workflows].version)
    ensures forall v: nat :: FromState(s, what, v) ==> IsMapOf(what.configs, s.history[v].db)
    ensures (forall i, j, t :: 0 <= i < j < |s.history| && t in TABLES
               ==> s.history[i].db.In(t) != s.history[j].db.In(t))
            ==> ((exists v: nat :: FromState(s, what, v)) <==> OneVersion(what))
  {
    hide BuiltFrom;
    assert forall t :: t in TABLES ==> GenuineRead(s, t, what.answers[t], what.begun, until);
    assert Workflows in TABLES && Roles in TABLES && InvocationRoles in TABLES;
  }

  function Writes(steps: seq<Step>): nat {
    if steps == [] then 0 else (if steps[0].Write? then 1 else 0) + Writes(steps[1..])
  }

  lemma {:induction false} HistoryGrows(s: System, steps: seq<Step>, ttl: int)
    requires Runs(s, steps, ttl)
    ensures |After(s, steps, ttl).history| == |s.history| + Writes(steps)
    decreases |steps|
  {
    if steps != [] {
      HistoryGrows(Apply(s, steps[0], ttl), steps[1..], ttl);
    }
  }

  lemma {:induction false} NoWrites(steps: seq<Step>)
    ensures Writes(steps) == 0 <==> forall step :: step in steps ==> !step.Write?
  {
    if steps != [] {
      NoWrites(steps[1..]);
      assert steps == [steps[0]] + steps[1..];
    }
  }

  /** The load has this answer for the table, as long as it is reading. */
  ghost predicate HasAnswer(s: System, l: LoadId, table: Table, answer: Read) {
    && s.history != [] && l < s.NextLoad()
    && (l in s.loads && s.loads[l].phase.Reading? ==>
          table in s.loads[l].phase.answers && s.loads[l].phase.answers[table] == answer)
  }

  lemma {:induction false} AnswerStays(s: System, steps: seq<Step>, ttl: int, l: LoadId, table: Table, answer: Read)
    requires Runs(s, steps, ttl) && HasAnswer(s, l, table, answer)
    ensures HasAnswer(After(s, steps, ttl), l, table, answer)
    decreases |steps|
  {
    if steps != [] {
      assert HasAnswer(Apply(s, steps[0], ttl), l, table, answer);
      AnswerStays(Apply(s, steps[0], ttl), steps[1..], ttl, l, table, answer);
    }
  }

  /** Two queries of a load are answered from one state exactly when no write falls between them. */
  lemma OneStateExactly(s: System, l: LoadId, one: Table, mid: seq<Step>, two: Table, ttl: int)
    requires Counted(s) && Enabled(s, Fetch(l, one)) && Runs(Apply(s, Fetch(l, one), ttl), mid, ttl)
    requires Enabled(After(Apply(s, Fetch(l, one), ttl), mid, ttl), Fetch(l, two))
    requires After(Apply(s, Fetch(l, one), ttl), mid, ttl).history != []
    ensures var t := Apply(After(Apply(s, Fetch(l, one), ttl), mid, ttl), Fetch(l, two), ttl);
      var answers := t.loads[l].phase.answers;
      && one in answers && two in answers
      && (answers[one].version == answers[two].version <==> forall step :: step in mid ==> !step.Write?)
  {
    var s' := Apply(s, Fetch(l, one), ttl);
    AnswerStays(s', mid, ttl, l, one, s'.loads[l].phase.answers[one]);
    HistoryGrows(s', mid, ttl);
    NoWrites(mid);
  }

  /** A load's three queries, with whatever falls between them. */
  datatype Queries = Queries(one: Table, between: seq<Step>, two: Table, beyond: seq<Step>, three: Table)

  /** From `s`, load `l` makes its queries in this order, ending in `t`. */
  ghost predicate Makes(s: System, l: LoadId, q: Queries, t: System, ttl: int) {
    && s.history != [] && Enabled(s, Fetch(l, q.one)) && s.loads[l].phase.answers == map[]
    && var a := Apply(s, Fetch(l, q.one), ttl);
    && Runs(a, q.between, ttl)
    && var b := After(a, q.between, ttl);
    && b.history != [] && Enabled(b, Fetch(l, q.two))
    && var c := Apply(b, Fetch(l, q.two), ttl);
    && Runs(c, q.beyond, ttl)
    && var d := After(c, q.beyond, ttl);
    && d.history != [] && Enabled(d, Fetch(l, q.three)) && t == Apply(d, Fetch(l, q.three), ttl)
  }

  /**
   What a load fetches is from one state of the database exactly when no write
   falls between its first query and its last.
   */
  lemma WholeLoadExactly(s: System, l: LoadId, q: Queries, t: System, ttl: int)
    requires Counted(s) && Makes(s, l, q, t, ttl) && {q.one, q.two, q.three} == TABLES
    ensures Enabled(t, Succeed(l))
    ensures OneVersion(ResultOf(l, t.loads[l]))
            <==> forall step :: step in q.between + q.beyond ==> !step.Write?
  {
    var a := Apply(s, Fetch(l, q.one), ttl);
    var b := After(a, q.between, ttl);
    var c := Apply(b, Fetch(l, q.two), ttl);
    var d := After(c, q.beyond, ttl);
    var first, second := a.loads[l].phase.answers[q.one], c.loads[l].phase.answers[q.two];
    AnswerStays(a, q.between, ttl, l, q.one, first);
    assert HasAnswer(c, l, q.one, first);
    AnswerStays(c, q.beyond, ttl, l, q.one, first);
    AnswerStays(c, q.beyond, ttl, l, q.two, second);
    HistoryGrows(a, q.between, ttl);
    HistoryGrows(c, q.beyond, ttl);
    NoWrites(q.between);
    NoWrites(q.beyond);
    AllTables(t.loads[l].phase.answers.Keys);
    SameVersions(t.loads[l], l, q);
  }

  lemma SameVersions(load: Load, l: LoadId, q: Queries)
    requires load.phase.Reading? && load.phase.answers.Keys == TABLES == {q.one, q.two, q.three}
    ensures var answers := load.phase.answers;
      OneVersion(ResultOf(l, load))
      <==> answers[q.one].version == answers[q.two].version == answers[q.three].version
  {
  }

  /** A write between the queries of a load makes it serve a mixed map. */
  lemma MixedMapServed(before: Database, after: Database, now: nat, ttl: int) returns (steps: seq<Step>)
    ensures Runs(Start(before, now), steps, ttl)
    ensures var t := After(Start(before, now), steps, ttl);
      && t.history == [Version(before, now), Version(after, now)]
      && 0 in t.served && BuiltFrom(t.served[0].what.configs, before.workflows, after.roles, after.invocationRoles)
  {
    hide Assemble, BuiltFrom;
    AssembleBuilds(before.workflows, after.roles, after.invocationRoles);
    steps := MixedAnswers(before, after, now, ttl);
    steps := Then(Start(before, now), steps, Succeed(0), ttl);
    steps := Then(Start(before, now), steps, Finally(0), ttl);
  }

  /** The first load is in flight with these answers, all within one moment. */
  function Loading(now: int, history: seq<Version>, answers: map<Table, Read>): System {
    var loads := map[0 := Load(now, Reading(answers))];
    System(Fields(None, 0, Some(0)), now, history, loads, [now], map[0 := 0], map[], 1, 0)
  }

  /** A run that has come to `t`, no load taking long. */
  ghost predicate Reaches(db: Database, now: nat, steps: seq<Step>, t: System, ttl: int, limit: int) {
    var s := Start(db, now);
    Runs(s, steps, ttl) && TimelyRun(s, steps, ttl, limit) && After(s, steps, ttl) == t
  }

  lemma LoadBegins(db: Database, now: nat, ttl: int, limit: nat) returns (steps: seq<Step>)
    ensures Reaches(db, now, steps, Loading(now, [Version(db, now)], map[]), ttl, limit)
  {
    steps := Then(Start(db, now), [], Access, ttl);
  }

  lemma QueryAnswered(db: Database, now: nat, history: seq<Version>, answers: map<Table, Read>, table: Table,
                      steps: seq<Step>, ttl: int, limit: nat) returns (more: seq<Step>)
    requires Reaches(db, now, steps, Loading(now, history, answers), ttl, limit) && history != [] && table !in answers
    ensures var read := Read(history[|history| - 1].db.In(table), |history| - 1, now);
      Reaches(db, now, more, Loading(now, history, answers[table := read]), ttl, limit)
  {
    more := Then(Start(db, now), steps, Fetch(0, table), ttl);
  }

  lemma Rewritten(db: Database, now: nat, history: seq<Version>, answers: map<Table, Read>, after: Database,
                  steps: seq<Step>, ttl: int, limit: nat) returns (more: seq<Step>)
    requires Reaches(db, now, steps, Loading(now, history, answers), ttl, limit) && history != []
    ensures Reaches(db, now, more, Loading(now, history + [Version(after, now)], answers), ttl, limit)
  {
    more := Then(Start(db, now), steps, Write(after), ttl);
  }

  lemma MixedAnswers(before: Database, after: Database, now: nat, ttl: int) returns (steps: seq<Step>)
    ensures var answers := map[Workflows := Read(before.workflows, 0, now), Roles := Read(after.roles, 1, now),
                               InvocationRoles := Read(after.invocationRoles, 1, now)];
      Reaches(before, now, steps, Loading(now, [Version(before, now), Version(after, now)], answers), ttl, 0)
  {
    hide Reaches, Loading;
    var one, two := [Version(before, now)], [Version(before, now), Version(after, now)];
    assert one + [Version(after, now)] == two;
    steps := LoadBegins(before, now, ttl, 0);
    steps := QueryAnswered(before, now, one, map[], Workflows, steps, ttl, 0);
    var answers := map[Workflows := Read(before.workflows, 0, now)];
    steps := Rewritten(before, now, one, answers, after, steps, ttl, 0);
    steps := QueryAnswered(before, now, two, answers, Roles, steps, ttl, 0);
    answers := answers[Roles := Read(after.roles, 1, now)];
    steps := QueryAnswered(before, now, two, answers, InvocationRoles, steps, ttl, 0);
  }

  lemma Then(s: System, steps: seq<Step>, step: Step, ttl: int) returns (more: seq<Step>)
    requires Runs(s, steps, ttl) && Enabled(After(s, steps, ttl), step)
    ensures After(s, steps, ttl).history != []
    ensures Runs(s, more, ttl) && After(s, more, ttl) == Apply(After(s, steps, ttl), step, ttl)
    ensures forall limit :: TimelyRun(s, steps, ttl, limit) && Timely(After(s, more, ttl), limit)
              ==> TimelyRun(s, more, ttl, limit)
  {
    Extend(s, steps, step, ttl);
    more := steps + [step];
  }

  /** Such a map need be no state of the database at all. */
  lemma MixedMapIsNoState(now: nat, ttl: int) returns (before: Database, steps: seq<Step>)
    ensures Runs(Start(before, now), steps, ttl)
    ensures var t := After(Start(before, now), steps, ttl);
      0 in t.served && forall v :: 0 <= v < |t.history| ==> !IsMapOf(t.served[0].what.configs, t.history[v].db)
  {
    before := Database(map["ship" := ["open"]], map["ship" := ["packer"]], map[]);
    var after := Database(map["ship" := ["closed"]], map["ship" := ["driver"]], map[]);
    steps := MixedMapServed(before, after, now, ttl);
    var mixed := After(Start(before, now), steps, ttl).served[0].what.configs;
    assert "ship" in mixed && mixed["ship"].settings == ["open"] && mixed["ship"].roles == ["driver"];
    assert ["driver"][0] != ["packer"][0] && ["open"][0] != ["closed"][0];
  }

  // ── How old it can be ──────────────────────────────────────────────────────

  /**
   A kept map's load began at most `limit` before it was kept; a map served,
   less than `ttl + limit` before it was served.
   */
  ghost predicate Young(s: System, ttl: int, limit: int) {
    && s.history != []
    && (forall l :: l in s.loads && Result(s.loads[l]).Some? ==> Result(s.loads[l]).value.begun == s.loads[l].begun)
    && (s.cache.configs.Some? ==> s.cache.loadedAt - s.cache.configs.value.begun <= limit)
    && (forall r :: r in s.served ==>
          var age := s.served[r].at - s.served[r].what.begun;
          if s.served[r].kept then age < ttl + limit else age <= limit)
  }

  lemma YoungStep(s: System, step: Step, ttl: int, limit: int)
    requires Young(s, ttl, limit) && Enabled(s, step) && Timely(s, limit)
    ensures Young(Apply(s, step, ttl), ttl, limit)
  {
  }

  /**
   When loads take at most `limit`, a map answered from the cache is under
   `ttl + limit` old, and one waited for at most `limit`.
   */
  lemma {:induction false} ServedIsYoung(s: System, steps: seq<Step>, ttl: int, limit: int)
    requires Young(s, ttl, limit) && Runs(s, steps, ttl) && TimelyRun(s, steps, ttl, limit)
    ensures Young(After(s, steps, ttl), ttl, limit)
    decreases |steps|
  {
    if steps != [] {
      YoungStep(s, steps[0], ttl, limit);
      ServedIsYoung(Apply(s, steps[0], ttl), steps[1..], ttl, limit);
    }
  }

  /** One load from its start to its `finally`, `limit` later. */
  lemma OneLoad(db: Database, now: nat, ttl: int, limit: nat) returns (steps: seq<Step>, what: Loaded)
    ensures Runs(Start(db, now), steps, ttl) && TimelyRun(Start(db, now), steps, ttl, limit)
    ensures what.begun == now
    ensures After(Start(db, now), steps, ttl)
         == System(Fields(Some(what), now + limit, None), now + limit, [Version(db, now)], map[], [now], map[],
                   map[0 := Served(what, now + limit, false)], 1, 0)
  {
    steps, what := LoadKept(db, now, ttl, limit);
    steps := Then(Start(db, now), steps, Finally(0), ttl);
  }

  lemma LoadKept(db: Database, now: nat, ttl: int, limit: nat) returns (steps: seq<Step>, what: Loaded)
    ensures Runs(Start(db, now), steps, ttl) && TimelyRun(Start(db, now), steps, ttl, limit)
    ensures what.begun == now
    ensures After(Start(db, now), steps, ttl)
         == System(Fields(Some(what), now + limit, Some(0)), now + limit, [Version(db, now)],
                   map[0 := Load(now, Settled(Some(what)))], [now], map[0 := 0], map[], 1, 0)
  {
    steps := AllAnswered(db, now, ttl, limit);
    what := ResultOf(0, After(Start(db, now), steps, ttl).loads[0]);
    steps := Then(Start(db, now), steps, Tick(limit), ttl);
    steps := Then(Start(db, now), steps, Succeed(0), ttl);
  }

  lemma AllAnswered(db: Database, now: nat, ttl: int, limit: nat) returns (steps: seq<Step>)
    ensures var answers := map[Workflows := Read(db.workflows, 0, now), Roles := Read(db.roles, 0, now),
                               InvocationRoles := Read(db.invocationRoles, 0, now)];
      Reaches(db, now, steps, Loading(now, [Version(db, now)], answers), ttl, limit)
  {
    hide Reaches, Loading;
    var history := [Version(db, now)];
    steps := LoadBegins(db, now, ttl, limit);
    steps := QueryAnswered(db, now, history, map[], Workflows, steps, ttl, limit);
    var answers := map[Workflows := Read(db.workflows, 0, now)];
    steps := QueryAnswered(db, now, history, answers, Roles, steps, ttl, limit);
    answers := answers[Roles := Read(db.roles, 0, now)];
    steps := QueryAnswered(db, now, history, answers, InvocationRoles, steps, ttl, limit);
  }

  /** Both bounds are reached: a map waited for can be `limit` old, and one kept `ttl + limit` less one. */
  lemma YoungBoundReached(db: Database, now: nat, ttl: int, limit: nat) returns (steps: seq<Step>)
    requires ttl >= 1
    ensures Runs(Start(db, now), steps, ttl) && TimelyRun(Start(db, now), steps, ttl, limit)
    ensures var served := After(Start(db, now), steps, ttl).served;
      && 0 in served && !served[0].kept && served[0].at - served[0].what.begun == limit
      && 1 in served && served[1].kept && served[1].at - served[1].what.begun == ttl + limit - 1
  {
    var s := Start(db, now);
    var what;
    steps, what := OneLoad(db, now, ttl, limit);
    steps := Then(s, steps, Tick(ttl - 1), ttl);
    steps := Then(s, steps, Access, ttl);
  }

  // ── Freshness after an invalidation ────────────────────────────────────────

  /** A load that can still write the cache. */
  ghost predicate MayStillWrite(s: System) {
    exists l :: l in s.loads && !s.loads[l].phase.Settled?
  }

  /** Every read asked from here on, in every continuation, is answered from a load begun from here on. */
  ghost predicate LaterReadsFresh(s: System, ttl: int) {
    forall steps, r :: Runs(s, steps, ttl) && r in After(s, steps, ttl).served && r >= s.asked
                       ==> After(s, steps, ttl).served[r].what.load >= s.NextLoad()
  }

  /** Only loads from `first` on are kept, awaited, or answer reads from `read` on. */
  ghost predicate OnlySince(s: System, first: LoadId, read: ReadId, ttl: int) {
    && s.history != [] && first <= s.NextLoad() && read <= s.asked && 0 <= s.now
    && (forall l :: l in s.loads && Result(s.loads[l]).Some? ==> Result(s.loads[l]).value.load == l)
    && (forall l :: l in s.loads && l < first && ttl > 0 ==> s.loads[l].phase.Settled?)
    && (s.cache.configs.Some? && ttl > 0 ==> s.cache.configs.value.load >= first)
    && (s.cache.loadPromise.Some? ==> s.cache.loadPromise.value >= first)
    && (forall r :: r in s.waiting && r >= read ==> s.waiting[r] >= first)
    && (forall r :: r in s.served && r >= read ==> s.served[r].what.load >= first)
    && s.cache.loadedAt <= s.now
  }

  lemma OnlySinceStep(s: System, step: Step, first: LoadId, read: ReadId, ttl: int)
    requires OnlySince(s, first, read, ttl) && Enabled(s, step)
    ensures OnlySince(Apply(s, step, ttl), first, read, ttl)
  {
    match step
    case Access =>
    case Fetch(_, _) =>
    case Succeed(_) =>
    case Finally(_) =>
    case _ =>
  }

  lemma {:induction false} OnlySinceRun(s: System, steps: seq<Step>, first: LoadId, read: ReadId, ttl: int)
    requires OnlySince(s, first, read, ttl) && Runs(s, steps, ttl)
    ensures OnlySince(After(s, steps, ttl), first, read, ttl)
    decreases |steps|
  {
    if steps != [] {
      OnlySinceStep(s, steps[0], first, read, ttl);
      OnlySinceRun(Apply(s, steps[0], ttl), steps[1..], first, read, ttl);
    }
  }

  /** A load that can still write puts an old map in front of the next read. */
  lemma {:induction false} StaleReadPossible(s: System, l: LoadId, ttl: int) returns (steps: seq<Step>)
    requires Sound(s) && s.cache == EMPTY && ttl > 0 && l in s.loads && s.loads[l].phase.Reading?
    ensures Runs(s, steps, ttl) && s.asked in After(s, steps, ttl).served
    ensures After(s, steps, ttl).served[s.asked].what.load == l < s.NextLoad()
    decreases TABLES - s.loads[l].phase.answers.Keys
  {
    hide Apply, SoundLoad;
    var answers := s.loads[l].phase.answers;
    if answers.Keys == TABLES {
      steps := StaleReadNext(s, l, ttl);
    } else {
      var table := Unanswered(answers);
      Fetched(s, l, table, ttl);
      SoundStep(s, Fetch(l, table), ttl);
      var rest := StaleReadPossible(Apply(s, Fetch(l, table), ttl), l, ttl);
      steps := [Fetch(l, table)] + rest;
      assert steps[1..] == rest;
    }
  }

  lemma StaleReadNext(s: System, l: LoadId, ttl: int) returns (steps: seq<Step>)
    requires Sound(s) && s.cache == EMPTY && ttl > 0 && Enabled(s, Succeed(l))
    ensures Runs(s, steps, ttl) && s.asked in After(s, steps, ttl).served
    ensures After(s, steps, ttl).served[s.asked].what.load == l < s.NextLoad()
  {
    assert SoundLoad(s, l);
    steps := [Succeed(l), Access];
    TwoStepsMore(s, Succeed(l), Access, [], ttl);
    assert [Succeed(l), Access] + [] == steps;
  }

  lemma Fetched(s: System, l: LoadId, table: Table, ttl: int)
    requires s.history != [] && Enabled(s, Fetch(l, table))
    ensures var s' := Apply(s, Fetch(l, table), ttl);
      && s'.cache == s.cache && s'.asked == s.asked && s'.begun == s.begun
      && l in s'.loads && s'.loads[l].phase.Reading?
      && s'.loads[l].phase.answers.Keys == s.loads[l].phase.answers.Keys + {table}
  {
  }

  lemma AllTables(some: set<Table>)
    ensures TABLES <= some ==> some == TABLES
  {
    forall t | t in some ensures t in TABLES {
      match t
      case Workflows =>
      case Roles =>
      case InvocationRoles =>
    }
  }

  lemma Unanswered(answers: map<Table, Read>) returns (table: Table)
    requires answers.Keys != TABLES
    ensures table in TABLES && table !in answers
  {
    AllTables(answers.Keys);
    table :| table in TABLES && table !in answers;
  }

  /**
   An invalidation makes every later read fresh exactly when no load that can
   still write the cache is in flight (or nothing is ever kept anyway). A load
   in flight whose `then` has run does no harm; one whose `then` is to come
   does, whether the cache still waits for it or not.
   */
  lemma FreshAfterInvalidation(s: System, ttl: int)
    requires Sound(s)
    ensures LaterReadsFresh(Apply(s, Invalidate, ttl), ttl) <==> ttl <= 0 || !MayStillWrite(s)
  {
    var t := Apply(s, Invalidate, ttl);
    SoundStep(s, Invalidate, ttl);
    if ttl <= 0 || !MayStillWrite(s) {
      assert forall l :: l in t.loads ==> SoundLoad(t, l);
      forall steps, r | Runs(t, steps, ttl) && r in After(t, steps, ttl).served && r >= t.asked
        ensures After(t, steps, ttl).served[r].what.load >= t.NextLoad()
      {
        OnlySinceRun(t, steps, t.NextLoad(), t.asked, ttl);
      }
    } else {
      var l :| l in s.loads && !s.loads[l].phase.Settled?;
      var steps := StaleReadPossible(t, l, ttl);
    }
  }

  /** The start of every run satisfies what the run lemmas ask. */
  lemma StartSatisfies(db: Database, now: nat, ttl: int, limit: nat)
    ensures Counted(Start(db, now)) && Sound(Start(db, now)) && Young(Start(db, now), ttl, limit)
  {
  }
}
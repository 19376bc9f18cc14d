# Verified models of a workflow server's decision logic

This project models, in Dafny, the parts of the server that decide something
by themselves, and proves what those parts are relied on for. The source is
TypeScript; each module below names the file it follows.

**The attribute decoder** (`Attributes`, `Hierarchy`, `Activities`,
`Recovery`, `SmallJobs`, `StableSort`, `Identifiers`; services/hotmesh-utils.ts). A stored
job is a flat map of abbreviated keys (`abc,0,1`) to prefixed text. Three
stages turn it back into the activities that ran: keys are inflated through a
symbol table, a nested object is built by in-place mutation, and a recursive
walk collects and sorts the activities. The encoder the comments describe is
written down and the whole pipeline is proved to invert it. The objects of the
second stage are heap objects: a ghost map from path to object shows that no
two paths ever share one, and the finished graph is shown to be the one tree
the flat map describes, whatever the order of the keys. A maintainer can read
`Recovery.DecodeActivities` as the statement of what the decoder is for, and
`SmallJobs` as an instance of everything it asks for.

**The workflow-config cache** (`ConfigCache`; modules/ltconfig.ts,
services/config/cache.ts, services/config/read.ts). The class has the source's
fields and its synchronous pieces; the interleavings between them are a step
relation over the cache, the clock, the database's three config tables and the
loads in flight, each of which makes three separate queries. How many loads
there can be and how old a map can be are bounds with runs that reach them;
when a map is one state of the database and when an invalidation makes later
reads fresh are conditions that are necessary as well as sufficient.

**Authority** (`Capabilities`, `InvocationAccess`, `Accounts`;
modules/capabilities.ts, services/invocation-access.ts,
services/workflow-invocation.ts, routes/users.ts, routes/bot-accounts.ts). The
ways of asking what a caller may do are compared gate by gate; acting as
another is shown never to exceed the caller, along chains of any length; and
the account routes are a state machine in which every superadmin grant traces
back to a superadmin there was at the start.

**Planners** (`FleetHistory`, `EvenSpread`, `OrderRun`, `TwinFarm`,
`RouteBatches`, `Consolidation`, with `Decimal`; the seeding and simulation
scripts). Interval schedules, even spreading by floor arithmetic, plans that
can always be placed, a moving target that is conserved, and a watchdog with a
termination bound.

**Small languages and buffers** (`Topics`, `ToolNames`, `ToolListing`,
`StlScale`, `Presets`). A wildcard matcher, name canonicalisers and the format
they make unambiguous, a grouped listing, a binary file rewritten in place, and
inheritance flattened.

`Basics` and `Text` hold the shared options, minima and string splitting.

## What turned out not to hold

- Restoring a flat map whose key paths run through one another loses a value
  (`Hierarchy.FoundOnlyIfPrefixFree`); the symbol table's prefix-freeness is
  what keeps a job clear of it.
- A string that starts with one of the five type prefixes does not survive
  being stored as itself, and neither does a number or an object the host does
  not read back from its own text, such as an object holding a number that is
  none (`Attributes.StoredValueRoundTrip`).
- A map served need be no state of the database: a load makes three queries
  outside any transaction, and a write can fall between them
  (`ConfigCache.MixedMapIsNoState`; exactly when a load sees one state,
  `ConfigCache.WholeLoadExactly`).
- An invalidation does not make later reads fresh while a load that has yet to
  run its `then` is in flight, whether or not the cache still waits for it
  (`ConfigCache.FreshAfterInvalidation`, with the offending run built by
  `ConfigCache.StaleReadPossible`).
- The guard on changing a superadmin account looks at the id in the path, but
  an update's body may carry an id of its own, and the update goes there
  (`Accounts.UpdateFollowsBodyId`).
- The guard lets through an id its own pattern does not match, but the
  database's id column also takes loose spellings, without hyphens or in
  braces, of the same id (`Accounts.LooseSpellingReaches`). With these two, the
  guard protects superadmin accounts from a request in every store exactly when
  it looks at the account the request writes to
  (`Accounts.GuardCoversExactly`).
- A role can be taken from an account by someone with no claim on the role, when
  the account is spelled loosely (`Accounts.LooseRemovalSlips`; every other way,
  `Accounts.RoleTakenInRun`).
- Granting a role looks at the granter and never at the target, and a grant
  replaces the stored type of the role. So a superadmin account can lose its
  superadmin grant to a non-superadmin who holds the role
  (`Accounts.GrantCanReplaceSuperadmin`; exactly when, `Accounts.GrantToSuperadmin`).
- A topic pattern accepted by another does not in general accept less than it
  (`Topics.VariantsNarrowExactly` gives the exact condition).
- A preset whose inheritance comes round to itself makes the flattening loop
  for ever (`Presets.EndsUnlessCyclic`).

Comments and code disagree in four places; the model follows the code. The
comment above `sanitizeServerName` (modules/utils.ts:73) names a default for
the empty result, but the function returns the empty string. The comment above
the bot routes (routes/bot-accounts.ts:16) asks for admin access, but the gate
is the builder gate. The comment above `invalidate` (modules/ltconfig.ts:78)
promises a reload on next access, but a load in flight can fill the cache
first. The comment on `isUuid` (lib/uuid.ts:1-6) takes any other text for an id
not found, but the database finds accounts under spellings it rejects.

## Model

| member | source | states |
|---|---|---|
| Attributes.StoredValueRoundTrip | services/hotmesh-utils.ts:31-47 | reading a stored text gives back the value written, for exactly the values that are neither strings starting with a type prefix nor unreadable to the host that printed them |
| Attributes.StoredTextReads | services/hotmesh-utils.ts:35-47 | each of the five prefixes says how the rest of any text is read, and text with none of them reads as itself |
| Attributes.InflateAttributes | services/hotmesh-utils.ts:111-137 | fails exactly when some value is malformed JSON; otherwise every attribute lands on its inflated key, every entry comes from an attribute, and the semaphore keeps its raw text, in any visiting order |
| Attributes.SymbolKeyExactly | services/hotmesh-utils.ts:116-124 | the keys taken apart are exactly two or three letters followed by numbers after commas |
| Attributes.InflatedKeyExactly | services/hotmesh-utils.ts:124-130 | for every table, such a key inflates to its dimensions and then its symbol's path, or its letters when the table has none |
| Attributes.OtherKeysKept | services/hotmesh-utils.ts:119-133 | any other key stays as it is, and only the semaphore's text is not deserialized |
| Attributes.KeysDistinct | services/hotmesh-utils.ts:106-109 | the encoder gives distinct paths distinct keys |
| Attributes.SpellablePrefixFree | services/hotmesh-utils.ts:116-130 | prefix-freeness of the symbol table carries over to dimensioned paths: none of two spellable paths leads through the other |
| Attributes.KeyInflates | services/hotmesh-utils.ts:124-130 | a key spelled as letters and dimensions inflates to exactly the path it spells |
| Attributes.InflationUndoesEncoding | services/hotmesh-utils.ts:111-137 | inflating the encoding of any job of storable values through a valid table never fails and yields exactly the job's values at their paths, which are prefix-free |
| Hierarchy.TreeUnique | services/hotmesh-utils.ts:142-158 | a flat map describes at most one tree, so the result cannot depend on the order of the keys |
| Hierarchy.TreeExists | services/hotmesh-utils.ts:142-158 | a flat map always describes a tree |
| Hierarchy.LookupInTree | services/hotmesh-utils.ts:146-155 | in the tree of a prefix-free map, following a path ends at its value if it is a key path, in an object if key paths lie beyond, and nowhere otherwise: nothing else is a leaf |
| Hierarchy.FoundOnlyIfPrefixFree | services/hotmesh-utils.ts:139-158 | for a map of non-object values, something with every value at the end of its path exists if and only if no key path runs through another |
| Hierarchy.Put | services/hotmesh-utils.ts:146-155 | walking one key in place adds exactly that leaf: the objects hold the old leaves and the new one, still one object a path, and the walk cannot run into a value when key paths are prefix-free |
| Hierarchy.Enter | services/hotmesh-utils.ts:152-153 | one step of the walk, in any objects: an object that is there is entered and nothing changes; a truthy value that is no object is an error and nothing changes; a missing or false property becomes a fresh empty object and no other property changes |
| Hierarchy.FalsyExactly | services/hotmesh-utils.ts:152 | the values a step lays an object over are null, false, zero, NaN and the empty string |
| Hierarchy.NoLeafOnTheWay | services/hotmesh-utils.ts:152-153 | on the way to a new path of a prefix-free set, whatever is present is an object of the graph, never a value |
| Hierarchy.RestoreHierarchy | services/hotmesh-utils.ts:142-158 | for every flat map whose defined key paths are prefix-free, visited in any order, the mutated objects are the one tree of its defined entries, and no two paths share an object |
| Hierarchy.MirrorsIsTree | services/hotmesh-utils.ts:142-158 | objects that hold exactly the leaves, each at one path, are the tree those leaves describe |
| Hierarchy.Snapshot | services/hotmesh-utils.ts:142-158 | reading a finished object graph from any of its objects gives the tree's value at that path |
| Activities.Walk | services/hotmesh-utils.ts:183-215 | the recursive walk returns exactly when the node is walkable, and then lists every activity below it once, in any order of keys |
| Activities.WalkableExactly | services/hotmesh-utils.ts:183-188 | the walk returns exactly when numeric keys alone lead neither to null nor to non-empty text |
| Activities.InfosAreReported | services/hotmesh-utils.ts:183-213 | the walk's activities are exactly the nodes under numeric keys and a name that have true `output.metadata`, each report holding the metadata's `atp`, `stp`, `ac`, `au`, `l1s`, `l2s` and `err` and the data beside it, each in its own field, with the defaults where absent or false |
| Activities.ViaOneKey | services/hotmesh-utils.ts:184-212 | no activity is reached through two keys |
| Activities.EarlierIsWeakOrder | services/hotmesh-utils.ts:217-221 | the inconsistent comparator is nevertheless a strict weak order in the only question a sort asks of it |
| Activities.ExtractActivities | services/hotmesh-utils.ts:180-224 | extraction gives exactly the reported activities, each once, ascending by their own `ac` values, untimed ones last, whenever no timestamp but text is ever compared with another |
| StableSort.Sort | services/hotmesh-utils.ts:217-221 | an ascending permutation that keeps tied elements in their original order |
| StableSort.SortDetermined | services/hotmesh-utils.ts:217-221 | every stable sort asking the same question has the same result |
| Recovery.OutputIsField | services/hotmesh-utils.ts:190-211 | a path into the metadata or data of a place is a field of that very place's activity |
| Recovery.SectionRestored | services/hotmesh-utils.ts:193-198 | an activity's metadata and data, however deep their paths, are restored as the one tree of their fields, or as the value stored whole, or not at all when empty |
| Recovery.ActivitiesRecovered | services/hotmesh-utils.ts:180-215 | the walk over the tree of a job finds exactly the job's activities, with their own names, dimensions and fields, and none made up from other values |
| Recovery.TreeWalkable | services/hotmesh-utils.ts:183-188 | the walk over a job's tree returns |
| Recovery.ExpectedTellsPlace | services/hotmesh-utils.ts:200-211 | two activities are never reported alike |
| Recovery.ReportExactly | services/hotmesh-utils.ts:200-211 | the one report of an activity has each field as the stored fields have it: `ac` what is stored at `ac`, `au` what is stored at `au`, and so on, and the data whole |
| Recovery.DecodeActivities | services/hotmesh-utils.ts:111-224 | inflating, restoring and extracting the encoding of any set of activities, fields nested to any depth and other values beside them, gives one report per place, every field as stored there, in the order of the stored `ac` values |
| SmallJobs.SomeJobIsEncoded | services/hotmesh-utils.ts:101-137 | what the decoder theorem asks of host, table, activities and stored attributes is met together by a job with a timestamp, a number and a nested object |
| Identifiers.QuotedNameReadsBack | services/hotmesh-utils.ts:61-66 | a scanner of delimited identifiers (section 5.2 of ISO/IEC 9075-2) reads the quoted name back as the original string and stops at its last character, in any following text, exactly when the next character is not a double quote |
| ConfigCache.LTConfigCache.EnsureLoaded | modules/ltconfig.ts:15-32 | answers from the map while it is young, else from the load in flight, else starts one; no other field changes |
| ConfigCache.LTConfigCache.OnLoaded | modules/ltconfig.ts:22-26 | keeps the fetched map and the time, whichever load the cache waits for |
| ConfigCache.LTConfigCache.OnSettled | modules/ltconfig.ts:27-29 | forgets the load waited for, even when it is a newer one |
| ConfigCache.LTConfigCache.Invalidate | modules/ltconfig.ts:79-83 | forgets map, time and load |
| ConfigCache.InFlightBound | modules/ltconfig.ts:15-32 | in every run, failed loads and stale `finally` callbacks included, loads in flight never exceed one plus the invalidations so far |
| ConfigCache.InFlightBoundReached | modules/ltconfig.ts:79-83 | for every n, a run with n invalidations leaves n + 1 more loads in flight: the bound is tight |
| ConfigCache.AccessAnswers | modules/ltconfig.ts:15-32 | a read is answered from a map younger than the TTL, or waits for the load in flight, or for one it starts, and nothing else changes |
| ConfigCache.FinallyAnswers | modules/ltconfig.ts:22-31 | a load that ends answers every read waiting for it and no other |
| ConfigCache.AnsweredByItsLoad | modules/ltconfig.ts:19-31 | in every run, a read that waits for a load is answered by that very load, if at all |
| ConfigCache.ServedIsGenuine | modules/ltconfig.ts:15-32 | in every run, each map served has, for each workflow of its load's first answer and nothing else, that answer's settings, the second's roles and the third's invocation roles, and each answer is what its table held at a moment during that one load |
| ConfigCache.WholeExactly | services/config/read.ts:53-98 | answers from one state make that state's map, field by field; where every write changes every table for good, the answers are some state's if and only if they were read from one |
| ConfigCache.OneStateExactly | services/config/read.ts:57-62 | two of a load's queries see the same state if and only if no write falls between them, in every run |
| ConfigCache.WholeLoadExactly | services/config/read.ts:53-98 | in every run, all three of a load's queries see one state if and only if no write falls between the first and the last |
| ConfigCache.MixedMapServed | services/config/read.ts:57-62 | for any two states, a run serves the workflows of the one with the roles of the other |
| ConfigCache.MixedMapIsNoState | services/config/cache.ts:5-31 | a run serves a map the database never held |
| ConfigCache.ServedIsYoung | modules/ltconfig.ts:16-24 | when loads take at most L, a map answered from the cache began to load less than TTL + L ago, and one waited for at most L ago |
| ConfigCache.YoungBoundReached | modules/ltconfig.ts:16-24 | for every L and every positive TTL, a run with loads of at most L serves a map waited for that is L old and one from the cache that is TTL + L - 1 old |
| ConfigCache.StaleReadPossible | modules/ltconfig.ts:22-25 | any load that can still write yields a continuation in which the next read is answered by it |
| ConfigCache.FreshAfterInvalidation | modules/ltconfig.ts:78-83 | after an invalidation every later read, in every continuation, comes from a load begun since, if and only if nothing is ever kept or no load that can still write is in flight |
| ConfigCache.StartSatisfies | modules/ltconfig.ts:11-13 | the empty cache meets what the run theorems ask |
| Capabilities.DecideGrants | modules/capabilities.ts:89-95 | the early-exit loop gives the first refusal in the list |
| Capabilities.MayGrantRoles | modules/capabilities.ts:88-95 | a list of grants is allowed exactly when every one of them is |
| Capabilities.GatesExactly | modules/capabilities.ts:32-66 | who may administer, build and manage roles, read off the claim and the stored role map alone |
| Capabilities.GrantExactly | modules/capabilities.ts:68-84 | a grant is allowed exactly for a superadmin, or, short of the superadmin type, for an engineer or holder of the role; and which refusal the others get |
| Capabilities.ManageExactly | modules/capabilities.ts:97-109 | an account is refused exactly when a well-formed id names a superadmin account and the caller is none |
| Capabilities.RevokeExactly | modules/capabilities.ts:111-118 | removal is allowed exactly for a superadmin, for a target not spelled as an account, or, from no superadmin account, for a role it does not hold or one whose engineer or holder the caller is |
| Capabilities.ResolutionAgrees | modules/capabilities.ts:132-146 | resolving all capabilities at once agrees with the separate predicates on every gate, for every principal and store |
| Capabilities.GateAnswers | modules/capabilities.ts:137-161 | each of the five gates is answered by its own predicate |
| Capabilities.TokenPathAgrees | modules/capabilities.ts:120-126 | when the token carries the stored grants, the lookup-free path agrees if the role claim is the grants' highest type, and exactly when claim and highest type bear the stated relation |
| Capabilities.Lookups.Resolve | modules/capabilities.ts:132-146 | at most one lookup of each kind, and none with a superadmin claim or token memberships |
| Capabilities.CapabilityAccess.Check | modules/capabilities.ts:153-161 | a memoised check answers as a fresh resolution would, and `caller` checks resolve nothing |
| Capabilities.CheckAll | modules/capabilities.ts:148-161 | any sequence of gates costs at most one superadmin and one engineer lookup, none when all are `caller`, and every answer is right |
| InvocationAccess.MayActAsTransitive | services/invocation-access.ts:31-44 | acting-as is transitive |
| InvocationAccess.ActingNeverExceeds | services/invocation-access.ts:31-71 | whatever workflow the target can invoke the caller can too, for every config, system-authority workflows included |
| InvocationAccess.ChainNeverExceeds | services/invocation-access.ts:31-71 | the same along a chain of any length |
| InvocationAccess.ActsByCoverage | services/invocation-access.ts:37-44 | the superadmin-target test is implied by grant coverage: acting-as is coverage alone |
| InvocationAccess.MayActAsExactly | services/invocation-access.ts:25-44 | who may act as whom, type by type, read off the two grant lists alone |
| InvocationAccess.GateIsPredicate | services/workflow-invocation.ts:180-204 | the gate with its early exits passes exactly when the one invocation predicate holds of the caller's grants, registered or not |
| InvocationAccess.GateExactly | services/workflow-invocation.ts:180-204 | who passes, read off registry and grants alone: for the system-authority workflow superadmins only; with no roles listed everyone; else registered superadmins, admins of the admin role, and holders of a listed role; all others get 403 |
| InvocationAccess.AuthorizedExactly | services/workflow-invocation.ts:206-228 | the gate comes first, then the override, with the status of whichever fails |
| InvocationAccess.QueueExactly | services/workflow-invocation.ts:148-170 | which queue a start resolves to, and when it gets 403, 400 or 404 |
| InvocationAccess.OverrideNeverExceeds | services/workflow-invocation.ts:206-228 | an authorized override opens no workflow the gate would refuse the caller itself |
| InvocationAccess.AuthorizedStartObeysConfig | services/workflow-invocation.ts:148-228 | gate and queue lookup together enforce the full rules of a configured workflow |
| Accounts.AccountRoutes.Serve | routes/users.ts:71-161 | a request is refused exactly when the roles of caller and target do not let it through, and the accounts are then as before; otherwise it has its whole effect, and no other |
| Accounts.LetThroughExactly | modules/capabilities.ts:32-118 | gate and decision together let a request through exactly as the stored role maps of caller and target say, request by request |
| Accounts.PerformHasEffect | routes/bot-accounts.ts:50-152 | every request has its stated effect: a created account has its profile, metadata and the first grant of each role; a grant leaves the role held as that type; an update, patch, removal, key or deletion changes what it names; every other field and account is as it was |
| Accounts.EffectDetermines | routes/users.ts:71-161 | the stated effect leaves only one possible outcome |
| Accounts.SuperadminAccountUntouched | modules/capabilities.ts:97-118 | no update, delete, property patch, role removal or key step by a non-superadmin changes an account holding superadmin, through either family of routes, when the guard looks at the account it writes to |
| Accounts.PlainRequestSeesItsWrite | routes/users.ts:82-114 | it does when the path's id is well-formed and the body names no other account |
| Accounts.GuardCoversExactly | routes/users.ts:77-161 | for any request of these kinds: no superadmin account in any store is changed by it for a non-superadmin, if and only if the guard looks at the account it writes to |
| Accounts.UpdateFollowsBodyId | routes/users.ts:82-86 | an update of the caller's own account whose body names a superadmin account changes that one |
| Accounts.LooseSpellingReaches | modules/capabilities.ts:102-109 | a delete of a loosely spelled superadmin id is allowed and removes the account |
| Accounts.GrantToSuperadmin | routes/users.ts:140-150 | an allowed grant by a non-superadmin leaves the target superadmin if and only if it holds superadmin through another role |
| Accounts.GrantCanReplaceSuperadmin | services/user/roles.ts:28-56 | a store and a grant by a non-superadmin after which a superadmin account is none |
| Accounts.BecomesSuper | modules/capabilities.ts:68-84 | an account becomes superadmin only by a superadmin-type grant made by a superadmin |
| Accounts.RoleTakenInRun | modules/capabilities.ts:111-118 | in every run, a role an account no longer holds as it did was taken, while it still did, by deleting the account, by a removal or new grant of it by a superadmin, engineer or holder of the role, or by a removal under a loose spelling |
| Accounts.LooseRemovalSlips | modules/capabilities.ts:112-114 | an admin of another role removes a role under a loose spelling of the account, and not under the stored one |
| Accounts.SuperadminTracesBack | modules/capabilities.ts:75-95 | in every run each superadmin has a finite chain of grants, each made by a then-superadmin, from an account that was superadmin at the start |
| Accounts.WithinStep | routes/users.ts:140-161 | one step by a caller bounded to a set of roles keeps every bounded account within them |
| Accounts.RolesStayAmongCallers | modules/capabilities.ts:68-84 | when no caller starts as superadmin or engineer, every role any caller comes to hold in any run was held by one of them at the start, and none becomes superadmin |
| FleetHistory.PlanIntervals | examples/seed-fleet-sim.ts:281-309 | ends for every printer and clock, with a whole day: closed stays as planned, in cycle order, and one open stay |
| FleetHistory.DayInOrder | examples/seed-fleet-sim.ts:275-309 | starts six hours back; closed stays end before now and are disjoint and ordered; gaps are two to four minutes; only the last is open; closed time plus gaps is the open start minus the first start |
| FleetHistory.DayFollowsCycle | examples/seed-fleet-sim.ts:285-308 | idle, printing, harvest, service on exactly every third cycle, then idle |
| FleetHistory.StayLength | examples/seed-fleet-sim.ts:271-296 | each closed stay is 25, 65, 10 or 35 minutes by its state, times the variation of its printer and cycle, to the nearest minute |
| EvenSpread.ClampChangesNothing | examples/workflows/machine-line/manifests.ts:50-53 | the clamped and the unclamped choice agree for every percentage |
| EvenSpread.WindowCount | scripts/twin-farm.ts:202-205 | every window holds the difference of the running shares |
| EvenSpread.WithinOneOfShare | scripts/twin-farm.ts:202-205 | from 0 to 100 percent, every window is within one of its exact share |
| EvenSpread.PrefixShareExact | scripts/ortho-populate.ts:106-109 | the floor formula counts every prefix if and only if the percentage is from 0 to 100 |
| OrderRun.InitialTargetOfPlan | scripts/ortho-populate.ts:410-422 | the run starts from eight per order and two per evenly spread shoe order |
| OrderRun.Enqueue | scripts/ortho-populate.ts:319-357 | stopped at any point, the target is what the orders still owe: eight for each not refused, two for each shoe order neither of whose rows was refused; the ids are those of the workflows started |
| OrderRun.Watchdog | scripts/ortho-populate.ts:377-398 | stops whatever the run does, within (T + 1) * (ceil(STALL_S) + 1) ticks, and only when the target is met or a whole quiet window passed |
| TwinFarm.OrderPlaceable | scripts/twin-farm.ts:207-221 | a planned order has as many distinct suitable printers as units if and only if the fleet has its filament |
| TwinFarm.PlanPlaceable | scripts/twin-farm.ts:181-221 | a fleet at least as large as the filament list can place every planned order taken alone, and a fault names one of its units |
| TwinFarm.FaultShare | scripts/twin-farm.ts:202-218 | a plan carries the configured share of faults |
| TwinFarm.OrderExactly | scripts/twin-farm.ts:207-221 | an order's filament, units, required capability and fault, from the printers the fleet has |
| TwinFarm.FleetGoesRound | scripts/twin-farm.ts:181-189 | filaments and capability profiles go round the fleet, and without profiles every twin is fully capable |
| RouteBatches.StartRoutes | scripts/machine-line.ts:202-220 | starts ceil(UNITS / BATCH) routes whose units add up to UNITS |
| RouteBatches.BatchNonEmpty | scripts/machine-line.ts:204-206 | each started route takes from one unit to a full batch |
| RouteBatches.UnitIdsDistinct | scripts/machine-line.ts:205-206 | no two units of a run share an id |
| Decimal.DecReadsBack | scripts/machine-line.ts:205-206 | the numbers in ids are written in decimal: they read back, and carry no leading zero |
| RouteBatches.AutomatedShare | scripts/machine-line.ts:208 | the automated routes are the clamped percentage of all routes, rounded down |
| Consolidation.OpenBins | scripts/consolidation-sim.ts:68-81 | opens, per destination in order, one bin, or for the first destination one for each service |
| Consolidation.OneBinTakes | scripts/consolidation-sim.ts:68-106 | exactly one open bin takes any order bound for an open destination: that destination's, and in the first destination its own service's |
| Consolidation.OpenedBinsServe | scripts/consolidation-sim.ts:83-106 | so the non-null lookup never fails |
| Consolidation.DestinationsDistinct | scripts/consolidation-sim.ts:118-119 | the destinations of a run are distinct |
| Consolidation.Walk | scripts/consolidation-sim.ts:125-144 | every order stands where its turn leaves it, bins hold what was placed, and the last placed order comes back out of its own bin |
| Consolidation.TakeLastOut | scripts/consolidation-sim.ts:137-144 | an order comes out exactly when the last one was placed, and out of the bin it went into |
| Consolidation.WalkSplits | scripts/consolidation-sim.ts:125-135 | left mid-flight, orders split into prep, check, staged and placed with none lost, also when there are too few to fill the quarters |
| ToolListing.ListCapabilities | api/capabilities.ts:64-106 | holds each admitted tool of a listed category exactly as often as its servers list it and nothing else, in non-empty categories in the fixed order, each ascending by name; the total is their sum |
| ToolListing.ListedExactly | api/capabilities.ts:72-90 | a tool is listed exactly when a server of a named category has it in its manifest and the caller may see it, under that server's name and id |
| ToolListing.CategoryExactly | api/capabilities.ts:50-57 | a server's own category comes first, then that of its first tag with one, and else it is Other |
| ToolListing.FallbackExactly | api/capabilities.ts:30-46 | which tags each category is found by |
| ToolListing.SameTools | api/capabilities.ts:69-100 | counting by category and counting by server come to the same tools |
| ToolListing.UnlistedExactly | api/capabilities.ts:48-57 | tools go unlisted if and only if their server names a category of its own outside the fixed list, or none and a tag that picks up an inherited property before any with a fallback |
| Topics.IsValidVariant | api/topics.ts:81-95 | accepts exactly when the subject splits segment by segment into the pattern, the first `>` taking one or more |
| Topics.VariantsCompose | api/topics.ts:75-80 | P accepts Q and Q accepts S give P accepts S when Q has no `>` |
| Topics.VariantsNarrowExactly | api/topics.ts:75-80 | an accepted pattern accepts only what the other accepts, if and only if it has no `>` or the other's first `>` comes no later |
| ToolNames.ToolNameCanonical | modules/utils.ts:27-43 | lands in words joined by single underscores, leaves those alone, and so is idempotent |
| ToolNames.ToolNameJoinsWords | modules/utils.ts:38-43 | what any name becomes: the runs of letters and digits of the lowercased value, joined by single underscores |
| ToolNames.WordCharsExactly | modules/utils.ts:41 | the characters kept are the ten digits and the 26 lowercase letters |
| ToolNames.ServerNameCanonical | modules/utils.ts:67-81 | lands in the empty string or a letter followed by letters and digits, leaves those alone, and so is idempotent |
| ToolNames.ServerNameRunsTogether | modules/utils.ts:79-81 | what any name becomes: the same runs with nothing between them, without the digits in front |
| ToolNames.ActivityTypeParses | services/yaml-workflow/pipeline/extract-helpers.ts:11-28 | parsing gives back server and tool if and only if the server name has no underscore |
| ToolNames.SanitizedNamesReadBack | services/yaml-workflow/pipeline/extract-helpers.ts:11-28 | sanitized names always read back |
| ToolNames.SanitizedTypesInjective | modules/utils.ts:53-61 | sanitized pairs with the same activity type are the same pair |
| StlScale.ScaleStl | scripts/bambu-boat.ts:51-60 | refuses exactly the malformed files, and otherwise gives a fresh buffer in which every vertex float is the input's scaled once and every other byte the input's |
| StlScale.WellFormedExactly | scripts/bambu-boat.ts:52-53 | a file is refused unless it is eighty bytes, a count and fifty bytes a triangle |
| StlScale.VertexFloatScaled | scripts/bambu-boat.ts:55-58 | each of the nine vertex floats of each triangle is the input's, scaled once |
| StlScale.RestUntouched | scripts/bambu-boat.ts:54-59 | length, header, normals and attribute bytes are the input's |
| StlScale.CountReads | scripts/bambu-boat.ts:52 | the triangle count is read lowest byte first |
| Presets.FullPreset | scripts/bambu-boat.ts:81-92 | the collected chain assigned in order is the recursive overlay with `inherits` cleared, and it fails exactly when an inherited preset is missing |
| Presets.NearestWins | scripts/bambu-boat.ts:76-92 | each setting has the value of the nearest preset defining it, and nothing else is set |
| Presets.EndsUnlessCyclic | scripts/bambu-boat.ts:86-90 | the walk up ends if and only if no preset is inherited twice, and then within as many steps as there are presets |

## Left out

- Hierarchy.RestoreHierarchy: says what is built only for prefix-free key paths. The outcomes otherwise are in the code of the model (an error, an overwritten value), except that a deserialized JSON object entered by a longer key is only reported, not followed into, and nothing is proved about the result.
- Hierarchy.Enter: property names inherited from the host's object prototype are not modelled; a path segment such as `constructor` is an ordinary name.
- Activities.ExtractActivities: when two activities have timestamps and one of the two is no text, whether the source throws depends on which comparisons the host's sort makes; that case is not modelled.
- Activities.Walk: arrays are objects whose keys are their indices. Which of several malformed nodes throws first is not modelled, and a node walked for ever counts as not returning.
- Attributes.InflationUndoesEncoding: leaves out the status semaphore, which is no part of an encoded job, and the values that do not survive storage.
- ConfigCache.ServedIsGenuine: asks for a clock that starts at zero or later and never goes back.
- ConfigCache.WholeExactly: rows are grouped by workflow type and taken as text; the defaults filled in for absent columns are not modelled.
- ConfigCache.InFlightBound: a failed load's readers get no answer in the model; in the source they get its error.
- Accounts.AccountRoutes.Serve: each route is one atomic step, so nothing is said about the time between a gate check and the write after it. Responses other than 403 are not told apart, profiles and keys are plain text, and a failed lookup, which makes the source refuse, is not a step.
- Accounts.SuperadminTracesBack: covers the user and bot account routes only; persona assignment and identity sync also write grants.
- InvocationAccess.MayActAsTransitive: a type outside member, admin and superadmin ranks 0; a type that happens to name a property of the host's object prototype, which the schema's check on types rules out, is not modelled.
- Capabilities.CheckAll: failing lookups are not modelled.
- OrderRun.Enqueue: a side row refused later, by the resolve loop, does not lower the target in the source either, so the target may then never be met; the watchdog covers that case. Pacing and stamped fields are left out.
- OrderRun.Watchdog: asks that resolutions only grow and the target only shrink, and does not model the sleep.
- StlScale.ScaleStl: reading a float, multiplying and writing it back is one function from four bytes to four bytes; rounding is not modelled.
- Presets.FullPreset: asks that the chain ends; `EndsUnlessCyclic` says exactly when it does not, and the source then loops for ever.
- RouteBatches.StartRoutes: asks for a batch of at least one, to which the source clamps it (scripts/machine-line.ts:51); a batch that is no number is not modelled.
- FleetHistory.PlanIntervals: the clock stands still during a walk, and rounding is either nearest integer when two are as near.
- ToolNames.ToolNameCanonical: lowercasing is a function known only to leave lowercase letters, digits and underscores alone.
- Consolidation.Walk: the bins' capacity and the service's own rows are not modelled; which service an order gets is an input.
- `JSON.parse`, `Number`, `localeCompare`, lowercasing and rounding are parameters with the few facts stated in `Attributes.LiteralsSpelledOut` and `Attributes.RoundTrips`, `Activities.Collation`, `ToolNames.Lowercases` and `FleetHistory.Varies`.
- `hmshTimestampToISO`, `computeDuration`, `sanitizeAppId` and `loadSymbolMap`: formatting, validation and a query.
- `mayReadWorkflowRun`, `buildEnvelope` and the start of a workflow once it is authorized.
- Read and write scopes of memberships, API key scopes and expiry, and listing routes.
- `parseCapSpec`, `settlementWatch` (the shape of `OrderRun.Watchdog` again), `jitter`, `spread`, and the assignment of sites.
- Escalation claiming and resolving, knowledge, line registry and OAuth: the deciding code lies elsewhere.
- HTTP, SQL and messaging: their answers are inputs.

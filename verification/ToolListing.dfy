/**
 Every tool a caller may run, by category (api/capabilities.ts,
 listCapabilities).
 */
module ToolListing {
  import opened Basics
  import opened Capabilities
  import opened StableSort

  datatype Tool = Tool(name: string, description: string, serverName: string, serverId: string)

  /** A server's row; `builtin` names the built-in server it refers to, if any. */
  datatype Server =
    Server(id: string, name: string, category: string, tags: seq<string>, tools: seq<(string, string)>,
           builtin: Option<string>)

  const TAG_FALLBACK: map<string, string> := map[
    "escalation" := "Automation", "browser-automation" := "Automation",
    "translation" := "Analysis", "vision" := "Analysis",
    "gmail" := "Communication", "email" := "Communication", "messaging" := "Communication",
    "storage" := "Data", "knowledge" := "Data", "http" := "Data", "api" := "Data",
    "authentication" := "System", "admin" := "System",
    "documentation" := "Reference", "development" := "Development"]

  const CATEGORY_ORDER: seq<string> :=
    ["Communication", "Analysis", "Media", "Data", "Automation", "Development", "System", "Reference", "Other"]

  /** What an object literal answers to besides its own keys. */
  const INHERITED: set<string> := {
    "constructor", "hasOwnProperty", "isPrototypeOf", "propertyIsEnumerable", "toLocaleString", "toString", "valueOf",
    "__proto__", "__defineGetter__", "__defineSetter__", "__lookupGetter__", "__lookupSetter__"}

  /** A server's category: a name, or what a tag picked up from the fallback table's prototype. */
  datatype Label = Named(name: string) | Picked(property: string)

  /** The first tag the fallback table answers to. */
  function TagCategory(tags: seq<string>): Label {
    if tags == [] then Named("Other")
    else if tags[0] in TAG_FALLBACK then Named(TAG_FALLBACK[tags[0]])
    else if tags[0] in INHERITED then Picked(tags[0])
    else TagCategory(tags[1..])
  }

  function ResolveCategory(server: Server): Label {
    if server.category != "" then Named(server.category) else TagCategory(server.tags)
  }

  /** Some tag names an inherited property, and none before it has a fallback category. */
  ghost predicate PicksInherited(tags: seq<string>) {
    exists i :: 0 <= i < |tags| && tags[i] in INHERITED && forall j :: 0 <= j < i ==> tags[j] !in TAG_FALLBACK
  }

  lemma FallbackListed(tag: string)
    requires tag in TAG_FALLBACK
    ensures TAG_FALLBACK[tag] in CATEGORY_ORDER
  {
    assert CATEGORY_ORDER[0] == "Communication" && CATEGORY_ORDER[1] == "Analysis" && CATEGORY_ORDER[3] == "Data"
        && CATEGORY_ORDER[4] == "Automation" && CATEGORY_ORDER[5] == "Development" && CATEGORY_ORDER[6] == "System"
        && CATEGORY_ORDER[7] == "Reference";
  }

  lemma FallbackIsOwn(tag: string)
    requires tag in TAG_FALLBACK
    ensures tag !in INHERITED
  {
  }

  /** A category name found by tag is a listed one. */
  lemma {:induction false} TagCategoryListed(tags: seq<string>)
    ensures TagCategory(tags).Picked? <==> PicksInherited(tags)
    ensures TagCategory(tags).Named? ==> TagCategory(tags).name in CATEGORY_ORDER
  {
    hide TAG_FALLBACK, INHERITED, CATEGORY_ORDER;
    if tags == [] {
      OtherListed();
    } else if tags[0] in TAG_FALLBACK {
      FallbackListed(tags[0]);
      FallbackIsOwn(tags[0]);
    } else if tags[0] !in INHERITED {
      TagCategoryListed(tags[1..]);
      if i :| 0 <= i < |tags| && tags[i] in INHERITED && forall j :: 0 <= j < i ==> tags[j] !in TAG_FALLBACK {
        assert tags[1..][i - 1] == tags[i];
        assert forall j :: 0 <= j < i - 1 ==> tags[1..][j] == tags[j + 1];
      }
      var rest := tags[1..];
      if i :| 0 <= i < |rest| && rest[i] in INHERITED && forall j :: 0 <= j < i ==> rest[j] !in TAG_FALLBACK {
        assert tags[i + 1] == rest[i];
        assert forall j :: 0 < j < i + 1 ==> tags[j] == rest[j - 1];
      }
    }
  }

  lemma OtherListed()
    ensures "Other" in CATEGORY_ORDER
  {
    assert CATEGORY_ORDER[8] == "Other";
  }

  /** The tags each category is found by. */
  lemma FallbackExactly(tag: string)
    ensures tag in TAG_FALLBACK ==>
      match TAG_FALLBACK[tag]
      case "Automation" => tag in {"escalation", "browser-automation"}
      case "Analysis" => tag in {"translation", "vision"}
      case "Communication" => tag in {"gmail", "email", "messaging"}
      case "Data" => tag in {"storage", "knowledge", "http", "api"}
      case "System" => tag in {"authentication", "admin"}
      case "Reference" => tag == "documentation"
      case "Development" => tag == "development"
      case _ => false
    ensures tag in {"escalation", "browser-automation", "translation", "vision", "gmail", "email", "messaging",
                    "storage", "knowledge", "http", "api", "authentication", "admin", "documentation", "development"}
            ==> tag in TAG_FALLBACK
  {
  }

  /** A server's own category comes first, then the first tag the table answers to; with none it is "Other". */
  lemma {:induction false} CategoryExactly(server: Server, i: nat)
    requires i <= |server.tags|
    requires forall j :: 0 <= j < i ==> server.tags[j] !in TAG_FALLBACK && server.tags[j] !in INHERITED
    ensures server.category != "" ==> ResolveCategory(server) == Named(server.category)
    ensures server.category == "" && i < |server.tags| && server.tags[i] in TAG_FALLBACK
            ==> ResolveCategory(server) == Named(TAG_FALLBACK[server.tags[i]])
    ensures server.category == "" && i == |server.tags| ==> ResolveCategory(server) == Named("Other")
    decreases i
  {
    hide TAG_FALLBACK, INHERITED;
    if i > 0 {
      CategoryExactly(server.(tags := server.tags[1..]), i - 1);
    }
  }

  /** The gate of a built-in tool. */
  type GateOf = (string, string) -> Gate

  /** The listing asks as the bare account: no role claim, no token memberships. */
  function CallerOf(userId: AccountId): Principal {
    Principal(userId, "", None)
  }

  /** Whether the caller may see a tool: external servers' tools always, built-in ones by their gate. */
  predicate Admits(store: Grants, userId: AccountId, gateOf: GateOf, server: Server, name: string) {
    server.builtin.None? ||
    var gate := gateOf(server.builtin.value, name);
    userId != "" && (gate == Caller || ResolveCapabilities(store, CallerOf(userId)).At(gate))
  }

  function ToolOf(server: Server, tool: (string, string)): Tool {
    Tool(tool.0, tool.1, server.name, server.id)
  }

  /** A server's admitted tools. */
  function Admitted(store: Grants, userId: AccountId, gateOf: GateOf, server: Server,
                    tools: seq<(string, string)>): seq<Tool> {
    if tools == [] then []
    else
      var n := |tools| - 1;
      Admitted(store, userId, gateOf, server, tools[..n])
      + if Admits(store, userId, gateOf, server, tools[n].0) then [ToolOf(server, tools[n])] else []
  }

  /** The admitted tools of every server of a category. */
  function InCategory(store: Grants, userId: AccountId, gateOf: GateOf, servers: seq<Server>,
                      category: string): seq<Tool> {
    if servers == [] then []
    else
      var n := |servers| - 1;
      InCategory(store, userId, gateOf, servers[..n], category)
      + if ResolveCategory(servers[n]) == Named(category)
          then Admitted(store, userId, gateOf, servers[n], servers[n].tools) else []
  }

  predicate AmongNames(server: Server, names: seq<string>) {
    ResolveCategory(server).Named? && ResolveCategory(server).name in names
  }

  /** The admitted tools of every server whose category is one of `names`. */
  function InCategories(store: Grants, userId: AccountId, gateOf: GateOf, servers: seq<Server>,
                        names: seq<string>): multiset<Tool> {
    if servers == [] then multiset{}
    else
      var n := |servers| - 1;
      InCategories(store, userId, gateOf, servers[..n], names)
      + if AmongNames(servers[n], names) then multiset(Admitted(store, userId, gateOf, servers[n], servers[n].tools))
          else multiset{}
  }

  /** The server's manifest has the tool, the caller may see it, and it is listed under the server's name and id. */
  ghost predicate Offers(store: Grants, userId: AccountId, gateOf: GateOf, server: Server, tool: Tool) {
    && tool.serverName == server.name && tool.serverId == server.id
    && (tool.name, tool.description) in server.tools
    && Admits(store, userId, gateOf, server, tool.name)
  }

  lemma {:induction false} AdmittedExactly(store: Grants, userId: AccountId, gateOf: GateOf, server: Server,
                                           tools: seq<(string, string)>, tool: Tool)
    ensures tool in Admitted(store, userId, gateOf, server, tools)
            <==> && tool.serverName == server.name && tool.serverId == server.id
                 && (tool.name, tool.description) in tools && Admits(store, userId, gateOf, server, tool.name)
  {
    hide Admits;
    if tools != [] {
      var n := |tools| - 1;
      AdmittedExactly(store, userId, gateOf, server, tools[..n], tool);
      assert tools == tools[..n] + [tools[n]];
    }
  }

  /** What is listed is what the servers of the named categories offer. */
  lemma {:induction false} ListedExactly(store: Grants, userId: AccountId, gateOf: GateOf, servers: seq<Server>,
                                         names: seq<string>, tool: Tool)
    ensures tool in InCategories(store, userId, gateOf, servers, names)
            <==> exists server :: server in servers && AmongNames(server, names)
                                  && Offers(store, userId, gateOf, server, tool)
  {
    hide Admits, AmongNames, Admitted;
    if servers != [] {
      var n := |servers| - 1;
      ListedExactly(store, userId, gateOf, servers[..n], names, tool);
      AdmittedExactly(store, userId, gateOf, servers[n], servers[n].tools, tool);
      assert servers == servers[..n] + [servers[n]];
    }
  }

  datatype Category = Category(name: string, tools: seq<Tool>)

  function ByName(collate: (string, string) -> int): (Tool, Tool) -> bool {
    (a: Tool, b: Tool) => collate(a.name, b.name) < 0
  }

  /** `groups` holds the admitted tools of every category that has a server. */
  ghost predicate Grouped(store: Grants, userId: AccountId, gateOf: GateOf, servers: seq<Server>,
                          groups: map<Label, seq<Tool>>) {
    forall name ::
      InCategory(store, userId, gateOf, servers, name) == if Named(name) in groups then groups[Named(name)] else []
  }

  /** A server's admitted tools, in the order its manifest lists them. */
  method AdmitTools(access: CapabilityAccess, gateOf: GateOf, server: Server) returns (admitted: seq<Tool>)
    requires access.Valid() && access.principal == CallerOf(access.principal.userId)
    modifies access, access.lookups
    ensures access.Valid()
    ensures admitted == Admitted(access.lookups.store, access.principal.userId, gateOf, server, server.tools)
  {
    admitted := [];
    for j := 0 to |server.tools|
      invariant access.Valid()
      invariant admitted == Admitted(access.lookups.store, access.principal.userId, gateOf, server, server.tools[..j])
    {
      var tool := server.tools[j];
      assert server.tools[..j + 1][..j] == server.tools[..j];
      if server.builtin.Some? {
        var allowed := access.Check(gateOf(server.builtin.value, tool.0));
        if !allowed {
          continue;
        }
      }
      admitted := admitted + [ToolOf(server, tool)];
    }
    assert server.tools[..|server.tools|] == server.tools;
  }

  lemma NothingGrouped(store: Grants, userId: AccountId, gateOf: GateOf)
    ensures Grouped(store, userId, gateOf, [], map[])
  {
  }

  /** One more server adds its admitted tools to its category's group. */
  lemma GroupedMore(store: Grants, userId: AccountId, gateOf: GateOf, servers: seq<Server>, server: Server,
                    before: map<Label, seq<Tool>>, after: map<Label, seq<Tool>>)
    requires Grouped(store, userId, gateOf, servers, before)
    requires var key := ResolveCategory(server); after == if key in before then before else before[key := []]
    ensures var key := ResolveCategory(server);
      Grouped(store, userId, gateOf, servers + [server],
              after[key := after[key] + Admitted(store, userId, gateOf, server, server.tools)])
  {
    hide Admitted, ResolveCategory;
    assert (servers + [server])[..|servers|] == servers;
  }

  /** The tools grouped by their server's category, in the order the servers and their manifests list them. */
  method Group(store: Grants, userId: AccountId, gateOf: GateOf, servers: seq<Server>)
    returns (groups: map<Label, seq<Tool>>)
    ensures Grouped(store, userId, gateOf, servers, groups)
  {
    hide InCategory, Admitted;
    groups := map[];
    NothingGrouped(store, userId, gateOf);
    var access := new CapabilityAccess(CallerOf(userId), store);
    for i := 0 to |servers|
      invariant access.Valid() && fresh(access) && fresh(access.lookups) && access.principal == CallerOf(userId)
          && access.lookups.store == store
      invariant Grouped(store, userId, gateOf, servers[..i], groups)
    {
      var category := ResolveCategory(servers[i]);
      assert servers[..i + 1] == servers[..i] + [servers[i]];
      ghost var before := groups;
      if category !in groups {
        groups := groups[category := []];
      }
      var admitted := AdmitTools(access, gateOf, servers[i]);
      GroupedMore(store, userId, gateOf, servers[..i], servers[i], before, groups);
      groups := groups[category := groups[category] + admitted];
    }
    assert servers[..|servers|] == servers;
  }

  // ── The listing ────────────────────────────────────────────────────────────

  function TotalTools(categories: seq<Category>): nat {
    if categories == [] then 0 else TotalTools(categories[..|categories| - 1]) + |categories[|categories| - 1].tools|
  }

  /** Every tool listed, as often as it is listed. */
  function Listed(categories: seq<Category>): multiset<Tool> {
    if categories == [] then multiset{}
    else Listed(categories[..|categories| - 1]) + multiset(categories[|categories| - 1].tools)
  }

  /** The same tools, category by category. */
  function ByCategory(store: Grants, userId: AccountId, gateOf: GateOf, servers: seq<Server>,
                      names: seq<string>): multiset<Tool> {
    if names == [] then multiset{}
    else
      var n := |names| - 1;
      ByCategory(store, userId, gateOf, servers, names[..n])
          + multiset(InCategory(store, userId, gateOf, servers, names[n]))
  }

  ghost predicate Distinct(names: seq<string>) {
    forall i, j :: 0 <= i < j < |names| ==> names[i] != names[j]
  }

  lemma OneMoreIn(store: Grants, userId: AccountId, gateOf: GateOf, servers: seq<Server>, category: string)
    requires servers != []
    ensures var last := servers[|servers| - 1];
      multiset(InCategory(store, userId, gateOf, servers, category))
      == multiset(InCategory(store, userId, gateOf, servers[..|servers| - 1], category))
         + if ResolveCategory(last) == Named(category)
             then multiset(Admitted(store, userId, gateOf, last, last.tools)) else multiset{}
  {
    hide Admitted, ResolveCategory;
  }

  /** One more server adds its admitted tools once, if its category is among the names. */
  lemma {:induction false} OneMoreServer(store: Grants, userId: AccountId, gateOf: GateOf, servers: seq<Server>,
                                         names: seq<string>)
    requires servers != [] && Distinct(names)
    ensures var last := servers[|servers| - 1];
      ByCategory(store, userId, gateOf, servers, names)
      == ByCategory(store, userId, gateOf, servers[..|servers| - 1], names)
         + if AmongNames(last, names) then multiset(Admitted(store, userId, gateOf, last, last.tools)) else multiset{}
  {
    hide Admitted, ResolveCategory, InCategory;
    if names != [] {
      var n := |names| - 1;
      OneMoreIn(store, userId, gateOf, servers, names[n]);
      OneMoreServer(store, userId, gateOf, servers, names[..n]);
      assert names == names[..n] + [names[n]];
      assert names[n] !in names[..n];
    }
  }

  /** Adding up category by category or server by server comes to the same. */
  lemma {:induction false} SameTools(store: Grants, userId: AccountId, gateOf: GateOf, servers: seq<Server>,
                                     names: seq<string>)
    requires Distinct(names)
    ensures ByCategory(store, userId, gateOf, servers, names) == InCategories(store, userId, gateOf, servers, names)
  {
    if servers == [] {
      NoServers(store, userId, gateOf, names);
    } else {
      OneMoreServer(store, userId, gateOf, servers, names);
      SameTools(store, userId, gateOf, servers[..|servers| - 1], names);
    }
  }

  lemma {:induction false} NoServers(store: Grants, userId: AccountId, gateOf: GateOf, names: seq<string>)
    ensures ByCategory(store, userId, gateOf, [], names) == multiset{}
  {
    if names != [] {
      NoServers(store, userId, gateOf, names[..|names| - 1]);
    }
  }

  lemma CategoriesDistinct()
    ensures Distinct(CATEGORY_ORDER)
  {
  }

  /** A non-empty category of `names`, with its tools sorted by name. */
  ghost predicate Shown(store: Grants, userId: AccountId, gateOf: GateOf, servers: seq<Server>,
                        collate: (string, string) -> int,
                        names: seq<string>, c: Category) {
    c.name in names && c.tools != []
        && SortedOnce(ByName(collate), InCategory(store, userId, gateOf, servers, c.name), c.tools)
  }

  /** One category, its tools sorted by name. */
  method ShowCategory(name: string, tools: seq<Tool>, collate: (string, string) -> int) returns (c: Category)
    requires StrictWeak(ByName(collate)) && tools != []
    ensures c.name == name && SortedOnce(ByName(collate), tools, c.tools)
    ensures multiset(c.tools) == multiset(tools) && c.tools != []
  {
    var sorted := Sort(ByName(collate), tools);
    assert |sorted| == |multiset(sorted)| == |multiset(tools)| == |tools|;
    c := Category(name, sorted);
  }

  /** The categories' names, in order. */
  function Names(categories: seq<Category>): seq<string> {
    if categories == [] then [] else Names(categories[..|categories| - 1]) + [categories[|categories| - 1].name]
  }

  /** The names, in order, of the categories that have a tool to show. */
  function WithTools(store: Grants, userId: AccountId, gateOf: GateOf, servers: seq<Server>,
                     names: seq<string>): seq<string> {
    if names == [] then []
    else
      var n := |names| - 1;
      WithTools(store, userId, gateOf, servers, names[..n])
      + if InCategory(store, userId, gateOf, servers, names[n]) != [] then [names[n]] else []
  }

  lemma ListedMore(categories: seq<Category>, c: Category)
    ensures Listed(categories + [c]) == Listed(categories) + multiset(c.tools)
    ensures TotalTools(categories + [c]) == TotalTools(categories) + |c.tools|
    ensures Names(categories + [c]) == Names(categories) + [c.name]
  {
  }

  /** The categories shown for the given names. */
  ghost predicate ShowsAll(store: Grants, userId: AccountId, gateOf: GateOf, servers: seq<Server>,
                           collate: (string, string) -> int,
                           names: seq<string>, categories: seq<Category>) {
    && Listed(categories) == ByCategory(store, userId, gateOf, servers, names)
    && Names(categories) == WithTools(store, userId, gateOf, servers, names)
    && forall c :: c in categories ==> Shown(store, userId, gateOf, servers, collate, names, c)
  }

  /** A name whose category has a tool to show adds that category. */
  lemma ShowsOneMore(store: Grants, userId: AccountId, gateOf: GateOf, servers: seq<Server>,
                     collate: (string, string) -> int,
                     names: seq<string>, categories: seq<Category>, c: Category)
    requires ShowsAll(store, userId, gateOf, servers, collate, names, categories)
    requires Shown(store, userId, gateOf, servers, collate, [c.name], c)
    requires multiset(c.tools) == multiset(InCategory(store, userId, gateOf, servers, c.name))
    ensures ShowsAll(store, userId, gateOf, servers, collate, names + [c.name], categories + [c])
  {
  }

  /** A name whose category has no tool to show adds nothing. */
  lemma ShowsNoMore(store: Grants, userId: AccountId, gateOf: GateOf, servers: seq<Server>,
                    collate: (string, string) -> int,
                    names: seq<string>, categories: seq<Category>, name: string)
    requires ShowsAll(store, userId, gateOf, servers, collate, names, categories)
    requires InCategory(store, userId, gateOf, servers, name) == []
    ensures ShowsAll(store, userId, gateOf, servers, collate, names + [name], categories)
  {
  }

  lemma {:induction false} TotalIsListed(categories: seq<Category>)
    ensures TotalTools(categories) == |Listed(categories)|
  {
    if categories != [] {
      TotalIsListed(categories[..|categories| - 1]);
    }
  }

  lemma NothingShown(store: Grants, userId: AccountId, gateOf: GateOf, servers: seq<Server>,
                     collate: (string, string) -> int)
    ensures ShowsAll(store, userId, gateOf, servers, collate, [], [])
  {
  }

  lemma ShownAlone(store: Grants, userId: AccountId, gateOf: GateOf, servers: seq<Server>,
                   collate: (string, string) -> int, c: Category)
    requires c.tools != [] && SortedOnce(ByName(collate), InCategory(store, userId, gateOf, servers, c.name), c.tools)
    ensures Shown(store, userId, gateOf, servers, collate, [c.name], c)
  {
  }

  ghost predicate NamesAscend(collate: (string, string) -> int, tools: seq<Tool>) {
    forall i, j :: 0 <= i < j < |tools| ==> collate(tools[j].name, tools[i].name) >= 0
  }

  lemma ShownAscends(store: Grants, userId: AccountId, gateOf: GateOf, servers: seq<Server>,
                     collate: (string, string) -> int, names: seq<string>, c: Category)
    requires Shown(store, userId, gateOf, servers, collate, names, c)
    ensures NamesAscend(collate, c.tools)
  {
    forall i, j | 0 <= i < j < |c.tools| ensures collate(c.tools[j].name, c.tools[i].name) >= 0 {
      assert !ByName(collate)(c.tools[j], c.tools[i]);
    }
  }

  /** Show the groups of the given names, in their order. */
  method Show(store: Grants, userId: AccountId, gateOf: GateOf, servers: seq<Server>, collate: (string, string) -> int,
              groups: map<Label, seq<Tool>>, names: seq<string>)
    returns (categories: seq<Category>, totalTools: nat)
    requires StrictWeak(ByName(collate)) && Grouped(store, userId, gateOf, servers, groups)
    ensures ShowsAll(store, userId, gateOf, servers, collate, names, categories)
    ensures totalTools == TotalTools(categories)
  {
    hide SortedOnce, InCategory, Shown, Listed, ByCategory, Names, WithTools;
    categories := [];
    totalTools := 0;
    NothingShown(store, userId, gateOf, servers, collate);
    for n := 0 to |names|
      invariant ShowsAll(store, userId, gateOf, servers, collate, names[..n], categories)
      invariant totalTools == TotalTools(categories)
    {
      assert names[..n + 1] == names[..n] + [names[n]];
      var key := Named(names[n]);
      if key in groups && groups[key] != [] {
        var category := ShowCategory(names[n], groups[key], collate);
        ShownAlone(store, userId, gateOf, servers, collate, category);
        ShowsOneMore(store, userId, gateOf, servers, collate, names[..n], categories, category);
        ListedMore(categories, category);
        categories := categories + [category];
        totalTools := totalTools + |category.tools|;
      } else {
        ShowsNoMore(store, userId, gateOf, servers, collate, names[..n], categories, names[n]);
      }
    }
    assert names[..|names|] == names;
  }

  /**
   The listing: non-empty categories in their fixed order, each sorted by
   name, together holding each admitted tool of a listed category exactly as
   often as its servers list it, and nothing else; the total is their sum.
   */
  method ListCapabilities(store: Grants, userId: AccountId, gateOf: GateOf, servers: seq<Server>,
                          collate: (string, string) -> int)
    returns (categories: seq<Category>, totalTools: nat)
    requires StrictWeak(ByName(collate))
    ensures Listed(categories) == InCategories(store, userId, gateOf, servers, CATEGORY_ORDER)
    ensures totalTools == TotalTools(categories) == |InCategories(store, userId, gateOf, servers, CATEGORY_ORDER)|
    ensures Names(categories) == WithTools(store, userId, gateOf, servers, CATEGORY_ORDER)
    ensures forall c :: c in categories ==> Shown(store, userId, gateOf, servers, collate, CATEGORY_ORDER, c)
    ensures forall c :: c in categories ==> NamesAscend(collate, c.tools)
  {
    var groups := Group(store, userId, gateOf, servers);
    categories, totalTools := Show(store, userId, gateOf, servers, collate, groups, CATEGORY_ORDER);
    TotalIsListed(categories);
    forall c | c in categories ensures NamesAscend(collate, c.tools) {
      ShownAscends(store, userId, gateOf, servers, collate, CATEGORY_ORDER, c);
    }
    CategoriesDistinct();
    SameTools(store, userId, gateOf, servers, CATEGORY_ORDER);
  }

  /**
   A server's tools go unlisted exactly when it names a category of its own
   that is not one of the listed ones, or has none and a tag picks up an
   inherited property.
   */
  lemma UnlistedExactly(server: Server)
    ensures !AmongNames(server, CATEGORY_ORDER)
            <==> if server.category != "" then server.category !in CATEGORY_ORDER else PicksInherited(server.tags)
  {
    TagCategoryListed(server.tags);
  }
}

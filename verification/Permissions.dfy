/**
 Translating a permission policy into the adapter's own permission config. The policy's tool map is
 iterated in an arbitrary order, so every result is proved for every order.
 */
module Permissions {
  import opened Core

  datatype Action = Default | Allow | Deny | Ask | Invalid(text: string)

  datatype PathRule = PathRule(path: string, action: Action)

  datatype UnsupportedBehavior = Fail | BestEffort | Unknown(text: string)

  datatype PermissionPolicy = PermissionPolicy(
    defaultAction: Action,
    tools: map<string, Action>,
    pathRules: seq<PathRule>,
    unsupported: UnsupportedBehavior)

  /** The adapter's native tool for each runtime-neutral tool class. */
  const NATIVE_TOOLS: map<string, string> := map[
    "read" := "read", "edit" := "edit", "write" := "edit", "patch" := "edit", "shell" := "bash", "bash" := "bash",
    "glob" := "glob", "search" := "grep", "list" := "list", "task" := "task", "todo" := "todowrite",
    "question" := "question", "web_fetch" := "webfetch", "web_search" := "websearch", "repo_clone" := "repo_clone",
    "repo_overview" := "repo_overview", "external_directory" := "external_directory", "doom_loop" := "doom_loop",
    "language_server" := "lsp", "skill" := "skill"]

  const EXTERNAL_DIRECTORY := "external_directory"

  /** A config entry is one action, or an action per path pattern. */
  datatype ConfigValue = One(action: Action) | PerPath(paths: map<string, Action>)

  type Config = map<string, ConfigValue>

  datatype TranslationError = InvalidPolicy | UnsupportedTool(tool: string) | Conflict(native: string)

  // ---------------------------------------------------------------- validity

  predicate ValidPolicy(policy: PermissionPolicy) {
    && !policy.defaultAction.Invalid?
    && (forall tool | tool in policy.tools :: tool != "" && !policy.tools[tool].Invalid?)
    && (forall i | 0 <= i < |policy.pathRules| ::
          policy.pathRules[i].path != "" && !policy.pathRules[i].action.Invalid?)
    && !policy.unsupported.Unknown?
  }

  // ---------------------------------------------------------------- what the translation should be

  /** Some tool of the policy says something of its own about this native tool. */
  ghost predicate Says(policy: PermissionPolicy, tool: string, native: string) {
    && tool in policy.tools && !policy.tools[tool].Default?
    && tool in NATIVE_TOOLS && NATIVE_TOOLS[tool] == native
  }

  ghost predicate Unmapped(policy: PermissionPolicy) {
    exists tool :: tool in policy.tools && tool !in NATIVE_TOOLS
  }

  /** Two aliases of one native tool say different things. */
  ghost predicate Conflicting(policy: PermissionPolicy) {
    exists a, b, native :: Says(policy, a, native) && Says(policy, b, native) && policy.tools[a] != policy.tools[b]
  }

  ghost predicate Translatable(policy: PermissionPolicy) {
    ValidPolicy(policy) && (policy.unsupported.BestEffort? || !Unmapped(policy)) && !Conflicting(policy)
  }

  /** Before path rules: each native tool has the action its tools agree on, or else a set default. */
  ghost predicate ToolConfig(policy: PermissionPolicy, config: Config) {
    forall native ::
      && (native in config ==> config[native].One?)
      && (forall tool :: Says(policy, tool, native) ==> native in config && config[native] == One(policy.tools[tool]))
      && ((forall tool :: !Says(policy, tool, native)) ==>
            if native in NATIVE_TOOLS.Values && !policy.defaultAction.Default?
            then native in config && config[native] == One(policy.defaultAction)
            else native !in config)
  }

  /** What the last rule for a path says, if any rule names it. */
  function LastRule(rules: seq<PathRule>, path: string): Option<Action> {
    if rules == [] then None
    else if rules[|rules| - 1].path == path then Some(rules[|rules| - 1].action)
    else LastRule(rules[..|rules| - 1], path)
  }

  /**
   Path rules refine `external_directory`: the last rule for a path counts, and what the tool had before
   stays as the catch-all unless a rule names `*`.
   */
  ghost predicate PathConfig(before: Config, rules: seq<PathRule>, after: Config) {
    && after - {EXTERNAL_DIRECTORY} == before - {EXTERNAL_DIRECTORY}
    && (rules == [] ==> after == before)
    && (rules != [] ==>
          && EXTERNAL_DIRECTORY in after && after[EXTERNAL_DIRECTORY].PerPath?
          && forall path ::
               var entry := if path in after[EXTERNAL_DIRECTORY].paths then Some(after[EXTERNAL_DIRECTORY].paths[path])
                 else None;
               entry == match LastRule(rules, path)
                        case Some(action) => Some(action)
                        case None =>
                          if path == "*" && EXTERNAL_DIRECTORY in before && before[EXTERNAL_DIRECTORY].One?
                          then Some(before[EXTERNAL_DIRECTORY].action) else None)
  }

  /** The policy determines its tool config: no two orders can yield different ones. */
  lemma ToolConfigIsUnique(policy: PermissionPolicy, a: Config, b: Config)
    requires ToolConfig(policy, a) && ToolConfig(policy, b)
    ensures a == b
  {
    forall native
      ensures native in a <==> native in b
      ensures native in a && native in b ==> a[native] == b[native]
    {
      if tool :| Says(policy, tool, native) {
      }
    }
    assert a.Keys == b.Keys;
  }

  lemma PathConfigIsUnique(before: Config, rules: seq<PathRule>, a: Config, b: Config)
    requires PathConfig(before, rules, a) && PathConfig(before, rules, b)
    ensures a == b
  {
    if rules != [] {
      var pa, pb := a[EXTERNAL_DIRECTORY].paths, b[EXTERNAL_DIRECTORY].paths;
      forall path
        ensures path in pa <==> path in pb
        ensures path in pa && path in pb ==> pa[path] == pb[path]
      {
      }
      assert pa == pb;
      forall native
        ensures native in a <==> native in b
        ensures native in a && native in b ==> a[native] == b[native]
      {
        if native != EXTERNAL_DIRECTORY {
          assert native in a <==> native in a - {EXTERNAL_DIRECTORY};
          assert native in b <==> native in b - {EXTERNAL_DIRECTORY};
        }
      }
      assert a.Keys == b.Keys;
    }
  }

  // ---------------------------------------------------------------- the translation

  /** An order in which a map's keys can be visited. */
  ghost predicate Enumerates(order: seq<string>, keys: set<string>) {
    Distinct(order) && forall key :: key in order <==> key in keys
  }

  /** A tool visited so far says something of its own about this native tool. */
  ghost predicate SaysAmong(policy: PermissionPolicy, visited: seq<string>, tool: string, native: string) {
    tool in visited && Says(policy, tool, native)
  }

  /** The explicit actions are what the tools visited so far say, and they all agree. */
  ghost predicate ExplicitOf(policy: PermissionPolicy, visited: seq<string>, explicit: map<string, Action>) {
    && (forall tool, native :: SaysAmong(policy, visited, tool, native) ==>
        native in explicit && explicit[native] == policy.tools[tool])
    && (forall native :: native in explicit ==> exists tool :: SaysAmong(policy, visited, tool, native))
  }

  /** The config is the expanded default, overridden by the explicit actions. */
  ghost predicate Overridden(base: Config, explicit: map<string, Action>, config: Config) {
    forall native ::
      if native in explicit then native in config && config[native] == One(explicit[native])
      else (native in config <==> native in base) && (native in base ==> config[native] == base[native])
  }

  ghost predicate DefaultConfig(policy: PermissionPolicy, base: Config) {
    forall native ::
      if native in NATIVE_TOOLS.Values && !policy.defaultAction.Default?
      then native in base && base[native] == One(policy.defaultAction)
      else native !in base
  }

  method ExpandDefault(policy: PermissionPolicy, natives: seq<string>) returns (config: Config)
    requires forall native :: native in natives <==> native in NATIVE_TOOLS.Values
    ensures DefaultConfig(policy, config)
  {
    config := map[];
    if policy.defaultAction.Default? {
      return;
    }
    for i := 0 to |natives|
      invariant forall native :: native in config <==> native in natives[..i]
      invariant forall native :: native in config ==> config[native] == One(policy.defaultAction)
    {
      config := config[natives[i] := One(policy.defaultAction)];
      assert natives[..i + 1] == natives[..i] + [natives[i]];
    }
    assert natives[..|natives|] == natives;
  }

  lemma VisitSilentTool(policy: PermissionPolicy, visited: seq<string>, tool: string, explicit: map<string, Action>)
    requires ExplicitOf(policy, visited, explicit) && forall native :: !Says(policy, tool, native)
    ensures ExplicitOf(policy, visited + [tool], explicit)
  {
    forall t, native | SaysAmong(policy, visited + [tool], t, native)
      ensures SaysAmong(policy, visited, t, native)
    {
    }
    forall native | native in explicit
      ensures exists t :: SaysAmong(policy, visited + [tool], t, native)
    {
      var t :| SaysAmong(policy, visited, t, native);
      assert SaysAmong(policy, visited + [tool], t, native);
    }
  }

  lemma VisitTool(policy: PermissionPolicy, visited: seq<string>, tool: string, native: string,
                  explicit: map<string, Action>)
    requires ExplicitOf(policy, visited, explicit) && Says(policy, tool, native)
    requires native in explicit ==> explicit[native] == policy.tools[tool]
    ensures ExplicitOf(policy, visited + [tool], explicit[native := policy.tools[tool]])
  {
    var next := explicit[native := policy.tools[tool]];
    assert SaysAmong(policy, visited + [tool], tool, native);
    forall t, other | SaysAmong(policy, visited + [tool], t, other)
      ensures other in next && next[other] == policy.tools[t]
    {
      assert t == tool || SaysAmong(policy, visited, t, other);
    }
    forall other | other in next
      ensures exists t :: SaysAmong(policy, visited + [tool], t, other)
    {
      if other != native {
        var t :| SaysAmong(policy, visited, t, other);
        assert SaysAmong(policy, visited + [tool], t, other);
      }
    }
  }

  /** Visits the tools in the given order. It fails on an unmapped or a conflicting tool, whichever comes first. */
  method ApplyTools(policy: PermissionPolicy, order: seq<string>, base: Config)
      returns (r: Result<Config, TranslationError>)
    requires Enumerates(order, policy.tools.Keys) && DefaultConfig(policy, base)
    ensures r.Success? <==> (policy.unsupported.BestEffort? || !Unmapped(policy)) && !Conflicting(policy)
    ensures r.Success? ==> ToolConfig(policy, r.value)
    ensures r.Failure? ==> !r.error.InvalidPolicy?
  {
    var config, explicit := base, map[];
    NothingVisited(policy, base);
    hide Says, ExplicitOf, Overridden, Unmapped, Conflicting, ToolConfig, DefaultConfig, Distinct;
    for i := 0 to |order|
      invariant ExplicitOf(policy, order[..i], explicit) && Overridden(base, explicit, config)
      invariant policy.unsupported.BestEffort? || forall j :: 0 <= j < i ==> order[j] in NATIVE_TOOLS
    {
      var tool := order[i];
      assert order[..i + 1] == order[..i] + [tool];
      assert tool in order;
      var action := policy.tools[tool];
      if tool !in NATIVE_TOOLS {
        if !policy.unsupported.BestEffort? {
          UnmappedFound(policy, tool);
          return Failure(UnsupportedTool(tool));
        }
        SaysNothing(policy, tool);
        VisitSilentTool(policy, order[..i], tool, explicit);
      } else if action.Default? {
        SaysNothing(policy, tool);
        VisitSilentTool(policy, order[..i], tool, explicit);
      } else {
        var native := NATIVE_TOOLS[tool];
        SaysItsAction(policy, tool);
        if native in explicit && explicit[native] != action {
          ConflictFound(policy, order[..i], tool, native, explicit);
          return Failure(Conflict(native));
        }
        VisitTool(policy, order[..i], tool, native, explicit);
        OverrideOne(base, explicit, config, native, action);
        explicit := explicit[native := action];
        config := config[native := One(action)];
      }
    }
    assert order[..|order|] == order;
    AllMapped(policy, order);
    AllVisited(policy, order, base, explicit, config);
    return Success(config);
  }

  lemma NothingVisited(policy: PermissionPolicy, base: Config)
    ensures ExplicitOf(policy, [], map[]) && Overridden(base, map[], base)
  {
  }

  lemma UnmappedFound(policy: PermissionPolicy, tool: string)
    requires tool in policy.tools && tool !in NATIVE_TOOLS
    ensures Unmapped(policy)
  {
  }

  lemma AllMapped(policy: PermissionPolicy, order: seq<string>)
    requires Enumerates(order, policy.tools.Keys)
    ensures (forall j :: 0 <= j < |order| ==> order[j] in NATIVE_TOOLS) ==> !Unmapped(policy)
  {
    if tool :| tool in policy.tools && tool !in NATIVE_TOOLS {
      assert tool in order;
    }
  }

  lemma SaysNothing(policy: PermissionPolicy, tool: string)
    requires tool in policy.tools && (tool !in NATIVE_TOOLS || policy.tools[tool].Default?)
    ensures forall native :: !Says(policy, tool, native)
  {
  }

  lemma SaysItsAction(policy: PermissionPolicy, tool: string)
    requires tool in policy.tools && tool in NATIVE_TOOLS && !policy.tools[tool].Default?
    ensures Says(policy, tool, NATIVE_TOOLS[tool])
  {
  }

  lemma OverrideOne(base: Config, explicit: map<string, Action>, config: Config, native: string, action: Action)
    requires Overridden(base, explicit, config)
    ensures Overridden(base, explicit[native := action], config[native := One(action)])
  {
  }

  lemma ConflictFound(policy: PermissionPolicy, visited: seq<string>, tool: string, native: string,
                      explicit: map<string, Action>)
    requires ExplicitOf(policy, visited, explicit) && Says(policy, tool, native)
    requires native in explicit && explicit[native] != policy.tools[tool]
    ensures Conflicting(policy)
  {
    var other :| SaysAmong(policy, visited, other, native);
    assert Says(policy, other, native) && policy.tools[other] == explicit[native];
  }

  lemma AllVisited(policy: PermissionPolicy, order: seq<string>, base: Config, explicit: map<string, Action>,
                   config: Config)
    requires Enumerates(order, policy.tools.Keys) && DefaultConfig(policy, base)
    requires ExplicitOf(policy, order, explicit) && Overridden(base, explicit, config)
    ensures !Conflicting(policy) && ToolConfig(policy, config)
  {
    forall tool, native | Says(policy, tool, native)
      ensures native in explicit && explicit[native] == policy.tools[tool]
    {
      assert SaysAmong(policy, order, tool, native);
    }
    forall native | native in explicit
      ensures exists tool :: Says(policy, tool, native)
    {
      var tool :| SaysAmong(policy, order, tool, native);
      assert Says(policy, tool, native);
    }
  }

  /** Folds the path rules in order into the entry of `external_directory`. */
  method ApplyPathRules(before: Config, rules: seq<PathRule>) returns (after: Config)
    requires EXTERNAL_DIRECTORY in before ==> before[EXTERNAL_DIRECTORY].One?
    ensures PathConfig(before, rules, after)
  {
    after := before;
    for i := 0 to |rules|
      invariant PathConfig(before, rules[..i], after)
    {
      var rule := rules[i];
      var paths: map<string, Action>;
      if EXTERNAL_DIRECTORY in after && after[EXTERNAL_DIRECTORY].PerPath? {
        paths := after[EXTERNAL_DIRECTORY].paths;
      } else {
        paths := map[];
        if EXTERNAL_DIRECTORY in after {
          paths := paths["*" := after[EXTERNAL_DIRECTORY].action];
        }
      }
      assert rules[..i + 1][..i] == rules[..i];
      paths := paths[rule.path := rule.action];
      after := after[EXTERNAL_DIRECTORY := PerPath(paths)];
    }
    assert rules[..|rules|] == rules;
  }

  /**
   The whole translation. For every order in which the maps are visited, it succeeds exactly on the
   translatable policies, and the config is the one the policy determines.
   */
  method Translate(policy: PermissionPolicy, order: seq<string>, natives: seq<string>)
      returns (r: Result<Config, TranslationError>)
    requires Enumerates(order, policy.tools.Keys)
    requires forall native :: native in natives <==> native in NATIVE_TOOLS.Values
    ensures r.Success? <==> Translatable(policy)
    ensures r.Success? ==> ConfigFor(policy, r.value)
    ensures r == Failure(InvalidPolicy) <==> !ValidPolicy(policy)
  {
    hide Unmapped, Conflicting, ToolConfig, PathConfig, DefaultConfig;
    if !ValidPolicy(policy) {
      return Failure(InvalidPolicy);
    }
    var base := ExpandDefault(policy, natives);
    r := ApplyTools(policy, order, base);
    if r.Success? {
      ghost var before := r.value;
      ToolEntriesAreActions(policy, before);
      var config := ApplyPathRules(r.value, policy.pathRules);
      r := Success(config);
    }
  }

  lemma ToolEntriesAreActions(policy: PermissionPolicy, config: Config)
    requires ToolConfig(policy, config)
    ensures EXTERNAL_DIRECTORY in config ==> config[EXTERNAL_DIRECTORY].One?
  {
  }

  ghost predicate ConfigFor(policy: PermissionPolicy, config: Config) {
    exists before :: ToolConfig(policy, before) && PathConfig(before, policy.pathRules, config)
  }

  /** Whatever the orders, two translations of one policy cannot yield different configs. */
  lemma ConfigIsOrderIndependent(policy: PermissionPolicy, a: Config, b: Config)
    requires ConfigFor(policy, a) && ConfigFor(policy, b)
    ensures a == b
  {
    var beforeA :| ToolConfig(policy, beforeA) && PathConfig(beforeA, policy.pathRules, a);
    var beforeB :| ToolConfig(policy, beforeB) && PathConfig(beforeB, policy.pathRules, b);
    ToolConfigIsUnique(policy, beforeA, beforeB);
    PathConfigIsUnique(beforeA, policy.pathRules, a, b);
  }

  // ---------------------------------------------------------------- spelled out

  /** The native tool behind each tool class. */
  predicate Governs(tool: string, native: string) {
    || (tool == "read" && native == "read")
    || ((tool == "edit" || tool == "write" || tool == "patch") && native == "edit")
    || ((tool == "shell" || tool == "bash") && native == "bash")
    || (tool == "glob" && native == "glob") || (tool == "search" && native == "grep")
    || (tool == "list" && native == "list") || (tool == "task" && native == "task")
    || (tool == "todo" && native == "todowrite") || (tool == "question" && native == "question")
    || (tool == "web_fetch" && native == "webfetch") || (tool == "web_search" && native == "websearch")
    || (tool == "repo_clone" && native == "repo_clone") || (tool == "repo_overview" && native == "repo_overview")
    || (tool == "external_directory" && native == "external_directory")
    || (tool == "doom_loop" && native == "doom_loop") || (tool == "language_server" && native == "lsp")
    || (tool == "skill" && native == "skill")
  }

  lemma TableInWords(tool: string, native: string)
    ensures tool in NATIVE_TOOLS && NATIVE_TOOLS[tool] == native <==> Governs(tool, native)
    ensures tool in NATIVE_TOOLS ==> Governs(tool, NATIVE_TOOLS[tool])
  {
  }

  /** A policy for one tool sets that tool's native tool and nothing else. */
  lemma OneToolSetsOneNativeTool(tool: string, native: string, action: Action, config: Config)
    requires Governs(tool, native) && (action == Allow || action == Deny || action == Ask)
    ensures var policy := PermissionPolicy(Default, map[tool := action], [], Fail);
            && Translatable(policy) && ConfigFor(policy, map[native := One(action)])
            && (ConfigFor(policy, config) ==> config == map[native := One(action)])
  {
    hide NATIVE_TOOLS, Governs;
    var policy := PermissionPolicy(Default, map[tool := action], [], Fail);
    GoverningToolsAreNamed(tool, native);
    TableInWords(tool, native);
    OnlyThisToolSays(policy, tool, native, action);
    hide Says;
    assert Says(policy, tool, native);
    assert ToolConfig(policy, map[native := One(action)]);
    assert PathConfig(map[native := One(action)], [], map[native := One(action)]);
    if ConfigFor(policy, config) {
      ConfigIsOrderIndependent(policy, config, map[native := One(action)]);
    }
  }

  lemma GoverningToolsAreNamed(tool: string, native: string)
    requires Governs(tool, native)
    ensures tool != ""
  {
  }

  lemma OnlyThisToolSays(policy: PermissionPolicy, tool: string, native: string, action: Action)
    requires policy.tools == map[tool := action] && !action.Default? && tool in NATIVE_TOOLS
               && NATIVE_TOOLS[tool] == native
    ensures forall t, other :: Says(policy, t, other) <==> t == tool && other == native
  {
    hide NATIVE_TOOLS;
  }

  /** A tool that governs nothing is refused, unless the policy asks for best effort. */
  lemma UnknownToolsAreRefused(tool: string, action: Action, behavior: UnsupportedBehavior)
    requires (forall native :: !Governs(tool, native)) && tool != "" && !action.Invalid? && !behavior.Unknown?
    ensures Translatable(PermissionPolicy(Default, map[tool := action], [], behavior)) <==> behavior == BestEffort
  {
    var policy := PermissionPolicy(Default, map[tool := action], [], behavior);
    if tool in NATIVE_TOOLS {
      TableInWords(tool, NATIVE_TOOLS[tool]);
      assert false;
    }
    assert tool in policy.tools && tool !in NATIVE_TOOLS;
    hide Governs;
  }

  /** A default reaches the native tools, all of them and nothing else. */
  lemma DefaultReachesEveryNativeTool(action: Action, config: Config, native: string)
    requires (action == Allow || action == Deny || action == Ask)
    requires ConfigFor(PermissionPolicy(action, map[], [], Fail), config)
    ensures native in config <==> exists tool :: Governs(tool, native)
    ensures native in config ==> config[native] == One(action)
  {
    var policy := PermissionPolicy(action, map[], [], Fail);
    var before :| ToolConfig(policy, before) && PathConfig(before, [], config);
    assert forall tool :: !Says(policy, tool, native);
    if native in NATIVE_TOOLS.Values {
      var tool :| tool in NATIVE_TOOLS && NATIVE_TOOLS[tool] == native;
      TableInWords(tool, native);
    }
    if tool :| Governs(tool, native) {
      TableInWords(tool, native);
    }
    hide Governs;
  }

  /** What makes a policy invalid. */
  lemma InvalidInWords(policy: PermissionPolicy)
    ensures !ValidPolicy(policy) <==>
              || policy.defaultAction.Invalid? || policy.unsupported.Unknown? || "" in policy.tools
              || (exists tool :: tool in policy.tools && policy.tools[tool].Invalid?)
              || (exists i :: 0 <= i < |policy.pathRules| &&
                              (policy.pathRules[i].path == "" || policy.pathRules[i].action.Invalid?))
  {
  }

  /** Aliases of one native tool may not disagree; one left to the default does not count. */
  lemma AliasesMustAgree(a: string, b: string, native: string, first: Action, second: Action)
    requires a != b && Governs(a, native) && Governs(b, native) && !first.Invalid? && !second.Invalid?
    ensures var policy := PermissionPolicy(Default, map[a := first, b := second], [], Fail);
            Translatable(policy) <==> first == second || first == Default || second == Default
  {
    hide NATIVE_TOOLS, Governs;
    var policy := PermissionPolicy(Default, map[a := first, b := second], [], Fail);
    GoverningToolsAreNamed(a, native);
    GoverningToolsAreNamed(b, native);
    TableInWords(a, native);
    TableInWords(b, native);
    assert policy.tools.Keys == {a, b};
    if first != second && first != Default && second != Default {
      assert Says(policy, a, native) && Says(policy, b, native);
    }
  }

  /** A path rule refines the directories outside the work directory and keeps what held there before. */
  lemma PathRulesRefineOutsideDirectories(path: string, action: Action, base: Action, config: Config)
    requires path != "" && path != "*" && (base == Allow || base == Deny || base == Ask)
    requires ConfigFor(PermissionPolicy(base, map[], [PathRule(path, action)], Fail), config)
    ensures "external_directory" in config
    ensures config["external_directory"] == PerPath(map["*" := base, path := action])
    ensures "bash" in config && config["bash"] == One(base)
  {
    var policy := PermissionPolicy(base, map[], [PathRule(path, action)], Fail);
    var before :| ToolConfig(policy, before) && PathConfig(before, policy.pathRules, config);
    assert forall tool, native :: !Says(policy, tool, native);
    NativeToolsExist();
    hide NATIVE_TOOLS, Says;
    assert before["external_directory"] == One(base) && before["bash"] == One(base);
    hide ToolConfig;
    assert "bash" in before - {EXTERNAL_DIRECTORY};
    assert "bash" in config - {EXTERNAL_DIRECTORY};
    var paths := config["external_directory"].paths;
    forall other
      ensures LastRule(policy.pathRules, other) == if other == path then Some(action) else None
    {
      assert policy.pathRules[..0] == [];
    }
    assert paths == map["*" := base, path := action];
  }

  lemma NativeToolsExist()
    ensures "external_directory" in NATIVE_TOOLS.Values && "bash" in NATIVE_TOOLS.Values
  {
    assert NATIVE_TOOLS["external_directory"] == "external_directory" && NATIVE_TOOLS["bash"] == "bash";
  }
}

/** The validation planner (scripts/validation.py): path rules, the reverse-dependency fixpoint
    over local packages, and the plan of jobs, checks and packages. */
module Planning {
  import opened Common
  import opened Ordering

  type Path = string

  /** Does the path match the shell pattern? */
  type Match = (Path, string) -> bool

  datatype Rule = Rule(name: string, patterns: seq<string>, ci: seq<string>, local: seq<string>, full: bool)

  /** `checks` maps a local check to the tools it needs. */
  datatype Policy = Policy(forceFull: bool, jobs: seq<string>, rules: seq<Rule>, checks: map<string, seq<string>>)

  datatype DepSpec = DepSpec(alias: string, local: bool, package: Option<string>)

  /** A crate manifest with the dependencies of all its tables, platform tables included. */
  datatype Manifest = Manifest(directory: string, name: string, dependencies: seq<DepSpec>)

  datatype Workspace = Workspace(root: Manifest, members: seq<Manifest>)

  datatype Plan = Plan(full: bool, reasons: seq<string>, jobs: seq<string>, checks: seq<string>,
                       packages: seq<string>, tools: seq<string>)

  datatype PlanError = InvalidPolicy | UnlistedCheck

  predicate ValidPolicy(policy: Policy) {
    && Distinct(policy.jobs)
    && (forall rule :: rule in policy.rules ==>
          && (forall job :: job in rule.ci ==> job in policy.jobs)
          && (forall check :: check in rule.local ==> check in policy.checks))
  }

  predicate StartsWith(path: Path, prefix: string) {
    |prefix| <= |path| && path[..|prefix|] == prefix
  }

  predicate Matches(rule: Rule, match_: Match, path: Path) {
    exists pattern :: pattern in rule.patterns && match_(path, pattern)
  }

  /** The first rule with a matching pattern. */
  function RuleFor(rules: seq<Rule>, match_: Match, path: Path): (r: Option<Rule>)
    ensures r.None? <==> forall rule :: rule in rules ==> !Matches(rule, match_, path)
    ensures r.Some? ==> exists i :: 0 <= i < |rules| && rules[i] == r.value && Matches(r.value, match_, path)
                                    && forall j :: 0 <= j < i ==> !Matches(rules[j], match_, path)
  {
    if rules == [] then None
    else if Matches(rules[0], match_, path) then Some(rules[0])
    else
      var rest := RuleFor(rules[1..], match_, path);
      assert rest.Some? ==> exists i :: 0 <= i < |rules[1..]| && rules[1..][i] == rest.value
                                        && forall j :: 0 <= j < i ==> !Matches(rules[1..][j], match_, path);
      assert forall rule :: rule in rules ==> rule == rules[0] || rule in rules[1..];
      rest
  }

  // ----- The packages to check -----

  function Manifests(w: Workspace): seq<Manifest> {
    [w.root] + w.members
  }

  function LocalDependencies(m: Manifest): set<string> {
    set spec | spec in m.dependencies && spec.local :: if spec.package.Some? then spec.package.value else spec.alias
  }

  /** Package name to the local packages it depends on; a later manifest of the same name wins. */
  function Edges(manifests: seq<Manifest>): map<string, set<string>> {
    if manifests == [] then map[]
    else
      var last := manifests[|manifests| - 1];
      Edges(manifests[..|manifests| - 1])[last.name := LocalDependencies(last)]
  }

  predicate Touches(paths: seq<Path>, prefix: string) {
    exists path :: path in paths && StartsWith(path, prefix)
  }

  predicate RootTouched(paths: seq<Path>) {
    Touches(paths, "src/") || Touches(paths, "tests/") || Touches(paths, "examples/")
  }

  /** Packages with a changed file of their own (all of them for a full plan). */
  function Changed(w: Workspace, paths: seq<Path>, full: bool): set<string> {
    (set m | m in Manifests(w) && (full || (m.directory != "." && Touches(paths, m.directory + "/"))) :: m.name)
    + (if RootTouched(paths) then {w.root.name} else {})
  }

  /** `p` leads from its first package, dependency by dependency, into `changed`. */
  predicate DependencyPath(edges: map<string, set<string>>, changed: set<string>, p: seq<string>) {
    && p != [] && p[|p| - 1] in changed
    && forall i :: 0 <= i < |p| - 1 ==> p[i] in edges && p[i + 1] in edges[p[i]]
  }

  ghost predicate Affected(edges: map<string, set<string>>, changed: set<string>, name: string) {
    exists p :: DependencyPath(edges, changed, p) && p[0] == name
  }

  lemma AffectedStep(edges: map<string, set<string>>, changed: set<string>, name: string, dep: string)
    requires name in edges && dep in edges[name] && Affected(edges, changed, dep)
    ensures Affected(edges, changed, name)
  {
    var p :| DependencyPath(edges, changed, p) && p[0] == dep;
    var q := [name] + p;
    assert q[|q| - 1] == p[|p| - 1];
    assert DependencyPath(edges, changed, q);
  }

  lemma ChangedIsAffected(edges: map<string, set<string>>, changed: set<string>, name: string)
    requires name in changed
    ensures Affected(edges, changed, name)
  {
    assert DependencyPath(edges, changed, [name]);
  }

  /** A set that no dependency leads into from outside. */
  ghost predicate Saturated(edges: map<string, set<string>>, selected: set<string>) {
    forall name, dep :: name in edges && dep in edges[name] && dep in selected ==> name in selected
  }

  lemma {:induction false} SaturatedHoldsPath(edges: map<string, set<string>>, changed: set<string>,
                                              selected: set<string>, p: seq<string>)
    requires changed <= selected && Saturated(edges, selected) && DependencyPath(edges, changed, p)
    ensures p[0] in selected
    decreases |p|
  {
    if |p| > 1 {
      var q := p[1..];
      forall i | 0 <= i < |q| - 1 ensures q[i] in edges && q[i + 1] in edges[q[i]] {
        assert p[i + 1] in edges && p[i + 1 + 1] in edges[p[i + 1]];
      }
      SaturatedHoldsPath(edges, changed, selected, q);
      assert p[0] in edges && p[0 + 1] in edges[p[0]];
    }
  }

  /** The fixpoint loop of `packages`. */
  method Packages(w: Workspace, paths: seq<Path>, full: bool) returns (list: seq<string>)
    ensures Ascending(list)
    ensures forall name :: name in list <==> Affected(Edges(Manifests(w)), Changed(w, paths, full), name)
  {
    hide Affected, Changed, Edges, Ascending, Saturated;
    var edges := Edges(Manifests(w));
    var changed := Changed(w, paths, full);
    var selected := changed;
    forall name | name in changed ensures Affected(edges, changed, name) {
      ChangedIsAffected(edges, changed, name);
    }
    while true
      invariant changed <= selected <= changed + edges.Keys
      invariant forall name :: name in selected ==> Affected(edges, changed, name)
      decreases |changed + edges.Keys - selected|
    {
      var expanded := selected + set name | name in edges && edges[name] * selected != {};
      if expanded == selected {
        FixpointIsSaturated(edges, selected);
        break;
      }
      Grows(changed + edges.Keys, selected, expanded);
      ExpandedIsAffected(edges, changed, selected, expanded);
      selected := expanded;
    }
    forall name | Affected(edges, changed, name) ensures name in selected {
      SaturatedHolds(edges, changed, selected, name);
    }
    list := Sort(selected);
  }

  lemma SaturatedHolds(edges: map<string, set<string>>, changed: set<string>, selected: set<string>, name: string)
    requires changed <= selected && Saturated(edges, selected) && Affected(edges, changed, name)
    ensures name in selected
  {
    var p :| DependencyPath(edges, changed, p) && p[0] == name;
    SaturatedHoldsPath(edges, changed, selected, p);
  }

  lemma FixpointIsSaturated(edges: map<string, set<string>>, selected: set<string>)
    requires selected + (set name | name in edges && edges[name] * selected != {}) == selected
    ensures Saturated(edges, selected)
  {
    forall name, dep | name in edges && dep in edges[name] && dep in selected ensures name in selected {
      assert dep in edges[name] * selected;
      assert name in set n | n in edges && edges[n] * selected != {};
    }
  }

  lemma ExpandedIsAffected(edges: map<string, set<string>>, changed: set<string>, selected: set<string>,
                           expanded: set<string>)
    requires forall name :: name in selected ==> Affected(edges, changed, name)
    requires expanded == selected + set name | name in edges && edges[name] * selected != {}
    ensures forall name :: name in expanded ==> Affected(edges, changed, name)
  {
    hide Affected;
    forall name | name in expanded ensures Affected(edges, changed, name) {
      if name !in selected {
        var dep :| dep in edges[name] * selected;
        AffectedStep(edges, changed, name, dep);
      }
    }
  }

  lemma Grows(all: set<string>, selected: set<string>, expanded: set<string>)
    requires selected <= expanded <= all && expanded != selected
    ensures |all - expanded| < |all - selected|
  {
    var x :| x in expanded && x !in selected;
    assert all - expanded <= all - selected - {x};
    SubsetSmaller(all - expanded, all - selected - {x});
  }

  lemma {:induction false} SubsetSmaller(small: set<string>, large: set<string>)
    requires small <= large
    ensures |small| <= |large|
  {
    assert large == small + (large - small);
  }

  // ----- The plan -----

  const PROTECTED: seq<Path> :=
    ["scripts/validation-policy.json", "scripts/validation.py", "scripts/check_ci_results.py", "scripts/ci_plan.py"]

  predicate IsProtected(path: Path) {
    path in PROTECTED || StartsWith(path, ".github/")
  }

  predicate NeedsFull(policy: Policy, match_: Match, path: Path) {
    var rule := RuleFor(policy.rules, match_, path);
    rule.None? || rule.value.full || IsProtected(path)
  }

  /** Everything the caller asks for: the policy, the profile, and the changed paths unless Git
      could not resolve them. */
  datatype Request = Request(policy: Policy, match_: Match, fullProfile: bool, changed: Option<seq<Path>>)

  function PathsOf(q: Request): seq<Path> {
    if q.changed.Some? then q.changed.value else []
  }

  predicate Explicit(q: Request) {
    q.fullProfile || q.policy.forceFull
  }

  predicate Full(q: Request) {
    Explicit(q) || q.changed.None? || exists path :: path in q.changed.value && NeedsFull(q.policy, q.match_, path)
  }

  predicate RuleNeedsJob(q: Request, path: Path, job: string) {
    var rule := RuleFor(q.policy.rules, q.match_, path);
    rule.Some? && job in rule.value.ci
  }

  predicate RuleNeedsCheck(q: Request, path: Path, check: string) {
    var rule := RuleFor(q.policy.rules, q.match_, path);
    rule.Some? && check in rule.value.local
  }

  /** The jobs before prerequisites are added. */
  predicate Wanted(q: Request, job: string) {
    if Full(q) then job in q.policy.jobs
    else job == "publication" || exists path :: path in PathsOf(q) && RuleNeedsJob(q, path, job)
  }

  /** A job is planned when it is wanted or a wanted job needs it. */
  predicate Planned(q: Request, job: string) {
    || Wanted(q, job)
    || (job == "targets" && (Wanted(q, "package-smoke") || Wanted(q, "rust")))
    || (job == "management-web" && Wanted(q, "package-smoke"))
    || (job == "conformance-prepare" && (Wanted(q, "codex-conformance") || Wanted(q, "api-codecs")))
  }

  predicate Checked(q: Request, check: string) {
    if Full(q) then check in q.policy.checks
    else check == "boundary" || exists path :: path in PathsOf(q) && RuleNeedsCheck(q, path, check)
  }

  predicate Reason(q: Request, reason: string) {
    || (exists path :: path in PathsOf(q)
          && var rule := RuleFor(q.policy.rules, q.match_, path);
             reason == RuleName(rule))
    || (reason == "validation-policy-change" && exists path :: path in PathsOf(q) && IsProtected(path))
    || (reason == "unresolved-git-input" && q.changed.None?)
    || (reason == "explicit-full-profile" && Explicit(q))
  }

  predicate ToolNeeded(q: Request, tool: string) {
    exists check :: check in q.policy.checks && Checked(q, check) && tool in q.policy.checks[check]
  }

  /** A plan can be made: every check it names has its tools listed. */
  predicate Plannable(q: Request) {
    ValidPolicy(q.policy) && (Full(q) || "boundary" in q.policy.checks)
  }

  ghost predicate PlanFor(q: Request, w: Workspace, plan: Plan) {
    && plan.full == Full(q)
    && (forall reason :: reason in plan.reasons <==> Reason(q, reason))
    && (forall job :: job in plan.jobs <==> Planned(q, job))
    && (forall check :: check in plan.checks <==> Checked(q, check))
    && (forall name :: name in plan.packages <==> Affected(Edges(Manifests(w)), Changed(w, PathsOf(q), Full(q)), name))
    && (forall tool :: tool in plan.tools <==> ToolNeeded(q, tool))
    && Ascending(plan.reasons) && Ascending(plan.jobs) && Ascending(plan.checks)
    && Ascending(plan.packages) && Ascending(plan.tools)
  }

  function RuleName(rule: Option<Rule>): string {
    if rule.Some? then rule.value.name else "unclassified-path"
  }

  method PlanReasons(q: Request) returns (reasons: set<string>)
    ensures forall reason :: reason in reasons <==> Reason(q, reason)
  {
    hide IsProtected, Explicit, RuleFor;
    var paths := PathsOf(q);
    reasons := set path | path in paths :: RuleName(RuleFor(q.policy.rules, q.match_, path));
    var protected := exists path :: path in paths && IsProtected(path);
    reasons := reasons
      + (if protected then {"validation-policy-change"} else {})
      + (if q.changed.None? then {"unresolved-git-input"} else {})
      + (if Explicit(q) then {"explicit-full-profile"} else {});
  }

  /** The jobs some matched rule asks for. */
  method RuleJobs(q: Request) returns (jobs: set<string>)
    ensures forall job :: job in jobs <==> exists path :: path in PathsOf(q) && RuleNeedsJob(q, path, job)
  {
    hide RuleFor;
    var paths := PathsOf(q);
    jobs := {};
    for i := 0 to |paths|
      invariant forall job :: job in jobs <==> exists path :: path in paths[..i] && RuleNeedsJob(q, path, job)
    {
      assert paths[..i + 1] == paths[..i] + [paths[i]];
      var rule := RuleFor(q.policy.rules, q.match_, paths[i]);
      ghost var before := jobs;
      if rule.Some? {
        jobs := jobs + set job | job in rule.value.ci;
      }
      assert forall job :: job in jobs <==> job in before || RuleNeedsJob(q, paths[i], job);
    }
    assert paths[..|paths|] == paths;
  }

  method RuleChecks(q: Request) returns (checks: set<string>)
    ensures forall check :: check in checks <==> exists path :: path in PathsOf(q) && RuleNeedsCheck(q, path, check)
  {
    hide RuleFor;
    var paths := PathsOf(q);
    checks := {};
    for i := 0 to |paths|
      invariant forall check :: check in checks <==> exists path :: path in paths[..i] && RuleNeedsCheck(q, path, check)
    {
      assert paths[..i + 1] == paths[..i] + [paths[i]];
      var rule := RuleFor(q.policy.rules, q.match_, paths[i]);
      ghost var before := checks;
      if rule.Some? {
        checks := checks + set check | check in rule.value.local;
      }
      assert forall check :: check in checks <==> check in before || RuleNeedsCheck(q, paths[i], check);
    }
    assert paths[..|paths|] == paths;
  }

  method AddPrerequisites(wanted: set<string>) returns (jobs: set<string>)
    ensures forall job :: job in jobs <==>
              || job in wanted
              || (job == "targets" && ("package-smoke" in wanted || "rust" in wanted))
              || (job == "management-web" && "package-smoke" in wanted)
              || (job == "conformance-prepare" && ("codex-conformance" in wanted || "api-codecs" in wanted))
  {
    jobs := wanted;
    if "package-smoke" in jobs {
      jobs := jobs + {"targets", "management-web"};
    }
    if "codex-conformance" in jobs || "api-codecs" in jobs {
      jobs := jobs + {"conformance-prepare"};
    }
    if "rust" in jobs {
      jobs := jobs + {"targets"};
    }
  }

  method PlanJobs(q: Request) returns (jobs: set<string>)
    ensures forall job :: job in jobs <==> Planned(q, job)
  {
    hide Full, RuleFor, PathsOf, RuleNeedsJob;
    var wanted := set job | job in q.policy.jobs;
    if !Full(q) {
      wanted := RuleJobs(q);
      wanted := wanted + {"publication"};
    }
    assert forall job :: job in wanted <==> Wanted(q, job);
    jobs := AddPrerequisites(wanted);
  }

  method PlanChecks(q: Request) returns (checks: set<string>)
    ensures forall check :: check in checks <==> Checked(q, check)
  {
    hide Full, RuleFor, PathsOf, RuleNeedsCheck;
    checks := q.policy.checks.Keys;
    if !Full(q) {
      checks := RuleChecks(q);
      checks := checks + {"boundary"};
    }
  }

  lemma ChecksAreListed(q: Request, check: string)
    requires ValidPolicy(q.policy) && Checked(q, check) && !Full(q) && check != "boundary"
    ensures check in q.policy.checks
  {
    var path :| path in PathsOf(q) && RuleNeedsCheck(q, path, check);
    var rule := RuleFor(q.policy.rules, q.match_, path);
    assert rule.value in q.policy.rules;
  }

  method MakePlan(q: Request, w: Workspace) returns (r: Result<Plan, PlanError>)
    ensures r.Ok? <==> Plannable(q)
    ensures r.Ok? ==> PlanFor(q, w, r.value)
  {
    hide Full, Reason, Planned, Checked, Affected, Ascending, Edges, Changed, ValidPolicy, Manifests, PathsOf;
    if !ValidPolicy(q.policy) {
      return Err(InvalidPolicy);
    }
    var reasons := PlanReasons(q);
    var jobs := PlanJobs(q);
    var checks := PlanChecks(q);
    var packages := Packages(w, PathsOf(q), Full(q));
    UnlistedIsBoundary(q, checks);
    if exists check :: check in checks && check !in q.policy.checks {
      return Err(UnlistedCheck);
    }
    var tools := set check, tool | check in checks && tool in q.policy.checks[check] :: tool;
    var reasonList := Sort(reasons);
    var jobList := Sort(jobs);
    var checkList := Sort(checks);
    var toolList := Sort(tools);
    return Ok(Plan(Full(q), reasonList, jobList, checkList, packages, toolList));
  }

  lemma UnlistedIsBoundary(q: Request, checks: set<string>)
    requires ValidPolicy(q.policy) && forall check :: check in checks <==> Checked(q, check)
    ensures (exists check :: check in checks && check !in q.policy.checks) <==> !Plannable(q)
  {
    forall check | check in checks && check !in q.policy.checks ensures check == "boundary" && !Full(q) {
      if !Full(q) && check != "boundary" {
        ChecksAreListed(q, check);
      }
    }
    assert !Full(q) ==> "boundary" in checks;
  }

  // ----- More changed paths never shrink the plan -----

  predicate Covers(paths: seq<Path>, more: seq<Path>) {
    forall path :: path in paths ==> path in more
  }

  /** `more` asks for the same plan over at least the paths of `q`. */
  ghost predicate Widens(q: Request, more: Request) {
    && more == q.(changed := more.changed)
    && q.changed.Some? && more.changed.Some? && Covers(q.changed.value, more.changed.value)
  }

  lemma FullStaysFull(q: Request, more: Request)
    requires Widens(q, more) && Full(q)
    ensures Full(more)
  {
  }

  lemma WantedStays(q: Request, more: Request, job: string)
    requires ValidPolicy(q.policy) && Widens(q, more) && Wanted(q, job)
    requires Full(q) || !Full(more) || "publication" in q.policy.jobs
    ensures Wanted(more, job)
  {
    hide RuleFor, IsProtected;
    if Full(q) {
      FullStaysFull(q, more);
    } else if job != "publication" {
      var path :| path in PathsOf(q) && RuleNeedsJob(q, path, job);
      assert path in PathsOf(more) && RuleNeedsJob(more, path, job);
      RuleJobIsListed(q, path, job);
    }
  }

  lemma RuleJobIsListed(q: Request, path: Path, job: string)
    requires ValidPolicy(q.policy) && RuleNeedsJob(q, path, job)
    ensures job in q.policy.jobs
  {
    var rule := RuleFor(q.policy.rules, q.match_, path);
    assert rule.value in q.policy.rules;
  }

  lemma PlannedStays(q: Request, more: Request, job: string)
    requires ValidPolicy(q.policy) && Widens(q, more) && Planned(q, job)
    requires Full(q) || !Full(more) || "publication" in q.policy.jobs
    ensures Planned(more, job)
  {
    hide Wanted, Full, ValidPolicy, Widens;
    forall j | Wanted(q, j) ensures Wanted(more, j) {
      WantedStays(q, more, j);
    }
  }

  lemma CheckedStays(q: Request, more: Request, check: string)
    requires Plannable(q) && Widens(q, more) && Checked(q, check)
    ensures Checked(more, check)
  {
    hide RuleFor, IsProtected, ValidPolicy;
    if Full(q) {
      FullStaysFull(q, more);
    } else if check != "boundary" {
      var path :| path in PathsOf(q) && RuleNeedsCheck(q, path, check);
      assert path in PathsOf(more) && RuleNeedsCheck(more, path, check);
      ChecksAreListed(q, check);
    }
  }

  lemma ChangedStays(w: Workspace, paths: seq<Path>, more: seq<Path>, full: bool, full': bool)
    requires Covers(paths, more) && (full ==> full')
    ensures Changed(w, paths, full) <= Changed(w, more, full')
  {
    hide StartsWith, Manifests;
    forall prefix | Touches(paths, prefix) ensures Touches(more, prefix) {
    }
  }

  lemma AffectedStays(edges: map<string, set<string>>, changed: set<string>, more: set<string>, name: string)
    requires changed <= more && Affected(edges, changed, name)
    ensures Affected(edges, more, name)
  {
    var p :| DependencyPath(edges, changed, p) && p[0] == name;
    assert DependencyPath(edges, more, p);
  }

  predicate Included(s: seq<string>, t: seq<string>) {
    forall x :: x in s ==> x in t
  }

  /** Adding changed paths keeps every check, package, tool and reason, and every job provided
      the policy lists `publication`. */
  lemma PlansGrow(q: Request, more: Request, w: Workspace, plan: Plan, plan': Plan)
    requires Plannable(q) && Widens(q, more) && PlanFor(q, w, plan) && PlanFor(more, w, plan')
    ensures Included(plan.checks, plan'.checks) && Included(plan.packages, plan'.packages)
    ensures Included(plan.tools, plan'.tools) && Included(plan.reasons, plan'.reasons)
    ensures plan.full ==> plan'.full
    ensures "publication" in q.policy.jobs ==> Included(plan.jobs, plan'.jobs)
  {
    hide Planned, Checked, Affected, Full, Edges, Changed, Reason, ValidPolicy, Ascending, Manifests, ToolNeeded;
    if Full(q) {
      FullStaysFull(q, more);
    }
    ChangedStays(w, PathsOf(q), PathsOf(more), Full(q), Full(more));
    forall x | x in plan.checks ensures x in plan'.checks { CheckedStays(q, more, x); }
    forall x | x in plan.reasons ensures x in plan'.reasons { ReasonStays(q, more, x); }
    forall x | x in plan.tools ensures x in plan'.tools { ToolStays(q, more, x); }
    forall x | x in plan.packages ensures x in plan'.packages {
      AffectedStays(Edges(Manifests(w)), Changed(w, PathsOf(q), Full(q)), Changed(w, PathsOf(more), Full(more)), x);
    }
    if "publication" in q.policy.jobs {
      forall x | x in plan.jobs ensures x in plan'.jobs { PlannedStays(q, more, x); }
    }
  }

  lemma ReasonStays(q: Request, more: Request, reason: string)
    requires Widens(q, more) && Reason(q, reason)
    ensures Reason(more, reason)
  {
    hide RuleFor, IsProtected;
  }

  lemma ToolStays(q: Request, more: Request, tool: string)
    requires Plannable(q) && Widens(q, more) && ToolNeeded(q, tool)
    ensures ToolNeeded(more, tool)
  {
    hide Checked, Full, ValidPolicy;
    var check :| check in q.policy.checks && Checked(q, check) && tool in q.policy.checks[check];
    CheckedStays(q, more, check);
  }

  /** No added path ever removes a planned job. */
  ghost predicate JobsGrow(policy: Policy, match_: Match, fullProfile: bool) {
    forall paths, more, job ::
      var q, wider := Request(policy, match_, fullProfile, Some(paths)),
        Request(policy, match_, fullProfile, Some(more));
      Covers(paths, more) && Plannable(q) && Plannable(wider) && Planned(q, job) ==> Planned(wider, job)
  }

  /** Exactly when jobs grow with the paths: a plan that is always full, a policy that lists
      `publication`, or one under which no reduced plan can be made at all. */
  lemma JobsGrowIff(policy: Policy, match_: Match, fullProfile: bool)
    requires ValidPolicy(policy)
    ensures JobsGrow(policy, match_, fullProfile)
            <==> fullProfile || policy.forceFull || "publication" in policy.jobs || "boundary" !in policy.checks
  {
    hide Planned, Full, ValidPolicy;
    if fullProfile || policy.forceFull || "publication" in policy.jobs || "boundary" !in policy.checks {
      forall paths, more, job |
        var q, wider := Request(policy, match_, fullProfile, Some(paths)),
          Request(policy, match_, fullProfile, Some(more));
        Covers(paths, more) && Plannable(q) && Plannable(wider) && Planned(q, job)
        ensures Planned(Request(policy, match_, fullProfile, Some(more)), job)
      {
        var q, wider := Request(policy, match_, fullProfile, Some(paths)),
          Request(policy, match_, fullProfile, Some(more));
        ExplicitIsFull(q);
        assert Full(q) || "publication" in policy.jobs;
        PlannedStays(q, wider, job);
      }
    } else {
      var q, wider := Request(policy, match_, fullProfile, Some([])),
        Request(policy, match_, fullProfile, Some([PROTECTED[0]]));
      PublicationIsDropped(q, wider);
    }
  }

  lemma ExplicitIsFull(q: Request)
    ensures Explicit(q) ==> Full(q)
  {
  }

  lemma PublicationIsDropped(q: Request, wider: Request)
    requires ValidPolicy(q.policy) && !Explicit(q) && "publication" !in q.policy.jobs && "boundary" in q.policy.checks
    requires q.changed == Some([]) && wider == q.(changed := Some([PROTECTED[0]]))
    ensures Plannable(q) && Plannable(wider) && Planned(q, "publication") && !Planned(wider, "publication")
  {
    hide RuleFor, ValidPolicy, StartsWith;
    assert IsProtected(PROTECTED[0]);
    assert NeedsFull(wider.policy, wider.match_, PROTECTED[0]);
    assert PROTECTED[0] in wider.changed.value;
    assert Full(wider) && !Full(q);
  }

  // ----- What a plan means -----

  /** The rule for a path: the first with a pattern that matches it. */
  ghost predicate IsRuleFor(policy: Policy, match_: Match, path: Path, rule: Rule) {
    exists i :: 0 <= i < |policy.rules| && policy.rules[i] == rule && MatchesSome(rule, match_, path)
                && forall j :: 0 <= j < i ==> !MatchesSome(policy.rules[j], match_, path)
  }

  predicate MatchesSome(rule: Rule, match_: Match, path: Path) {
    exists k :: 0 <= k < |rule.patterns| && match_(path, rule.patterns[k])
  }

  lemma MatchesByIndex(rule: Rule, match_: Match, path: Path)
    ensures Matches(rule, match_, path) <==> MatchesSome(rule, match_, path)
  {
    if pattern :| pattern in rule.patterns && match_(path, pattern) {
      var k :| 0 <= k < |rule.patterns| && rule.patterns[k] == pattern;
    }
    if k :| 0 <= k < |rule.patterns| && match_(path, rule.patterns[k]) {
      assert rule.patterns[k] in rule.patterns;
    }
  }

  lemma RuleForMeans(policy: Policy, match_: Match, path: Path)
    ensures var r := RuleFor(policy.rules, match_, path);
            && (r.Some? ==> IsRuleFor(policy, match_, path, r.value))
            && (r.None? <==> forall i :: 0 <= i < |policy.rules| ==> !MatchesSome(policy.rules[i], match_, path))
  {
    hide Matches, MatchesSome;
    forall rule ensures Matches(rule, match_, path) <==> MatchesSome(rule, match_, path) {
      MatchesByIndex(rule, match_, path);
    }
  }

  lemma OneRuleFor(policy: Policy, match_: Match, path: Path, a: Rule, b: Rule)
    requires IsRuleFor(policy, match_, path, a) && IsRuleFor(policy, match_, path, b)
    ensures a == b
  {
    hide MatchesSome;
    var i :| 0 <= i < |policy.rules| && policy.rules[i] == a && MatchesSome(a, match_, path)
             && forall j :: 0 <= j < i ==> !MatchesSome(policy.rules[j], match_, path);
    var k :| 0 <= k < |policy.rules| && policy.rules[k] == b && MatchesSome(b, match_, path)
             && forall j :: 0 <= j < k ==> !MatchesSome(policy.rules[j], match_, path);
    assert i >= k && k >= i;
  }

  /** The planner's own files and the workflows. */
  predicate OwnFile(path: Path) {
    || path == "scripts/validation-policy.json" || path == "scripts/validation.py"
    || path == "scripts/check_ci_results.py" || path == "scripts/ci_plan.py"
    || (|path| >= 8 && path[..8] == ".github/")
  }

  /** A path decides for everything: the planner's own, one without a rule, or one whose rule says so. */
  ghost predicate Decides(q: Request, path: Path) {
    || OwnFile(path)
    || (forall i :: 0 <= i < |q.policy.rules| ==> !MatchesSome(q.policy.rules[i], q.match_, path))
    || (exists rule :: IsRuleFor(q.policy, q.match_, path, rule) && rule.full)
  }

  lemma DecidesMeans(q: Request, path: Path)
    ensures NeedsFull(q.policy, q.match_, path) <==> Decides(q, path)
  {
    hide MatchesSome, RuleFor, IsRuleFor;
    RuleForMeans(q.policy, q.match_, path);
    var r := RuleFor(q.policy.rules, q.match_, path);
    assert OwnFile(path) <==> IsProtected(path);
    if rule :| IsRuleFor(q.policy, q.match_, path, rule) && rule.full && r.Some? {
      OneRuleFor(q.policy, q.match_, path, rule, r.value);
    }
  }

  /** A plan is full exactly on request, without a resolved input, or if some changed path decides;
      it then names every job and every check of the policy. */
  lemma FullPlanMeans(q: Request, w: Workspace, plan: Plan)
    requires PlanFor(q, w, plan)
    ensures plan.full <==> || q.fullProfile || q.policy.forceFull || q.changed == None
                           || exists path :: path in q.changed.value && Decides(q, path)
    ensures plan.full ==> (forall job :: job in q.policy.jobs ==> job in plan.jobs)
    ensures plan.full ==> (forall check :: check in q.policy.checks <==> check in plan.checks)
  {
    hide Decides, NeedsFull, Edges, Changed, Affected, Ascending;
    forall path ensures NeedsFull(q.policy, q.match_, path) <==> Decides(q, path) {
      DecidesMeans(q, path);
    }
  }

  /** What a reduced plan starts from: publication, the boundary check, and what the rules of the
      changed paths name. */
  ghost predicate NamedJob(q: Request, job: string) {
    job == "publication"
    || exists path, rule :: path in PathsOf(q) && IsRuleFor(q.policy, q.match_, path, rule) && job in rule.ci
  }

  ghost predicate NamedCheck(q: Request, check: string) {
    check == "boundary"
    || exists path, rule :: path in PathsOf(q) && IsRuleFor(q.policy, q.match_, path, rule) && check in rule.local
  }

  lemma RuleNeeds(q: Request, path: Path, name: string)
    ensures RuleNeedsJob(q, path, name) <==> exists rule :: IsRuleFor(q.policy, q.match_, path, rule) && name in rule.ci
    ensures RuleNeedsCheck(q, path, name)
            <==> exists rule :: IsRuleFor(q.policy, q.match_, path, rule) && name in rule.local
  {
    hide MatchesSome, RuleFor;
    RuleForMeans(q.policy, q.match_, path);
    var r := RuleFor(q.policy.rules, q.match_, path);
    forall rule | IsRuleFor(q.policy, q.match_, path, rule) ensures r == Some(rule) {
      if r.Some? {
        OneRuleFor(q.policy, q.match_, path, rule, r.value);
      }
    }
  }

  lemma NamedMeans(q: Request, name: string)
    requires !Full(q)
    ensures Wanted(q, name) <==> NamedJob(q, name)
    ensures Checked(q, name) <==> NamedCheck(q, name)
  {
    hide IsRuleFor, RuleNeedsJob, RuleNeedsCheck, Full, PathsOf;
    if path :| path in PathsOf(q) && RuleNeedsJob(q, path, name) {
      RuleNeeds(q, path, name);
      var rule :| IsRuleFor(q.policy, q.match_, path, rule) && name in rule.ci;
      assert NamedJob(q, name);
    }
    if path, rule :| path in PathsOf(q) && IsRuleFor(q.policy, q.match_, path, rule) && name in rule.ci {
      RuleNeeds(q, path, name);
      assert Wanted(q, name);
    }
    if path :| path in PathsOf(q) && RuleNeedsCheck(q, path, name) {
      RuleNeeds(q, path, name);
      var rule :| IsRuleFor(q.policy, q.match_, path, rule) && name in rule.local;
      assert NamedCheck(q, name);
    }
    if path, rule :| path in PathsOf(q) && IsRuleFor(q.policy, q.match_, path, rule) && name in rule.local {
      RuleNeeds(q, path, name);
      assert Checked(q, name);
    }
  }

  /** A reduced plan holds what it starts from and what its jobs need, and nothing else. */
  lemma ReducedPlanMeans(q: Request, w: Workspace, plan: Plan)
    requires PlanFor(q, w, plan) && !plan.full
    ensures forall job :: NamedJob(q, job) ==> job in plan.jobs
    ensures forall job :: job in plan.jobs ==>
            NamedJob(q, job) || job in {"targets", "management-web", "conformance-prepare"}
    ensures forall check :: check in plan.checks <==> NamedCheck(q, check)
  {
    hide NamedJob, NamedCheck, Wanted, Checked, Edges, Changed, Affected, Ascending, Full;
    forall name ensures Wanted(q, name) <==> NamedJob(q, name) {
      NamedMeans(q, name);
    }
    forall name ensures Checked(q, name) <==> NamedCheck(q, name) {
      NamedMeans(q, name);
    }
  }

  /** A planned job comes with what it needs. */
  lemma PrerequisitesArePlanned(q: Request, w: Workspace, plan: Plan)
    requires PlanFor(q, w, plan)
    ensures "package-smoke" in plan.jobs ==> "targets" in plan.jobs && "management-web" in plan.jobs
    ensures "codex-conformance" in plan.jobs || "api-codecs" in plan.jobs ==> "conformance-prepare" in plan.jobs
    ensures "rust" in plan.jobs ==> "targets" in plan.jobs
  {
    hide Wanted, Edges, Changed, Affected, Ascending, Full;
  }

  /** A changed file of its own: below the package's directory, or for the root one of three. */
  predicate OwnChange(w: Workspace, m: Manifest, paths: seq<Path>) {
    || (m.directory != "." && exists i :: 0 <= i < |paths| && Below(paths[i], m.directory + "/"))
    || (m.name == w.root.name
        && exists i :: 0 <= i < |paths|
                       && (Below(paths[i], "src/") || Below(paths[i], "tests/") || Below(paths[i], "examples/")))
  }

  predicate Below(path: Path, prefix: string) {
    |prefix| <= |path| && forall i :: 0 <= i < |prefix| ==> path[i] == prefix[i]
  }

  lemma TouchesMeans(paths: seq<Path>, prefix: string)
    ensures Touches(paths, prefix) <==> exists i :: 0 <= i < |paths| && Below(paths[i], prefix)
  {
    forall path ensures StartsWith(path, prefix) <==> Below(path, prefix) {
    }
    if path :| path in paths && StartsWith(path, prefix) {
      var i :| 0 <= i < |paths| && paths[i] == path;
      assert Below(paths[i], prefix);
    }
    if i :| 0 <= i < |paths| && Below(paths[i], prefix) {
      assert paths[i] in paths && StartsWith(paths[i], prefix);
    }
  }

  lemma ChangedMeans(w: Workspace, paths: seq<Path>, full: bool, name: string)
    ensures name in Changed(w, paths, full)
            <==> exists m :: m in Manifests(w) && m.name == name && (full || OwnChange(w, m, paths))
  {
    hide Touches, Below;
    forall prefix ensures Touches(paths, prefix) <==> exists i :: 0 <= i < |paths| && Below(paths[i], prefix) {
      TouchesMeans(paths, prefix);
    }
    assert RootTouched(paths) <==>
           exists i :: 0 <= i < |paths|
                       && (Below(paths[i], "src/") || Below(paths[i], "tests/") || Below(paths[i], "examples/"));
    if RootTouched(paths) && name == w.root.name {
      assert w.root in Manifests(w) && OwnChange(w, w.root, paths);
    }
    if m :| m in Manifests(w) && m.name == name && (full || OwnChange(w, m, paths)) {
      assert name in Changed(w, paths, full);
    }
    if name in Changed(w, paths, full) && name != w.root.name {
      var m :| m in Manifests(w) && (full || (m.directory != "." && Touches(paths, m.directory + "/")))
        && m.name == name;
    }
  }

  /** The dependencies that count for a package: those by path in its last manifest, under the name
      of the package they mean. */
  predicate DependsOnLocally(m: Manifest, name: string) {
    exists i :: 0 <= i < |m.dependencies| && m.dependencies[i].local
                && name == match m.dependencies[i].package case Some(n) => n case None => m.dependencies[i].alias
  }

  predicate IsManifestOf(manifests: seq<Manifest>, name: string, k: nat) {
    k < |manifests| && manifests[k].name == name && forall j :: k < j < |manifests| ==> manifests[j].name != name
  }

  lemma {:induction false} EdgesMean(manifests: seq<Manifest>, name: string)
    ensures name in Edges(manifests) <==> exists k: nat :: IsManifestOf(manifests, name, k)
    ensures forall k: nat :: IsManifestOf(manifests, name, k) ==>
              name in Edges(manifests) && Edges(manifests)[name] == LocalDependencies(manifests[k])
  {
    hide LocalDependencies;
    if manifests != [] {
      var n := |manifests| - 1;
      EdgesMean(manifests[..n], name);
      if manifests[n].name == name {
        assert IsManifestOf(manifests, name, n);
      } else {
        if k: nat :| IsManifestOf(manifests[..n], name, k) {
          assert IsManifestOf(manifests, name, k);
        }
        forall k: nat | IsManifestOf(manifests, name, k) ensures IsManifestOf(manifests[..n], name, k) {
        }
      }
    }
  }

  lemma LocalMeans(m: Manifest, name: string)
    ensures name in LocalDependencies(m) <==> DependsOnLocally(m, name)
  {
    if spec :| spec in m.dependencies && spec.local
               && name == (if spec.package.Some? then spec.package.value else spec.alias) {
      var i :| 0 <= i < |m.dependencies| && m.dependencies[i] == spec;
      assert DependsOnLocally(m, name);
    }
    if DependsOnLocally(m, name) {
      var i :| 0 <= i < |m.dependencies| && m.dependencies[i].local
               && name == match m.dependencies[i].package case Some(n) => n case None => m.dependencies[i].alias;
      assert m.dependencies[i] in m.dependencies;
    }
  }

  /** Its last manifest depends on one of the listed packages. */
  ghost predicate DependsOnListed(manifests: seq<Manifest>, name: string, packages: seq<string>) {
    exists k: nat, dep :: IsManifestOf(manifests, name, k) && dep in packages && DependsOnLocally(manifests[k], dep)
  }

  lemma ListedMeans(manifests: seq<Manifest>, name: string, packages: seq<string>)
    ensures DependsOnListed(manifests, name, packages)
            <==> name in Edges(manifests) && exists dep :: dep in Edges(manifests)[name] && dep in packages
  {
    hide DependsOnLocally, LocalDependencies, Edges;
    EdgesMean(manifests, name);
    if name in Edges(manifests) {
      var k: nat :| IsManifestOf(manifests, name, k);
      if dep :| dep in Edges(manifests)[name] && dep in packages {
        LocalMeans(manifests[k], dep);
        assert DependsOnListed(manifests, name, packages);
      }
    }
    if k: nat, dep :| IsManifestOf(manifests, name, k) && dep in packages && DependsOnLocally(manifests[k], dep) {
      LocalMeans(manifests[k], dep);
    }
  }

  /** The packages of a plan, locally: every package with a change of its own (every package, if the
      plan is full) and every package that depends on one of them, and no other. */
  lemma PackagesMean(q: Request, w: Workspace, plan: Plan, name: string)
    requires PlanFor(q, w, plan)
    ensures name in plan.packages
            <==> || (exists m :: m in [w.root] + w.members && m.name == name
                                 && (plan.full || OwnChange(w, m, PathsOf(q))))
                 || DependsOnListed([w.root] + w.members, name, plan.packages)
  {
    hide Changed, Edges, OwnChange, DependsOnListed, Ascending, Planned, Checked, Reason, Full, Affected;
    var edges, changed := Edges(Manifests(w)), Changed(w, PathsOf(q), plan.full);
    ChangedMeans(w, PathsOf(q), plan.full, name);
    ListedMeans(Manifests(w), name, plan.packages);
    AffectedLocally(edges, changed, name);
    assert forall dep :: dep in plan.packages <==> Affected(edges, changed, dep);
  }

  lemma AffectedLocally(edges: map<string, set<string>>, changed: set<string>, name: string)
    ensures Affected(edges, changed, name)
            <==> name in changed || (name in edges && exists dep :: dep in edges[name] && Affected(edges, changed, dep))
  {
    if name in changed {
      ChangedIsAffected(edges, changed, name);
    }
    if name in edges && exists dep :: dep in edges[name] && Affected(edges, changed, dep) {
      var dep :| dep in edges[name] && Affected(edges, changed, dep);
      AffectedStep(edges, changed, name, dep);
    }
    if Affected(edges, changed, name) && name !in changed {
      var p :| DependencyPath(edges, changed, p) && p[0] == name;
      var q := p[1..];
      assert p[0] in edges && p[0 + 1] in edges[p[0]];
      forall i | 0 <= i < |q| - 1 ensures q[i] in edges && q[i + 1] in edges[q[i]] {
        assert p[i + 1] in edges && p[i + 1 + 1] in edges[p[i + 1]];
      }
      assert DependencyPath(edges, changed, q) && q[0] == p[1];
      assert Affected(edges, changed, p[1]);
    }
  }

  /** Tools are those of the planned checks; a job that only serves others is there for one of them;
      and every reason given is one of five, each for its cause. */
  lemma PlanDetails(q: Request, w: Workspace, plan: Plan)
    requires PlanFor(q, w, plan)
    ensures forall tool :: tool in plan.tools
              <==> exists check :: check in plan.checks && check in q.policy.checks && tool in q.policy.checks[check]
    ensures !plan.full && "targets" in plan.jobs ==>
              NamedJob(q, "targets") || "package-smoke" in plan.jobs || "rust" in plan.jobs
    ensures !plan.full && "management-web" in plan.jobs ==>
            NamedJob(q, "management-web") || "package-smoke" in plan.jobs
    ensures !plan.full && "conformance-prepare" in plan.jobs ==>
              NamedJob(q, "conformance-prepare") || "codex-conformance" in plan.jobs || "api-codecs" in plan.jobs
  {
    hide NamedJob, Wanted, Checked, Edges, Changed, Affected, Ascending, Full;
    if !plan.full {
      forall name ensures Wanted(q, name) <==> NamedJob(q, name) {
        NamedMeans(q, name);
      }
    }
    forall tool ensures ToolNeeded(q, tool)
                        <==> exists check :: check in plan.checks && check in q.policy.checks
                                             && tool in q.policy.checks[check] {
      if check :| check in q.policy.checks && Checked(q, check) && tool in q.policy.checks[check] {
        assert check in plan.checks;
      }
    }
  }

  /** Every reason for a plan is given. */
  lemma ReasonsMean(q: Request, w: Workspace, plan: Plan, path: Path)
    requires PlanFor(q, w, plan)
    ensures q.changed == None ==> "unresolved-git-input" in plan.reasons
    ensures q.fullProfile || q.policy.forceFull ==> "explicit-full-profile" in plan.reasons
    ensures path in PathsOf(q) && OwnFile(path) ==> "validation-policy-change" in plan.reasons
    ensures path in PathsOf(q) ==>
              var rule := RuleFor(q.policy.rules, q.match_, path);
              (if rule.Some? then rule.value.name else "unclassified-path") in plan.reasons
  {
    hide RuleFor;
    OwnIsProtected(path);
    PathReasons(q, path);
    hide Edges, Changed, Affected, Ascending, Full, Wanted, Checked, Planned, ToolNeeded, PathsOf, OwnFile, Reason;
    assert q.changed == None ==> Reason(q, "unresolved-git-input");
    assert q.fullProfile || q.policy.forceFull ==> Reason(q, "explicit-full-profile");
  }

  lemma OwnIsProtected(path: Path)
    ensures OwnFile(path) <==> IsProtected(path)
  {
  }

  lemma PathReasons(q: Request, path: Path)
    ensures q.changed == None ==> Reason(q, "unresolved-git-input")
    ensures q.fullProfile || q.policy.forceFull ==> Reason(q, "explicit-full-profile")
    ensures path in PathsOf(q) && IsProtected(path) ==> Reason(q, "validation-policy-change")
    ensures path in PathsOf(q) ==> Reason(q, RuleName(RuleFor(q.policy.rules, q.match_, path)))
  {
    hide RuleFor, IsProtected;
  }

  /** A plan is made only from a policy with distinct jobs whose rules name known jobs and checks. */
  lemma PolicyMeans(q: Request)
    requires Plannable(q)
    ensures forall i, j :: 0 <= i < j < |q.policy.jobs| ==> q.policy.jobs[i] != q.policy.jobs[j]
    ensures forall i, job :: 0 <= i < |q.policy.rules| && job in q.policy.rules[i].ci ==> job in q.policy.jobs
    ensures forall i, check :: 0 <= i < |q.policy.rules| && check in q.policy.rules[i].local ==>
            check in q.policy.checks
  {
    hide Full;
    assert forall i :: 0 <= i < |q.policy.rules| ==> q.policy.rules[i] in q.policy.rules;
  }
}

/**
 * The quick health check of test_system.py: four checks that each return a
 * bool, run in order with collect-all semantics, and a 0/1/2 return code
 * from the number that passed.
 */
module HealthCheck {
  import opened Wrappers
  import opened Text
  import opened Probes

  const ExpectedServices: seq<string> := ["himira-qdrant", "himira-etl", "ondc-mcp-server"]
  const ProductsCollection: string := "ondc_products"
  const SuccessIndicators: seq<string> :=
    ["MCP Server initialized successfully", "Vector search: Enabled", "Vector search auto-initialized: True"]
  const CheckNames: seq<string> := ["Docker Services", "Qdrant Database", "Himira API", "MCP Server"]

  /** `points_count` and `vectors_count` of the products collection. */
  datatype Counts = Counts(points: int, vectors: int)

  // ---------------------------------------------------------------------
  // test_qdrant
  // ---------------------------------------------------------------------

  /** None of the requests raises: none fails, and every 200 answer has
      the keys the check indexes (a missing key raises `KeyError`). */
  predicate NothingRaises(collections: Reply<Option<seq<string>>>, details: Reply<Option<Counts>>, search: Reply<Option<nat>>)
  {
    !collections.RequestFailed? && !details.RequestFailed? && !search.RequestFailed?
    && (IsOk(collections) ==> collections.body.Some?)
    && (IsOk(details) ==> details.body.Some?)
    && (IsOk(search) ==> search.body.Some?)
  }

  /** `test_qdrant`: only a failed health check or an exception returns
      False; a missing collection listing, a missing collection, missing
      details, an empty collection and a failed search are warnings. A body
      is `None` when it lacks a key the check reads. */
  function QdrantQuick(health: Reply<()>, collections: Reply<Option<seq<string>>>,
                       details: Reply<Option<Counts>>, search: Reply<Option<nat>>): (r: bool)
    ensures r ==> IsOk(health)
    ensures IsOk(health) && (collections.RequestFailed? || (IsOk(collections) && collections.body.None?)) ==> !r
    ensures (IsOk(health) && IsOk(collections) && collections.body.Some? && ProductsCollection in collections.body.value
             && (details.RequestFailed? || (IsOk(details) && details.body.None?))) ==> !r
    ensures IsOk(health) && NothingRaises(collections, details, search) ==> r
    ensures IsOk(health) && collections.Answered? && collections.status != 200 ==> r
    ensures (IsOk(health) && IsOk(collections) && collections.body.Some?
             && ProductsCollection !in collections.body.value) ==> r
    ensures (IsOk(health) && IsOk(collections) && collections.body.Some? && ProductsCollection in collections.body.value
             && details.Answered? && details.status != 200) ==> r
    ensures (IsOk(health) && IsOk(collections) && collections.body.Some? && ProductsCollection in collections.body.value
             && IsOk(details) && details.body.Some? && details.body.value.points <= 0) ==> r
    ensures (IsOk(health) && IsOk(collections) && collections.body.Some? && ProductsCollection in collections.body.value
             && IsOk(details) && details.body.Some? && details.body.value.points > 0) ==>
      (r <==> search.Answered? && (search.status == 200 ==> search.body.Some?))
  {
    if !IsOk(health) then false
    else if collections.RequestFailed? then false
    else if collections.status != 200 then true
    else if collections.body.None? then false
    else if ProductsCollection !in collections.body.value then true
    else if details.RequestFailed? then false
    else if details.status != 200 then true
    else if details.body.None? then false
    else if details.body.value.points <= 0 then true
    else if search.RequestFailed? then false
    else if search.status != 200 then true
    else search.body.Some?
  }

  // ---------------------------------------------------------------------
  // test_himira_api
  // ---------------------------------------------------------------------

  /** `test_himira_api`: True exactly on HTTP 200 with a body that is a JSON
      object (`None` when reading it raised). */
  function HimiraQuick(api: Reply<Option<nat>>): (r: bool)
    ensures r <==> IsOk(api) && api.body.Some?
    ensures api.RequestFailed? ==> !r
  {
    match api
    case RequestFailed => false
    case Answered(status, products) => status == 200 && products.Some?
  }

  // ---------------------------------------------------------------------
  // test_docker_services
  // ---------------------------------------------------------------------

  /** `line.split('\t')[0]`: the text before the first tab, or the whole
      line when it has none. */
  function ServiceName(line: string): (name: string)
    ensures |name| <= |line| && name == line[..|name|] && '\t' !in name
    ensures |name| < |line| ==> line[|name|] == '\t'
  {
    FirstPiece(line, '\t')
  }

  /** The service name of every line. */
  function ServiceNames(lines: seq<string>): (names: seq<string>)
    ensures |names| == |lines|
    ensures forall i :: 0 <= i < |lines| ==> names[i] == ServiceName(lines[i])
  {
    seq(|lines|, i requires 0 <= i < |lines| => ServiceName(lines[i]))
  }

  /** The expected names among the lines' service names, in output order. */
  function Found(lines: seq<string>): (found: seq<string>)
    ensures forall n :: n in found <==> n in ExpectedServices && n in ServiceNames(lines)
    ensures forall n :: multiset(found)[n] == if n in ExpectedServices then multiset(ServiceNames(lines))[n] else 0
    ensures IsSubsequence(found, ServiceNames(lines))
  {
    Filter(ServiceNames(lines), n => n in ExpectedServices)
  }

  /** The loop that collects `found_services`. */
  method FoundServices(lines: seq<string>) returns (found: seq<string>)
    ensures found == Found(lines)
  {
    found := [];
    for i := 0 to |lines|
      invariant found == Filter(ServiceNames(lines[..i]), n => n in ExpectedServices)
    {
      assert ServiceNames(lines[..i + 1])[..i] == ServiceNames(lines[..i]);
      var name := ServiceName(lines[i]);
      if name in ExpectedServices {
        found := found + [name];
      }
    }
    assert lines[..|lines|] == lines;
  }

  /** `docker ps` ran, exited 0 and at least one line names an expected
      service. */
  predicate DockerUp(run: Run)
  {
    run.Ran? && run.exitZero && exists n :: n in ExpectedServices && n in ServiceNames(Lines(run.stdout))
  }

  /** `test_docker_services`: True exactly when DockerUp holds. When no
      service is missing that is so; when some are missing the check
      returns whether any was found. */
  method DockerQuick(run: Run) returns (r: bool)
    ensures r <==> DockerUp(run)
  {
    if run.Crashed? || !run.exitZero {
      return false;
    }
    var lines := Lines(run.stdout);
    var found := FoundServices(lines);
    var missing := Missing(ExpectedServices, found);
    if missing != [] {
      if found != [] {
        assert found[0] in found;
      }
      return |found| > 0;
    }
    assert ExpectedServices[0] in found;
    return true;
  }

  // ---------------------------------------------------------------------
  // test_mcp_server
  // ---------------------------------------------------------------------

  /** `test_mcp_server`: True exactly when the logs command ran, exited 0
      and some indicator occurs in its standard output followed by its
      standard error. */
  function McpQuick(run: Run): (r: bool)
    ensures r <==> (run.Ran? && run.exitZero
                    && exists p :: p in SuccessIndicators && Contains(run.stdout + run.stderr, p))
  {
    match run
    case Crashed => false
    case Ran(exitZero, stdout, stderr) =>
      var found := Present(SuccessIndicators, stdout + stderr);
      assert found != [] ==> found[0] in found;
      exitZero && found != []
  }

  // ---------------------------------------------------------------------
  // main
  // ---------------------------------------------------------------------

  /** What calling a check did: returned a bool, or raised. */
  datatype CheckRun = Finished(value: bool) | Threw

  /** One element of the `tests` list, with the outcome of calling it. */
  datatype QuickTest = QuickTest(name: string, run: CheckRun)

  /** One `(test_name, result)` pair of `results`. */
  datatype Result = Result(name: string, passed: bool)

  /** The results loop of `main`: one pair per check, in order; a check
      that raised counts as False. */
  method RunQuickTests(tests: seq<QuickTest>) returns (results: seq<Result>)
    ensures |results| == |tests|
    ensures forall i :: 0 <= i < |tests| ==>
      results[i].name == tests[i].name && (results[i].passed <==> tests[i].run == Finished(true))
  {
    results := [];
    for i := 0 to |tests|
      invariant |results| == i
      invariant forall k :: 0 <= k < i ==>
        results[k].name == tests[k].name && (results[k].passed <==> tests[k].run == Finished(true))
    {
      match tests[i].run
      case Finished(value) =>
        results := results + [Result(tests[i].name, value)];
      case Threw =>
        results := results + [Result(tests[i].name, false)];
    }
  }

  /** `sum(1 for _, result in results if result)`. */
  function Passed(results: seq<Result>): (n: nat)
    ensures n <= |results|
    ensures n == |results| <==> forall i :: 0 <= i < |results| ==> results[i].passed
  {
    if results == [] then 0
    else
      var rest := Passed(results[1..]);
      assert forall i :: 1 <= i < |results| ==> results[1..][i - 1] == results[i];
      rest + (if results[0].passed then 1 else 0)
  }

  /** The return code for `passed` of `total` checks; `None` for an empty
      list, where the score line divides by zero and `main` raises. */
  function QuickExit(passed: nat, total: nat): (code: Option<int>)
    requires passed <= total
    ensures code.None? <==> total == 0
    ensures code == Some(0) <==> total > 0 && passed == total
    ensures code == Some(1) <==> passed < total && passed as real >= total as real * 0.75
    ensures code == Some(2) <==> passed as real < total as real * 0.75
  {
    if total == 0 then None
    else if passed == total then Some(0)
    else if 4 * passed >= 3 * total then Some(1)
    else Some(2)
  }

  /** One more pass never gives a worse return code. */
  lemma QuickExitMonotone(passed: nat, more: nat, total: nat)
    requires passed <= more <= total && total > 0
    ensures QuickExit(more, total).value <= QuickExit(passed, total).value
  {
  }

  /** With the four checks of the list, three passes return 1 and two
      return 2. */
  lemma FourChecks()
    ensures QuickExit(3, 4) == Some(1)
    ensures QuickExit(2, 4) == Some(2)
  {
  }

  /** The observations the four checks read. */
  datatype QuickObservations = QuickObservations(
    dockerPs: Run,
    health: Reply<()>, collections: Reply<Option<seq<string>>>,
    details: Reply<Option<Counts>>, search: Reply<Option<nat>>,
    api: Reply<Option<nat>>,
    mcpLogs: Run)

  /** `main`: run the four checks in order and derive the return code from
      how many passed. */
  method QuickMain(obs: QuickObservations) returns (results: seq<Result>, code: Option<int>)
    ensures |results| == |CheckNames|
    ensures forall i :: 0 <= i < |results| ==> results[i].name == CheckNames[i]
    ensures results[0].passed == DockerUp(obs.dockerPs)
    ensures results[1].passed == QdrantQuick(obs.health, obs.collections, obs.details, obs.search)
    ensures results[2].passed == HimiraQuick(obs.api)
    ensures results[3].passed == McpQuick(obs.mcpLogs)
    ensures code == QuickExit(Passed(results), |results|)
    ensures code.Some? && code.value in {0, 1, 2}
  {
    var docker := DockerQuick(obs.dockerPs);
    var tests := [
      QuickTest(CheckNames[0], Finished(docker)),
      QuickTest(CheckNames[1], Finished(QdrantQuick(obs.health, obs.collections, obs.details, obs.search))),
      QuickTest(CheckNames[2], Finished(HimiraQuick(obs.api))),
      QuickTest(CheckNames[3], Finished(McpQuick(obs.mcpLogs)))
    ];
    results := RunQuickTests(tests);
    code := QuickExit(Passed(results), |results|);
  }
}

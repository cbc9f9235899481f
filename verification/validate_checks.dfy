/**
 * The individual checks of `SystemValidator` in validate_system.py. Each
 * check returns `(passed, message)`; the message is modelled as a `Reason`
 * carrying the values the f-string interpolates. What a check reads from
 * docker, HTTP or the file system is an observation parameter.
 */
module ValidateChecks {
  import opened Wrappers
  import opened Text
  import opened Probes

  /** One constructor per message a check can return. */
  datatype Reason =
    // test_docker_services
    | ComposeFileNotFound
    | ComposeCheckFailed(composeOutput: string)
    | ServiceNotFound(service: string)
    | RunningCheckFailed(runningOutput: string)
    | ContainersNotRunning(missing: seq<string>)
    | AllContainersRunning(containers: seq<string>)
    // test_qdrant_health
    | QdrantUnhealthy(healthStatus: int)
    | CollectionsUnavailable(collectionsStatus: int)
    | CollectionNotFound
    | QdrantOk(points: int, vectors: int)
    | QdrantOkWithoutDetails
    | QdrantConnectionFailed
    // test_vector_search
    | SearchOk(results: nat)
    | SearchFailed(searchStatus: int)
    | SearchRequestFailed
    // test_himira_api
    | ApiOk(products: nat)
    | ApiFailed(apiStatus: int)
    | ApiRequestFailed
    // test_mcp_server_logs
    | McpLogsUnavailable(logsOutput: string)
    | McpOk(found: nat)
    | McpNotInitialized
    // test_etl_functionality
    | EtlStatusUnavailable(statusOutput: string)
    | EtlNotRunning
    | EtlLogsUnavailable(etlLogsOutput: string)
    | EtlWorking
    | EtlIdle
    // test_environment_config
    | ConfigMissing(files: seq<string>)
    | PlaceholderFound(placeholder: string, file: string)
    | ConfigUnreadable(unreadable: string)
    | ConfigComplete
    // test_ports_accessibility
    | PortsAccessible(ports: seq<Port>)
    | NoPortsAccessible
    // test_disk_space
    | DiskCheckFailed(dfOutput: string)
    | DfUnexpected
    | DiskAvailable(available: string)
    // test_system_resources
    | StatsAvailable(monitored: int)
    | ResourcesChecked

  /** The `(passed, message)` pair every check returns. */
  datatype CheckResult = CheckResult(passed: bool, reason: Reason)

  /** A port the validator probes, with the service name it reports. */
  datatype Port = Port(number: int, service: string)

  /** Qdrant's `points_count` and `vectors_count`, already defaulted to 0
      when the JSON lacks them. */
  datatype CollectionInfo = CollectionInfo(points: int, vectors: int)

  const RequiredServices: seq<string> := ["qdrant", "etl", "mcp-server"]
  const ExpectedContainers: seq<string> := ["himira-qdrant", "himira-etl", "ondc-mcp-server"]
  const ProductsCollection: string := "ondc_products"
  const SuccessIndicators: seq<string> :=
    ["MCP Server initialized successfully", "Vector search: Enabled", "Vector search auto-initialized: True"]
  const ConfigFiles: seq<string> := ["ondc-shopping-mcp/.env", "himira_vector_db/.env"]
  const Placeholders: seq<string> := ["your_api_key_here", "your-api-key", "your_gemini_api_key_here"]
  const RequiredPorts: seq<Port> := [Port(6333, "Qdrant HTTP"), Port(6334, "Qdrant gRPC")]

  // ---------------------------------------------------------------------
  // test_docker_services
  // ---------------------------------------------------------------------

  /** `services[k]` is the first service that is not a substring of `output`. */
  predicate FirstAbsent(services: seq<string>, output: string, k: int)
  {
    0 <= k < |services| && !Contains(output, services[k])
    && forall j :: 0 <= j < k ==> Contains(output, services[j])
  }

  /** The second half of the Docker check: the running-container names are
      the lines of `docker ps` output, and every expected container must be
      one of them. On failure it names exactly the absent containers, in
      the order they are expected. */
  function RunningContainers(running: Command): (r: CheckResult)
    ensures !running.ok ==> r == CheckResult(false, RunningCheckFailed(running.output))
    ensures running.ok ==>
      (r.passed <==> forall c :: c in ExpectedContainers ==> c in Lines(running.output))
    ensures r.passed ==> r.reason == AllContainersRunning(ExpectedContainers)
    ensures running.ok && !r.passed ==>
      r.reason.ContainersNotRunning?
      && r.reason.missing != []
      && (forall c :: c in r.reason.missing <==> c in ExpectedContainers && c !in Lines(running.output))
      && IsSubsequence(r.reason.missing, ExpectedContainers)
  {
    if !running.ok then CheckResult(false, RunningCheckFailed(running.output))
    else
      var missing := Missing(ExpectedContainers, Lines(running.output));
      if missing != [] then CheckResult(false, ContainersNotRunning(missing))
      else CheckResult(true, AllContainersRunning(ExpectedContainers))
  }

  /** Empty (or blank) `docker ps` output: all three containers are missing. */
  lemma NothingRunning(running: Command)
    requires running.ok && AllSpace(running.output)
    ensures RunningContainers(running) == CheckResult(false, ContainersNotRunning(ExpectedContainers))
  {
    LinesEmpty(running.output);
    MissingFromNothing(ExpectedContainers);
  }

  /** `test_docker_services`: the compose file must exist, `docker-compose ps`
      must succeed and mention every required service (the first one absent
      is reported), and then every expected container must be running. */
  method DockerServices(composeFileExists: bool, compose: Command, running: Command) returns (r: CheckResult)
    ensures !composeFileExists ==> r == CheckResult(false, ComposeFileNotFound)
    ensures composeFileExists && !compose.ok ==> r == CheckResult(false, ComposeCheckFailed(compose.output))
    ensures composeFileExists && compose.ok ==>
      forall k :: FirstAbsent(RequiredServices, compose.output, k) ==>
        r == CheckResult(false, ServiceNotFound(RequiredServices[k]))
    ensures composeFileExists && compose.ok ==>
      (forall k :: 0 <= k < |RequiredServices| ==> Contains(compose.output, RequiredServices[k])) ==>
        r == RunningContainers(running)
  {
    if !composeFileExists {
      return CheckResult(false, ComposeFileNotFound);
    }
    if !compose.ok {
      return CheckResult(false, ComposeCheckFailed(compose.output));
    }
    var i := 0;
    while i < |RequiredServices|
      invariant 0 <= i <= |RequiredServices|
      invariant forall j :: 0 <= j < i ==> Contains(compose.output, RequiredServices[j])
    {
      if !Contains(compose.output, RequiredServices[i]) {
        assert FirstAbsent(RequiredServices, compose.output, i);
        return CheckResult(false, ServiceNotFound(RequiredServices[i]));
      }
      i := i + 1;
    }
    return RunningContainers(running);
  }

  // ---------------------------------------------------------------------
  // test_qdrant_health, test_vector_search, test_himira_api
  // ---------------------------------------------------------------------

  /** `test_qdrant_health`: health and collection listing must answer 200,
      the products collection must be listed, and the details request must
      not fail; a non-200 details answer still passes, without counts. */
  function QdrantHealth(health: Reply<()>, collections: Reply<seq<string>>, details: Reply<CollectionInfo>): (r: CheckResult)
    ensures r.passed <==>
      IsOk(health) && IsOk(collections) && ProductsCollection in collections.body && !details.RequestFailed?
    ensures r.passed && IsOk(details) ==> r.reason == QdrantOk(details.body.points, details.body.vectors)
    ensures r.passed && !IsOk(details) ==> r.reason == QdrantOkWithoutDetails
    ensures health.RequestFailed? ==> r == CheckResult(false, QdrantConnectionFailed)
    ensures health.Answered? && health.status != 200 ==> r == CheckResult(false, QdrantUnhealthy(health.status))
    ensures IsOk(health) && collections.RequestFailed? ==> r == CheckResult(false, QdrantConnectionFailed)
    ensures IsOk(health) && collections.Answered? && collections.status != 200 ==>
      r == CheckResult(false, CollectionsUnavailable(collections.status))
    ensures IsOk(health) && IsOk(collections) && ProductsCollection !in collections.body ==>
      r == CheckResult(false, CollectionNotFound)
    ensures IsOk(health) && IsOk(collections) && ProductsCollection in collections.body && details.RequestFailed? ==>
      r == CheckResult(false, QdrantConnectionFailed)
  {
    if health.RequestFailed? then CheckResult(false, QdrantConnectionFailed)
    else if health.status != 200 then CheckResult(false, QdrantUnhealthy(health.status))
    else if collections.RequestFailed? then CheckResult(false, QdrantConnectionFailed)
    else if collections.status != 200 then CheckResult(false, CollectionsUnavailable(collections.status))
    else if ProductsCollection !in collections.body then CheckResult(false, CollectionNotFound)
    else if details.RequestFailed? then CheckResult(false, QdrantConnectionFailed)
    else if details.status == 200 then CheckResult(true, QdrantOk(details.body.points, details.body.vectors))
    else CheckResult(true, QdrantOkWithoutDetails)
  }

  /** `test_vector_search`: passes exactly on HTTP 200, reporting how many
      hits came back. */
  function VectorSearch(search: Reply<nat>): (r: CheckResult)
    ensures r.passed <==> IsOk(search)
    ensures r.passed ==> r.reason == SearchOk(search.body)
    ensures search.RequestFailed? ==> r.reason == SearchRequestFailed
    ensures search.Answered? && search.status != 200 ==> r.reason == SearchFailed(search.status)
  {
    match search
    case RequestFailed => CheckResult(false, SearchRequestFailed)
    case Answered(status, hits) =>
      if status == 200 then CheckResult(true, SearchOk(hits)) else CheckResult(false, SearchFailed(status))
  }

  /** `test_himira_api`: passes exactly on HTTP 200, reporting how many
      products the search for "laptop" found. */
  function HimiraApi(api: Reply<nat>): (r: CheckResult)
    ensures r.passed <==> IsOk(api)
    ensures r.passed ==> r.reason == ApiOk(api.body)
    ensures api.RequestFailed? ==> r.reason == ApiRequestFailed
    ensures api.Answered? && api.status != 200 ==> r.reason == ApiFailed(api.status)
  {
    match api
    case RequestFailed => CheckResult(false, ApiRequestFailed)
    case Answered(status, products) =>
      if status == 200 then CheckResult(true, ApiOk(products)) else CheckResult(false, ApiFailed(status))
  }

  // ---------------------------------------------------------------------
  // test_mcp_server_logs
  // ---------------------------------------------------------------------

  /** The loop that collects `found_indicators`: the patterns that occur in
      `output`, in list order. */
  method FoundIndicators(patterns: seq<string>, output: string) returns (found: seq<string>)
    ensures found == Present(patterns, output)
  {
    found := [];
    for i := 0 to |patterns|
      invariant found == Present(patterns[..i], output)
    {
      assert patterns[..i + 1][..i] == patterns[..i];
      if Contains(output, patterns[i]) {
        found := found + [patterns[i]];
      }
    }
    assert patterns[..|patterns|] == patterns;
  }

  /** `test_mcp_server_logs`: passes exactly when at least one of the three
      success indicators occurs in the container's logs, and reports how
      many occur. */
  method McpServerLogs(logs: Command) returns (r: CheckResult)
    ensures !logs.ok ==> r == CheckResult(false, McpLogsUnavailable(logs.output))
    ensures logs.ok ==>
      (r.passed <==> exists p :: p in SuccessIndicators && Contains(logs.output, p))
    ensures logs.ok && r.passed ==>
      r.reason == McpOk(|Present(SuccessIndicators, logs.output)|) && 1 <= r.reason.found <= |SuccessIndicators|
    ensures logs.ok && !r.passed ==> r.reason == McpNotInitialized
  {
    if !logs.ok {
      return CheckResult(false, McpLogsUnavailable(logs.output));
    }
    var found := FoundIndicators(SuccessIndicators, logs.output);
    PresentBounds(SuccessIndicators, logs.output);
    if found != [] {
      return CheckResult(true, McpOk(|found|));
    }
    return CheckResult(false, McpNotInitialized);
  }

  // ---------------------------------------------------------------------
  // test_etl_functionality
  // ---------------------------------------------------------------------

  /** The ETL logs, lower-cased, mention a completed extraction. */
  predicate ShowsExtraction(logs: string)
  {
    Contains(Lower(logs), "extraction completed") || Contains(Lower(logs), "extracted")
  }

  /** `test_etl_functionality`: the container's status must say "Up" and
      its logs must be readable; what the logs say changes only the
      message, never the verdict. */
  function EtlFunctionality(status: Command, logs: Command): (r: CheckResult)
    ensures r.passed <==> status.ok && Contains(status.output, "Up") && logs.ok
    ensures r.passed ==> (r.reason == EtlWorking <==> ShowsExtraction(logs.output))
    ensures r.passed ==> (r.reason == EtlIdle <==> !ShowsExtraction(logs.output))
    ensures !status.ok ==> r == CheckResult(false, EtlStatusUnavailable(status.output))
    ensures status.ok && !Contains(status.output, "Up") ==> r == CheckResult(false, EtlNotRunning)
    ensures status.ok && Contains(status.output, "Up") && !logs.ok ==>
      r == CheckResult(false, EtlLogsUnavailable(logs.output))
  {
    if !status.ok then CheckResult(false, EtlStatusUnavailable(status.output))
    else if !Contains(status.output, "Up") then CheckResult(false, EtlNotRunning)
    else if !logs.ok then CheckResult(false, EtlLogsUnavailable(logs.output))
    else if ShowsExtraction(logs.output) then CheckResult(true, EtlWorking)
    else CheckResult(true, EtlIdle)
  }

  // ---------------------------------------------------------------------
  // test_environment_config
  // ---------------------------------------------------------------------

  /** The files that do not exist, in the order they are listed. */
  function Absent(files: seq<string>, present: string -> bool): (r: seq<string>)
    ensures forall f :: f in r <==> f in files && !present(f)
    ensures forall f :: multiset(r)[f] == if present(f) then 0 else multiset(files)[f]
    ensures IsSubsequence(r, files)
  {
    Filter(files, f => !present(f))
  }

  /** The loop that collects `missing_files`. */
  method CollectMissing(files: seq<string>, present: string -> bool) returns (missing: seq<string>)
    ensures missing == Absent(files, present)
  {
    missing := [];
    for i := 0 to |files|
      invariant missing == Absent(files[..i], present)
    {
      assert files[..i + 1][..i] == files[..i];
      if !present(files[i]) {
        missing := missing + [files[i]];
      }
    }
    assert files[..|files|] == files;
  }

  /** The loop over `placeholder_indicators` for one file's content: the
      first pattern that occurs, scanning in list order. */
  method ScanFor(patterns: seq<string>, content: string) returns (found: Option<string>)
    ensures found == FirstOccurring(patterns, content)
  {
    for j := 0 to |patterns|
      invariant forall k :: 0 <= k < j ==> !Contains(content, patterns[k])
    {
      if Contains(content, patterns[j]) {
        FirstOccurringAt(patterns, content, j);
        return Some(patterns[j]);
      }
    }
    return None;
  }

  /** What is wrong with one existing config file, if anything: it cannot
      be read, or it holds a placeholder (the first in listed order). */
  function FileProblem(read: string -> Option<string>, file: string): (r: Option<Reason>)
    ensures r.None? <==> read(file).Some? && FirstOccurring(Placeholders, read(file).value).None?
  {
    match read(file)
    case None => Some(ConfigUnreadable(file))
    case Some(content) =>
      match FirstOccurring(Placeholders, content)
      case None => None
      case Some(p) => Some(PlaceholderFound(p, file))
  }

  /** `ConfigFiles[i]` is the first config file with a problem. */
  predicate FirstProblemAt(read: string -> Option<string>, i: int)
  {
    0 <= i < |ConfigFiles| && FileProblem(read, ConfigFiles[i]).Some?
    && forall k :: 0 <= k < i ==> FileProblem(read, ConfigFiles[k]).None?
  }

  /** `test_environment_config`: if any config file is missing, fail listing
      all of them; otherwise fail on the first problem found scanning the
      files in order and, within a file, the placeholders in order; otherwise
      pass. `present` and `read` stand for `os.path.exists` and reading the
      file (`None` when reading raised). */
  method EnvironmentConfig(present: string -> bool, read: string -> Option<string>) returns (r: CheckResult)
    ensures (exists i :: 0 <= i < |ConfigFiles| && !present(ConfigFiles[i])) ==>
      r == CheckResult(false, ConfigMissing(Absent(ConfigFiles, present)))
    ensures (forall i :: 0 <= i < |ConfigFiles| ==> present(ConfigFiles[i])) ==>
      forall i :: FirstProblemAt(read, i) ==> r == CheckResult(false, FileProblem(read, ConfigFiles[i]).value)
    ensures (forall i :: 0 <= i < |ConfigFiles| ==> present(ConfigFiles[i])) ==>
      (r.passed <==> forall i :: 0 <= i < |ConfigFiles| ==> FileProblem(read, ConfigFiles[i]).None?)
    ensures r.passed ==> r.reason == ConfigComplete
  {
    var missing := CollectMissing(ConfigFiles, present);
    if missing != [] {
      assert missing[0] in missing;
      return CheckResult(false, ConfigMissing(missing));
    }
    r := ScanConfigFiles(read);
  }

  /** The placeholder pass of `test_environment_config`, once every file
      exists: the first problem, scanning files and then placeholders in
      order, fails the check; otherwise it passes. */
  method ScanConfigFiles(read: string -> Option<string>) returns (r: CheckResult)
    ensures forall i :: FirstProblemAt(read, i) ==> r == CheckResult(false, FileProblem(read, ConfigFiles[i]).value)
    ensures r.passed <==> forall i :: 0 <= i < |ConfigFiles| ==> FileProblem(read, ConfigFiles[i]).None?
    ensures r.passed ==> r.reason == ConfigComplete
  {
    for i := 0 to |ConfigFiles|
      invariant forall k :: 0 <= k < i ==> FileProblem(read, ConfigFiles[k]).None?
    {
      var file := ConfigFiles[i];
      match read(file)
      case None =>
        assert FirstProblemAt(read, i);
        return CheckResult(false, ConfigUnreadable(file));
      case Some(content) =>
        var found := ScanFor(Placeholders, content);
        if found.Some? {
          assert FirstProblemAt(read, i);
          return CheckResult(false, PlaceholderFound(found.value, file));
        }
    }
    return CheckResult(true, ConfigComplete);
  }

  // ---------------------------------------------------------------------
  // test_ports_accessibility
  // ---------------------------------------------------------------------

  /** Those of `ports` whose health endpoint answered 200, in order. */
  function AccessibleAmong(ports: seq<Port>, probe: int -> Reply<()>): (r: seq<Port>)
    ensures forall p :: p in r <==> p in ports && IsOk(probe(p.number))
    ensures forall p :: multiset(r)[p] == if IsOk(probe(p.number)) then multiset(ports)[p] else 0
    ensures IsSubsequence(r, ports)
  {
    Filter(ports, (p: Port) => IsOk(probe(p.number)))
  }

  /** The required ports whose health endpoint answered 200, in order. */
  function AccessiblePorts(probe: int -> Reply<()>): (r: seq<Port>)
    ensures forall p :: p in r <==> p in RequiredPorts && IsOk(probe(p.number))
    ensures IsSubsequence(r, RequiredPorts)
  {
    AccessibleAmong(RequiredPorts, probe)
  }

  /** The `accessible_ports` loop. */
  method CollectAccessible(ports: seq<Port>, probe: int -> Reply<()>) returns (accessible: seq<Port>)
    ensures accessible == AccessibleAmong(ports, probe)
  {
    accessible := [];
    for i := 0 to |ports|
      invariant accessible == AccessibleAmong(ports[..i], probe)
    {
      assert ports[..i + 1][..i] == ports[..i];
      if IsOk(probe(ports[i].number)) {
        accessible := accessible + [ports[i]];
      }
    }
    assert ports[..|ports|] == ports;
  }

  /** `test_ports_accessibility`: passes exactly when some required port
      answers 200, listing those that do; a port whose request raised is
      skipped like one that answered otherwise. */
  method PortsAccessibility(probe: int -> Reply<()>) returns (r: CheckResult)
    ensures r.passed <==> exists i :: 0 <= i < |RequiredPorts| && IsOk(probe(RequiredPorts[i].number))
    ensures r.passed ==> r.reason == PortsAccessible(AccessiblePorts(probe))
    ensures !r.passed ==> r.reason == NoPortsAccessible
  {
    var accessible := CollectAccessible(RequiredPorts, probe);
    if accessible != [] {
      assert accessible[0] in accessible;
      return CheckResult(true, PortsAccessible(accessible));
    }
    assert forall i :: 0 <= i < |RequiredPorts| ==> RequiredPorts[i] in RequiredPorts;
    return CheckResult(false, NoPortsAccessible);
  }

  // ---------------------------------------------------------------------
  // test_disk_space, test_system_resources
  // ---------------------------------------------------------------------

  /** `test_disk_space`: `df` must succeed and print at least two lines;
      the check then passes, reporting the fourth white-space separated
      field of the second line, or "Unknown" when that line is shorter. */
  function DiskSpace(df: Command): (r: CheckResult)
    ensures r.passed <==> df.ok && '\n' in Strip(df.output)
    ensures !df.ok ==> r == CheckResult(false, DiskCheckFailed(df.output))
    ensures df.ok && !r.passed ==> r.reason == DfUnexpected
    ensures r.passed ==>
      var lines := Split(Strip(df.output), '\n');
      |lines| >= 2
      && var fields := Fields(lines[1]);
      r.reason == DiskAvailable(if |fields| > 3 then fields[3] else "Unknown")
    ensures r.passed ==>
      r.reason.DiskAvailable?
      && (r.reason.available == "Unknown" || (r.reason.available != [] && NoSpace(r.reason.available)))
  {
    if !df.ok then CheckResult(false, DiskCheckFailed(df.output))
    else
      var lines := Split(Strip(df.output), '\n');
      if |lines| < 2 then CheckResult(false, DfUnexpected)
      else
        var fields := Fields(lines[1]);
        CheckResult(true, DiskAvailable(if |fields| > 3 then fields[3] else "Unknown"))
  }

  /** On a `df` report shaped as a header line, then a row of columns
      separated by runs of blanks (with optional blanks before the first
      column), then any trailing white space, the check reports the
      fourth column. */
  lemma DfReportsFourthColumn(header: string, lead: string, columns: seq<string>, gaps: seq<string>, trail: string)
    requires header != [] && !IsSpace(header[0]) && '\n' !in header
    requires AllSpace(lead) && '\n' !in lead
    requires AreWords(columns) && |columns| > 3
    requires |gaps| == |columns| && AreGaps(gaps) && gaps[|gaps| - 1] == []
    requires forall i :: 0 <= i < |gaps| ==> '\n' !in gaps[i]
    requires AllSpace(trail)
    ensures DiskSpace(Command(true, header + ['\n'] + lead + Spaced(columns, gaps) + trail))
         == CheckResult(true, DiskAvailable(columns[3]))
  {
    var body := Spaced(columns, gaps);
    var row := lead + body;
    var x := header + ['\n'] + row;
    var out := header + ['\n'] + lead + body + trail;
    assert out == x + trail;
    SpacedEndsInWord(columns, gaps);
    assert x[|x| - 1] == body[|body| - 1];
    TrimEndPadding(x, trail);
    assert TrimStart(out) == out;
    assert Strip(out) == x;
    SpacedOneLine(columns, gaps);
    assert '\n' !in row;
    SplitCons(header, '\n', row);
    assert Split(row, '\n') == [row];
    FieldsOfSpaced(lead, columns, gaps);
  }

  /** `test_system_resources`: never fails; when `docker stats` printed
      something it reports the non-blank lines minus the header. */
  function SystemResources(stats: Command): (r: CheckResult)
    ensures r.passed
    ensures stats.ok && stats.output != [] ==>
      r.reason.StatsAvailable? && r.reason.monitored < |Split(stats.output, '\n')|
  {
    if stats.ok && stats.output != [] then
      var rows := Filter(Split(stats.output, '\n'), line => Strip(line) != []);
      CheckResult(true, StatsAvailable(|rows| - 1))
    else
      CheckResult(true, ResourcesChecked)
  }
}

/**
 * `SystemValidator.run_validation_suite`, `print_summary` and `main` in
 * validate_system.py: run every check of a fixed list in order, collect
 * every result (a check that fails or raises does not stop the others),
 * count the passes and map the pass rate onto a verdict and an exit code.
 */
module ValidateSuite {
  import opened Wrappers
  import opened Text
  import opened Probes
  import opened ValidateChecks

  /** What calling a check did: it returned its `(passed, message)` pair, or
      it raised an exception with the given text. */
  datatype Outcome = Returned(result: CheckResult) | Raised(error: string)

  /** One element of the `tests` list, with the outcome of calling it. */
  datatype Test = Test(name: string, outcome: Outcome)

  /** The `message` stored for a check. */
  datatype Message = Reported(reason: Reason) | UnexpectedError(error: string)

  /** The `{"passed": ..., "message": ...}` dict stored for a check. */
  datatype TestRecord = TestRecord(passed: bool, message: Message)

  /** One key of the insertion-ordered `results` dict, with its value. */
  datatype Entry = Entry(name: string, record: TestRecord)

  /** The summary dict, without its timestamp and duration. */
  datatype Summary = Summary(totalTests: nat, passedTests: nat, failedTests: int, results: seq<Entry>)

  const SuiteNames: seq<string> := [
    "Docker Services", "Qdrant Database", "Vector Search", "Himira API", "MCP Server",
    "ETL Pipeline", "Environment Config", "Port Accessibility", "Disk Space", "System Resources"
  ]

  // ---------------------------------------------------------------------
  // The results dict
  // ---------------------------------------------------------------------

  /** The value stored for a check: what it returned, or, when it raised,
      a failure carrying the exception text. */
  function RecordOf(o: Outcome): (r: TestRecord)
    ensures r.passed <==> o.Returned? && o.result.passed
    ensures o.Returned? ==> r.message == Reported(o.result.reason)
    ensures o.Raised? ==> r.message == UnexpectedError(o.error)
  {
    match o
    case Returned(c) => TestRecord(c.passed, Reported(c.reason))
    case Raised(e) => TestRecord(false, UnexpectedError(e))
  }

  /** The keys of the dict, in insertion order. */
  function Keys(results: seq<Entry>): (ks: seq<string>)
    ensures |ks| == |results|
    ensures forall i :: 0 <= i < |results| ==> ks[i] == results[i].name
  {
    if results == [] then [] else [results[0].name] + Keys(results[1..])
  }

  /** `results.get(name)`. */
  function Get(results: seq<Entry>, name: string): Option<TestRecord>
  {
    if results == [] then None
    else if results[0].name == name then Some(results[0].record)
    else Get(results[1..], name)
  }

  /** `results.get(name)` finds a value exactly for the keys of the dict,
      and the value it finds is the one stored under `name`. */
  lemma {:induction false} GetKeys(results: seq<Entry>, name: string)
    ensures Get(results, name).Some? <==> name in Keys(results)
    ensures Get(results, name).Some? ==> Entry(name, Get(results, name).value) in results
  {
    if results != [] {
      assert Keys(results) == [results[0].name] + Keys(results[1..]);
      if results[0].name != name {
        GetKeys(results[1..], name);
        assert results == [results[0]] + results[1..];
      }
    }
  }

  /** `results[name] = record`: a new key goes at the end, an existing key
      keeps its place and gets the new value. */
  function Put(results: seq<Entry>, name: string, record: TestRecord): (r: seq<Entry>)
    ensures Get(r, name) == Some(record)
    ensures forall other :: other != name ==> Get(r, other) == Get(results, other)
    ensures name !in Keys(results) ==> Keys(r) == Keys(results) + [name]
    ensures name in Keys(results) ==> Keys(r) == Keys(results)
  {
    if results == [] then [Entry(name, record)]
    else if results[0].name == name then [Entry(name, record)] + results[1..]
    else
      var r := [results[0]] + Put(results[1..], name, record);
      assert r[1..] == Put(results[1..], name, record);
      assert Keys(results)[1..] == Keys(results[1..]);
      r
  }

  /** A new key is appended. */
  lemma PutNew(results: seq<Entry>, name: string, record: TestRecord)
    requires name !in Keys(results)
    ensures Put(results, name, record) == results + [Entry(name, record)]
    decreases |results|
  {
    if results != [] {
      assert Keys(results)[1..] == Keys(results[1..]);
      PutNew(results[1..], name, record);
      assert results == [results[0]] + results[1..];
    }
  }

  /** The dict after the loop has run over `tests`. */
  function Recorded(tests: seq<Test>): (r: seq<Entry>)
    ensures |r| <= |tests|
    ensures forall n :: n in Keys(r) <==> n in TestNames(tests)
  {
    if tests == [] then []
    else
      var init := tests[..|tests| - 1];
      var last := tests[|tests| - 1];
      assert TestNames(tests) == TestNames(init) + [last.name];
      Put(Recorded(init), last.name, RecordOf(last.outcome))
  }

  /** `passed_tests` after the loop: one for every check that returned a pass. */
  function PassCount(tests: seq<Test>): (n: nat)
    ensures n <= |tests|
  {
    if tests == [] then 0
    else PassCount(tests[..|tests| - 1]) + (if RecordOf(tests[|tests| - 1].outcome).passed then 1 else 0)
  }

  /** The check names, in list order. */
  function TestNames(tests: seq<Test>): (ns: seq<string>)
    ensures |ns| == |tests|
    ensures forall i :: 0 <= i < |tests| ==> ns[i] == tests[i].name
  {
    seq(|tests|, i requires 0 <= i < |tests| => tests[i].name)
  }

  /** No two elements of `names` are equal. */
  predicate Distinct(names: seq<string>)
  {
    forall i, j :: 0 <= i < j < |names| ==> names[i] != names[j]
  }

  /** No two checks share a name. */
  predicate DistinctNames(tests: seq<Test>)
  {
    Distinct(TestNames(tests))
  }

  /** The fixed list has ten different names. */
  lemma SuiteNamesDistinct()
    ensures |SuiteNames| == 10 && Distinct(SuiteNames)
  {
  }

  /** One entry per check, in list order: what the dict holds when no two
      checks share a name. */
  function Entries(tests: seq<Test>): (es: seq<Entry>)
    ensures |es| == |tests|
    ensures forall i :: 0 <= i < |tests| ==> es[i] == Entry(tests[i].name, RecordOf(tests[i].outcome))
  {
    if tests == [] then []
    else
      var last := tests[|tests| - 1];
      Entries(tests[..|tests| - 1]) + [Entry(last.name, RecordOf(last.outcome))]
  }

  /** With distinct names, every check has exactly one entry, in list order,
      holding what it returned or the failure its exception became. */
  lemma {:induction false} OneEntryPerCheck(tests: seq<Test>)
    requires DistinctNames(tests)
    ensures Recorded(tests) == Entries(tests)
  {
    if tests != [] {
      var init := tests[..|tests| - 1];
      var last := tests[|tests| - 1];
      OneEntryPerCheck(init);
      var before := Recorded(init);
      assert last.name !in Keys(before) by {
        forall k | 0 <= k < |before| ensures Keys(before)[k] != last.name {
          assert Keys(before)[k] == init[k].name == tests[k].name;
        }
      }
      PutNew(before, last.name, RecordOf(last.outcome));
    }
  }

  /** The passing entries of the dict, in order. */
  function PassingEntries(results: seq<Entry>): (r: seq<Entry>)
    ensures forall e :: e in r <==> e in results && e.record.passed
    ensures forall e :: multiset(r)[e] == if e.record.passed then multiset(results)[e] else 0
    ensures IsSubsequence(r, results)
  {
    Filter(results, (e: Entry) => e.record.passed)
  }

  /** The entries whose check did not pass, in order. */
  function FailedEntries(results: seq<Entry>): (r: seq<Entry>)
    ensures forall e :: e in r <==> e in results && !e.record.passed
    ensures forall e :: multiset(r)[e] == if e.record.passed then 0 else multiset(results)[e]
    ensures IsSubsequence(r, results)
  {
    Filter(results, (e: Entry) => !e.record.passed)
  }

  /** With distinct names, `passed_tests` is the number of passing entries. */
  lemma {:induction false} PassCountIsPassingEntries(tests: seq<Test>)
    requires DistinctNames(tests)
    ensures PassCount(tests) == |PassingEntries(Recorded(tests))|
  {
    OneEntryPerCheck(tests);
    PassCountOfEntries(tests);
  }

  /** `passed_tests` is the number of passing entries among one entry per check. */
  lemma {:induction false} PassCountOfEntries(tests: seq<Test>)
    ensures PassCount(tests) == |PassingEntries(Entries(tests))|
  {
    if tests != [] {
      var es := Entries(tests);
      PassCountOfEntries(tests[..|tests| - 1]);
      assert es[..|es| - 1] == Entries(tests[..|tests| - 1]);
    }
  }

  // ---------------------------------------------------------------------
  // run_validation_suite
  // ---------------------------------------------------------------------

  /** One more turn of the suite loop adds one dict assignment and at most
      one pass. */
  lemma RecordedStep(tests: seq<Test>, i: nat)
    requires i < |tests|
    ensures Recorded(tests[..i + 1]) == Put(Recorded(tests[..i]), tests[i].name, RecordOf(tests[i].outcome))
    ensures PassCount(tests[..i + 1]) == PassCount(tests[..i]) + (if RecordOf(tests[i].outcome).passed then 1 else 0)
  {
    assert tests[..i + 1][..i] == tests[..i];
  }

  /** `run_validation_suite` over the outcomes of calling each check. An
      empty list has no success rate (the division raises), modelled as
      `None`. */
  method RunValidationSuite(tests: seq<Test>) returns (s: Option<Summary>)
    ensures s.None? <==> tests == []
    ensures s.Some? ==>
      s.value == Summary(|tests|, PassCount(tests), |tests| - PassCount(tests), Recorded(tests))
  {
    var results: seq<Entry> := [];
    var passed := 0;
    for i := 0 to |tests|
      invariant results == Recorded(tests[..i])
      invariant passed == PassCount(tests[..i])
    {
      RecordedStep(tests, i);
      var test := tests[i];
      match test.outcome
      case Returned(c) =>
        results := Put(results, test.name, TestRecord(c.passed, Reported(c.reason)));
        if c.passed {
          passed := passed + 1;
        }
      case Raised(e) =>
        results := Put(results, test.name, TestRecord(false, UnexpectedError(e)));
    }
    assert tests[..|tests|] == tests;
    if |tests| == 0 {
      return None;
    }
    return Some(Summary(|tests|, passed, |tests| - passed, results));
  }

  /** On the fixed list, the summary has one entry per check in list order,
      and its counts add up. */
  lemma FixedSuiteSummary(tests: seq<Test>)
    requires TestNames(tests) == SuiteNames
    ensures |Recorded(tests)| == 10 && Keys(Recorded(tests)) == SuiteNames
    ensures PassCount(tests) == |PassingEntries(Recorded(tests))|
    ensures PassCount(tests) + |FailedEntries(Recorded(tests))| == 10
  {
    FixedSuiteDistinct(tests);
    SummaryCounts(tests);
  }

  /** The checks of the fixed list have distinct names. */
  lemma FixedSuiteDistinct(tests: seq<Test>)
    requires TestNames(tests) == SuiteNames
    ensures |tests| == 10 && DistinctNames(tests)
  {
    SuiteNamesDistinct();
    forall i, j | 0 <= i < j < |tests| ensures tests[i].name != tests[j].name {
      assert TestNames(tests)[i] == SuiteNames[i] && TestNames(tests)[j] == SuiteNames[j];
    }
  }

  /** With distinct names, the dict has the checks' names as keys, in list
      order, and the passing and failed entries add up to the list. */
  lemma SummaryCounts(tests: seq<Test>)
    requires DistinctNames(tests)
    ensures Keys(Recorded(tests)) == TestNames(tests)
    ensures PassCount(tests) == |PassingEntries(Recorded(tests))|
    ensures PassCount(tests) + |FailedEntries(Recorded(tests))| == |tests|
  {
    OneEntryPerCheck(tests);
    PassCountIsPassingEntries(tests);
    PassingPlusFailed(Recorded(tests));
  }

  /** Every entry is passing or failed. */
  lemma {:induction false} PassingPlusFailed(results: seq<Entry>)
    ensures |PassingEntries(results)| + |FailedEntries(results)| == |results|
  {
    if results != [] {
      var init := results[..|results| - 1];
      PassingPlusFailed(init);
      var keepP := (e: Entry) => e.record.passed;
      var keepF := (e: Entry) => !e.record.passed;
      assert PassingEntries(results) == Filter(results, keepP);
      assert FailedEntries(results) == Filter(results, keepF);
    }
  }

  // ---------------------------------------------------------------------
  // print_summary and main
  // ---------------------------------------------------------------------

  /** `(passed_tests / total_tests) * 100`, computed exactly. */
  function SuccessRate(passed: nat, total: nat): (rate: real)
    requires total > 0
    ensures passed <= total ==> 0.0 <= rate <= 100.0
    ensures rate == 100.0 <==> passed == total
  {
    var q := passed as real / total as real;
    assert q * total as real == passed as real;
    q * 100.0
  }

  /** The rate reaches `bound` percent exactly when `100·passed` reaches
      `bound·total`. */
  lemma RateAtLeast(passed: nat, total: nat, bound: int)
    requires total > 0
    ensures SuccessRate(passed, total) >= bound as real <==> 100 * passed >= bound * total
  {
    var t := total as real;
    var q := passed as real / t;
    assert q * t == passed as real;
    assert SuccessRate(passed, total) * t == 100.0 * passed as real;
  }

  /** The three bands `print_summary` reports. */
  datatype Verdict = SystemPassed | PassedWithWarnings | SystemFailed

  /** The band of a pass count: a rate of at least 90 passes, at least 70
      passes with warnings, anything lower fails. */
  function VerdictOf(passed: nat, total: nat): (v: Verdict)
    requires total > 0
    ensures v == SystemPassed <==> SuccessRate(passed, total) >= 90.0
    ensures v == PassedWithWarnings <==> 70.0 <= SuccessRate(passed, total) < 90.0
    ensures v == SystemFailed <==> SuccessRate(passed, total) < 70.0
  {
    RateAtLeast(passed, total, 90);
    RateAtLeast(passed, total, 70);
    if 10 * passed >= 9 * total then SystemPassed
    else if 10 * passed >= 7 * total then PassedWithWarnings
    else SystemFailed
  }

  /** What `print_summary` decides: the band, and in the failing band the
      list of critical issues. */
  datatype Report = Report(verdict: Verdict, issues: seq<Entry>)

  /** `print_summary`: only a failing run lists issues, and it lists exactly
      the entries that did not pass, in dict order. */
  function PrintSummary(s: Summary): (report: Report)
    requires s.totalTests > 0
    ensures report.verdict == VerdictOf(s.passedTests, s.totalTests)
    ensures report.verdict == SystemFailed ==>
      (forall e :: e in report.issues <==> e in s.results && !e.record.passed)
      && IsSubsequence(report.issues, s.results)
    ensures report.verdict == SystemFailed ==>
      forall e :: multiset(report.issues)[e] == if e.record.passed then 0 else multiset(s.results)[e]
    ensures report.verdict != SystemFailed ==> report.issues == []
  {
    var v := VerdictOf(s.passedTests, s.totalTests);
    Report(v, if v == SystemFailed then FailedEntries(s.results) else [])
  }

  /** The exit code `main` derives from the success rate. It uses the same
      bands as `print_summary`. */
  function ExitCode(passed: nat, total: nat): (code: int)
    requires total > 0
    ensures code == 0 <==> VerdictOf(passed, total) == SystemPassed
    ensures code == 1 <==> VerdictOf(passed, total) == PassedWithWarnings
    ensures code == 2 <==> VerdictOf(passed, total) == SystemFailed
  {
    var rate := SuccessRate(passed, total);
    if rate >= 90.0 then 0 else if rate >= 70.0 then 1 else 2
  }

  /** One more pass never gives a worse exit code. */
  lemma ExitCodeMonotone(passed: nat, more: nat, total: nat)
    requires total > 0 && passed <= more
    ensures ExitCode(more, total) <= ExitCode(passed, total)
  {
    RateAtLeast(passed, total, 90);
    RateAtLeast(passed, total, 70);
    RateAtLeast(more, total, 90);
    RateAtLeast(more, total, 70);
  }

  /** `main`'s exit status. A keyboard interrupt exits 130; any other
      exception exits 1, among them the division by zero of an empty test
      list and a failure to write the report; otherwise the band decides. */
  function MainExit(tests: seq<Test>, reportSaved: bool, interrupted: bool): (code: int)
    ensures interrupted ==> code == 130
    ensures !interrupted && (tests == [] || !reportSaved) ==> code == 1
    ensures code == 0 <==>
      !interrupted && reportSaved && tests != [] && SuccessRate(PassCount(tests), |tests|) >= 90.0
    ensures code == 2 <==>
      !interrupted && reportSaved && tests != [] && SuccessRate(PassCount(tests), |tests|) < 70.0
    ensures !interrupted && reportSaved && tests != [] ==> code == ExitCode(PassCount(tests), |tests|)
  {
    if interrupted then 130
    else if tests == [] || !reportSaved then 1
    else ExitCode(PassCount(tests), |tests|)
  }

  /** The observations every check of the battery reads. */
  datatype Observations = Observations(
    composeFileExists: bool, compose: Command, running: Command,
    health: Reply<()>, collections: Reply<seq<string>>, details: Reply<CollectionInfo>,
    search: Reply<nat>, api: Reply<nat>,
    mcpLogs: Command,
    etlStatus: Command, etlLogs: Command,
    present: string -> bool, read: string -> Option<string>,
    probe: int -> Reply<()>,
    df: Command,
    stats: Command)

  /** The four checks written with loops, called on what they observe. */
  method LoopedChecks(obs: Observations) returns (docker: CheckResult, mcp: CheckResult, env: CheckResult, ports: CheckResult)
  {
    docker := DockerServices(obs.composeFileExists, obs.compose, obs.running);
    mcp := McpServerLogs(obs.mcpLogs);
    env := EnvironmentConfig(obs.present, obs.read);
    ports := PortsAccessibility(obs.probe);
  }

  /** The six checks written without loops, called on what they observe. */
  method StraightChecks(obs: Observations)
    returns (qdrant: CheckResult, search: CheckResult, api: CheckResult,
             etl: CheckResult, disk: CheckResult, resources: CheckResult)
  {
    qdrant := QdrantHealth(obs.health, obs.collections, obs.details);
    search := VectorSearch(obs.search);
    api := HimiraApi(obs.api);
    etl := EtlFunctionality(obs.etlStatus, obs.etlLogs);
    disk := DiskSpace(obs.df);
    resources := SystemResources(obs.stats);
  }

  /** The `tests` list of `run_validation_suite` with each check called on
      what it observes, in list order. */
  method RunBattery(obs: Observations) returns (tests: seq<Test>)
    ensures |tests| == |SuiteNames|
    ensures forall i :: 0 <= i < |tests| ==> tests[i].name == SuiteNames[i] && tests[i].outcome.Returned?
  {
    var docker, mcp, env, ports := LoopedChecks(obs);
    var qdrant, search, api, etl, disk, resources := StraightChecks(obs);
    tests := [
      Test(SuiteNames[0], Returned(docker)),
      Test(SuiteNames[1], Returned(qdrant)),
      Test(SuiteNames[2], Returned(search)),
      Test(SuiteNames[3], Returned(api)),
      Test(SuiteNames[4], Returned(mcp)),
      Test(SuiteNames[5], Returned(etl)),
      Test(SuiteNames[6], Returned(env)),
      Test(SuiteNames[7], Returned(ports)),
      Test(SuiteNames[8], Returned(disk)),
      Test(SuiteNames[9], Returned(resources))
    ];
  }
}

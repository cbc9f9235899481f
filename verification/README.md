# Verified model of the ONDC MCP system-verification battery

The repository checks a deployed ONDC MCP stack with two Python scripts.
That stack is a Qdrant vector database, an ETL container and an MCP
server, plus the Himira backend API.

- `validate_system.py` holds a `SystemValidator` with ten checks. It runs
  them all in a fixed order and collects every result. A check that fails
  or raises does not stop the later ones. It counts the passes, prints a
  summary in one of three bands (passed, passed with warnings, failed) and
  exits 0, 1 or 2 by the same bands.
- `test_system.py` is a quick health check: four checks that each return a
  bool, collected in order, and a return code of 0 when all pass, 1 when
  at least three quarters pass, and 2 otherwise.

This project models the decision logic of both scripts in Dafny and proves
what they promise. Everything a check reads from the outside world becomes
a parameter:

- a shell command is its exit flag and output text;
- an HTTP request is its status code and decoded body, or a request error;
- a config file is its existence and its contents.

The Python string operations the checks rely on are modelled exactly in
`text.dfy`, module `Text`:

- `in` as substring search;
- `str.strip()` over Python's 29 white-space code points;
- `str.split(sep)` and `str.split()`;
- list comprehensions with a filter.

Modules:

- `Wrappers` (`Option`) and `Text`, in `text.dfy`.
- `Probes`, in `probes.dfy`: command, process and HTTP observations.
- `ValidateChecks`, in `validate_checks.dfy`: the checks of
  `validate_system.py`. Each returns a `CheckResult`: `passed` plus a
  `Reason` constructor for each message, carrying the values the message
  interpolates.
- `ValidateSuite`, in `validate_suite.dfy`: `run_validation_suite`,
  `print_summary` and `main`. The `results` dict is an insertion-ordered
  sequence of entries with Python's assignment semantics: a new key is
  appended, an existing key is overwritten in place.
- `HealthCheck`, in `health_check.dfy`: `test_system.py`.

The success rate of `validate_system.py` is the exact rational
`(passed / total) * 100` as a Dafny `real`. `ExitCode` compares that rate
with 90 and 70 directly. `VerdictOf` compares the integers `10·passed` and
`9·total` (or `7·total`), and `RateAtLeast` proves the two forms agree.
`QuickExit` compares `4·passed` with `3·total` in integers; its contract
states the threshold as `passed ≥ total * 0.75` over the reals.

Where the source writes a loop, the model has a method with that loop:
- the required-service search;
- `found_indicators`, `missing_files` and the placeholder scan;
- `accessible_ports`;
- the suite loop;
- `found_services`;
- the results loop of `test_system.py`.

Each of these methods is proved against a specification function. Where
the source uses a comprehension, the model uses a function.

## Model

| member | source | states |
|---|---|---|
| Text.Contains | validate_system.py:76 | `pat in text`: the empty pattern occurs in every text, and a pattern longer than the text never does |
| Text.ContainsIffOccurs | validate_system.py:76 | the left-to-right substring search used for `x in s` holds exactly when `pat` occurs at some index |
| Text.Strip | validate_system.py:84 | `s.strip()` neither starts nor ends with white space |
| Text.StripSlice | validate_system.py:84 | `s.strip()` is a slice of `s`; everything cut off on either side is white space |
| Text.StripEmpty | validate_system.py:84 | `s.strip()` is empty exactly when `s` is all white space |
| Text.Split | validate_system.py:299 | `s.split(sep)` is never empty, no piece contains `sep`, joining the pieces gives `s`, and there is one piece exactly when `sep` does not occur |
| Text.SplitJoin | validate_system.py:299 | splitting a join of separator-free pieces gives the pieces back |
| Text.Lines | validate_system.py:84 | the lines of `s.strip().split('\n') if s.strip() else []`, when there are any, join back to `s.strip()` |
| Text.LinesEmpty | validate_system.py:84 | that idiom gives no lines exactly when the output is blank |
| Text.Fields | validate_system.py:305 | `s.split()` yields only non-empty, white-space-free fields |
| Text.FieldsOfSpaced | validate_system.py:305 | `s.split()` of words separated by non-empty runs of white space, with any white space before and after, gives back the words |
| Text.SpacedFields | validate_system.py:305 | every text is leading white space, then its `split()` fields separated by non-empty runs of white space, then trailing white space; with FieldsOfSpaced this determines `split()` on every input |
| Text.Lower | validate_system.py:231 | `s.lower()` keeps the length, maps each ASCII capital to its small letter and leaves every other character alone |
| Text.FirstPiece | test_system.py:122 | `s.split(sep)[0]` is the prefix of `s` before the first `sep`, or all of `s` when `sep` does not occur |
| Text.Filter | validate_system.py:87 | a filtering comprehension keeps exactly the accepted elements, each as often as it occurs in the input, in their original order |
| Text.Missing | validate_system.py:87 | `[c for c in expected if c not in seen]` holds exactly the unseen expected elements, each as often as in `expected`, in order, and is empty exactly when all were seen |
| Text.Present | validate_system.py:203-206 | the indicators found are exactly the listed patterns that occur in the text, each as often as listed, in list order |
| Text.MissingFromNothing | validate_system.py:84-87 | against an empty list every expected element is missing |
| Text.PresentBounds | validate_system.py:203-208 | the found patterns are non-empty exactly when some pattern occurs, and there are at most as many as patterns |
| Text.FirstOccurring | validate_system.py:260-262 | the result, when there is one, is a listed pattern that occurs; there is none exactly when no pattern occurs |
| Text.FirstOccurringAt | validate_system.py:260-262 | when `patterns[j]` occurs and no earlier one does, it is the one found |
| Text.FirstWhere | validate_system.py:256-262 | the first accepted element, at an index with no accepted element before it; none exactly when nothing is accepted |
| ValidateChecks.RunningContainers | validate_system.py:79-91 | when `docker ps` succeeds, the check passes exactly when every expected container is a running-name line; a failure names exactly the absent containers, in declared order; a failed command fails with its output |
| ValidateChecks.NothingRunning | validate_system.py:84-89 | empty or blank `docker ps` output reports all three containers missing |
| ValidateChecks.DockerServices | validate_system.py:61-91 | a missing compose file fails first; a failed `ps` fails next; then the first required service, in list order, that is not a substring of the output is reported; only when all occur does the running-container stage decide |
| ValidateChecks.QdrantHealth | validate_system.py:93-126 | passes exactly when health and collection listing answer 200, `ondc_products` is listed and the details request does not fail; it reports the counts only on a 200 details answer; every failure has its own message: a non-200 health answer reports its status, a non-200 collection listing reports its status, an unlisted `ondc_products` reports the missing collection, and a failed health, listing or details request reports a connection failure |
| ValidateChecks.VectorSearch | validate_system.py:128-153 | passes exactly on HTTP 200, reporting the number of hits; a non-200 answer reports its status, and a failed request has its own message |
| ValidateChecks.HimiraApi | validate_system.py:155-186 | passes exactly on HTTP 200, reporting the number of products; a non-200 answer reports its status, and a failed request has its own message |
| ValidateChecks.FoundIndicators | validate_system.py:203-206 | the append loop collects exactly the indicators that occur, in list order |
| ValidateChecks.McpServerLogs | validate_system.py:188-211 | when the logs command succeeds, the check passes exactly when some indicator occurs, reporting a count between 1 and 3 equal to the number present; a failed command fails with its output |
| ValidateChecks.EtlFunctionality | validate_system.py:213-234 | passes exactly when the status command succeeds and says "Up" and the logs command succeeds; the log text only picks the message, which says "working" exactly when the lower-cased logs mention an extraction; each failure has its own message: a failed status command gives its output, a status without "Up" says the container is not running, and a failed logs command gives its output |
| ValidateChecks.Absent | validate_system.py:245-248 | the missing files are exactly the listed files that do not exist, each as often as listed, in list order |
| ValidateChecks.CollectMissing | validate_system.py:245-248 | the `missing_files` loop computes the missing files |
| ValidateChecks.ScanFor | validate_system.py:260-262 | the placeholder loop returns the first placeholder, in list order, that occurs in the content |
| ValidateChecks.FileProblem | validate_system.py:256-264 | an existing file has no problem exactly when it can be read and holds no placeholder |
| ValidateChecks.ScanConfigFiles | validate_system.py:256-266 | once every file exists, the first problem, scanning files and then placeholders in order, fails the check; the check passes exactly when no file has a problem |
| ValidateChecks.EnvironmentConfig | validate_system.py:236-266 | any missing file fails, listing all missing files; otherwise the first problem, scanning files and then placeholders in order, is reported; the check passes exactly when no file has a problem |
| ValidateChecks.AccessibleAmong | validate_system.py:277-282 | the accessible ports are exactly the given ports answering 200, each as often as given, in list order |
| ValidateChecks.CollectAccessible | validate_system.py:277-284 | the `accessible_ports` loop computes the accessible ports |
| ValidateChecks.AccessiblePorts | validate_system.py:272-282 | the accessible ports are exactly the two required ports answering 200, in list order |
| ValidateChecks.PortsAccessibility | validate_system.py:268-289 | passes exactly when some required port answers 200, listing those that do; a raising probe is skipped |
| ValidateChecks.DiskSpace | validate_system.py:291-309 | passes exactly when `df` succeeds and its stripped output has a line break (at least two lines); it then reports the fourth `split()` field of the second line, or "Unknown" when that line has at most three fields; a single line is an unexpected format; a failed command fails with its output |
| ValidateChecks.DfReportsFourthColumn | validate_system.py:299-307 | on a header line followed by a row of columns separated by runs of blanks, with optional blanks before the row and any white space after it, the check reports the fourth column |
| ValidateChecks.SystemResources | validate_system.py:311-321 | never fails, and reports fewer containers than the output has lines |
| ValidateSuite.RecordOf | validate_system.py:351-371 | a stored result passes exactly when the check returned a pass; a raised check is stored as failed with its exception text |
| ValidateSuite.GetKeys | validate_system.py:353-371 | reading the dict finds a value exactly for its keys, and the value found is the one stored under that key |
| ValidateSuite.Keys | validate_system.py:344 | the keys of the dict, one per entry, in insertion order |
| ValidateSuite.Put | validate_system.py:353-371 | `results[name] = record` makes `name` map to `record` and leaves every other key's value alone; a new key is appended, an existing one keeps its place |
| ValidateSuite.PutNew | validate_system.py:353-371 | a key not yet in the dict is appended at the end |
| ValidateSuite.Recorded | validate_system.py:344-371 | the dict after the loop has at most one entry per check, and its keys are exactly the check names |
| ValidateSuite.PassCount | validate_system.py:346-361 | `passed_tests` never exceeds the number of checks |
| ValidateSuite.Entries | validate_system.py:348-371 | one entry per check, in list order, holding the check's name and stored result |
| ValidateSuite.OneEntryPerCheck | validate_system.py:331-371 | with distinct names, the dict has exactly one entry per check, in list order, even after failures and exceptions |
| ValidateSuite.PassCountIsPassingEntries | validate_system.py:344-382 | with distinct names, `passed_tests` equals the number of entries with `passed` true |
| ValidateSuite.PassCountOfEntries | validate_system.py:346-361 | the counter equals the number of passing entries among one entry per check |
| ValidateSuite.PassingEntries | validate_system.py:344-382 | the passing entries are exactly the entries whose check passed, each as often as in the dict, in order |
| ValidateSuite.FailedEntries | validate_system.py:425-427 | the failed entries are exactly those whose check did not pass, each as often as in the dict, in order |
| ValidateSuite.PassingPlusFailed | validate_system.py:380-382 | every entry is either passing or failed |
| ValidateSuite.SummaryCounts | validate_system.py:344-382 | with distinct names, the keys are the check names in order, and passed plus failed entries make up the list |
| ValidateSuite.SuiteNamesDistinct | validate_system.py:331-342 | the fixed list has ten distinct names |
| ValidateSuite.FixedSuiteDistinct | validate_system.py:331-342 | checks named after the fixed list have distinct names |
| ValidateSuite.FixedSuiteSummary | validate_system.py:331-382 | on the fixed list, the summary has ten entries keyed by the list's names in order; `passed_tests` is the passing entries; the passes and the failed entries add up to ten |
| ValidateSuite.RunValidationSuite | validate_system.py:323-390 | the suite loop yields total, passed, failed = total − passed and the dict; an empty list yields no summary, because the rate divides by zero |
| ValidateSuite.SuccessRate | validate_system.py:383 | `(passed_tests / total_tests) * 100` lies between 0 and 100, and is 100 exactly when every check passed |
| ValidateSuite.RateAtLeast | validate_system.py:383 | the success rate reaches a bound exactly when `100·passed` reaches `bound·total` |
| ValidateSuite.VerdictOf | validate_system.py:410-423 | the verdict is "passed" exactly at a rate ≥ 90, "passed with warnings" exactly at 70 ≤ rate < 90, and "failed" exactly below 70 |
| ValidateSuite.PrintSummary | validate_system.py:392-434 | only the failing band lists issues, and it lists exactly the entries that did not pass, each as often as in the dict, in dict order |
| ValidateSuite.ExitCode | validate_system.py:454-459 | the exit code is 0, 1 or 2 exactly when the summary band is passed, passed with warnings or failed |
| ValidateSuite.ExitCodeMonotone | validate_system.py:454-459 | more passes never give a worse exit code |
| ValidateSuite.MainExit | validate_system.py:436-466 | an interrupt exits 130; an empty list or a failed report write exits 1; otherwise, with the report saved, the exit code is the band's code: 0 exactly when the rate is ≥ 90, 1 at 70 ≤ rate < 90, 2 below 70 |
| ValidateSuite.RunBattery | validate_system.py:331-342 | the `tests` list holds ten checks, named as in the fixed list and in its order; each check returns a result |
| HealthCheck.QdrantQuick | test_system.py:11-67 | True requires a 200 health answer; with a 200 health answer and no exception it is True; a non-200 collection listing, a missing collection, a non-200 details answer and an empty collection are warnings that still give True; a failed collections or details request, or a 200 answer lacking a key the check reads, gives False; on a populated collection the result is True exactly when the search request does not fail and a 200 search answer has its `result` key |
| HealthCheck.HimiraQuick | test_system.py:69-105 | True exactly on HTTP 200 with a readable body; a request error gives False |
| HealthCheck.ServiceName | test_system.py:122 | the name is the line's text before its first tab, or the whole line when it has none |
| HealthCheck.ServiceNames | test_system.py:121-122 | one service name per line, in order |
| HealthCheck.Found | test_system.py:120-125 | `found_services` holds only expected names, exactly those that some line names, each as often as lines name it, in output order |
| HealthCheck.FoundServices | test_system.py:120-125 | the append loop computes `found_services` |
| HealthCheck.DockerQuick | test_system.py:107-140 | True exactly when `docker ps` ran, exited 0 and some line names an expected service (all present: True; some missing: whether any was found); otherwise False |
| HealthCheck.McpQuick | test_system.py:142-183 | True exactly when the logs command ran, exited 0 and some indicator occurs in stdout followed by stderr |
| HealthCheck.RunQuickTests | test_system.py:197-204 | one `(name, result)` per check, in order; a raised check is recorded as False |
| HealthCheck.Passed | test_system.py:211-212 | `passed` is at most the total, and equals it exactly when every result is True |
| HealthCheck.QuickExit | test_system.py:218-240 | returns 0 exactly when all pass; 1 exactly when not all pass but `passed ≥ 0.75·total`; 2 exactly below that; an empty list raises at the score line |
| HealthCheck.QuickExitMonotone | test_system.py:220-240 | more passes never give a worse return code |
| HealthCheck.FourChecks | test_system.py:190-240 | with four checks, three passes return 1 and two return 2 |
| HealthCheck.QuickMain | test_system.py:185-240 | runs the four checks in their fixed order and names, each result being its check's verdict (docker up, Qdrant, Himira API, MCP logs); the return code is always 0, 1 or 2 and is the one for the number that passed |

## Left out

- Network, process and file I/O (`requests`, `subprocess.run`, `os.path.exists`, `open`, writing `validation_report.json`). These are external effects: their results are parameters, and the report write is a flag of `MainExit`.
- Timestamps, `duration_seconds`, ANSI colours, banners and every `print`. They are wall-clock time and cosmetics.
- The float `success_rate` and its `%.1f` formatting. The bands are modelled on the exact rational rate; binary floating-point rounding of `passed / total * 100` is not modelled.
- JSON decoding in `validate_system.py`. A body is modelled as already decoded to the values the check reads. A malformed body is not modelled. A body that is not JSON makes `requests` raise a decode error, which it classes as a `RequestException` (validate_system.py:125-126, 152-153, 185-186); the check catches it and returns False with its connection-failure message, just like a failed request. A missing key raises a `KeyError` that escapes the check; the suite model takes that raised outcome as an input, but the individual check models produce neither case.
- `HealthCheck.QdrantQuick`: a body is `None` when it lacks a key the check indexes. A `points_count` of JSON `null`, which would raise on `> 0`, is not modelled.
- `Text.Lower`: changes ASCII letters only. Python's `str.lower()` also folds other scripts, which cannot affect the two ASCII phrases the ETL check looks for except through characters that lower-case into ASCII (such as the Kelvin sign).
- The `except:` branch of `test_disk_space` is not modelled. Its field access is guarded by a length test, so it cannot be reached.
- The threshold-line echo of `test_mcp_server` (test_system.py:166-171) is not modelled, because it only prints.
- `ValidateSuite.PassCountIsPassingEntries` and `ValidateSuite.OneEntryPerCheck` assume distinct check names. The fixed list has them, as `ValidateSuite.FixedSuiteDistinct` shows. With repeated names the dict keeps one entry per name, and `passed_tests` counts every passing call.
- `ValidateSuite.RunBattery` states only the list's order and names, not each check's result. The checks' own contracts state those.
- `KeyboardInterrupt` is a flag of `MainExit`; when it arrives during the run is not modelled.
- `SystemValidator.results` and `start_time` are not modelled: the suite never reads `results`, and `start_time` feeds only the duration.
- test_vector_search.py and test_vector_manual.py are not part of this model. They only call the Qdrant client and an external search client.
- `install.sh` and the other deployment scripts are not modelled; this project covers validate_system.py and test_system.py.

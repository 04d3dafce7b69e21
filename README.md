# dbacademy core rules in Dafny

A Dafny model of four pieces of sequential logic from the dbacademy courseware tooling, with
proofs of the rules each one follows.

- **Notebook i18n directive check** (`notebook_i18n.dfy`, module `NotebookI18n`).
  - A Markdown cell of an exported notebook begins `{L} MAGIC %md` or `{L} MAGIC %md-sandbox`. `{L}` is `#` for Python and `--` for SQL.
  - With i18n enabled, `NotebookDef.update_command` requires the cell to have more than one line and the first line to hold exactly the marker and one GUID.
  - Each GUID may be used once per pass, which `StateVariables` tracks.
  - An accepted cell is rewritten to a `{L} DBTITLE 0,{guid}` line, the bare marker line, then the mapped text.
  - Every rejection appends one `Cmd #{i+1} | …` error to the notebook.
  - `NotebookDef` and `StateVariables` are classes whose fields `UpdateCommand` updates in place. `UpdateCommand` is proved against a pure decision function, `Check`.
  - Every unit test of the check is a scenario method whose postcondition is the test's assertions.
- **Course configuration** (`course_config.dfy`, module `CourseConfigs`).
  - `to_build_name` is the imperative loop that replaces `--` with `-` until none remains. It is proved equal to a specification that squeezes hyphen runs.
  - Lemmas about the build name:
    - it contains only a-z, 0-9 and `-`;
    - it never contains `--`;
    - applying `to_build_name` to it again changes nothing;
    - each run of non-alphanumerics in the name becomes exactly one `-`;
    - the letters and digits keep their order.
  - The constructor's DBR checks become a method that returns the first failure or the config.
- **Jobs client** (`jobs_client.dfy`, module `JobsClients`).
  - `list_n` clamps its offset and limit.
  - `get_by_name` searches page by page; `list` pages by token. Both are loops proved against the concatenation of all pages.
  - `delete_by_name` normalises `job_names`. Its nested loops are proved to send exactly the planned deletions and to count the deleted jobs.
  - The update payloads follow two rules:
    - the pause tri-state;
    - Python's `a or b` fallback to the existing setting.
- **Account workspaces** (`workspaces.dfy`, module `AccountWorkspaces`).
  - `Workspaces.create` resolves each id in priority order, then deletes the `None` and `""` entries from the spec dict in a loop.
  - `_wrap` checks the shape of a record.
  - `get_by_deployment_name` is a first-match lookup.
  - `wait_until_ready` returns its verdict from the final status.

`text.dfy` (module `Text`) models the Python string operations these rely on:

- `str.split(sep)`, `str.split()`, `str.strip()` and `sep.join`;
- `str(n)` for non-negative integers, and parsing it back.

`wrappers.dfy` holds `Option` and `Result`, which stand for `None` and for raised exceptions.

REST calls are parameters:

- a function from a list query to the page it returns;
- a function from a job id to its record or to its runs;
- a name-lookup function per account collection;
- the listed workspace records.

The requests these modules send are returned as values: a deletion plan, a payload, or a spec dict.

## Model

| member | source | states |
|---|---|---|
| NotebookI18n.StateVariables.constructor | test/dbacademy_test/dbbuild/test_notebook_def_class_i18n_body.py:52-53 | a pass state starts with an empty GUID map and no consumed GUIDs |
| NotebookI18n.NotebookDef.constructor | test/dbacademy_test/dbbuild/test_notebook_def_class_i18n_body.py:24-42 | a notebook starts with no errors, no warnings and no GUIDs |
| NotebookI18n.NotebookDef.UpdateCommand | test/dbacademy_test/dbbuild/test_notebook_def_class_i18n_body.py:45-199 | a non-directive cell is returned unchanged; a rejected cell is returned unchanged and appends exactly one error, its reason labelled `Cmd #{i+1} \| `; an accepted cell appends its GUID to the notebook, adds it to the pass state's consumed set and returns the rewritten text; a GUID missing from the map keeps the earlier errors and records nothing; the notebook's GUIDs stay distinct and consumed |
| NotebookI18n.AcceptsMappedGuid | test/dbacademy_test/dbbuild/test_notebook_def_class_i18n_body.py:45-100 | a multi-line cell with `%md` or `%md-sandbox`, any non-empty run of spaces and a mapped, unused GUID is accepted and rewritten with that GUID |
| NotebookI18n.RejectsMissingGuid | test/dbacademy_test/dbbuild/test_notebook_def_class_i18n_body.py:102-118 | a multi-line cell whose first line is the bare marker is rejected with "Missing the i18n directive: {marker}" |
| NotebookI18n.RejectsSingleLine | test/dbacademy_test/dbbuild/test_notebook_def_class_i18n_body.py:120-133 | a one-line directive cell is rejected for its single line before any other check, whatever words follow the marker |
| NotebookI18n.RejectsExtraWords | test/dbacademy_test/dbbuild/test_notebook_def_class_i18n_body.py:135-151 | more than two words on the directive line are rejected with the count of the words after `{L} MAGIC ` and the text of the line after that prefix |
| NotebookI18n.RejectsDuplicateGuid | test/dbacademy_test/dbbuild/test_notebook_def_class_i18n_body.py:153-174 | a GUID already consumed in the pass is rejected as a duplicate |
| NotebookI18n.AcceptedIsValid | test/dbacademy_test/dbbuild/test_notebook_def_class_i18n_body.py:153-199 | only a GUID that is in the map and unused, in a cell of more than one line, is accepted |
| NotebookI18n.NonMarkdownIsNotDirective | test/dbacademy_test/dbbuild/test_notebook_def_class_i18n_body.py:47-50 | a cell whose first line is not `{L} MAGIC ` followed by a marker word is not subject to the check |
| NotebookI18n.LabelReadsBack | test/dbacademy_test/dbbuild/test_notebook_def_class_i18n_body.py:116-118 | the number in an error's `Cmd #` label parses back to the supplied position plus one |
| NotebookI18n.RewriteLines | test/dbacademy_test/dbbuild/test_notebook_def_class_i18n_body.py:201-215 | the rewritten cell's lines are the DBTITLE line with the GUID, the bare marker line, then the lines of the mapped text |
| NotebookI18n.RewriteIsNotDirective | test/dbacademy_test/dbbuild/test_notebook_def_class_i18n_body.py:213-215 | a rewritten cell no longer starts with a directive line, so another pass leaves it unchanged |
| NotebookI18n.RunOnce | test/dbacademy_test/dbbuild/test_notebook_def_class_i18n_body.py:51-56 | one cell on a fresh notebook and pass state gives no warnings; a non-directive or rejected cell is returned unchanged with no error or exactly its one labelled error; an accepted cell gives its rewrite, no error and its GUID; no outcome records a GUID except acceptance |
| NotebookI18n.GoodDirectiveScenario | test/dbacademy_test/dbbuild/test_notebook_def_class_i18n_body.py:45-100 | single space, double space and `%md-sandbox`: no errors, no warnings, GUIDs `["--i18n-TBD"]` |
| NotebookI18n.MissingMultiScenario | test/dbacademy_test/dbbuild/test_notebook_def_class_i18n_body.py:102-118 | the one error `Cmd #4 \| Missing the i18n directive: %md` |
| NotebookI18n.MissingSingleScenario | test/dbacademy_test/dbbuild/test_notebook_def_class_i18n_body.py:120-133 | the one error for a single line `%md \| # Build-Time Substitutions` at position 3 |
| NotebookI18n.ExtraWordScenario | test/dbacademy_test/dbbuild/test_notebook_def_class_i18n_body.py:135-151 | the one error "… only two words, found 4: %md --i18n-TBD # Title" at position 3 |
| NotebookI18n.TwoCellsScenario | test/dbacademy_test/dbbuild/test_notebook_def_class_i18n_body.py:153-199 | two cells in one pass, each test with its own GUID map: a repeated GUID gives no warnings, exactly the duplicate error labelled `Cmd #5` and one GUID; distinct GUIDs give no warnings, no error and both GUIDs |
| NotebookI18n.ReplacementScenario | test/dbacademy_test/dbbuild/test_notebook_def_class_i18n_body.py:201-249 | `%md` and `%md-sandbox`, Python and SQL: no errors, no warnings, and the returned text is the DBTITLE line, the marker line and the mapped text |
| NotebookI18n.SqlSingleLineScenario | test/dbacademy_test/dbbuild/test_notebook_def_class_i18n_body.py:251-264 | a single SQL line with extra words and an unmapped GUID gets only the single-line error, labelled `Cmd #5` |
| Text.WordsOfJoin | test/dbacademy_test/dbbuild/test_notebook_def_class_i18n_body.py:135-151 | splitting space-joined words on whitespace gives back the same words |
| Text.ParseNatToString | test/dbacademy_test/dbbuild/test_notebook_def_class_i18n_body.py:116-118 | the decimal text of a number parses back to that number |
| Text.JoinSplit | src/dbacademy/dbhelper/course_config.py:48 | joining the parts of `split(",")` with `,` gives back the original text |
| Text.SplitJoin | src/dbacademy/dbhelper/course_config.py:48 | splitting parts joined by a separator they do not contain gives back the parts |
| Text.StripPadded | src/dbacademy/dbhelper/course_config.py:48 | `strip()` removes exactly the whitespace around text that has none at its ends |
| Text.StripIsTrimmed | src/dbacademy/dbhelper/course_config.py:48 | the result of `strip()` has no whitespace at either end, so stripping again changes nothing |
| CourseConfigs.HyphenateNonAlnum | src/dbacademy/dbhelper/course_config.py:86 | each character outside [a-zA-Z0-9] becomes `-`, the others stay, and the length is kept |
| CourseConfigs.Lower | src/dbacademy/dbhelper/course_config.py:86 | each upper-case ASCII letter becomes its lower-case letter, all else stays |
| CourseConfigs.ToBuildName | src/dbacademy/dbhelper/course_config.py:83-89 | None gives None; otherwise the result is the hyphen-squeezed, lower-cased, hyphenated name, free of `--` and made of a-z, 0-9 and `-` |
| CourseConfigs.ReplaceShortens | src/dbacademy/dbhelper/course_config.py:87-88 | a `replace("--", "-")` pass never lengthens the text and shortens it while `--` occurs, so the loop terminates |
| CourseConfigs.SqueezeAfterReplace | src/dbacademy/dbhelper/course_config.py:87-88 | a replace pass leaves the squeezed form unchanged (the loop invariant) |
| CourseConfigs.SqueezeFixesSingleHyphens | src/dbacademy/dbhelper/course_config.py:87 | text without `--` is its own squeezed form, so the loop's exit state is the result |
| CourseConfigs.SqueezeShape | src/dbacademy/dbhelper/course_config.py:86-89 | the squeezed form has no `--` and introduces no new characters |
| CourseConfigs.BuildNameShape | src/dbacademy/dbhelper/course_config.py:86-89 | every build name consists of a-z, 0-9 and `-` and contains no `--` |
| CourseConfigs.BuildCharsAreFixed | src/dbacademy/dbhelper/course_config.py:86 | hyphenating and lower-casing leave a-z, 0-9 and `-` unchanged |
| CourseConfigs.BuildNameIdempotent | src/dbacademy/dbhelper/course_config.py:86-89 | the build name of a build name is itself |
| CourseConfigs.BuildNameIsRunsToHyphens | src/dbacademy/dbhelper/course_config.py:86-89 | the build name equals the course name with each maximal run of non-alphanumerics replaced by one `-` and letters lower-cased |
| CourseConfigs.BuildNameKeepsAlnums | src/dbacademy/dbhelper/course_config.py:86-89 | the letters and digits of the build name are those of the course name, lower-cased, in the same order |
| CourseConfigs.SupportedList | src/dbacademy/dbhelper/course_config.py:39 | a single DBR string becomes a one-element list, a list stays as it is |
| CourseConfigs.ExpectedList | src/dbacademy/dbhelper/course_config.py:48 | the expected DBRs are the comma-separated parts, each stripped, one per part |
| CourseConfigs.FirstUnexpected | src/dbacademy/dbhelper/course_config.py:50-51 | the position of the first supported DBR missing from the expected list: every DBR before it is expected, the one at it is not, and it is the length when all are expected |
| CourseConfigs.FindUnexpected | src/dbacademy/dbhelper/course_config.py:50-51 | the assertion loop stops at the first supported DBR that is not expected, and finds none exactly when all are |
| CourseConfigs.NewCourseConfig | src/dbacademy/dbhelper/course_config.py:30-51 | an empty supported list is rejected; unless the expected DBRs are the `{{supported_dbrs}}` placeholder, a length mismatch is rejected with both lengths, then the first supported DBR missing from the expected list is rejected, with the expected list; otherwise the config holds the arguments and the build name of the course name |
| CourseConfigs.ConfigNames | src/dbacademy/dbhelper/course_config.py:91-97 | `build_name` and `data_source_name` of a built config are both the build name of its course name |
| CourseConfigs.ExpectedListOfJoin | src/dbacademy/dbhelper/course_config.py:46-51 | DBRs written comma-separated read back as the same list, so such a config passes the checks |
| JobsClients.ListNQuery | src/dbacademy/clients/databricks/jobs/jobs_client_class.py:63-69 | the query `list_n` sends (its result, ListN, is the jobs of the one page that query returns): the limit is at most 25 and at most the given limit, and equals one of them; the offset is non-negative and at least the given one, and equals it or 0 |
| JobsClients.FirstMatch | src/dbacademy/clients/databricks/jobs/jobs_client_class.py:40-42 | the id of the first job whose settings name matches, or None exactly when no job matches |
| JobsClients.FirstMatchConcat | src/dbacademy/clients/databricks/jobs/jobs_client_class.py:48-59 | searching page after page finds what searching their concatenation finds |
| JobsClients.JobsFromOffsetFuel | src/dbacademy/clients/databricks/jobs/jobs_client_class.py:52-59 | the offset-paged listing does not depend on the page bound |
| JobsClients.OffsetSearchIsFirstMatch | src/dbacademy/clients/databricks/jobs/jobs_client_class.py:36-61 | on a server whose pages end, get_by_name's page-by-page search stops and finds the first job with the name over all pages in order |
| JobsClients.OffsetSearchFuel | src/dbacademy/clients/databricks/jobs/jobs_client_class.py:44-59 | the page-by-page search does not depend on the page bound |
| JobsClients.GetByName | src/dbacademy/clients/databricks/jobs/jobs_client_class.py:36-61 | the record of the first job with the name on the first page that holds one, requesting offset pages in order, or None once a page without has_more holds none |
| JobsClients.JobsFromPageFuel | src/dbacademy/clients/databricks/jobs/jobs_client_class.py:79-83 | the token-paged listing does not depend on the page bound |
| JobsClients.List | src/dbacademy/clients/databricks/jobs/jobs_client_class.py:71-85 | the jobs of all pages, in order, following `next_page_token` while `has_more` |
| JobsClients.NormalizeJobNames | src/dbacademy/clients/databricks/jobs/jobs_client_class.py:91-98 | a dict gives its keys, a list is kept, a str becomes a one-element list, any other type raises TypeError "Unsupported type: …" |
| JobsClients.DecideDeletion | src/dbacademy/clients/databricks/jobs/jobs_client_class.py:119-131 | the job is deleted exactly when success_only is off or every run is TERMINATED with SUCCESS; so a job without runs is deleted |
| JobsClients.RunDeletions | src/dbacademy/clients/databricks/jobs/jobs_client_class.py:135-138 | one run deletion per run, in order |
| JobsClients.DeleteRunsThenJob | src/dbacademy/clients/databricks/jobs/jobs_client_class.py:133-141 | a deleted job's runs are deleted in order before the job, and one job deletion is counted |
| JobsClients.DeleteMatchingJobs | src/dbacademy/clients/databricks/jobs/jobs_client_class.py:109-141 | the nested loops send exactly the planned requests, names in order and jobs in order within a name, and `deleted` equals the number of job deletions sent |
| JobsClients.DeleteJobsNamed | src/dbacademy/clients/databricks/jobs/jobs_client_class.py:112-141 | the inner loop sends, for one name, exactly that name's planned requests, jobs in listed order, and counts the job deletions among them |
| JobsClients.DeleteByName | src/dbacademy/clients/databricks/jobs/jobs_client_class.py:90-144 | a bad job_names type raises TypeError before anything else; a non-bool success_only raises AssertionError; otherwise the plan over all listed jobs is sent and counted |
| JobsClients.JobDeletionsConcat | src/dbacademy/clients/databricks/jobs/jobs_client_class.py:141 | the deletion count of consecutive requests adds up |
| JobsClients.PlanDeletesOnlyMatches | src/dbacademy/clients/databricks/jobs/jobs_client_class.py:111-141 | every deleted job was listed under one of the names and, with success_only, had only successful runs |
| JobsClients.NamePlanDeletesOnlyMatches | src/dbacademy/clients/databricks/jobs/jobs_client_class.py:112-141 | within one name, a deleted job is a listed job with that name whose runs allow it |
| JobsClients.PlanDeletesEveryMatch | src/dbacademy/clients/databricks/jobs/jobs_client_class.py:111-141 | every listed job with one of the names whose runs allow it is deleted; without success_only every match is |
| JobsClients.NamePlanDeletesEveryMatch | src/dbacademy/clients/databricks/jobs/jobs_client_class.py:112-141 | within one name, every matching job whose runs allow it is deleted |
| JobsClients.PauseStatus | src/dbacademy/clients/databricks/jobs/jobs_client_class.py:152 | None stays None (keep the existing status), True gives "PAUSED", False gives "UNPAUSED" |
| JobsClients.UpdateSchedule | src/dbacademy/clients/databricks/jobs/jobs_client_class.py:146-169 | raises AttributeError exactly when the job has no settings, or has no schedule while some argument is falsy (a falsy timezone or cron, or no pause flag); otherwise timezone and cron take a truthy argument or the existing value, and the pause status takes the tri-state or the existing value |
| JobsClients.UpdateContinuous | src/dbacademy/clients/databricks/jobs/jobs_client_class.py:171-181 | the status sent is always "PAUSED" or "UNPAUSED", "PAUSED" exactly when paused |
| JobsClients.UpdateTrigger | src/dbacademy/clients/databricks/jobs/jobs_client_class.py:183-211 | raises AttributeError exactly when there are no settings or no trigger, or no file_arrival while some file-arrival argument is falsy; otherwise the pause status takes the tri-state or the trigger's value, and the three file-arrival fields each take a truthy argument or the existing value |
| JobsClients.ScheduleWithoutArgumentsIsUnchanged | src/dbacademy/clients/databricks/jobs/jobs_client_class.py:158-166 | an update_schedule with no arguments sends back the existing schedule |
| JobsClients.ScheduleAddedToUnscheduledJob | src/dbacademy/clients/databricks/jobs/jobs_client_class.py:152-166 | a job without a schedule given a pause flag, a cron expression and a timezone gets exactly that schedule |
| JobsClients.TriggerFalsyArgumentsKeepExisting | src/dbacademy/clients/databricks/jobs/jobs_client_class.py:201-205 | a supplied `""` or `0` keeps the existing file-arrival values |
| JobsClients.FileArrivalAddedToTrigger | src/dbacademy/clients/databricks/jobs/jobs_client_class.py:194-205 | a trigger without file_arrival given a url and two non-zero times gets exactly those file-arrival values |
| AccountWorkspaces.ReadyVerdict | src/dbacademy/clients/dougrest/accounts/workspaces.py:42-48 | once polling stops, the verdict is True exactly when the final status is RUNNING |
| AccountWorkspaces.Wrap | src/dbacademy/clients/dougrest/accounts/workspaces.py:110-113 | None raises TypeError; a record without `workspace_id` raises ValueError; a record with `workspace_id` and `deployment_name` is wrapped, keeping the record and talking to `{deployment_name}.cloud.databricks.com`; one without `deployment_name` raises TypeError |
| AccountWorkspaces.SearchEnd | src/dbacademy/clients/dougrest/accounts/workspaces.py:120 | where the generator stops: every record before it has a deployment_name other than the name, and the record at it lacks the key or has the name; the list's length when none does |
| AccountWorkspaces.FindByDeploymentName | src/dbacademy/clients/dougrest/accounts/workspaces.py:120 | the record where the search stops when it has the name, KeyError when it lacks the key, None when the list ends; so None exactly when every record has a different deployment_name |
| AccountWorkspaces.PresentIsFound | src/dbacademy/clients/dougrest/accounts/workspaces.py:115-123 | a record with the name that only keyed records precede is always found, never None and never KeyError |
| AccountWorkspaces.GetByDeploymentName | src/dbacademy/clients/dougrest/accounts/workspaces.py:115-123 | passes on the search's KeyError; wraps the first record with the name; with no match raises the 404 "workspace with deployment_name '…' not found" under "error" and a TypeError otherwise; a result is always the first record with the name |
| AccountWorkspaces.ResolveId | src/dbacademy/clients/dougrest/accounts/workspaces.py:135-183 | a truthy id wins, then a truthy object's key, then the looked-up object's key (KeyError if absent); with none given a required id raises and an optional one keeps its falsy value |
| AccountWorkspaces.FullSpec | src/dbacademy/clients/dougrest/accounts/workspaces.py:185-196 | the spec dict has exactly the ten keys of the request body, the region among them as `aws_region` |
| AccountWorkspaces.Create | src/dbacademy/clients/dougrest/accounts/workspaces.py:126-199 | the first failing id chain ends create with its exception; otherwise the spec keeps exactly its entries that are neither None nor `""`, unchanged |
| AccountWorkspaces.DropUnset | src/dbacademy/clients/dougrest/accounts/workspaces.py:196-198 | the loop over a snapshot of the spec's items deletes exactly the entries whose value is None or `""`, leaving every other entry unchanged |
| AccountWorkspaces.MissingCredentialsRaises | src/dbacademy/clients/dougrest/accounts/workspaces.py:135-142 | no credentials in any form raises "Must provide one of credentials, credentials_id, or credentials_name" |
| AccountWorkspaces.MissingStorageRaisesCredentialsMessage | src/dbacademy/clients/dougrest/accounts/workspaces.py:144-152 | a missing storage configuration raises with the same credentials message |
| AccountWorkspaces.UnsetOptionalIdIsDropped | src/dbacademy/clients/dougrest/accounts/workspaces.py:154-199 | an optional id given in no form does not raise and is absent from the spec |
| AccountWorkspaces.RegionAndExplicitCredentials | src/dbacademy/clients/dougrest/accounts/workspaces.py:135-196 | a given region appears under `aws_region`, and an explicit credentials id wins over an object or a name |
| AccountWorkspaces.FilteredKeepsTheRest | src/dbacademy/clients/dougrest/accounts/workspaces.py:197-199 | the filter keeps exactly the entries that are neither None nor `""`, with their values |

## Left out

- The implementation of `update_command` (`dbacademy/dbbuild/publish/notebook_def_class.py`) is not part of this model. The check is modelled from what the unit tests assert:
  - the marker is the first word after `{L} MAGIC `;
  - the checks run in the order single line, missing GUID, extra words, duplicate;
  - a second word is taken as the GUID whatever its spelling.
- NotebookI18n.NotebookDef.UpdateCommand: a well-formed, unused GUID that is not in the map is left open. The contract promises only that the earlier errors are kept and that no GUID is recorded. No test pins the outcome: its error message and returned text are not modelled.
  - The `i18n=False` path is not modelled.
  - The `other_notebooks` and `debugging` arguments are not modelled.
  - Warnings are never produced by the modelled paths.
- NotebookI18n.NotebookDef.UpdateCommand: an accepted cell is rewritten with the text its GUID maps to. The tests pin only the case where that text equals the cell body.
- Error objects are their message strings.
- HTTP transport, authentication, the 401 re-authentication retry and `add_as_admin` are not modelled. These are I/O.
- `create_by_example` with `fetch`/`if_exists`, and the `get_by_id` call each update method makes after posting, are not modelled. The model returns the request it would send instead.
- The polling loops of `wait_until_ready` and `wait_until_gone` are not modelled, because they depend on clock time. Only the final-status verdict is kept.
- `vprint` logging in `delete_by_name` is not modelled.
- JobsClients.List takes a ghost page bound as a precondition. The source would loop forever on a server that always answers `has_more`. Lemmas show the result does not depend on the bound.
- JobsClients.DeleteByName requires the same bound only when `job_names` has a supported type, because only then does it call `list()`. A bad type raises TypeError without listing, whatever the server.
- JobsClients.GetByName takes a ghost bound on the pages it requests before it stops. It stops at a page holding a match or at a page without `has_more`. It would loop forever only on a server that keeps announcing `has_more` without ever listing a match. The result does not depend on the bound.
- JobsClients.List keeps the source's `offset` counter, which is never read.
- CourseConfigs.ToBuildName works on ASCII only. Unicode digits (matched by `\d`) and non-ASCII case mapping in `str.lower()` are not modelled.
- The `dbacademy.common.validate` helpers are not part of this model. Required strings are `string` parameters, which cannot be None.
- CourseConfigs.NewCourseConfig reports a failure as a structured error value. The rendered assertion message is not modelled: it contains a Python list repr.
- JSON values are strings and job ids are integers. A `job_names` list holds strings.
- JobsClients.Job always carries settings, and JobsClients.Run always carries a state. The source raises AttributeError on a listed job without "settings" (lines 41 and 113) and on a run without "state" (lines 122-124). These records cannot be represented.
- Text.Strip and Text.Words treat only ASCII whitespace as whitespace. Python's `strip()` and `split()` also strip or split on Unicode spaces such as `\x85`, `\xa0`, `\u2000`-`\u200a` and `\u3000`.
- `dict` key order of the workspace spec is not modelled: the spec is a map.
- The text of `_wrap`'s ValueError is not modelled: it contains the dict repr. The record itself is carried instead.
- The HTTP code of the "Must provide one of …" exception is not modelled, because the exception class is not part of this model.
- The name lookups of `create` (`AccountsCRUD.get_by_name`) are total functions returning a record.
- `feature_store.py`, `accounts/workspaces.py` of the databricks client, `update_username.py` and the live-service tests are not modelled. They are thin wrappers, scripts or I/O.

/** JobsClient (src/dbacademy/clients/databricks/jobs/jobs_client_class.py): listing and
    searching jobs page by page, deleting jobs by name, and the settings payloads of the
    update calls. The REST client is a parameter: a function from a list query to the page
    it returns, a function from a job id to its record, and one from a job id to its runs. */
module JobsClients {
  import opened Wrappers

  type JobId = int

  /** A job as listed: its id and its settings' "name" (None when absent). */
  datatype Job = Job(jobId: JobId, name: Option<string>)

  /** One page of a jobs/list response; an absent "jobs" key is the empty list. */
  datatype Page = Page(jobs: seq<Job>, hasMore: bool, nextPageToken: Option<string>)

  /** The query string of a jobs/list request. pageToken is Some(t) when the URL carries
      page_token=t, where t is itself None when the previous page had no token. */
  datatype ListQuery = ListQuery(limit: int, offset: Option<int>, expandTasks: Option<bool>,
                                 pageToken: Option<Option<string>>)

  /** The exceptions the client raises itself. */
  datatype JobsError =
    | TypeError(message: string)
    | AssertionError(message: string)
    | AttributeError(message: string)

  // ---------------------------------------------------------------------------
  // list_n
  // ---------------------------------------------------------------------------

  const ListNMaxLimit := 25

  /** The query list_n sends: the limit capped at 25, a negative offset raised to 0. */
  function ListNQuery(offset: int, limit: int, expandTasks: bool): (q: ListQuery)
    ensures q.limit <= ListNMaxLimit && q.limit <= limit
    ensures q.limit == limit || q.limit == ListNMaxLimit
    ensures q.offset.Some? && q.offset.value >= 0 && q.offset.value >= offset
    ensures q.offset.value == offset || q.offset.value == 0
    ensures q.expandTasks == Some(expandTasks) && q.pageToken == None
  {
    ListQuery(if limit < ListNMaxLimit then limit else ListNMaxLimit, Some(if offset < 0 then 0 else offset),
              Some(expandTasks), None)
  }

  /** list_n: the jobs of the one page the clamped query returns. */
  function ListN(listApi: ListQuery -> Page, offset: int, limit: int, expandTasks: bool): seq<Job>
  {
    listApi(ListNQuery(offset, limit, expandTasks)).jobs
  }

  // ---------------------------------------------------------------------------
  // First match by name
  // ---------------------------------------------------------------------------

  /** The id of the first job whose name is name, if any (the search helper of get_by_name). */
  function FirstMatch(jobs: seq<Job>, name: string): (r: Option<JobId>)
    ensures r.None? <==> forall k :: 0 <= k < |jobs| ==> jobs[k].name != Some(name)
    ensures r.Some? ==> exists k :: 0 <= k < |jobs| && jobs[k].name == Some(name) && jobs[k].jobId == r.value
                                   && forall j :: 0 <= j < k ==> jobs[j].name != Some(name)
  {
    if jobs == [] then None
    else if jobs[0].name == Some(name) then Some(jobs[0].jobId)
    else
      var r := FirstMatch(jobs[1..], name);
      if r.Some? then
        var k :| 0 <= k < |jobs[1..]| && jobs[1..][k].name == Some(name) && jobs[1..][k].jobId == r.value
                 && forall j :: 0 <= j < k ==> jobs[1..][j].name != Some(name);
        assert jobs[k + 1] == jobs[1..][k];
        r
      else r
  }

  /** Searching a concatenation searches the first part, then the second. */
  lemma {:induction false} FirstMatchConcat(a: seq<Job>, b: seq<Job>, name: string)
    ensures FirstMatch(a + b, name) == if FirstMatch(a, name).Some? then FirstMatch(a, name) else FirstMatch(b, name)
    decreases |a|
  {
    if a == [] {
      assert a + b == b;
    } else {
      assert (a + b)[1..] == a[1..] + b;
      FirstMatchConcat(a[1..], b, name);
    }
  }

  // ---------------------------------------------------------------------------
  // get_by_name: pages by offset
  // ---------------------------------------------------------------------------

  const SearchLimit := 25

  /** The k-th request of get_by_name: no offset first, then offsets 25, 50, ... */
  function OffsetQuery(k: nat): ListQuery
  {
    if k == 0 then ListQuery(SearchLimit, None, None, None)
    else ListQuery(SearchLimit, Some(SearchLimit * k), None, None)
  }

  /** The pages from the k-th on stop announcing has_more within fuel further requests. */
  predicate OffsetPagesEnd(listApi: ListQuery -> Page, k: nat, fuel: nat)
    decreases fuel
  {
    listApi(OffsetQuery(k)).hasMore ==> fuel > 0 && OffsetPagesEnd(listApi, k + 1, fuel - 1)
  }

  /** The jobs of the pages from the k-th on, in page order. */
  function JobsFromOffset(listApi: ListQuery -> Page, k: nat, fuel: nat): seq<Job>
    requires OffsetPagesEnd(listApi, k, fuel)
    decreases fuel
  {
    var page := listApi(OffsetQuery(k));
    page.jobs + (if page.hasMore then JobsFromOffset(listApi, k + 1, fuel - 1) else [])
  }

  /** The listing does not depend on how generous the bound is. */
  lemma {:induction false} JobsFromOffsetFuel(listApi: ListQuery -> Page, k: nat, fuel1: nat, fuel2: nat)
    requires OffsetPagesEnd(listApi, k, fuel1) && OffsetPagesEnd(listApi, k, fuel2)
    ensures JobsFromOffset(listApi, k, fuel1) == JobsFromOffset(listApi, k, fuel2)
    decreases fuel1
  {
    if listApi(OffsetQuery(k)).hasMore {
      JobsFromOffsetFuel(listApi, k + 1, fuel1 - 1, fuel2 - 1);
    }
  }

  /** From the k-th page on, get_by_name stops within fuel further requests: at a page holding
      a job with the name, or at a page that does not announce has_more. */
  predicate OffsetSearchEnds(listApi: ListQuery -> Page, name: string, k: nat, fuel: nat)
    decreases fuel
  {
    var page := listApi(OffsetQuery(k));
    FirstMatch(page.jobs, name).None? && page.hasMore ==> fuel > 0 && OffsetSearchEnds(listApi, name, k + 1, fuel - 1)
  }

  /** The id get_by_name finds from the k-th page on: the first match of the first page that
      holds one, or None when the pages end without one. */
  function OffsetSearch(listApi: ListQuery -> Page, name: string, k: nat, fuel: nat): Option<JobId>
    requires OffsetSearchEnds(listApi, name, k, fuel)
    decreases fuel
  {
    var page := listApi(OffsetQuery(k));
    var found := FirstMatch(page.jobs, name);
    if found.Some? then found
    else if page.hasMore then OffsetSearch(listApi, name, k + 1, fuel - 1)
    else None
  }

  /** When the pages end, the search finds the first match over all pages in order. */
  lemma {:induction false} OffsetSearchIsFirstMatch(listApi: ListQuery -> Page, name: string, k: nat, fuel: nat)
    requires OffsetPagesEnd(listApi, k, fuel)
    ensures OffsetSearchEnds(listApi, name, k, fuel)
    ensures OffsetSearch(listApi, name, k, fuel) == FirstMatch(JobsFromOffset(listApi, k, fuel), name)
    decreases fuel
  {
    var page := listApi(OffsetQuery(k));
    var rest := if page.hasMore then JobsFromOffset(listApi, k + 1, fuel - 1) else [];
    FirstMatchConcat(page.jobs, rest, name);
    if page.hasMore {
      OffsetSearchIsFirstMatch(listApi, name, k + 1, fuel - 1);
    } else {
      assert FirstMatch(rest, name) == None;
    }
  }

  /** The search does not depend on how generous the bound is. */
  lemma {:induction false} OffsetSearchFuel(listApi: ListQuery -> Page, name: string, k: nat, fuel1: nat, fuel2: nat)
    requires OffsetSearchEnds(listApi, name, k, fuel1) && OffsetSearchEnds(listApi, name, k, fuel2)
    ensures OffsetSearch(listApi, name, k, fuel1) == OffsetSearch(listApi, name, k, fuel2)
    decreases fuel1
  {
    var page := listApi(OffsetQuery(k));
    if FirstMatch(page.jobs, name).None? && page.hasMore {
      OffsetSearchFuel(listApi, name, k + 1, fuel1 - 1, fuel2 - 1);
    }
  }

  /** get_by_name: requests pages until one holds a job with the name and returns that job's
      record, or returns None once no page is left. The ghost fuel bounds the number of pages
      requested before that happens. */
  method GetByName<D>(listApi: ListQuery -> Page, getById: JobId -> D, name: string, ghost fuel: nat)
    returns (r: Option<D>)
    requires OffsetSearchEnds(listApi, name, 0, fuel)
    ensures match OffsetSearch(listApi, name, 0, fuel)
            case None => r == None
            case Some(id) => r == Some(getById(id))
  {
    var offset := 0;
    var limit := SearchLimit;
    var response := listApi(ListQuery(limit, None, None, None));
    ghost var k: nat := 0;
    ghost var f := fuel;
    var found := FirstMatch(response.jobs, name);
    while true
      invariant offset == SearchLimit * k && response == listApi(OffsetQuery(k))
      invariant OffsetSearchEnds(listApi, name, k, f)
      invariant found == FirstMatch(response.jobs, name)
      invariant OffsetSearch(listApi, name, 0, fuel) == OffsetSearch(listApi, name, k, f)
      decreases f
    {
      if found.Some? {
        return Some(getById(found.value));
      }
      if !response.hasMore {
        return None;
      }
      offset := offset + limit;
      k, f := k + 1, f - 1;
      response := listApi(ListQuery(limit, Some(offset), None, None));
      found := FirstMatch(response.jobs, name);
    }
  }

  // ---------------------------------------------------------------------------
  // list: pages by token
  // ---------------------------------------------------------------------------

  const ListLimit := 100

  /** A request of list: limit 100, expand_tasks, and the token of the previous page if any. */
  function TokenQuery(expandTasks: bool, token: Option<Option<string>>): ListQuery
  {
    ListQuery(ListLimit, None, Some(expandTasks), token)
  }

  function NextPage(listApi: ListQuery -> Page, expandTasks: bool, page: Page): Page
  {
    listApi(TokenQuery(expandTasks, Some(page.nextPageToken)))
  }

  /** The pages from page on stop announcing has_more within fuel further requests. */
  predicate TokenPagesEnd(listApi: ListQuery -> Page, expandTasks: bool, page: Page, fuel: nat)
    decreases fuel
  {
    page.hasMore ==> fuel > 0 && TokenPagesEnd(listApi, expandTasks, NextPage(listApi, expandTasks, page), fuel - 1)
  }

  /** The jobs of page and of every page fetched after it, in order. */
  function JobsFromPage(listApi: ListQuery -> Page, expandTasks: bool, page: Page, fuel: nat): seq<Job>
    requires TokenPagesEnd(listApi, expandTasks, page, fuel)
    decreases fuel
  {
    page.jobs + (if page.hasMore then JobsFromPage(listApi, expandTasks, NextPage(listApi, expandTasks, page), fuel - 1) else [])
  }

  /** The listing does not depend on how generous the bound is. */
  lemma {:induction false} JobsFromPageFuel(listApi: ListQuery -> Page, expandTasks: bool, page: Page, fuel1: nat, fuel2: nat)
    requires TokenPagesEnd(listApi, expandTasks, page, fuel1) && TokenPagesEnd(listApi, expandTasks, page, fuel2)
    ensures JobsFromPage(listApi, expandTasks, page, fuel1) == JobsFromPage(listApi, expandTasks, page, fuel2)
    decreases fuel1
  {
    if page.hasMore {
      JobsFromPageFuel(listApi, expandTasks, NextPage(listApi, expandTasks, page), fuel1 - 1, fuel2 - 1);
    }
  }

  /** The first page of list. */
  function FirstListPage(listApi: ListQuery -> Page, expandTasks: bool): Page
  {
    listApi(TokenQuery(expandTasks, None))
  }

  /** list: every job of every page, pages in order, following next_page_token while has_more. */
  method List(listApi: ListQuery -> Page, expandTasks: bool, ghost fuel: nat) returns (allJobs: seq<Job>)
    requires TokenPagesEnd(listApi, expandTasks, FirstListPage(listApi, expandTasks), fuel)
    ensures allJobs == JobsFromPage(listApi, expandTasks, FirstListPage(listApi, expandTasks), fuel)
  {
    var offset := 0;
    var limit := ListLimit;
    var response := listApi(TokenQuery(expandTasks, None));
    allJobs := response.jobs;
    ghost var before: seq<Job> := [];
    ghost var f := fuel;
    while response.hasMore
      invariant TokenPagesEnd(listApi, expandTasks, response, f)
      invariant allJobs == before + response.jobs
      invariant JobsFromPage(listApi, expandTasks, FirstListPage(listApi, expandTasks), fuel)
                == before + JobsFromPage(listApi, expandTasks, response, f)
      decreases f
    {
      offset := offset + limit;  // never read, as in the source
      var pageToken := response.nextPageToken;
      assert JobsFromPage(listApi, expandTasks, response, f)
             == response.jobs + JobsFromPage(listApi, expandTasks, NextPage(listApi, expandTasks, response), f - 1);
      before := allJobs;
      response := listApi(TokenQuery(expandTasks, Some(pageToken)));
      f := f - 1;
      allJobs := allJobs + response.jobs;
    }
  }

  // ---------------------------------------------------------------------------
  // delete_by_name
  // ---------------------------------------------------------------------------

  /** job_names as passed: a dict (its keys, in order), a list, a str, or any other type. */
  datatype JobNames = NamesDict(keys: seq<string>) | NamesList(items: seq<string>) | NamesStr(name: string)
                    | NamesOther(typeName: string)

  /** success_only as passed: a bool, or a value of another type shown as text. */
  datatype FlagValue = FlagBool(flag: bool) | FlagOther(shown: string)

  /** A run of a job with the two states read from its "state". */
  datatype Run = Run(runId: int, resultState: Option<string>, lifeCycleState: Option<string>)

  /** A deletion request the client sends. */
  datatype Action = DeleteRun(runId: int) | DeleteJob(jobId: JobId)

  /** The outcome of delete_by_name: the requests sent, in order, and the deleted counter. */
  datatype Deletion = Deletion(actions: seq<Action>, deleted: nat)

  /** job_names normalised to a list; other types raise TypeError. */
  function NormalizeJobNames(jobNames: JobNames): (r: Result<seq<string>, JobsError>)
    ensures r.Failure? <==> jobNames.NamesOther?
    ensures r.Failure? ==> r.error == TypeError("Unsupported type: " + jobNames.typeName)
    ensures jobNames.NamesStr? ==> r == Success([jobNames.name])
    ensures jobNames.NamesDict? ==> r == Success(jobNames.keys)
    ensures jobNames.NamesList? ==> r == Success(jobNames.items)
  {
    match jobNames
    case NamesDict(keys) => Success(keys)
    case NamesList(items) => Success(items)
    case NamesStr(name) => Success([name])
    case NamesOther(t) => Failure(TypeError("Unsupported type: " + t))
  }

  predicate RunSucceeded(run: Run) {
    run.lifeCycleState == Some("TERMINATED") && run.resultState == Some("SUCCESS")
  }

  /** Whether a matching job with these runs is deleted. */
  predicate ShouldDelete(runs: seq<Run>, successOnly: bool) {
    !successOnly || forall k :: 0 <= k < |runs| ==> RunSucceeded(runs[k])
  }

  /** The delete_job flag: cleared by any run that is not TERMINATED or not SUCCESS when
      success_only is set, so a job without runs, or any job without success_only, is deleted. */
  method DecideDeletion(runs: seq<Run>, successOnly: bool) returns (deleteJob: bool)
    ensures deleteJob <==> ShouldDelete(runs, successOnly)
    ensures !successOnly || runs == [] ==> deleteJob
  {
    deleteJob := true;
    for k := 0 to |runs|
      invariant deleteJob <==> ShouldDelete(runs[..k], successOnly)
    {
      if successOnly && runs[k].lifeCycleState != Some("TERMINATED") {
        deleteJob := false;
      }
      if successOnly && runs[k].resultState != Some("SUCCESS") {
        deleteJob := false;
      }
    }
    assert runs[..|runs|] == runs;
  }

  function RunDeletions(runs: seq<Run>): (actions: seq<Action>)
    ensures |actions| == |runs|
    ensures forall k :: 0 <= k < |runs| ==> actions[k] == DeleteRun(runs[k].runId)
  {
    if runs == [] then [] else RunDeletions(runs[..|runs| - 1]) + [DeleteRun(runs[|runs| - 1].runId)]
  }

  /** What one (name, job) pair of the nested loops sends. */
  function JobPlan(name: string, job: Job, runsOf: JobId -> seq<Run>, successOnly: bool): seq<Action>
  {
    if job.name == Some(name) && ShouldDelete(runsOf(job.jobId), successOnly)
    then RunDeletions(runsOf(job.jobId)) + [DeleteJob(job.jobId)]
    else []
  }

  function NamePlan(name: string, jobs: seq<Job>, runsOf: JobId -> seq<Run>, successOnly: bool): seq<Action>
  {
    if jobs == [] then []
    else NamePlan(name, jobs[..|jobs| - 1], runsOf, successOnly) + JobPlan(name, jobs[|jobs| - 1], runsOf, successOnly)
  }

  /** Every request the nested loops send, names in order and jobs in order within each name. */
  function Plan(names: seq<string>, jobs: seq<Job>, runsOf: JobId -> seq<Run>, successOnly: bool): seq<Action>
  {
    if names == [] then []
    else Plan(names[..|names| - 1], jobs, runsOf, successOnly) + NamePlan(names[|names| - 1], jobs, runsOf, successOnly)
  }

  /** The number of job deletions among the actions. */
  function JobDeletions(actions: seq<Action>): nat
  {
    if actions == [] then 0
    else JobDeletions(actions[..|actions| - 1]) + (if actions[|actions| - 1].DeleteJob? then 1 else 0)
  }

  lemma {:induction false} JobDeletionsConcat(a: seq<Action>, b: seq<Action>)
    ensures JobDeletions(a + b) == JobDeletions(a) + JobDeletions(b)
    decreases |b|
  {
    if b == [] {
      assert a + b == a;
    } else {
      assert (a + b)[..|a + b| - 1] == a + b[..|b| - 1];
      JobDeletionsConcat(a, b[..|b| - 1]);
    }
  }

  lemma {:induction false} RunDeletionsDeleteNoJob(runs: seq<Run>)
    ensures JobDeletions(RunDeletions(runs)) == 0
    decreases |runs|
  {
    if runs != [] {
      var a := RunDeletions(runs);
      assert a[..|a| - 1] == RunDeletions(runs[..|runs| - 1]);
      RunDeletionsDeleteNoJob(runs[..|runs| - 1]);
    }
  }

  function SuccessOnlyMessage(shown: string): string
  {
    "Expected \"success_only\" to be of type \"bool\", found \"" + shown + "\"."
  }

  /** delete_by_name: normalises job_names, lists every job, checks that success_only is a
      bool, then deletes the matching jobs its runs allow (DeleteMatchingJobs). */
  method DeleteByName(jobNames: JobNames, successOnly: FlagValue, listApi: ListQuery -> Page,
                      runsOf: JobId -> seq<Run>, ghost fuel: nat)
    returns (r: Result<Deletion, JobsError>)
    requires !jobNames.NamesOther? ==> TokenPagesEnd(listApi, false, FirstListPage(listApi, false), fuel)
    ensures jobNames.NamesOther? ==> r == Failure(TypeError("Unsupported type: " + jobNames.typeName))
    ensures !jobNames.NamesOther? && successOnly.FlagOther? ==> r == Failure(AssertionError(SuccessOnlyMessage(successOnly.shown)))
    ensures !jobNames.NamesOther? && successOnly.FlagBool? ==>
              var plan := Plan(NormalizeJobNames(jobNames).value, JobsFromPage(listApi, false, FirstListPage(listApi, false), fuel),
                               runsOf, successOnly.flag);
              r == Success(Deletion(plan, JobDeletions(plan)))
  {
    var names :- NormalizeJobNames(jobNames);
    var jobs := List(listApi, false, fuel);
    if successOnly.FlagOther? {
      return Failure(AssertionError(SuccessOnlyMessage(successOnly.shown)));
    }
    var deletion := DeleteMatchingJobs(names, jobs, runsOf, successOnly.flag);
    r := Success(deletion);
  }

  /** The nested loops of delete_by_name: for each name, the jobs deleted under it
      (DeleteJobsNamed), with deleted counting every job deletion sent. */
  method DeleteMatchingJobs(names: seq<string>, jobs: seq<Job>, runsOf: JobId -> seq<Run>, successOnly: bool)
    returns (d: Deletion)
    ensures d.actions == Plan(names, jobs, runsOf, successOnly)
    ensures d.deleted == JobDeletions(d.actions)
  {
    var actions: seq<Action> := [];
    var deleted: nat := 0;
    for i := 0 to |names|
      invariant actions == Plan(names[..i], jobs, runsOf, successOnly)
      invariant deleted == JobDeletions(actions)
    {
      assert names[..i + 1][..i] == names[..i] && names[..i + 1][i] == names[i];
      var requests, count := DeleteJobsNamed(names[i], jobs, runsOf, successOnly);
      JobDeletionsConcat(actions, requests);
      actions := actions + requests;
      deleted := deleted + count;
    }
    assert names[..|names|] == names;
    d := Deletion(actions, deleted);
  }

  /** The inner loop of delete_by_name for one name: for each listed job with that name, the
      delete_job decision, then the runs' and the job's deletion; count is the jobs deleted. */
  method DeleteJobsNamed(name: string, jobs: seq<Job>, runsOf: JobId -> seq<Run>, successOnly: bool)
    returns (requests: seq<Action>, count: nat)
    ensures requests == NamePlan(name, jobs, runsOf, successOnly)
    ensures count == JobDeletions(requests)
  {
    requests := [];
    count := 0;
    for j := 0 to |jobs|
      invariant requests == NamePlan(name, jobs[..j], runsOf, successOnly)
      invariant count == JobDeletions(requests)
    {
      assert jobs[..j + 1][..j] == jobs[..j] && jobs[..j + 1][j] == jobs[j];
      ghost var step := JobPlan(name, jobs[j], runsOf, successOnly);
      if jobs[j].name == Some(name) {
        var jobId := jobs[j].jobId;
        var runs := runsOf(jobId);
        var deleteJob := DecideDeletion(runs, successOnly);
        if deleteJob {
          var sent := DeleteRunsThenJob(jobId, runs);
          JobDeletionsConcat(requests, sent);
          requests := requests + sent;
          count := count + 1;
          assert step == sent;
        } else {
          assert step == [];
          assert requests + step == requests;
        }
      } else {
        assert step == [];
        assert requests + step == requests;
      }
    }
    assert jobs[..|jobs|] == jobs;
  }

  /** The deletion of one job: each of its runs in order, then the job; one job deletion. */
  method DeleteRunsThenJob(jobId: JobId, runs: seq<Run>) returns (requests: seq<Action>)
    ensures requests == RunDeletions(runs) + [DeleteJob(jobId)]
    ensures JobDeletions(requests) == 1
  {
    requests := [];
    for k := 0 to |runs|
      invariant requests == RunDeletions(runs[..k])
    {
      assert runs[..k + 1][..k] == runs[..k] && runs[..k + 1][k] == runs[k];
      requests := requests + [DeleteRun(runs[k].runId)];
    }
    assert runs[..|runs|] == runs;
    RunDeletionsDeleteNoJob(runs);
    JobDeletionsConcat(requests, [DeleteJob(jobId)]);
    requests := requests + [DeleteJob(jobId)];
  }

  /** Every job deleted was listed under one of the names and, with success_only, had only
      successful runs. */
  lemma {:induction false} PlanDeletesOnlyMatches(names: seq<string>, jobs: seq<Job>, runsOf: JobId -> seq<Run>,
                                                  successOnly: bool, id: JobId)
    requires DeleteJob(id) in Plan(names, jobs, runsOf, successOnly)
    ensures exists n, j :: 0 <= n < |names| && 0 <= j < |jobs| && jobs[j].name == Some(names[n])
                           && jobs[j].jobId == id && ShouldDelete(runsOf(id), successOnly)
    decreases |names|
  {
    var last := names[|names| - 1];
    if DeleteJob(id) in Plan(names[..|names| - 1], jobs, runsOf, successOnly) {
      PlanDeletesOnlyMatches(names[..|names| - 1], jobs, runsOf, successOnly, id);
      var n, j :| 0 <= n < |names| - 1 && 0 <= j < |jobs| && jobs[j].name == Some(names[..|names| - 1][n])
                  && jobs[j].jobId == id && ShouldDelete(runsOf(id), successOnly);
      assert names[..|names| - 1][n] == names[n];
    } else {
      var j := NamePlanDeletesOnlyMatches(last, jobs, runsOf, successOnly, id);
      assert jobs[j].name == Some(names[|names| - 1]);
    }
  }

  lemma {:induction false} NamePlanDeletesOnlyMatches(name: string, jobs: seq<Job>, runsOf: JobId -> seq<Run>,
                                                      successOnly: bool, id: JobId) returns (j: nat)
    requires DeleteJob(id) in NamePlan(name, jobs, runsOf, successOnly)
    ensures j < |jobs| && jobs[j].name == Some(name) && jobs[j].jobId == id && ShouldDelete(runsOf(id), successOnly)
    decreases |jobs|
  {
    var last := jobs[|jobs| - 1];
    var plan := JobPlan(name, last, runsOf, successOnly);
    if DeleteJob(id) in NamePlan(name, jobs[..|jobs| - 1], runsOf, successOnly) {
      j := NamePlanDeletesOnlyMatches(name, jobs[..|jobs| - 1], runsOf, successOnly, id);
      assert jobs[..|jobs| - 1][j] == jobs[j];
    } else {
      assert DeleteJob(id) in plan;
      var runs := runsOf(last.jobId);
      assert plan == RunDeletions(runs) + [DeleteJob(last.jobId)];
      assert DeleteJob(id) !in RunDeletions(runs);
      j := |jobs| - 1;
    }
  }

  /** Every listed job with one of the names is deleted when its runs allow it: with
      success_only unset, or with no runs, every matching job is deleted. */
  lemma {:induction false} PlanDeletesEveryMatch(names: seq<string>, jobs: seq<Job>, runsOf: JobId -> seq<Run>,
                                                 successOnly: bool, n: nat, j: nat)
    requires n < |names| && j < |jobs| && jobs[j].name == Some(names[n])
    requires ShouldDelete(runsOf(jobs[j].jobId), successOnly)
    ensures DeleteJob(jobs[j].jobId) in Plan(names, jobs, runsOf, successOnly)
    decreases |names|
  {
    if n < |names| - 1 {
      assert names[..|names| - 1][n] == names[n];
      PlanDeletesEveryMatch(names[..|names| - 1], jobs, runsOf, successOnly, n, j);
    } else {
      NamePlanDeletesEveryMatch(names[n], jobs, runsOf, successOnly, j);
    }
  }

  lemma {:induction false} NamePlanDeletesEveryMatch(name: string, jobs: seq<Job>, runsOf: JobId -> seq<Run>,
                                                     successOnly: bool, j: nat)
    requires j < |jobs| && jobs[j].name == Some(name)
    requires ShouldDelete(runsOf(jobs[j].jobId), successOnly)
    ensures DeleteJob(jobs[j].jobId) in NamePlan(name, jobs, runsOf, successOnly)
    decreases |jobs|
  {
    if j < |jobs| - 1 {
      assert jobs[..|jobs| - 1][j] == jobs[j];
      NamePlanDeletesEveryMatch(name, jobs[..|jobs| - 1], runsOf, successOnly, j);
    } else {
      var plan := JobPlan(name, jobs[j], runsOf, successOnly);
      assert plan[|plan| - 1] == DeleteJob(jobs[j].jobId);
    }
  }

  // ---------------------------------------------------------------------------
  // update_schedule, update_continuous, update_trigger
  // ---------------------------------------------------------------------------

  /** The tri-state _paused: None leaves the status to the existing one. */
  function PauseStatus(paused: Option<bool>): (s: Option<string>)
    ensures paused == None <==> s == None
    ensures paused == Some(true) <==> s == Some("PAUSED")
    ensures paused == Some(false) <==> s == Some("UNPAUSED")
  {
    match paused
    case None => None
    case Some(p) => Some(if p then "PAUSED" else "UNPAUSED")
  }

  /** Python truthiness of an optional string or int. */
  predicate TruthyStr(v: Option<string>) { v.Some? && v.value != "" }
  predicate TruthyInt(v: Option<int>) { v.Some? && v.value != 0 }

  datatype Schedule = Schedule(timezoneId: Option<string>, quartzCronExpression: Option<string>, pauseStatus: Option<string>)
  datatype FileArrival = FileArrival(url: Option<string>, minTimeBetweenTriggersSeconds: Option<int>,
                                     waitAfterLastChangeSeconds: Option<int>)
  datatype Trigger = Trigger(pauseStatus: Option<string>, fileArrival: Option<FileArrival>)
  datatype Settings = Settings(schedule: Option<Schedule>, trigger: Option<Trigger>)

  /** A job record as get_by_id returns it; settings is None when the key is absent. */
  datatype JobRecord = JobRecord(settings: Option<Settings>)

  /** The body of a jobs/update request. */
  datatype UpdatePayload =
    | ScheduleUpdate(jobId: JobId, schedule: Schedule)
    | ContinuousUpdate(jobId: JobId, pauseStatus: string)
    | TriggerUpdate(jobId: JobId, triggerPauseStatus: Option<string>, fileArrival: FileArrival)

  const NoneGet := "'NoneType' object has no attribute 'get'"

  /** update_schedule's payload: each field is `argument or schedule.get(field)`, so it takes the
      argument when that is truthy and the existing schedule's value otherwise. A job without
      settings raises; so does a job without a schedule, but only when some field has to fall
      back to it (a schedule can be given to an unscheduled job by passing all three). */
  function UpdateSchedule(jobId: JobId, paused: Option<bool>, quartzCronExpression: Option<string>,
                          timezoneId: Option<string>, job: JobRecord): (r: Result<UpdatePayload, JobsError>)
    ensures r.Failure? <==> job.settings == None
                            || (job.settings.value.schedule == None
                                && (!TruthyStr(timezoneId) || !TruthyStr(quartzCronExpression) || paused.None?))
    ensures r.Failure? ==> r.error == AttributeError(NoneGet)
    ensures r.Success? ==> r.value.ScheduleUpdate? && r.value.jobId == jobId
    ensures r.Success? ==>
              var existing := job.settings.value.schedule;
              var s := r.value.schedule;
              && (TruthyStr(timezoneId) ==> s.timezoneId == timezoneId)
              && (!TruthyStr(timezoneId) ==> existing.Some? && s.timezoneId == existing.value.timezoneId)
              && (TruthyStr(quartzCronExpression) ==> s.quartzCronExpression == quartzCronExpression)
              && (!TruthyStr(quartzCronExpression) ==>
                    existing.Some? && s.quartzCronExpression == existing.value.quartzCronExpression)
              && (paused.Some? ==> s.pauseStatus == PauseStatus(paused))
              && (paused.None? ==> existing.Some? && s.pauseStatus == existing.value.pauseStatus)
  {
    var pausedStatus := PauseStatus(paused);
    if job.settings == None then Failure(AttributeError(NoneGet))
    else
      var schedule := job.settings.value.schedule;
      if schedule == None && (!TruthyStr(timezoneId) || !TruthyStr(quartzCronExpression) || !TruthyStr(pausedStatus))
      then Failure(AttributeError(NoneGet))
      else
        Success(ScheduleUpdate(jobId, Schedule(
          if TruthyStr(timezoneId) then timezoneId else schedule.value.timezoneId,
          if TruthyStr(quartzCronExpression) then quartzCronExpression else schedule.value.quartzCronExpression,
          if TruthyStr(pausedStatus) then pausedStatus else schedule.value.pauseStatus)))
  }

  /** update_continuous's payload: always exactly "PAUSED" or "UNPAUSED". */
  function UpdateContinuous(jobId: JobId, paused: bool): (p: UpdatePayload)
    ensures p.ContinuousUpdate? && p.jobId == jobId
    ensures p.pauseStatus == "PAUSED" || p.pauseStatus == "UNPAUSED"
    ensures p.pauseStatus == "PAUSED" <==> paused
  {
    ContinuousUpdate(jobId, if paused then "PAUSED" else "UNPAUSED")
  }

  /** update_trigger's payload: the same fallback for the pause status and the three
      file-arrival fields. A missing settings or trigger raises; a missing file_arrival raises
      only when some file-arrival field has to fall back to it. */
  function UpdateTrigger(jobId: JobId, paused: Option<bool>, url: Option<string>,
                         minTimeBetweenTriggersSeconds: Option<int>, waitAfterLastChangeSeconds: Option<int>,
                         job: JobRecord): (r: Result<UpdatePayload, JobsError>)
    ensures r.Failure? <==> job.settings == None || job.settings.value.trigger == None
                            || (job.settings.value.trigger.value.fileArrival == None
                                && (!TruthyStr(url) || !TruthyInt(minTimeBetweenTriggersSeconds)
                                    || !TruthyInt(waitAfterLastChangeSeconds)))
    ensures r.Failure? ==> r.error == AttributeError(NoneGet)
    ensures r.Success? ==> r.value.TriggerUpdate? && r.value.jobId == jobId
    ensures r.Success? ==>
              var trigger := job.settings.value.trigger.value;
              var existing := trigger.fileArrival;
              var f := r.value.fileArrival;
              && (paused.Some? ==> r.value.triggerPauseStatus == PauseStatus(paused))
              && (paused.None? ==> r.value.triggerPauseStatus == trigger.pauseStatus)
              && (TruthyStr(url) ==> f.url == url)
              && (!TruthyStr(url) ==> existing.Some? && f.url == existing.value.url)
              && (TruthyInt(minTimeBetweenTriggersSeconds) ==> f.minTimeBetweenTriggersSeconds == minTimeBetweenTriggersSeconds)
              && (!TruthyInt(minTimeBetweenTriggersSeconds) ==>
                    existing.Some? && f.minTimeBetweenTriggersSeconds == existing.value.minTimeBetweenTriggersSeconds)
              && (TruthyInt(waitAfterLastChangeSeconds) ==> f.waitAfterLastChangeSeconds == waitAfterLastChangeSeconds)
              && (!TruthyInt(waitAfterLastChangeSeconds) ==>
                    existing.Some? && f.waitAfterLastChangeSeconds == existing.value.waitAfterLastChangeSeconds)
  {
    var pausedStatus := PauseStatus(paused);
    if job.settings == None || job.settings.value.trigger == None then Failure(AttributeError(NoneGet))
    else
      var trigger := job.settings.value.trigger.value;
      var fileArrival := trigger.fileArrival;
      if fileArrival == None
         && (!TruthyStr(url) || !TruthyInt(minTimeBetweenTriggersSeconds) || !TruthyInt(waitAfterLastChangeSeconds))
      then Failure(AttributeError(NoneGet))
      else
        Success(TriggerUpdate(jobId,
          if TruthyStr(pausedStatus) then pausedStatus else trigger.pauseStatus,
          FileArrival(
            if TruthyStr(url) then url else fileArrival.value.url,
            if TruthyInt(minTimeBetweenTriggersSeconds) then minTimeBetweenTriggersSeconds
            else fileArrival.value.minTimeBetweenTriggersSeconds,
            if TruthyInt(waitAfterLastChangeSeconds) then waitAfterLastChangeSeconds
            else fileArrival.value.waitAfterLastChangeSeconds)))
  }

  /** An update_schedule call with no arguments sends the existing schedule back unchanged. */
  lemma ScheduleWithoutArgumentsIsUnchanged(jobId: JobId, schedule: Schedule, trigger: Option<Trigger>)
    ensures UpdateSchedule(jobId, None, None, None, JobRecord(Some(Settings(Some(schedule), trigger))))
            == Success(ScheduleUpdate(jobId, schedule))
  {
  }

  /** Supplying 0 or "" to update_trigger keeps the existing file-arrival values. */
  lemma TriggerFalsyArgumentsKeepExisting(jobId: JobId, paused: Option<bool>, fileArrival: FileArrival,
                                          pauseStatus: Option<string>, schedule: Option<Schedule>)
    ensures var r := UpdateTrigger(jobId, paused, Some(""), Some(0), Some(0),
                                   JobRecord(Some(Settings(schedule, Some(Trigger(pauseStatus, Some(fileArrival)))))));
            r.Success? && r.value.fileArrival == fileArrival
  {
  }

  /** Passing all three schedule arguments to a job without a schedule sends exactly them. */
  lemma ScheduleAddedToUnscheduledJob(jobId: JobId, paused: bool, quartzCronExpression: string, timezoneId: string,
                                      trigger: Option<Trigger>)
    requires quartzCronExpression != "" && timezoneId != ""
    ensures UpdateSchedule(jobId, Some(paused), Some(quartzCronExpression), Some(timezoneId),
                           JobRecord(Some(Settings(None, trigger))))
            == Success(ScheduleUpdate(jobId, Schedule(Some(timezoneId), Some(quartzCronExpression),
                                                      PauseStatus(Some(paused)))))
  {
  }

  /** Passing all three file-arrival arguments to a trigger without one sends exactly them. */
  lemma FileArrivalAddedToTrigger(jobId: JobId, paused: Option<bool>, url: string, minTime: int, wait: int,
                                  pauseStatus: Option<string>, schedule: Option<Schedule>)
    requires url != "" && minTime != 0 && wait != 0
    ensures var r := UpdateTrigger(jobId, paused, Some(url), Some(minTime), Some(wait),
                                   JobRecord(Some(Settings(schedule, Some(Trigger(pauseStatus, None))))));
            r.Success? && r.value.fileArrival == FileArrival(Some(url), Some(minTime), Some(wait))
  {
  }
}

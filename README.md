# rq-dashboard, modelled in Dafny

rq-dashboard is a Flask web front end for RQ (Redis Queue). This project
models the parts of it that compute something, and proves properties of them:

- **Server-side handlers:**
  - the pagination window and its three copies;
  - the JSON listing of a queue's jobs and its navigation links;
  - the bulk requeue, cancel and empty handlers, which walk a snapshot of job ids and issue one store command per id;
  - the rq-scheduler views: filter by origin, page, count per queue, cancel;
  - `parse_job`, which reads a job description with a regular expression.
- **The rq 1.0 compatibility shim** `FailedQueue`: a class holding a one-shot generator over the failed-job registries and a cache of their ids.
- **Application configuration:**
  - the URL-prefix normaliser;
  - the truthy-string test;
  - the overlay of environment variables onto `app.config`;
  - the upgrade of legacy setting names.
- **Browser scripts:**
  - cookie lookup and the CSRF header;
  - the job-list and instance-switch URLs;
  - routing queues to the queues and job-names tables;
  - grouping and counting workers;
  - the in-place state rewrite of the ungrouped worker table.

Redis, Flask and the browser are not modelled. Whatever the store would answer is passed in as a parameter:
- the id list of a queue;
- the surviving job records;
- the set of jobs that exist;
- the outcome of each requeue.

The handlers return the commands they would issue as a sequence. `url_for`,
`encodeURIComponent` and date formatting are parameters too.

Modules: `Wrappers` (Option/Result), `Json` (response and config values),
`Slicing` (Python slices, Redis `LRANGE`, JavaScript `slice`/`indexOf`), `Text`
(`strip`, ASCII `lower`, `int()`), `Tally` (first-occurrence counting),
`Store`, `Settings` (`app.config` as a class), `Utils`, `Navigation`, `Web`,
`Scheduler`, `Dashboard`, `Compat`, `App`, `LegacyConfig`, `ClientScripts`
(scripts/dashboard.js) and `ClientDashboard` (the page's dashboard.js).

## Model

| member | source | states |
|---|---|---|
| Utils.CeilDiv | rq_dashboard/utils.py:25 | `int(ceil(a / float(b)))` as an exact ceiling: `(q-1)*b < a <= q*b` for positive b |
| Utils.NumPages | rq_dashboard/utils.py:25 | the page count is the ceiling of items over page size, and is 0 exactly when there are no items |
| Utils.Window | rq_dashboard/utils.py:24-35 | every window entry is a page in 1..num_pages, and entries are consecutive ascending numbers |
| Utils.WindowIsRun | rq_dashboard/utils.py:27-34 | for window_size ≥ 1 the window is the run of min(window_size, num_pages) pages from the clamped start |
| Utils.WindowLength | rq_dashboard/utils.py:27-34 | for window_size ≥ 1 the window has exactly min(window_size, num_pages) entries |
| Utils.WindowAllPages | rq_dashboard/utils.py:25-26 | for window_size < 1 the window is every page 1..num_pages |
| Utils.WindowEmpty | rq_dashboard/utils.py:25 | zero items give an empty window |
| Utils.WindowContainsCurrent | rq_dashboard/utils.py:28-34 | with window_size ≥ 2 every valid current page is in its window |
| Utils.WindowOfOneLagsBehind | rq_dashboard/utils.py:28-34 | with window_size 1 the window is the page before the current one, for current pages from 2 on |
| Utils.WindowCentred | rq_dashboard/utils.py:28-33 | away from both ends the window starts ceil(window_size/2) pages before the current page |
| Utils.DefaultWindowCentred | rq_dashboard/utils.py:24-34 | with the default size 10, away from the ends the window is cur_page-5 .. cur_page+4 |
| Utils.WindowFlushWithFirst | rq_dashboard/utils.py:28-33 | near page 1 the window starts at page 1 |
| Utils.WindowFlushWithLast | rq_dashboard/utils.py:28-33 | near the last page the window ends at the last page |
| Utils.RemoveNoneValues | rq_dashboard/utils.py:38-39 | keeps exactly the keys whose value is not None, with their values unchanged |
| Utils.RemoveNoneValuesIdempotent | rq_dashboard/utils.py:38-39 | removing None values twice equals removing them once |
| Utils.SerializeDate | rq_dashboard/utils.py:42-45 | None maps to None, and a present date maps to a string |
| Utils.Jsonify | rq_dashboard/web.py:60-73 | a handler's dict passes through; an exception gives status 'error', with 'reason' and 'exc_info' present iff DEBUG |
| Navigation.PageLinks | rq_dashboard/web.py:203-206 | one link per window page |
| Navigation.PageLinksInWindowOrder | rq_dashboard/web.py:203-206 | the i-th link carries the i-th window number and its URL |
| Navigation.PaginationDict | rq_dashboard/web.py:209-225 | prev_page iff current_page > 1; next_page iff current_page < last_page; pages_in_window always present; no None value |
| Navigation.Paginate | rq_dashboard/web.py:199-225 | with the last page as the ceiling of items over page size: prev_page iff page > 1, next_page iff page < the page count, pages_in_window the utils window's links, no None value |
| Web.PageIds | rq_dashboard/web.py:227-228 | a page holds at most 5 ids |
| Web.ListJobs | rq_dashboard/web.py:196-229 | prev/next links by page position; the window is the utils window; jobs are `get_jobs((page-1)*5, 5)` |
| Web.ListJobsPage | rq_dashboard/web.py:227-228 | a page lists the surviving jobs of ids [offset, offset+5): at most 5, and vanished jobs are the only ones lost |
| Web.Requeues | rq_dashboard/web.py:166-167 | one requeue command per id, in order |
| Web.RequeueAll | rq_dashboard/web.py:162-168 | count is the snapshot length; one requeue per id, in order; the first failing requeue aborts |
| Store.FetchAll | rq_dashboard/web.py:228 | fetched jobs plus missing ids account for every id; all ids present means nothing is lost |
| Store.GetJobs | rq_dashboard/web.py:228 | `get_jobs(offset, length)` reads `LRANGE offset offset+length-1` for length ≥ 0 and `LRANGE offset length` otherwise; never more jobs than ids, and at most `length` from a whole offset |
| Store.GetJobsToEnd | rq_dashboard/dashboard.py:266-267 | a length of -1 reads every id from the offset to the end of the queue |
| Store.GetJobsWindow | rq_dashboard/web.py:227-228 | `get_jobs(offset, length)` fetches the clamped slice [offset, offset+length) of the id list |
| Scheduler.WithOrigin | rq_dashboard/scheduler.py:130-131 | keeps exactly the entries of that origin, with their multiplicities |
| Scheduler.PageOf | rq_dashboard/scheduler.py:162-163 | `jobs[offset:offset+per_page]` holds at most per_page entries, all taken from the list |
| Scheduler.ListJobs | rq_dashboard/scheduler.py:125-165 | with a queue name every listed job has that origin; the page is the slice of the selection; at most 5 jobs; prev/next links |
| Scheduler.PagesUpToIsPrefix | rq_dashboard/scheduler.py:162-163 | pages 1..k together are the first k*5 entries |
| Scheduler.PagesReconstruct | rq_dashboard/scheduler.py:141-163 | pages 1..last_page concatenate back to the list: no gaps, no duplicates |
| Scheduler.ListJobsPagesReconstruct | rq_dashboard/scheduler.py:130-163 | the served pages of a queue reconstruct its filtered entries |
| Scheduler.Origins | rq_dashboard/scheduler.py:171 | the origin of each scheduled job, in order |
| Scheduler.Entries | rq_dashboard/scheduler.py:171-180 | each key is paired with its count among the origins |
| Scheduler.ListQueues | rq_dashboard/scheduler.py:170-181 | one entry per distinct origin; each count is the number of jobs with that origin and is ≥ 1 |
| Scheduler.TotalCountOfEntries | rq_dashboard/scheduler.py:171-180 | the entry counts sum to the key counts |
| Scheduler.ListQueuesCountsSum | rq_dashboard/scheduler.py:171-180 | the per-queue counts sum to the number of scheduled jobs |
| Scheduler.SchedulerStatus | rq_dashboard/scheduler.py:186-193 | running iff the scheduler key exists and has no 'death' field |
| Scheduler.IdsWithOrigin | rq_dashboard/scheduler.py:208-209 | exactly the ids of jobs whose origin equals the queue name |
| Scheduler.CancelAll | rq_dashboard/scheduler.py:206-212 | cancels exactly the jobs of that origin, in order, and no others |
| Tally.Distinct | rq_dashboard/scheduler.py:171 | exactly the origins that occur, each once |
| Tally.FirstAt | rq_dashboard/scheduler.py:171 | the position of a key's first occurrence: it holds the key and no earlier position does |
| Tally.DistinctInFirstOccurrenceOrder | rq_dashboard/scheduler.py:171 | the distinct origins come in the order of their first occurrences |
| Tally.CountsSumToLength | rq_dashboard/scheduler.py:171 | the counts of the distinct keys sum to the number of elements |
| Dashboard.PaginationWindow | rq_dashboard/dashboard.py:101-108 | equals the utils window for window_size ≥ 1; raises UnboundLocalError for window_size < 1 and ZeroDivisionError for per_page 0 |
| Dashboard.PaginationWindowUnbound | rq_dashboard/dashboard.py:103-108 | on 7 items, 5 per page, window 0: this copy raises while the utils copy gives [1, 2] |
| Dashboard.NameRunLength | rq_dashboard/dashboard.py:112 | `[a-zA-Z_\.]+` consumes the longest run of name characters |
| Dashboard.LineLength | rq_dashboard/dashboard.py:112 | `.*` consumes up to the first newline |
| Dashboard.NameRunLengthOf | rq_dashboard/dashboard.py:112 | a name run followed by a non-name character is consumed exactly |
| Dashboard.LineLengthOf | rq_dashboard/dashboard.py:112 | a newline-free text followed by a newline or the end is consumed exactly |
| Dashboard.MatchArguments | rq_dashboard/dashboard.py:112 | a match of `', (.*)` splits the rest into one line of arguments and a tail from the newline on |
| Dashboard.MatchQuoted | rq_dashboard/dashboard.py:112 | a match of the quoted part decomposes it into a well-formed name and arguments |
| Dashboard.MatchCall | rq_dashboard/dashboard.py:112 | a match after `start(` takes the optional `u` and decomposes the rest |
| Dashboard.MatchDescription | rq_dashboard/dashboard.py:112-113 | a match decomposes the description exactly as the pattern reads it |
| Dashboard.MatchArgumentsComplete | rq_dashboard/dashboard.py:112 | `', (.*)` reads back any one-line arguments and the tail from the newline on |
| Dashboard.MatchQuotedComplete | rq_dashboard/dashboard.py:112 | the quoted part of any well-formed decomposition matches back to it |
| Dashboard.MatchCallComplete | rq_dashboard/dashboard.py:112 | the optional `u` and the quoted part of any well-formed decomposition match back to it |
| Dashboard.MatchDescriptionComplete | rq_dashboard/dashboard.py:112-113 | every decomposition of a description is the match found, so the match is unique |
| Dashboard.ParseJob | rq_dashboard/dashboard.py:111-116 | the regex groups on a match; otherwise the whole description with empty args |
| Dashboard.ParseJobRoundTrip | rq_dashboard/dashboard.py:111-114 | `start(` + optional `u` + `'n', a` parses back to name n and args a |
| Dashboard.ParseJobNoMatch | rq_dashboard/dashboard.py:115-116 | a description the pattern does not fit is the name, with empty args |
| Dashboard.ListJobs | rq_dashboard/dashboard.py:243-268 | per_page is the configured value or 5; page size 0 raises; prev/next by position; jobs from offset (page-1)*per_page |
| Dashboard.PageFor | rq_dashboard/dashboard.py:249-268 | given the window: prev/next links by position, pages_in_window its links, jobs from offset (page-1)*per_page |
| Dashboard.ListJobsPage | rq_dashboard/dashboard.py:266-267 | page p ≥ 1 lists the surviving jobs of ids [(p-1)*per_page, p*per_page), at most per_page of them |
| Dashboard.PageJobs | rq_dashboard/dashboard.py:266-267 | `get_jobs(offset, per_page)` with a positive page size lists the surviving jobs of the slice [offset, offset+per_page) |
| Dashboard.ListJobsWholeQueue | rq_dashboard/dashboard.py:266-267 | a configured page size of -1 is passed on unchecked, and page 1 then lists every surviving job of the queue |
| Dashboard.RequeueJobView | rq_dashboard/dashboard.py:163-178 | tries the failed queue, then the timeout queue, swallows both answers and returns 'OK' |
| Dashboard.RequeuesFrom | rq_dashboard/dashboard.py:206-208 | one requeue from the chosen queue per id, in order |
| Dashboard.RequeueQueue | rq_dashboard/dashboard.py:199-211 | the timeout queue iff the name is "timeout"; count is the snapshot length; InvalidJobOperationError is skipped, any other failure aborts |
| Dashboard.Existing | rq_dashboard/dashboard.py:219-220 | exactly the ids whose job exists |
| Dashboard.Cancels | rq_dashboard/dashboard.py:221 | one cancel per id, in order |
| Dashboard.CancelsMembers | rq_dashboard/dashboard.py:221 | a command is among the cancels iff it cancels one of the ids |
| Dashboard.CancelAll | rq_dashboard/dashboard.py:216-224 | cancels exactly the existing jobs of the queue, in order; count is the number cancelled |
| Dashboard.EmptyAllQueues | rq_dashboard/dashboard.py:183-186 | one empty command per queue, in `Queue.all()` order |
| Compat.Flatten | rq_dashboard/compat.py:33-37 | the failed-registry ids of each queue, concatenated in queue order |
| Compat.IdRange | rq_dashboard/compat.py:38-46 | the slice of the cached list that `get_job_ids` returns is never longer than it |
| Compat.IdRangeDefault | rq_dashboard/compat.py:26-46 | the defaults (0, -1) return the whole list |
| Compat.IdRangeWindow | rq_dashboard/compat.py:38-46 | a length ≥ 0 returns ids[offset:offset+length] |
| Compat.IdRangeSuffix | rq_dashboard/compat.py:44-45 | length -1 returns the suffix ids[offset:] |
| Compat.IdRangeAgreesWithLRange | rq_dashboard/compat.py:38-46 | for length ≥ 1 or -1 the shim returns what rq's `LRANGE offset offset+length-1` would |
| Compat.PurgeIds | rq_dashboard/compat.py:54-59 | deletes ids in order, and the one that stops the run is the id after the deleted ones |
| Compat.PurgeDeletesInOrder | rq_dashboard/compat.py:55-59 | the k-th delete is of the k-th id, which is live and not an earlier id of the run |
| Compat.PurgeStopsAtFirstUnfetchable | rq_dashboard/compat.py:55-59 | the id a run stops at is unfetchable: not live, or already deleted in the run |
| Compat.PurgeDistinctLive | rq_dashboard/compat.py:55-59 | distinct live ids are all deleted and nothing is reported |
| Compat.FailedQueue.constructor | rq_dashboard/compat.py:15-24 | the generator covers the current queues and nothing is cached |
| Compat.FailedQueue.Name | rq_dashboard/compat.py:76-78 | the name is always "failed" |
| Compat.FailedQueue.SetName | rq_dashboard/compat.py:80-82 | assigning a name changes nothing |
| Compat.FailedQueue.Compact | rq_dashboard/compat.py:64-68 | `compact` changes nothing |
| Compat.FailedQueue.GetJobIds | rq_dashboard/compat.py:26-46 | the first call drains the generator into the cache and later calls reuse it; the result is the IdRange of the cache |
| Compat.FailedQueue.Count | rq_dashboard/compat.py:84-86 | count is the length of the whole cached list, built as `get_job_ids` builds it |
| Compat.FailedQueue.IsEmpty | rq_dashboard/compat.py:61-62 | empty iff the cached list is empty |
| Compat.FailedQueue.FetchJob | rq_dashboard/compat.py:48-52 | the job when it exists; otherwise None, plus a removal of the id from the base queue |
| Compat.FailedQueue.Empty | rq_dashboard/compat.py:54-59 | Drain of the pending registries: deletes as PurgeIds over all their ids; a complete run consumes the generator; a run that stops leaves exactly the registries after the one holding the missing id; the cache is untouched |
| Compat.DrainRegistries | rq_dashboard/compat.py:55-59 | the outer loop over the registries establishes Drain: the run over all ids; on a stop the run up to and including the stopping registry stops the same way and the run over the registries before it does not stop |
| Compat.DrainDetermined | rq_dashboard/compat.py:54-59 | Drain determines the commands, the missing id and the registries left unconsumed |
| Compat.DrainStep | rq_dashboard/compat.py:55-59 | one registry either stops the run inside it or deletes all its ids and keeps the drained state |
| Compat.StoppedInRegistry | rq_dashboard/compat.py:55-59 | a run over all registries that stops inside the k-th is the run over the first k, and the run over the first k-1 does not stop |
| Compat.StopIsKept | rq_dashboard/compat.py:55-59 | a run that stops within the first i registries stops within any longer prefix |
| Compat.PurgePrefix | rq_dashboard/compat.py:57-59 | a run over a+b that stops inside a is the run over a; one that gets past a does not stop in a |
| Compat.PurgeStopsEarly | rq_dashboard/compat.py:57-59 | ids after the stopping id do not change the run |
| Compat.FlattenSnoc | rq_dashboard/compat.py:33-37 | flattening one more queue appends its registry ids |
| Compat.FlattenSplit | rq_dashboard/compat.py:33-37 | flattening splits over any cut of the queue list |
| Compat.DeleteRegistry | rq_dashboard/compat.py:56-59 | the inner loop over one registry's ids deletes as PurgeIds does, stopping where it stops and leaving the rest of the run to the ids that follow; it deletes every id of the registry when it does not stop and fewer when it does |
| Compat.GetFailedQueue | rq_dashboard/compat.py:89-90 | a fresh shim over the current queues |
| Compat.AllQueueNames | rq_dashboard/compat.py:93-94 | every real queue, then "failed" last |
| Compat.GetAllQueues | rq_dashboard/compat.py:93-94 | lists the real queues followed by one fresh failed pseudo-queue over them |
| Compat.AllQueuesOfEmptyStore | tests/test_compat.py:50-53 | an empty store lists just "failed" |
| Text.LStrip | rq_dashboard/app.py:25 | drops exactly the leading characters in the set |
| Text.RStrip | rq_dashboard/app.py:31 | drops exactly the trailing characters in the set |
| Text.Strip | rq_dashboard/app.py:25 | empty iff all characters are whitespace; otherwise both ends are non-whitespace |
| Text.StripMiddle | rq_dashboard/app.py:25 | the result is the slice of `s` that starts right after the leading whitespace run and is followed only by whitespace |
| Text.LeadingRun | rq_dashboard/app.py:25 | the leading run: every character before it is removable, and the one at its end is not |
| Text.LStripIsLeadingRun | rq_dashboard/app.py:25 | `lstrip` leaves exactly what follows the leading run |
| Text.Lower | rq_dashboard/app.py:36 | lower-cases the ASCII capitals and keeps the rest |
| Text.ParseInt | rq_dashboard/app.py:54 | `int(s)` succeeds only on a non-blank text, and a negative value has a leading '-' |
| Text.ParseShowInt | rq_dashboard/app.py:54 | every integer written in decimal parses back to itself |
| Text.ParseIntRejectsBlank | rq_dashboard/app.py:52-56 | whitespace-only text does not parse |
| Settings.Config.constructor | rq_dashboard/cli.py:39 | the application's configuration starts as the given dictionary |
| Settings.Lookup | rq_dashboard/app.py:41-44 | `d.get(key)` on `os.environ` or `app.config` is a value iff the key is present, and then it is that key's value |
| App.StrToBool | rq_dashboard/app.py:35-36 | a true answer needs a text of 1 to 4 characters |
| App.StrToBoolIff | rq_dashboard/app.py:35-36 | true iff the text is a truthy word written in any mix of case |
| App.StrToBoolIgnoresCase | rq_dashboard/app.py:35-36 | every case variant of a truthy word is true |
| App.StrToBoolAcceptsCapitals | rq_dashboard/app.py:35-36 | each truthy word is true in lower case and in capitals |
| App.StrToBoolNoTrim | rq_dashboard/app.py:35-36 | a leading or trailing space makes the answer false (nothing is trimmed) |
| App.StrToBoolRejects | rq_dashboard/app.py:18 | "false", "0", "" and "no" are false |
| App.NormalizePrefix | rq_dashboard/app.py:21-32 | None and blank input give ""; a non-empty result starts with "/" and does not end with "/" |
| App.Rooted | rq_dashboard/app.py:28-32 | a non-empty result starts with "/" and does not end with "/" |
| App.NormalizeUnpadded | rq_dashboard/app.py:23-32 | a prefix without surrounding whitespace is only rooted |
| App.NormalizeRooted | rq_dashboard/app.py:25-32 | a rooted prefix that does not end in whitespace or "/" normalises to itself |
| App.NormalizePrefixOnlySlashes | rq_dashboard/app.py:31-32 | input made only of slashes gives "" |
| App.NormalizePrefixAddsSlash | rq_dashboard/app.py:28-29 | an unpadded name without slashes at its ends gets a leading "/" |
| App.NormalizePrefixExample | rq_dashboard/app.py:28-29 | "rq" becomes "/rq" |
| App.NormalizePrefixFixedPoint | rq_dashboard/app.py:25-32 | a result that does not end in whitespace normalises to itself |
| App.NormalizeTrailingSlash | rq_dashboard/app.py:25-31 | "a /" gives "/a " |
| App.RootedTrailingSlash | rq_dashboard/app.py:28-31 | rooting "a /" gives "/a ": the slash goes, the space before it stays |
| App.NormalizeTrailingSpace | rq_dashboard/app.py:25-32 | "/a " gives "/a" |
| App.NormalizePrefixNotIdempotent | rq_dashboard/app.py:25-32 | normalising twice can differ from normalising once |
| App.RedisUrl | rq_dashboard/app.py:41 | `RQ_DASHBOARD_REDIS_URL or REDIS_URL`: the first if non-empty, else the second |
| App.Copied | rq_dashboard/app.py:63-76 | exactly the non-excluded RQ_DASHBOARD_* variables, with their values |
| App.CopiedStep | rq_dashboard/app.py:63-76 | visiting one more variable adds it exactly when it qualifies |
| App.StepKeysDistinct | rq_dashboard/app.py:41-79 | the steps write pairwise different keys |
| App.EnvironmentOverlay | rq_dashboard/app.py:39-79 | no setting is removed; the Redis URL, APPLICATION_ROOT and PREFERRED_URL_SCHEME are always set; every new key is a copied variable or a key a step writes |
| App.RedisUrlStep | rq_dashboard/app.py:41-45 | writes only RQ_DASHBOARD_REDIS_URL, which is always set afterwards |
| App.DisableDeleteStep | rq_dashboard/app.py:47-49 | writes at most RQ_DASHBOARD_DISABLE_DELETE |
| App.PollIntervalStep | rq_dashboard/app.py:51-56 | writes at most RQ_DASHBOARD_POLL_INTERVAL |
| App.RootStep | rq_dashboard/app.py:78-79 | adds exactly APPLICATION_ROOT and PREFERRED_URL_SCHEME |
| App.RedisUrlPrecedence | rq_dashboard/app.py:41-45 | RQ_DASHBOARD_REDIS_URL wins, then a non-empty REDIS_URL; the default is written only over a missing or None value |
| App.DisableDeleteIffPresent | rq_dashboard/app.py:47-49 | the delete switch is set, as a boolean, iff the variable is present |
| App.PollIntervalParsed | rq_dashboard/app.py:51-56 | a non-empty integer poll interval is stored; anything else leaves the setting unchanged |
| App.GenericCopy | rq_dashboard/app.py:63-76 | other RQ_DASHBOARD_* variables are copied verbatim, the eight excluded ones never, and unrelated settings are untouched |
| App.ClosingKeys | rq_dashboard/app.py:78-79 | APPLICATION_ROOT is the prefix or "/"; PREFERRED_URL_SCHEME is set only if missing |
| App.ApplyEnvironmentConfig | rq_dashboard/app.py:39-79 | the config becomes the overlay; the serializer flag is `_str_to_bool` of the variable, default "false" |
| App.ApplyRedisUrl | rq_dashboard/app.py:41-45 | the Redis URL step |
| App.ApplyDisableDelete | rq_dashboard/app.py:47-49 | the delete-switch step |
| App.ApplyPollInterval | rq_dashboard/app.py:51-56 | the poll-interval step |
| App.CopyDashboardVariables | rq_dashboard/app.py:63-76 | the config gains exactly the copied variables, whatever the iteration order |
| App.ApplyRoot | rq_dashboard/app.py:78-79 | the closing step |
| LegacyConfig.Warning | rq_dashboard/legacy_config.py:16-17 | the warning text names both settings |
| LegacyConfig.NewNamePrefix | rq_dashboard/legacy_config.py:3-14 | every new name is in the RQ_DASHBOARD_ namespace |
| LegacyConfig.LegacyNamePrefix | rq_dashboard/legacy_config.py:3-14 | no old name is in the RQ_DASHBOARD_ namespace |
| LegacyConfig.LegacyOptionsWellFormed | rq_dashboard/legacy_config.py:3-14 | old and new names are disjoint and the mapping is injective |
| LegacyConfig.Warnings | rq_dashboard/legacy_config.py:24-26 | at most one warning per table entry |
| LegacyConfig.Upgraded | rq_dashboard/legacy_config.py:24-27 | the loop never removes a setting |
| LegacyConfig.UpgradedKeys | rq_dashboard/legacy_config.py:24-27 | the only keys the loop adds are new names |
| LegacyConfig.UpgradedCharacterised | rq_dashboard/legacy_config.py:24-27 | for any well-formed table: present legacy values land under their new names, everything else keeps its value |
| LegacyConfig.LegacyTableUpgrade | rq_dashboard/legacy_config.py:24-27 | on the real table a legacy value overwrites its new name; new names without a legacy key and all other keys are unchanged |
| LegacyConfig.LegacyKeysKept | rq_dashboard/legacy_config.py:24-27 | legacy keys are not removed |
| LegacyConfig.UpgradeIdempotent | rq_dashboard/legacy_config.py:3-27 | a second upgrade changes nothing |
| LegacyConfig.WarningsPerPresentKey | rq_dashboard/legacy_config.py:25-26 | each legacy key present gets a warning naming it and its replacement |
| LegacyConfig.WarningsCount | rq_dashboard/legacy_config.py:25-26 | there are exactly as many warnings as legacy keys present |
| LegacyConfig.UpgradeStep | rq_dashboard/legacy_config.py:24-27 | one turn of the loop: a legacy key is present before it iff present at the start, and then it is announced and copied |
| LegacyConfig.UpgradeConfig | rq_dashboard/legacy_config.py:20-27 | the config becomes the upgraded one, and the warnings are those for the present legacy keys |
| ClientScripts.Split | rq_dashboard/templates/rq_dashboard/scripts/dashboard.js:156 | `split(';')` gives at least one piece, and no piece holds the separator |
| ClientScripts.JoinSplit | rq_dashboard/templates/rq_dashboard/scripts/dashboard.js:156 | joining the pieces gives back the cookie string |
| ClientScripts.SplitJoin | rq_dashboard/templates/rq_dashboard/scripts/dashboard.js:156 | splitting joined separator-free pieces gives the pieces back |
| ClientScripts.Trimmed | rq_dashboard/templates/rq_dashboard/scripts/dashboard.js:159-161 | removes exactly the leading spaces |
| ClientScripts.TrimmedUnique | rq_dashboard/templates/rq_dashboard/scripts/dashboard.js:159-161 | stripping stops at the first non-space character |
| ClientScripts.SkipBlanks | rq_dashboard/templates/rq_dashboard/scripts/dashboard.js:159-161 | the `while (c.charAt(0)==' ')` loop leaves the segment without its leading spaces |
| ClientScripts.CookieValue | rq_dashboard/templates/rq_dashboard/scripts/dashboard.js:153-167 | "" when no segment sets the cookie |
| ClientScripts.GetCookie | rq_dashboard/templates/rq_dashboard/scripts/dashboard.js:153-167 | the loop returns the value of the first segment that sets the cookie, else "" |
| ClientScripts.CookieValueFirstMatch | rq_dashboard/templates/rq_dashboard/scripts/dashboard.js:157-165 | the answer is the text after `name=` in the first matching segment, whatever later segments say |
| ClientScripts.NameOfMatch | rq_dashboard/templates/rq_dashboard/scripts/dashboard.js:154-162 | a matching segment sets a cookie of exactly that name |
| ClientScripts.MatchOfName | rq_dashboard/templates/rq_dashboard/scripts/dashboard.js:154-162 | a segment setting a cookie of that name matches |
| ClientScripts.ExactNameMatch | rq_dashboard/templates/rq_dashboard/scripts/dashboard.js:154-162 | for a name without '=', a segment matches iff its cookie name equals the name exactly |
| ClientScripts.OnlyBlanksSkipped | rq_dashboard/templates/rq_dashboard/scripts/dashboard.js:159-162 | only ' ' is skipped: a segment starting otherwise must start with `name=` itself |
| ClientScripts.CsrfHeaders | rq_dashboard/templates/rq_dashboard/scripts/dashboard.js:169-175 | X-CSRFToken is installed iff the token is non-empty, and it carries the token |
| ClientScripts.CsrfSetup | rq_dashboard/templates/rq_dashboard/scripts/dashboard.js:168-175 | the header comes from the `_csrf_token` cookie; with no such cookie, no header |
| ClientScripts.UrlForJobsData | rq_dashboard/templates/rq_dashboard/scripts/dashboard.js:19-22 | the URL starts with prefix + instance + '/data/jobs/' and the encoded queue name, and ends in '.json' |
| ClientScripts.UrlForJobsView | rq_dashboard/templates/rq_dashboard/scripts/dashboard.js:24-27 | the URL starts with prefix + instance + '/view/jobs/' and the encoded queue name, and ends with '/' and the encoded page |
| ClientScripts.UrlForNewInstance | rq_dashboard/templates/rq_dashboard/scripts/dashboard.js:39-44 | the new instance number followed by a suffix of the path, which starts with '/' when the path has a '/' after its first character |
| ClientScripts.JobsDataSegments | rq_dashboard/templates/rq_dashboard/scripts/dashboard.js:19-22 | the data URL is prefix + instance + '/data/jobs/', then exactly four '/'-separated encoded segments, the last ending in '.json' |
| ClientScripts.JobsViewSegments | rq_dashboard/templates/rq_dashboard/scripts/dashboard.js:24-27 | the view URL is prefix + instance + '/view/jobs/', then exactly the four encoded segments |
| ClientScripts.NewInstanceReplacesFirstSegment | rq_dashboard/templates/rq_dashboard/scripts/dashboard.js:39-44 | on a path `/<instance>/<rest>` the first segment is replaced by the new number |
| ClientScripts.NewInstanceWithoutSecondSlash | rq_dashboard/templates/rq_dashboard/scripts/dashboard.js:39-44 | with no second '/', the result is the number followed by the path's last character |
| Slicing.JsSliceFrom | rq_dashboard/templates/rq_dashboard/scripts/dashboard.js:40-41 | `slice(start)` with negative starts counted from the end; the result is always a suffix |
| Slicing.IndexOf | rq_dashboard/templates/rq_dashboard/scripts/dashboard.js:41 | the first position of the character, or -1 iff it is absent |
| Slicing.PySlice | rq_dashboard/compat.py:46 | a Python slice is never longer than the list |
| Slicing.PySliceWidth | rq_dashboard/scheduler.py:163 | `s[start:stop]` holds at most stop - start elements |
| Slicing.PySliceMembers | rq_dashboard/scheduler.py:163 | every element of a slice is an element of the list |
| Slicing.PySuffix | rq_dashboard/compat.py:45 | `s[start:]` for an in-range start is the suffix |
| ClientDashboard.SpecialIsNotTasks | rq_dashboard/templates/rq_dashboard/dashboard.js:29-38 | the failed queue never matches /^tasks/ |
| ClientDashboard.JobNameRows | rq_dashboard/templates/rq_dashboard/dashboard.js:26-44 | the job-names table holds exactly the queues whose names start with "tasks" |
| ClientDashboard.PlainRows | rq_dashboard/templates/rq_dashboard/dashboard.js:26-44 | the rows appended during the loop are exactly the other queues, unmarked, minus a failed queue with jobs |
| ClientDashboard.LastFailed | rq_dashboard/templates/rq_dashboard/dashboard.js:38-41 | `$fq` is a failed queue with jobs, and is absent iff there is none |
| ClientDashboard.QueuesTable | rq_dashboard/templates/rq_dashboard/dashboard.js:23-49 | a placeholder for no queues; otherwise a row for every queue not matching /^tasks/ and no other; the last failed queue holding jobs gets the marked row, and every row for a failed queue holding jobs is that one |
| ClientDashboard.JobNamesTable | rq_dashboard/templates/rq_dashboard/dashboard.js:23-49 | a placeholder for no queues; otherwise a row for every queue matching /^tasks/ and no other |
| ClientDashboard.RouteQueues | rq_dashboard/templates/rq_dashboard/dashboard.js:23-55 | the two tables are the routed rows with the failed row appended last, or one placeholder each for an empty list |
| ClientDashboard.RouteStep | rq_dashboard/templates/rq_dashboard/dashboard.js:26-44 | one turn of the routing loop appends the queue's row to the table it belongs to, or holds it back as the failed queue |
| ClientDashboard.RoutingKeepsOrder | rq_dashboard/templates/rq_dashboard/dashboard.js:26-44 | routing distributes over concatenation, so the rows keep the queue order |
| ClientDashboard.RoutingPartitions | rq_dashboard/templates/rq_dashboard/dashboard.js:26-44 | every queue goes to exactly one of the two tables or to the held-back failed slot |
| ClientDashboard.OneRowPerQueue | rq_dashboard/templates/rq_dashboard/dashboard.js:23-49 | with at most one failed queue holding jobs, there is one row per queue |
| ClientDashboard.FailedRowLast | rq_dashboard/templates/rq_dashboard/dashboard.js:37-49 | only the last row of the queues table can carry the failed markup, and it does iff a failed queue has jobs |
| ClientDashboard.HerokuHref | rq_dashboard/templates/rq_dashboard/dashboard.js:128-135 | no link iff no HEROKU_WORKERS entry matches the worker's queues joined by " " |
| ClientDashboard.HerokuHrefLast | rq_dashboard/templates/rq_dashboard/dashboard.js:130-134 | the link comes from the last matching entry |
| ClientDashboard.HrefFor | rq_dashboard/templates/rq_dashboard/dashboard.js:128-135 | the inner loop computes HerokuHref |
| ClientDashboard.AddTo | rq_dashboard/templates/rq_dashboard/dashboard.js:113-135 | one more worker adds its group key and keeps all others |
| ClientDashboard.AddWorker | rq_dashboard/templates/rq_dashboard/dashboard.js:113-136 | the per-worker callback performs AddTo |
| ClientDashboard.Groups | rq_dashboard/templates/rq_dashboard/dashboard.js:113-136 | there is a group for exactly the workers' keys (queues joined by ", ") |
| ClientDashboard.GroupWorkers | rq_dashboard/templates/rq_dashboard/dashboard.js:111-142 | one row per group, in order of first creation |
| ClientDashboard.EmitGroups | rq_dashboard/templates/rq_dashboard/dashboard.js:138-142 | emits the groups in key order |
| ClientDashboard.GroupCounts | rq_dashboard/templates/rq_dashboard/dashboard.js:115-126 | busy_count counts 'busy' workers of the group, idle_count the rest, and they sum to the group size |
| ClientDashboard.GroupBusyCount | rq_dashboard/templates/rq_dashboard/dashboard.js:122-123 | a group's busy_count is the number of its workers in state 'busy' |
| ClientDashboard.GroupIdleCount | rq_dashboard/templates/rq_dashboard/dashboard.js:124-125 | a group's idle_count is the number of its workers in any other state |
| ClientDashboard.KeysCountSplit | rq_dashboard/templates/rq_dashboard/dashboard.js:122-125 | each worker of a key is counted busy or idle, never both |
| ClientDashboard.TotalOverKeys | rq_dashboard/templates/rq_dashboard/dashboard.js:138-142 | emitting groups whose sizes equal their key counts totals the sum of those counts |
| ClientDashboard.GroupQueuesFirst | rq_dashboard/templates/rq_dashboard/dashboard.js:115-121 | a group shows the queue list of its first worker |
| ClientDashboard.GroupHrefLast | rq_dashboard/templates/rq_dashboard/dashboard.js:128-135 | a group's link is the one computed for its last worker |
| ClientDashboard.GroupsCoverAllWorkers | rq_dashboard/templates/rq_dashboard/dashboard.js:113-127 | every worker is counted exactly once: the group sizes sum to the number of workers |
| ClientDashboard.StateIcon | rq_dashboard/templates/rq_dashboard/dashboard.js:149-153 | 'play' iff the state is 'busy', otherwise 'pause' |
| ClientDashboard.MarkStates | rq_dashboard/templates/rq_dashboard/dashboard.js:148-153 | each worker's state is rewritten in place to its icon and nothing else changes |
| ClientDashboard.ReloadWorkers | rq_dashboard/templates/rq_dashboard/dashboard.js:105-163 | a placeholder for no workers; otherwise the grouped rows, or the workers after marking |

## Left out

- Flask and Redis plumbing is left out:
  - blueprints;
  - connection push and pop;
  - `render_template`;
  - the `overview` views;
  - the single-queue `empty`/`compact` handlers, which issue one command and return 'OK';
  - `serialize_queues` and `serialize_job`, which copy fields.
- `url_for` is an uninterpreted function of queue and page. `encodeURIComponent` is a parameter. `decodeURIComponent` is not applied: the cookie string arrives decoded.
- Utils.SerializeDate: only the None case is stated. The arrow conversion of a present date is a parameter.
- Utils.CeilDiv: the `ceil` of a float quotient is exact here. Float rounding of very large counts is not modelled.
- Text.ParseInt: ASCII digits only. Python's `int()` also accepts other Unicode decimal digits.
- Text.Lower: ASCII only. No non-ASCII character lower-cases into a truthy word, so `_str_to_bool` is unaffected.
- App.CopyDashboardVariables: `os.environ` iteration order is arbitrary. The copy is order-independent, because each key is written once.
- Scheduler.ListQueues: Python 2 `Counter` order is unspecified. Entries come in first-occurrence order.
- ClientDashboard.GroupWorkers: group rows come in first-creation order, which is JavaScript's key order for non-numeric keys. Integer-like keys, and keys that clash with `Object.prototype` properties, are not modelled.
- The queue sort at dashboard.js:25 is left out. Its comparator returns a boolean, so its order is ill-defined; the model routes queues in the order given.
- HTML templates, DOM updates, polling timers and `url_for`/`url_for_single_job_*` in scripts/dashboard.js are left out. These are rendering or the same concatenation pattern.
- The registry-kind dispatch, descending-order windows and delete-disable policy are left out. Their server code is not part of this model.
- The cross-queue creation-date order checked in tests/test_compat.py:79-81 is left out. compat.py only concatenates registries.
- Compat.IdRange is proved to agree with rq's `LRANGE` only for lengths ≥ 1 and -1. It is not claimed for a length of 0 or below -1.
- Dashboard.RequeueQueue: the `print` of a skipped id is not modelled.
- Dashboard.EmptyAllQueues: a `queue.empty()` that raises ends the loop in the source. The model empties every queue, because Redis failures are not modelled.
- The module-level serializer switch at app.py:58-59 is returned as a flag, not written to a global.
- Exception tracebacks in `jsonify` are an opaque string.

## Findings

| source | as written | input that shows it | evidently intended | confidence | as-written member | corrected member |
|---|---|---|---|---|---|---|
| rq_dashboard/dashboard.py:103-108 | assigns `results = all_pages` but returns `result`, which is bound only when window_size ≥ 1 | `pagination_window(7, 1, 5, 0)` raises UnboundLocalError | return every page for window_size < 1, as utils.py:26 does | not executed | Dashboard.PaginationWindowUnbound | Utils.WindowAllPages |

# Verified models of repositories-settings

A service that keeps the settings of many GitHub repositories equal to what their
configuration files say. This project models its hardest promises in Dafny and proves
them. `dafny verify dfyconfig.toml` checks everything.

The models follow the code: what mutates is a class or a loop proved against a
specification function, what runs concurrently is a step system whose runs are all finite
sequences of steps of its goroutines, and main results are about every input, every run or
every reachable state.

| area | modules |
|---|---|
| Rate-limited dispatch of API calls | `RateLimit` (queue, pools, backoff), `Dispatcher` (goroutines, wake token, slots), `Schedules` (every schedule comes to a pick), `Starvation`, `Budgets` (resets, waits, costs and the wake token along paths) |
| Strict booleans in YAML | `YamlGraph` (a possibly cyclic graph of nodes and Go types, as computed and as meant), `BoolWalk` (the search) |
| Planning and applying changes | `Diff`, `Plan`, `ConcMap` (the bounded worker pool), `FanOut`, `NamedListRun`, `SingletonRun`, `Protection` (three shapes of one branch-protection record), `Branches` (its lane) |
| Conditional GETs | `EtagCache` (an LRU refined to a recency sequence), `ConditionalGet` |
| Org layer | `AdminCache`, `AdminCacheRuns` |
| Reconciling one repository | `Reconciler` (gate, phases, report), `RepoLock`, `ReconcileRuns` |
| Loading and layering configuration | `Loader` |
| Who an Actions token speaks for | `Subject`, `Identity` |
| Shared | `Wrappers`, `Strings` |

Points where the code does less than one might expect, each with the input that shows it
and the exact condition:

- Two changed locations can be reported under one path (`Diff.DottedKeysCollide`). Every
  reported path names its location, against every current document, exactly when no key of
  the desired document at any depth holds a dot and nothing lies below an empty top key
  (`Diff.PathNamesLocation`); two reports share a path, against some current document,
  exactly when the desired one has two locations of one path, neither at or below the other
  (`Diff.PathsCollideExactly`).
- A branch-protection record whose admins switch is not stated never converges
  (`Branches.AdminsUnstated`); stating it is necessary and sufficient
  (`Branches.BranchConverges`), and normalization always states it.
- A conditional GET that is told 304 can return a stale body
  (`ConditionalGet.StaleSubstitute`). It does so exactly when, since its own lookup, another
  GET stored a 200 for the URL and the last one to do so brought another body than the one
  the origin confirmed (`ConditionalGet.StaleExactly`); so never when no other GET stores the
  URL in between (`ConditionalGet.Transparent`). It ends with nothing to return, a bare 304,
  exactly when in that time the cache forgot the URL and no GET stored it again
  (`ConditionalGet.UnresolvedExactly`): a write to a related path or the capacity makes it
  forget (`ConditionalGet.ForgottenExactly`).
- A queued request can wait for ever although the dispatcher never stops picking: a pool
  for which no reset was ever announced starves when a response says 0 remain and names
  neither a reset nor a Retry-After (`Starvation.StarvedByHeader`), and when it is dispatched
  down to 0 without any headers (`Starvation.StarvedByDispatches`). It starves exactly when
  no response ever announced a reset and nothing is left (`Starvation.StarvedExactly`), until
  another header update (`Dispatcher.StarvedStays`); a reset announced once is kept and gives
  budget again when it passes. A dispatch is reachable exactly when some queued request's pool
  has something left or an announced reset (`Dispatcher.ReachesDispatch`).

## Model

| member | source | states |
|---|---|---|
| RateLimit.StableSortContract | internal/ghclient/ratelimit.go:147-153 | Sorting the queue by priority then enqueue time keeps the same requests, puts them in order, and leaves ties in the order they were appended |
| RateLimit.AppendThenSort | internal/ghclient/ratelimit.go:146-153 | Appending a request and sorting again puts it behind every request it ties with and moves no other |
| RateLimit.OrderedUnique | internal/ghclient/ratelimit.go:148-153 | Dispatch order leaves no freedom: two ordered queues holding the same requests are equal |
| RateLimit.BackoffShift | internal/ghclient/ratelimit.go:266-273 | The shifted and capped product equals 250ms doubled once for each failure and never above 30s |
| RateLimit.BackoffValues | internal/ghclient/ratelimit.go:266-273 | In nanoseconds: 250ms, 500ms and so on to 16s, and 30s from the seventh failure on |
| RateLimit.RateLimiter.constructor | internal/ghclient/ratelimit.go:84-115 | Both pools start full, with 5000 where the option is zero, the concurrency is 10 where the option is zero, no reset is known and the queue is empty |
| RateLimit.RateLimiter.Enqueue | internal/ghclient/ratelimit.go:146-155 | The locked section of Schedule inserts the request in dispatch order and changes nothing else |
| RateLimit.RateLimiter.PoolHasBudget | internal/ghclient/ratelimit.go:296-307 | Answers whether the pool may be used; a pool whose reset has passed is refilled to 5000 only when it is at most 100, and nothing else changes |
| RateLimit.RateLimiter.PickNext | internal/ghclient/ratelimit.go:231-282 | Picks the first queued request whose pool has budget, removes just that one and charges its pool, or leaves the queue and reports a delay within the backoff bounds |
| RateLimit.RateLimiter.Take | internal/ghclient/ratelimit.go:239-248 | The picked request leaves the queue, its pool loses one unit and its secondary points, and the failure streak restarts |
| RateLimit.RateLimiter.ExhaustedDelay | internal/ghclient/ratelimit.go:252-279 | The delay, exactly: the backoff or, if longer, the wait to the reset that the source's range over the two pools settles on, plus the jitter of the draw |
| RateLimit.DelayInBounds | internal/ghclient/ratelimit.go:252-279 | Whatever the draw and the range order, the delay is at least the backoff and the wait to the earliest reset, and at most the larger of backoff and latest wait plus a quarter of the backoff; a reset falling on this instant leaves the outer bounds |
| RateLimit.RateLimiter.ProbeReset | internal/ghclient/ratelimit.go:284-294 | Each drained pool whose reset has passed gets exactly one unit; other pools are untouched |
| RateLimit.RateLimiter.UpdateFromResponse | internal/ghclient/ratelimit.go:311-333 | Headers set remaining and reset; a Retry-After empties the pool until that moment; the other pool is untouched (Budgets.AnnouncedMoment and Budgets.StockMoves say it in header units) |
| Dispatcher.InvNext | internal/ghclient/ratelimit.go:129-249 | Every step of every goroutine, of the clock, of header updates and of Stop keeps conservation, slot accounting, the wake token and the callers' answers |
| Dispatcher.SchedulerConservation | internal/ghclient/ratelimit.go:129-249 | In every reachable state of every interleaving a request is in exactly one of the queue, the dispatcher's hand, a worker and the finished ones, its fn was started once if it left the queue and not before, the slots taken are those of workers that have not released theirs plus the dispatcher's own, and running fns never exceed the concurrency |
| Dispatcher.CallersToldTheTruth | internal/ghclient/ratelimit.go:158-167 | Schedule reports completion only when fn has finished and a stop only after Stop, cancellation included |
| Dispatcher.NoLostWakeup | internal/ghclient/ratelimit.go:146-156 | Whenever the dispatcher is parked on the empty-queue wait and something is queued, the wake token is present or a caller is between its unlock and its kick |
| Dispatcher.NeverStuck | internal/ghclient/ratelimit.go:170-226 | Before Stop, with a non-empty queue, some internal step is enabled that picks from the queue, dispatching or backing off, or brings the dispatcher strictly closer to a pick over the same queue |
| Dispatcher.PickEnabled | internal/ghclient/ratelimit.go:231-282 | A dispatcher about to pick can always pick: a request exactly when one is runnable then, the empty outcome exactly when nothing is queued, a delay otherwise |
| Dispatcher.ReachesPick | internal/ghclient/ratelimit.go:177-282 | From every reachable state before Stop with something queued, a path of at most 8 internal steps ends with a pick from the same queue |
| Schedules.MovesBounded | internal/ghclient/ratelimit.go:129-249 | On every path, whatever the schedule, the steps of the goroutines other than picks are at most what was left at first, plus two for each new request and six for each pick |
| Schedules.RunKeepsPicking | internal/ghclient/ratelimit.go:129-249 | Over a run at most two goroutine steps for each request and six for each pick, and one more, go by besides the picks |
| Schedules.EveryScheduleComesToPick | internal/ghclient/ratelimit.go:129-249 | From every reachable state before Stop with something queued, any schedule without a new request takes a bounded number of goroutine steps before a pick; when they are used up the dispatcher is about to pick, and before that a goroutine can move, or only time has to pass |
| Dispatcher.DispatchableExactly | internal/ghclient/ratelimit.go:231-307 | At a pick a request can be dispatched, by some clock, exactly when some queued request's pool has something left or an announced reset |
| Dispatcher.StarvedStays | internal/ghclient/ratelimit.go:284-333 | A pool with nothing left and no reset ever announced dispatches nothing along any path without a header update for it |
| Starvation.UpdateStarves | internal/ghclient/ratelimit.go:311-333 | A response leaves a pool starved exactly when it names no reset and no Retry-After, none was announced before, and nothing remains: an earlier reset is kept |
| Starvation.StarvedExactly | internal/ghclient/ratelimit.go:231-333 | Over runs a pool starves exactly when no response ever named a reset or a Retry-After for it and the last remaining header, or the first stock, less the dispatches since is not positive |
| Starvation.StarvedByHeader | internal/ghclient/ratelimit.go:311-333 | One input: a request is queued and the first response for its pool says 0 remain and names no reset; from every initial state nothing queued can be dispatched then |
| Starvation.StarvedByDispatches | internal/ghclient/ratelimit.go:231-249 | The other input: from every initial state a run without any header update dispatches a pool down to nothing and leaves the next request queued with nothing to dispatch |
| Dispatcher.ReachesDispatch | internal/ghclient/ratelimit.go:177-307 | Over runs: from a reachable state before Stop a path of internal steps ends in a dispatch exactly when some queued request's pool has something left or an announced reset, and then at most 8 steps do |
| Dispatcher.DispatchOrder | internal/ghclient/ratelimit.go:231-250 | The queue is in dispatch order in every reachable state, and every queued request of lower priority number than the picked one, or of the same and enqueued or appended earlier, belongs to a pool with nothing left and no passed reset when the pick looked at it |
| Dispatcher.BudgetOverSpan | internal/ghclient/ratelimit.go:237-249 | While a pool's reset has not passed and no header update arrives, remaining plus dispatches is constant, so dispatches never exceed what remained at the start |
| Dispatcher.RetryAfterSilence | internal/ghclient/ratelimit.go:326-331 | After a Retry-After no request of that pool is dispatched until the announced moment (section 10.2.3 of RFC 9110) |
| Budgets.AnnouncedMoment | internal/ghclient/ratelimit.go:296-333 | A reset of t Unix seconds with nothing remaining, or a Retry-After of r seconds, holds in both directions: no dispatch from the pool up to that moment, and no pick that starts after it passes over a request of the pool |
| Budgets.SecondarySpent | internal/ghclient/ratelimit.go:237-246 | Over every path secondary points fall by five for each REST dispatch and by one for each GraphQL dispatch, and never rise |
| Budgets.StockMoves | internal/ghclient/ratelimit.go:237-333 | A pool's stock in every step: a dispatch past the reset with at most 100 left finds 5000, any other takes one; a probe past it gives an empty pool one; a header sets it; nothing else moves it |
| Budgets.WaitsOutDelay | internal/ghclient/ratelimit.go:190-226 | The next pick after a failed one comes no earlier than its delay, unless the wake token cuts the wait short |
| Budgets.WaitReachesReset | internal/ghclient/ratelimit.go:252-279 | With an announced reset ahead and none behind it, a failed pick waits until the first one at least, and beyond it and the backoff by at most a quarter of the backoff |
| Budgets.TokenStays | internal/ghclient/ratelimit.go:146-226 | A kick by a caller or a worker is not lost: its token stays until a parked dispatcher takes it |
| Budgets.WakesArePaid | internal/ghclient/ratelimit.go:168-218 | Over every path the dispatcher is woken at most once for each kick: a token is used once |
| Dispatcher.RemainingNonNegative | internal/ghclient/ratelimit.go:237-333 | With non-negative headers remaining never goes negative on any path |
| Dispatcher.BackoffOverRuns | internal/ghclient/ratelimit.go:252-281 | The j-th failed pick in a row waits at least B(j), never zero, and at most max(B(j), latest time to reset) plus B(j)/4, whatever happened in between |
| BoolWalk.CheckBools | internal/yamlstrict/bools.go:38-104 | Terminates on every finite node graph, cyclic anchors included; a pair is seen exactly when a trail of items, keys and merges leads to it from the document, and there is exactly one issue for each pair seen of a bool type that does not decode itself and a node that is not a scalar or decodes to neither a boolean nor null, with its line and the path of a trail to it |
| BoolWalk.Walk.Look | internal/yamlstrict/bools.go:46-92 | One call of the walk: aliases and pointers are resolved first, nothing seen is lost, and everything one step from a newly seen pair is seen; the measure is the number of unseen pairs |
| BoolWalk.Walk.LookBelow | internal/yamlstrict/bools.go:68-92 | Every item of a sequence and every value of a mapping that the type gives a place to is looked at |
| BoolWalk.Walk.LookAtPairs | internal/yamlstrict/bools.go:79-88 | Every key and value pair of a mapping is handled, merge keys included |
| BoolWalk.Walk.Merge | internal/yamlstrict/bools.go:96-104 | A merge key looks at each merged mapping with the type of the mapping it is merged into |
| BoolWalk.Walk.FieldType | internal/yamlstrict/bools.go:136-157 | Finds the type of the first exported field that the key is given to: its tag is the key, or the key and options, or names nothing while the lower-cased name is the key |
| YamlGraph.FieldKeyMeans | internal/yamlstrict/bools.go:141-155 | The key of a field in terms of its tag: what stands before the first comma, a dash for none, and the lower-cased name when that is empty |
| YamlGraph.ReachedMeans | internal/yamlstrict/bools.go:38-104 | What the code's calls reach, and under which path, is what trails lead to: items of lists, values of maps and of selected fields, merged mappings, aliases as their anchors and pointers as what they point to |
| YamlGraph.FieldIsFound | internal/yamlstrict/bools.go:76-92 | The value of a key in a mapping that is reached with a struct type is reached too, with the type of the first field the key is given to and the key joined to the path |
| YamlGraph.DigitsMean | internal/yamlstrict/bools.go:73-75 | An index in a path is its decimal digits, without a leading zero |
| BoolWalk.ClosedSetIsReachable | internal/yamlstrict/bools.go:46-92 | A set that holds the root and is closed under the walk's edges holds every reachable pair: the walk misses nothing |
| BoolWalk.ExpandedByOnePath | internal/yamlstrict/bools.go:53-56 | Skipping a pair seen by another path loses nothing: where the walk goes from it does not depend on the path |
| BoolWalk.UnseenShrinks | internal/yamlstrict/bools.go:53-56 | Each first visit shrinks the finite set of unseen pairs, which is why cycles end |
| BoolWalk.IssuesAppend | internal/yamlstrict/bools.go:63-67 | A new issue keeps the list free of repeats and the set of lines in step with it |
| Diff.Fields | internal/diff/diff.go:50-89 | The recursive report, in sorted key order, is the rendering of the changes the lemmas below are about |
| Diff.ValuesEqual | internal/diff/diff.go:273-286 | Two JSON values count as equal exactly when they are: numbers by exact value, nothing else coerced |
| Diff.NothingReported | internal/diff/diff.go:50-89 | The report is empty exactly when the current document covers the desired one |
| Diff.ApplyChanges | internal/diff/diff.go:50-89 | Applying the changes one after another lays the desired document over the current one |
| Diff.PatchCompletes | internal/diff/diff.go:50-89 | After applying the changes the current document covers the desired one and the next report is empty |
| Diff.ChangeIsReal | internal/diff/diff.go:50-89 | Every change names a location the desired document sets and the current one lacks or holds differently, with both values right |
| Diff.EveryChangeNeeded | internal/diff/diff.go:50-89 | The report is minimal: a document that keeps the current value at any one reported location does not cover the desired one |
| Diff.LocationsApart | internal/diff/diff.go:50-89 | No reported location lies at or below another |
| Diff.ElsewhereUntouched | internal/diff/diff.go:50-89 | Every location unrelated to the reported ones keeps its value, absence included: what the operator did not mention is left alone |
| Diff.ReportedLocation | internal/diff/diff.go:50-89 | At a reported location the desired value stands afterwards, and above it objects stay objects |
| Diff.PathNamesLocation | internal/diff/diff.go:50-89 | Every reported path splits back into the keys of its location, against every current document, exactly when no key of the desired document at any depth holds a dot and nothing lies below an empty top key |
| Diff.PathSplitsBack | internal/diff/diff.go:52-58 | One rendered path splits back into its keys exactly when none holds a dot and the first is not empty, unless it is alone |
| Diff.NamedExactly | internal/diff/diff.go:50-89 | The same of all locations of a document, reported or not |
| Diff.PathsApart | internal/diff/diff.go:50-89 | Under that condition no reported path equals another or continues it with a dot |
| Diff.PathsCollideExactly | internal/diff/diff.go:50-89 | Two reported locations share a path against some current document exactly when the desired one has two locations of one path, neither at or below the other |
| Diff.DottedKeysCollide | internal/diff/diff.go:50-89 | With dots in keys two different locations can be reported under one path: a concrete pair of documents |
| Plan.SingleResource | internal/diff/diff.go:157-177 | Create, delete, update or no-op by presence and by the report, with every key of a new document listed |
| Plan.NamedList | internal/diff/diff.go:93-154 | The plan over two lists: creates, then keys on both sides, then deletes, each sorted by key |
| Plan.IndexBy | internal/diff/diff.go:240-250 | Indexing drops items without the key field and lets the last duplicate win |
| Plan.LastIsIndexed | internal/diff/diff.go:240-250 | A key is indexed to the last item that carries it |
| Plan.NoopMeansCovered | internal/diff/diff.go:157-177 | A plan is a no-op exactly when both sides are absent or the current document covers the desired one |
| Plan.PlanMeans | internal/diff/diff.go:157-177 | A plan carries both documents, creates without a live one, deletes without a desired one, and updates exactly when the live one does not cover the desired one |
| Plan.PlanEntries | internal/diff/diff.go:93-154 | Entry by entry: new keys, then keys on both sides, then deleted ones, each in lexicographic order, and each entry is the plan of its key's own two documents |
| Plan.NothingToDo | internal/diff/diff.go:93-154 | A list plan is all no-ops exactly when the live index has the desired keys, each covered |
| Plan.PlanOrderKeys | internal/diff/diff.go:93-154 | A plan has each key of either side exactly once |
| Plan.ActionableEntries | internal/applier/helpers.go:30-35 | The entries kept for applying are exactly those of the keys that need a change |
| Plan.Actionable | internal/applier/helpers.go:30-35 | The filter loop keeps the entries that are not no-ops, in plan order |
| Strings.SortedKeys | internal/diff/diff.go:215-238 | Keys collected in any map order come out as the one ascending listing |
| Strings.LessMeans | internal/diff/diff.go:215-238 | The order is lexicographic |
| Strings.LowerMeans | internal/ghclient/repo_lock.go:22-22 | Folding case turns a capital into the letter in its place and changes nothing else |
| ConcMap.MapSafety | internal/conc/conc.go:19-74 | In every reachable state, for every cancellation point, fn was called at most once for each index, no slot was written twice, there are exactly min(max(n,1), len) workers, and no more fns are in flight |
| ConcMap.MapResult | internal/conc/conc.go:19-74 | When Map has returned every worker is gone and every slot was written exactly once, with fn's own outcome for that index or with no result and the context's error and fn never called |
| ConcMap.UncancelledResult | internal/conc/conc.go:19-74 | When Map has returned without a cancellation, fn was called once for every index and its slot holds that outcome |
| ConcMap.NoDeadlock | internal/conc/conc.go:19-74 | Until Map returns some goroutine can move |
| ConcMap.MapTerminates | internal/conc/conc.go:19-74 | Every schedule has at most 4 len + 2 workers + 3 moves, so with NoDeadlock Map returns on every schedule |
| FanOut.FinishedJob | internal/applier/helpers.go:39-57 | On every schedule a job that reports itself applied has sent all its requests and its key holds what they make of the live item; a job never called left its key alone |
| FanOut.OthersUntouched | internal/applier/helpers.go:39-57 | No run changes a key that no job is for |
| FanOut.ScheduleDoesNotMatter | internal/applier/helpers.go:39-57 | All finished runs in which every job applied leave the same remote, whatever the schedule and the number of workers |
| NamedListRun.WrapMutate | internal/applier/helpers.go:39-57 | A mutation's outcome becomes a result that names its resource; pending is neither applied nor failed |
| NamedListRun.PlanRun | internal/applier/helpers.go:12-38 | A failed fetch is an error; otherwise the plan, and as entries to act on those that are not no-ops, or none on a dry run |
| NamedListRun.NoJobsNoChange | internal/applier/helpers.go:26-38 | With nothing handed to the pool, as on a dry run, no run of it changes anything |
| NamedListRun.NameDropped | internal/applier/helpers.go:58-69 | Slots of items that never ran are named after their own diff and marked failed; the others are kept |
| NamedListRun.ResultNamesEntry | internal/applier/helpers.go:39-69 | Result i names the i-th actionable diff on every schedule, with any cancellation |
| NamedListRun.FilteredPlan | internal/applier/helpers.go:26-38 | The jobs handed to the pool are exactly the actionable entries of the plan, in order |
| NamedListRun.LaneJobsPlanned | internal/applier/helpers.go:26-57 | The jobs made from the actionable entries are, in order, one for each key that needs a change, and land there, for any mutation that performs its entries |
| NamedListRun.AutolinksPerform | internal/applier/autolinks.go:56-69 | So do the autolink mutations, which update by deleting and creating |
| NamedListRun.PatchesPerform | internal/applier/helpers.go:39-57 | A create, patch or delete for each action brings every actionable entry's document where it is wanted |
| NamedListRun.MutationsKeepKeys | internal/applier/autolinks.go:56-69 | The requests of autolinks, and of a lane that creates, patches and deletes, leave each item with its key |
| NamedListRun.NextPlanWithin | internal/applier/helpers.go:26-69 | After any finished run, whatever failed calls left behind, the next plan acts only on keys of jobs that did not apply |
| NamedListRun.NextPlan | internal/applier/helpers.go:26-69 | If jobs that were called and did not apply left their key as it was, the keys the next plan acts on are exactly those of the jobs that did not apply, the cancelled ones included |
| NamedListRun.Converges | internal/applier/helpers.go:26-69 | If every job applied, the plan over the store is all no-ops, on every schedule |
| NamedListRun.StoreStaysWellKeyed | internal/applier/helpers.go:39-57 | In every state of every run each item is stored under the key it carries |
| NamedListRun.LaneConverges | internal/applier/helpers.go:26-69 | Run once, then look again: after a run of the lane's own jobs in which every job applied, on any schedule, the remote can be listed and the plan over any listing of it is all no-ops |
| NamedListRun.CreateLands | internal/applier/helpers.go:39-57 | Creating a document, with whatever defaults the server adds, satisfies the desired one |
| NamedListRun.PatchLands | internal/applier/helpers.go:39-57 | Patching with the desired fields satisfies the desired document and keeps the rest |
| NamedListRun.RecreateLands | internal/applier/autolinks.go:56-69 | Deleting and creating again, two calls, satisfies the desired document |
| NamedListRun.RemoveLands | internal/applier/helpers.go:39-57 | A delete leaves the key absent |
| NamedListRun.KeyKept | internal/applier/helpers.go:26-69 | What a create or an update leaves still carries the key it is stored under |
| NamedListRun.IndexOfListing | internal/diff/diff.go:240-250 | Indexing a listing of a store with unique keys gives the store back, whatever the order of the listing |
| SingletonRun.SingleResourceRun | internal/applier/helpers.go:74-104 | A run over one document: nothing without a desired one, an error when fetching fails, one mutation exactly when the plan is not a no-op and this is no dry run, and one result that says how it went |
| SingletonRun.DryRunWritesNothing | internal/applier/helpers.go:93-95 | A dry run leaves the document alone for every mutation, has no results, and shows the diffs of the real run |
| SingletonRun.UnreadWritesNothing | internal/applier/helpers.go:80-92 | Without a desired document, or without the live one, nothing is sent; a failed fetch is an error exactly when a document is desired |
| SingletonRun.RunReports | internal/applier/helpers.go:93-104 | A real run sends its one mutation exactly when its plan is not a no-op, and its one result says what that mutation said |
| SingletonRun.SecondRunIsIdle | internal/applier/helpers.go:74-104 | Of two runs, the first writing by a put or a patch, from any live document: the first writes exactly when its plan is not a no-op and succeeds, and the second plans one no-op, writes nothing and leaves the document alone |
| SingletonRun.FailedRunIsRetried | internal/applier/helpers.go:93-104 | A failed write is one reported failure, whatever it left behind, and the next run writes again exactly when the document it finds misses something desired |
| SingletonRun.PatchKeepsTheRest | internal/applier/helpers.go:74-104 | A run that patches leaves every location the report does not touch as it was |
| Protection.NormalizeBranch | internal/config/normalize.go:58-89 | One record is completed in place and the others are untouched |
| Protection.NormalizeAll | internal/config/normalize.go:30-34 | Every record of the slice is completed in place |
| Protection.NormalizedMeans | internal/config/normalize.go:58-89 | Normalization turns unstated switches and strict off and makes unstated contexts, users and teams empty; it keeps everything stated, adds no sub-object and no signatures, and is idempotent |
| Protection.DesiredParts | internal/config/schema.go:183-208 | In the desired document status checks, reviews and restrictions are always present, null exactly when not stated (DesiredAdmins, DesiredHistory and DesiredLocks name the other keys) |
| Protection.DecodeProtection | internal/ghapi/branches.go:22-83 | A GET body is projected onto the shape of the desired document, sub-object by sub-object, signatures only when reported |
| Protection.DecodedKeys | internal/ghapi/branches.go:22-83 | Key by key: a switch is on exactly when GET reports it on, a part is null exactly when GET leaves it out, and signatures are shown as reported |
| Branches.SignaturesChange | internal/applier/branches.go:135-145 | Finds the first change of the signatures field, and the value wanted |
| Branches.SignaturesWritten | internal/applier/branches.go:77-104 | The signatures are written exactly when the record asks for a value GET does not show, and with that value |
| Branches.ApplyBranch | internal/applier/branches.go:77-122 | The calls sent are a prefix of PUT then signatures (or the delete), stopping at the first failure; success means all were sent, and the result names the resource, the action and the number of calls |
| Branches.PlanLane | internal/applier/branches.go:35-66 | A GET that fails for another reason than absence aborts the lane with the first such error; otherwise the loops build one plan for each record in order, map patterns to records, and keep the actionable plans, or none on a dry run |
| Branches.ByPatternFinds | internal/applier/branches.go:68-70 | With distinct patterns, the pattern cut out of a plan's resource finds its own record |
| Branches.LaneJob | internal/applier/branches.go:67-104 | Each job of the pool, found by its pattern, sends what its own record asks for, and there is one for each record that needs a change, in order |
| Branches.LaneJobsDistinct | internal/applier/branches.go:67-71 | With distinct patterns no two jobs are for one branch |
| Protection.PutCovers | internal/ghapi/branches.go:95-132 | What GET shows after the PUT of a record covers each field the record asks for, the admins switch only if stated and the signatures only if also written |
| Protection.EncodedMeans | internal/ghapi/branches.go:95-132 | The PUT body sends unstated review switches as false and an unstated count as 0, and the other unstated parts of sub-objects as false or empty |
| Protection.ReadBackMeans | internal/ghapi/branches.go:22-132 | What GET shows after a PUT: the body itself, an unstated last-push switch as off, and the signatures beside it |
| Protection.AfterPutCovers | internal/ghapi/branches.go:95-132 | With the signatures written too, GET after the PUT covers the whole desired document exactly when the admins switch is stated |
| Protection.UnstatedNeverCovered | internal/config/normalize.go:58-89 | Without the admins switch no live document covers the desired one: it asks for null where GET shows a boolean |
| Branches.AppliedBranch | internal/applier/branches.go:77-104 | An applied plan leaves the encoded body and the signatures asked for, or those shown before |
| Branches.BranchConverges | internal/config/normalize.go:58-89 | From any live state, applying a record once makes its next plan a no-op exactly when the record states the admins switch, and normalization always states it |
| Branches.SwitchesAfter | internal/config/normalize.go:58-89 | Whatever a branch was before, after a record was completed and applied GET shows a switch on exactly when the operator stated true |
| Branches.AdminsUnstated | internal/config/normalize.go:58-89 | Without the admins switch no live state ever satisfies a record: it asks for null where GET shows a boolean |
| Branches.FlipsAreListed | internal/config/normalize.go:52-57 | Every top-level switch or sub-object presence that applying a normalized record flips is listed in the dry run's changes, on a branch protected before or not |
| Branches.LaneEffect | internal/applier/branches.go:67-71 | After a run of the lane's jobs in which every job applied, each branch holds its own record's effect, on every schedule |
| Branches.LaneConverges | internal/applier/branches.go:34-75 | After such a run the next plan of every branch whose record states the admins switch is a no-op |
| Branches.UnlistedBranchUntouched | internal/applier/branches.go:34-75 | A branch the configuration does not list is never changed, on any schedule |
| EtagCache.RelatedMeansSegments | internal/ghclient/cache.go:113-120 | Two paths are related exactly when the slash-split of one is a prefix of the other's |
| EtagCache.Cache.constructor | internal/ghclient/cache.go:30-39 | A capacity that is not positive means 10000 |
| EtagCache.Cache.Get | internal/ghclient/cache.go:46-54 | A hit returns the entry and makes it the most recent; a miss changes nothing |
| EtagCache.Cache.Set | internal/ghclient/cache.go:56-73 | The entry becomes the most recent and the oldest beyond the capacity is dropped; list and map agree afterwards |
| EtagCache.Cache.InvalidatePath | internal/ghclient/cache.go:86-99 | One pass over the map in any order removes what the recency sequence says and keeps list and map in agreement |
| EtagCache.InvalidatedItems | internal/ghclient/cache.go:86-99 | A write removes exactly the entries on related paths and keeps the order of the rest |
| EtagCache.InvalidatedForgets | internal/ghclient/cache.go:86-99 | A write forgets a key exactly when its path is related |
| EtagCache.WriteForgets | internal/ghclient/cache.go:86-120 | In terms of raw paths: a write forgets a cached read exactly when the segments of one path begin the other's, a slash behind either making no difference |
| EtagCache.PathlessStays | internal/ghclient/cache.go:86-116 | A read without a path is never forgotten by a write, and a write without one forgets nothing |
| EtagCache.HoldsMostRecent | internal/ghclient/cache.go:46-73 | After any sets and hitting gets the cache holds exactly the last capacity-many distinct keys touched, most recent first |
| EtagCache.HoldsLastSet | internal/ghclient/cache.go:46-73 | Every key held has the value last set for it |
| EtagCache.InsertedForgets | internal/ghclient/cache.go:56-73 | Storing one key forgets another exactly when the first is new, the cache is full and the other is the least recently used |
| ConditionalGet.RoundTrip | internal/ghclient/transport.go:29-81 | One round trip: what is sent, what is answered, and what the cache holds afterwards, for GETs and writes, 304, 200 and failures |
| ConditionalGet.UncachedResponses | internal/ghclient/transport.go:48-79 | An unreadable body is an error and caches nothing; a response without an ETag or with another status passes through and caches nothing; a 304 becomes a 200 with the cached body, or passes through when there is none |
| ConditionalGet.StepsAreRoundTrip | internal/ghclient/transport.go:37-79 | Alone, the lookup, answer and finish of the step system are one round trip: the same request, cache and body |
| ConditionalGet.InvNext | internal/ghclient/transport.go:29-81 | Every step of any number of concurrent round trips keeps every cached entry one that was received for its URL |
| ConditionalGet.SubstitutedWasReceived | internal/ghclient/transport.go:48-62 | In every interleaving a body handed out in place of a 304 arrived earlier in a 200 for the same URL |
| ConditionalGet.StaleExactly | internal/ghclient/transport.go:48-62 | A GET told 304 that finds an entry returns a stale body exactly when the last 200 stored for its URL since its lookup carried another body than the one the origin confirmed |
| ConditionalGet.UnresolvedExactly | internal/ghclient/transport.go:48-62 | A GET told 304 ends with nothing to return exactly when, since its lookup, the cache forgot the URL and no GET stored it again |
| ConditionalGet.ForgottenExactly | internal/ghclient/cache.go:56-99 | A step of a run forgets a cached URL exactly when it is a write to a related path, or stores a new URL into a full cache whose oldest entry this is |
| ConditionalGet.Transparent | internal/ghclient/transport.go:29-81 | After any history, whatever else uses the cache, a GET during which no other GET stores its URL never returns a stale body, and it does return one if the cache does not forget the URL either (sections 13.1.2 and 15.4.5 of RFC 9110) |
| ConditionalGet.StaleSubstitute | internal/ghclient/transport.go:48-62 | A store in between can break it: three interleaved GETs of one URL, the last of which returns a body older than the one the origin confirmed |
| AdminCache.ValidateAdminRepoRef | internal/config/admin_cache.go:102-116 | Accepts the empty reference and exactly the names and owner/name pairs whose segments are well formed |
| AdminCache.ValidMeans | internal/config/admin_cache.go:102-116 | A reference is valid exactly when it is one plain segment or two with a slash between, plain being none of the empty, dot and dot-dot segments and without the nine forbidden characters |
| AdminCache.WhoGoverns | internal/config/admin_cache.go:122-135 | A valid reference never makes a repository govern itself; a pinned one is the same repository for every target, a bare one that name under the target's owner |
| AdminCache.Cache.For | internal/config/admin_cache.go:58-98 | A young entry is returned without a load; otherwise there is one load, kept on success and dropped on failure; a disabled or invalid reference touches nothing |
| AdminCacheRuns.InvNext | internal/config/admin_cache.go:70-98 | Every step of any number of concurrent calls keeps entries, onces and callers consistent |
| AdminCacheRuns.AtMostOneLoad | internal/config/admin_cache.go:79-97 | An entry is loaded at most once, however many callers share it |
| AdminCacheRuns.OneLoadPerTtl | internal/config/admin_cache.go:56-77 | Of two entries under one key text the later was made more than the TTL after the earlier, unless that one's load failed; another spelling of the owner's case is another key |
| AdminCacheRuns.ReturnsFreshLoad | internal/config/admin_cache.go:70-98 | A caller returns exactly what its entry's one load reported, and that entry, of its own repository, was made no more than the TTL before its age check |
| AdminCacheRuns.FailureIsNotReused | internal/config/admin_cache.go:87-96 | Once a caller has returned a failure, no call that looks up afterwards is answered by that load |
| AdminCacheRuns.DropSparesNewer | internal/config/admin_cache.go:91-96 | Dropping a failed entry removes that entry only: other keys and a newer entry of the same key stay |
| AdminCacheRuns.NeverStuck | internal/config/admin_cache.go:79-98 | A caller that has not returned can go on, or the caller whose load it waits for can |
| RepoLock.KeyMeansRepo | internal/ghclient/repo_lock.go:22-22 | Two repositories share a lock key exactly when they are the same up to case |
| RepoLock.Locks.For | internal/ghclient/repo_lock.go:21-29 | A repository keeps the mutex made on its first use and no other key gets it |
| Reconciler.Reconcile | internal/reconciler/reconciler.go:101-257 | Policy gate, Phase A, lane selection, lanes finishing in any order, and the report in lane order whatever that order was; blocked exactly when some violation is an error |
| Reconciler.BlockedExactly | internal/reconciler/reconciler.go:132-149 | A report is blocked exactly when some violation is an error; it then has no diffs and one failure for each error, in order, under its field and with its policy, whatever the lanes would have done |
| Reconciler.WarningsChangeNothing | internal/reconciler/reconciler.go:119-149 | Violations that are not errors change nothing in a report but its list of violations |
| Reconciler.PhaseAIsolation | internal/reconciler/reconciler.go:151-168 | Phase A's diffs and results, or its one failure, come first in the report, and the rest is the report without Phase A |
| Reconciler.SelectLanes | internal/reconciler/reconciler.go:173-200 | The lanes run and the lanes skipped, in the order of the specs |
| Reconciler.LanesInSpecOrder | internal/reconciler/reconciler.go:173-200 | The lanes that run keep the order of the specs |
| Reconciler.RunLanes | internal/reconciler/reconciler.go:202-216 | Each lane writes its own slot, in any finishing order |
| Reconciler.LanesPartition | internal/reconciler/reconciler.go:173-200 | Every configured lane is run or skipped, never both and once each, and only disabled lanes are skipped |
| Reconciler.DisabledLaneReported | internal/reconciler/reconciler.go:345-352 | A disabled lane, Phase A included, puts a successful skipped entry with the operator's reason in the report, whatever the other lanes did |
| Reconciler.LaneIsolation | internal/reconciler/reconciler.go:271-301 | A lane's outcome changes its own part of the report only: what it reported, or exactly one failed result under its name, with its diffs kept on failure and none on panic |
| ReconcileRuns.InvNext | internal/reconciler/reconciler.go:80-221 | Every step of any number of concurrent reconciles keeps the lock, phase, recording and trace invariants |
| ReconcileRuns.NoInterleaving | internal/reconciler/reconciler.go:93-96 | Between two events of one reconcile there is none of another reconcile of the same repository up to case |
| ReconcileRuns.EventsAllowed | internal/reconciler/reconciler.go:132-221 | Runs with an error violation, disabled lanes and unconfigured lanes emit no lane events, and after a Phase B event a run emits no Phase A event |
| ReconcileRuns.FinishedReport | internal/reconciler/reconciler.go:209-221 | A finished run reports exactly what its lanes ended with in the trace, in lane order, or the blocked report exactly when some violation is an error |
| ReconcileRuns.ReportIgnoresSchedule | internal/reconciler/reconciler.go:209-221 | Two finished runs with the same input whose lanes ended alike have the same report, whatever their schedules |
| ReconcileRuns.NeverStuck | internal/ghclient/repo_lock.go:31-33 | A run that has not left can go on, or waits for a run of the same repository that can |
| Loader.MergeFile | internal/config/loader.go:114-190 | A file sets its own sections, an empty one nothing, and an invalid or unknown one is an error that sets nothing |
| Loader.LoadSettingsDir | internal/config/loader.go:33-71 | Absent files are skipped, any error means no settings and all errors, otherwise the normalized sections |
| Loader.LoadFails | internal/config/loader.go:53-66 | A load fails exactly when some fetch failed or some file is invalid or has a name no section knows |
| Loader.ReportedSpoils | internal/config/loader.go:53-66 | Every error of a load is that of a file whose fetch failed, whose content is invalid, or whose name no section knows |
| Loader.LoadedSection | internal/config/loader.go:33-71 | After a load each section is the normalized value its own file gave it, and nil when that file did not arrive, was empty or did not set it |
| Loader.UnloadedSection | internal/config/loader.go:33-71 | A section whose file did not arrive is nil |
| Loader.FromItsFile | internal/config/loader.go:54-65 | A section ends up as what its own file says, wherever that file arrived among the others |
| Loader.LoadIgnoresOrder | internal/config/loader.go:33-71 | Any arrival order of the same distinct files gives the same settings and the same multiset of errors |
| Loader.LoadFromMap | internal/config/loader.go:74-87 | Ranging over a map of files in any order comes to what loading those files comes to in whatever order they arrive: the same settings, or the same multiset of errors |
| Loader.KeyAffected | internal/config/selective.go:7-23 | The table of affected keys agrees with the switch that sets sections: a file affects the key of exactly the sections it sets |
| Loader.EveryFileIsRead | internal/config/file_envelopes.go:87-104 | Every section's file is among those read and is known to both tables |
| Loader.Merge | internal/config/resolver.go:8-65 | Merging two settings field by field gives what resolving them as two layers gives |
| Loader.Resolve | internal/config/resolver.go:90-164 | The fold over layers with provenance by section |
| Loader.LastLayerWins | internal/config/resolver.go:90-164 | The last layer that sets a section supplies its value, and provenance names that layer |
| Loader.UnsetStaysNil | internal/config/resolver.go:90-164 | A section that no layer sets stays nil and has no provenance |
| Loader.AffectedKeys | internal/config/selective.go:28-51 | The keys of the changed files with or without the directory prefix; none given or an unknown file means everything |
| Loader.PathNamesFile | internal/config/selective.go:33-38 | A changed path names a settings file bare or under the settings directory, and in no other way |
| Loader.KnownFilesNarrow | internal/config/selective.go:28-51 | A list narrows the run exactly when it is not empty and names settings files only |
| Loader.KeptMeansTouched | internal/config/selective.go:55-109 | When the run is narrowed, a section is kept exactly when its file is among the changed ones |
| Loader.SelectiveMissesNothing | internal/config/selective.go:28-109 | If two successful loads differ only in the changed files, every section whose resolved value differs under the same admin layers survives the filter |
| Subject.ScanFindsRepoParts | internal/oidc/github.go:172-199 | The overlapping scan yields, in order, exactly the part after each part that is repo in the colon-split of the subject |
| Subject.SubjectRepoSegments | internal/oidc/github.go:175-192 | The loop computes that scan with a strictly increasing offset |
| Subject.NextMark | internal/oidc/github.go:180-190 | Each search finds the next occurrence and skips none |
| Subject.ValueIsFirstPart | internal/oidc/github.go:194-199 | A segment's value is the first colon part of what follows |
| Identity.NumericId | internal/oidc/github.go:252-266 | Accepts exactly the non-zero strings of decimal digits |
| Identity.PositiveMeans | internal/oidc/github.go:252-266 | Those are the digit strings of a number above zero |
| Identity.SplitRepositoryMeans | internal/oidc/github.go:216-225 | A repository splits exactly when its slash-split is two non-empty parts |
| Identity.ParseRendered | internal/oidc/github.go:229-248 | Parsing a rendered segment, legacy or immutable, gives it back |
| Identity.RenderedParse | internal/oidc/github.go:229-248 | A segment that parses is well formed and is the rendering of its parse |
| Identity.MatchSegments | internal/oidc/github.go:122-142 | The match loop collects the forms of the segments that count, and whether any parsed or matched in the legacy form only |
| Identity.CheckClaims | internal/oidc/github.go:78-111 | The claims are accepted exactly when all five are present and agree; otherwise the error names the first absent one, or the first that disagrees: repository id, owner id, repository, owner |
| Identity.RequiredMeans | internal/oidc/github.go:201-214 | A required claim is usable exactly when it is a string that is not empty, and the error says which of absent, no string and empty it is |
| Identity.Decide | internal/oidc/github.go:113-153 | There is a verdict exactly when one segment counts, and otherwise the error names the reason that holds |
| Identity.CountsMeans | internal/oidc/github.go:122-142 | A segment counts exactly when it is the claimed owner and name up to case, each with its claimed id, or without ids where the immutable form is not required |
| Identity.ParseGitHubIdentity | internal/oidc/github.go:69-170 | A foreign issuer gives nothing; for a GitHub issuer with agreeing claims an identity is returned exactly when one part of the colon-split subject stands behind a repo part and speaks for the claimed repository, its fields are the signed claims, and otherwise the error says why |

## Left out

Outside the models altogether:

- HTTP, JSON and YAML encoding, YAML parsing, signatures and keys of tokens, webhooks' HMAC, metrics, logging and environment wiring: parsed nodes, JSON values, claims and responses are inputs.
- Markdown reports, command replies and sticky comments.
- Globs, the per-file validators and the policy rules: violations are an input of a run, and what decoding and validating a file gives is an input of loading.
- Batched prefetch over GraphQL, pages, environments, secrets and deploy keys, whose lanes do not promise convergence.
- Ruleset normalization (internal/config/normalize.go:37-50), which only replaces nil lists by empty ones.
- The status, metrics labels and counters at the end of a reconcile (internal/reconciler/reconciler.go:223-257).
- Dropped errors of the branches lane: it discards the pool's error slice (internal/applier/branches.go:67), so naming results by index is claimed for named lists only.
- A promise of one probe per reset, or of at most 5000 dispatches per reset window: once a reset has passed, every budget check refills a pool that is at most 100 and keeps its reset time (internal/ghclient/ratelimit.go:301-304), so neither holds.

Taken as parameters or simplified:

- Durations and counters are unbounded integers: 64-bit overflow of time arithmetic is not modelled. The zero time is `None`, and a negative concurrency option is not modelled.
- Clock readings, jitter, the order in which Go ranges over a map, the outcome of fetches, loads, mutations and lanes, and how a key value is printed are parameters.
- JSON numbers are exact values, and equal JSON renderings mean equal values.
- Letter case is folded for the letters a to z only; strings are sequences of characters, not bytes.
- Aliases in the YAML graph are followed one level, as the code does, and a chain of pointer types is finite (`type P *P` is not a Go type the decoder is given).
- Panics are modelled in a lane's own goroutine, where they are recovered, and not inside the worker pool, where they are not.
- The list and map of the ETag cache are a sequence and a map of item objects; the links of the doubly linked list are not modelled.
- Settings are a map from sections to values that are not looked into; sharing of section pointers between layers is not modelled.
- Liveness is stated as enabled steps and falling measures; fairness of the Go scheduler is assumed by whoever concludes that a step is taken.

Statements weaker than one could wish:

- RateLimit.DelayInBounds: a reset that falls exactly on the current instant lets the map order decide between the earliest and the latest reset, so only the outer bounds are stated there.
- NamedListRun.NextPlan: that a mutation which was called and failed leaves its key unchanged is a hypothesis about the remote; the code cannot ensure it, as when an autolink's create fails after its delete.
- NamedListRun.LaneConverges: key values are scalars, and the mutations do what each entry asks and keep its key; both are proved of autolinks and of a lane that creates, patches and deletes, and are hypotheses about other lanes.
- Branches.FlipsAreListed: claims the top-level switches and the presence of sub-objects; empty contexts, users and teams are omitted from the desired document, so nested fields can change unlisted.
- BoolWalk.CheckBools: the order of the issues, and which of the paths that reach a pair its issue carries, are not stated.
- ReconcileRuns.NoInterleaving: covers what lanes do; the policy check and the assembly of the report leave no events.

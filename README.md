# Jenkins job trigger: completion tracker, queue check and parameter matcher

This project models the part of the Jenkins job trigger action (`index.js`)
that decides when a submitted, parameterised Jenkins job has finished. After
the job is posted to `buildWithParameters`, the action polls two endpoints,
the build queue and the job's last build, until the last build reports
`SUCCESS` (the wait ends normally) or `FAILURE`/`ABORTED` (the wait throws
`Failed job <fullDisplayName>`).

Three modules, one per component of `index.js`:

- `Matching` (`matching.dfy`) — `isAllJobParamsPresent`. A build's or queue
  item's recorded parameters are a `seq<Param>` (duplicates allowed); the
  expected parameters are the ordered entries of the parameter object, a
  `seq<(string, string)>`. `ParamPresent` is the `some(...)` scan for one
  entry; `AllParamsPresent` is the whole matcher; the method
  `IsAllJobParamsPresent` is the source's `for` loop with its early
  `return false`, proved equal to it. `Covered` is an independent reading of
  the matcher ("expected is contained in actual, ignoring case, with a TOKEN
  key met by any non-empty list"), and `MatchMeansSubset` proves the two
  agree.
- `Queue` (`queue.dfy`) — `isJobInQueue`: the exact-name `filter`
  (`ItemsNamed`) followed by `some` over the matcher (`AnyItemMatches`).
- `Tracker` (`tracker.dfy`) — the `while (true)` loop of `waitJenkinsJob`.
  Every HTTP answer is an input: one `Poll` per iteration holds what the queue
  fetch and the status fetch would return (a decoded body or the error the
  fetch threw), and the loop reads only the ones it asks for. `Step` is one
  iteration as a function of the two loop variables (`checkQueue`,
  `isJobWaitingInQueue`); `Run` is the loop over a sequence of polls;
  `PollOnce` and `WaitJenkinsJob` are the imperative loop body and loop,
  proved to end exactly as `Run` does and to report the same progress
  messages ("in queue", "not started yet", "running").

Notes on the code's own behaviour, which the model keeps:

- The TOKEN exemption sits inside the `some(...)` callback
  (`index.js:89-90`), so a TOKEN key is met only when the recorded parameter
  list is non-empty (`Matching.TokenKeyNeedsSomeParam`).
- A failed submission is caught and reported inside `requestJenkinsJob`
  (`index.js:34-39`), and `main` then still enters the wait loop when `wait`
  is `'true'` (`index.js:143-145`).
- Any failed status or queue fetch is rethrown as it is (`index.js:54-56`,
  `index.js:72-74`) and ends the loop; the model records it as `FetchFailed`
  with the error's message.
- The timer (`index.js:8-12`) only reports "Job Timeout"; it does not stop
  the loop. The model represents the deadline as the number of polls
  available and ends with `DeadlineReached` when they run out.
- The `if(!jobsInQueue)` test (`index.js:80-82`) can never be taken, because
  `filter` always returns an array. It is not modelled.

## Model

| member | source | states |
|---|---|---|
| `Matching.UpperChar` | index.js:90 | `toUpperCase` on one character sends each lower-case ASCII letter to the upper-case letter at the same alphabet position, and leaves every other character unchanged |
| `Matching.Upper` | index.js:90 | `toUpperCase` on a string keeps its length and upper-cases each character in place |
| `Matching.UpperIdempotent` | index.js:90 | upper-casing a string that is already upper-cased changes nothing |
| `Matching.UpperCharEqual` | index.js:90 | two characters upper-case to the same character iff they are equal or the same ASCII letter in the other case |
| `Matching.SameIgnoringCaseMeans` | index.js:90 | comparing upper-cased strings with `===` is ASCII case-insensitive equality: same length, and at each position the same character up to the case of a letter, so different letters are never confused |
| `Matching.Satisfies` | index.js:90 | the `some` callback always passes for a TOKEN key; for any other key it passes iff name and value equal the key and expected value up to ASCII letter case |
| `Matching.ParamPresent` | index.js:89-91 | the `some` scan for one expected entry is true iff some recorded parameter passes the callback (TOKEN key, or name and value equal after upper-casing) |
| `Matching.AllParamsPresent` | index.js:87-98 | the matcher as a predicate: every expected entry, in order, is found by the `some` scan |
| `Matching.IsAllJobParamsPresent` | index.js:87-98 | the `for` loop with early `return false` answers true exactly when every expected entry is present |
| `Matching.EmptyExpectedAlwaysMatches` | index.js:88-97 | with no expected parameters the matcher is true for any recorded list |
| `Matching.TokenKeyNeedsSomeParam` | index.js:89-90 | an expected key that upper-cases to TOKEN is met by any non-empty recorded list, whatever its names and values, and never by an empty one |
| `Matching.PresentIffCovered` | index.js:89-91 | one expected entry is present iff it is covered: a TOKEN entry needs a non-empty list, any other entry an equal (name, value) pair after upper-casing |
| `Matching.MatchMeansSubset` | index.js:88-95 | the matcher holds iff every expected entry is covered, that is, expected is contained in actual ignoring case, with a TOKEN key met by any non-empty list (and so never by an empty one) |
| `Matching.TokenAloneFailsOnEmptyList` | index.js:89-93 | an expectation of only a TOKEN key is not met by an empty recorded list, because `some` over `[]` is false |
| `Matching.MissingKeyFails` | index.js:89-95 | one expected non-TOKEN entry without an equal (name, value) pair after upper-casing makes the matcher false |
| `Matching.SupersetStillMatches` | index.js:88-95 | a match survives replacing the recorded list by any list that holds all its elements, so extra recorded parameters never cause a failure |
| `Matching.ExtraParamsIgnored` | index.js:88-95 | recorded parameters appended before or after a matching list keep it matching |
| `Matching.MatchIgnoresCase` | index.js:90 | upper-casing all names, values, keys and expected values first gives the same verdict |
| `Matching.SubsetExamples` | index.js:87-98 | {A:1,B:2} matches {A:1}; {A:1} does not match {A:1,B:2}; env=Prod matches ENV=prod |
| `Queue.ItemsNamed` | index.js:79 | the filter keeps exactly the queue items whose task name equals the job name, compared case-sensitively, and no more items than it was given |
| `Queue.AnyItemMatches` | index.js:83 | `some` over the kept items is true iff one of them has matching parameters |
| `Queue.IsJobInQueue` | index.js:78-85 | the job is in the queue iff some item has exactly the job's name and parameters that satisfy the matcher |
| `Queue.EmptyQueueNeverHolds` | index.js:79-84 | an empty queue never holds the job |
| `Queue.UnnamedJobNotQueued` | index.js:79-84 | without an item of exactly that name the job is not queued, whatever the parameters |
| `Queue.NameComparisonIsCaseSensitive` | index.js:79 | an item named "Deploy" holds the job "Deploy" but not the job "deploy" |
| `Queue.OtherJobsIgnored` | index.js:79-83 | items of other jobs, placed before or after the others, never change the answer |
| `Tracker.Step` | index.js:106-125 | one iteration keeps the latch invariant (latch closed implies last check said "absent"), never reopens a closed latch, never ends by deadline, and on "in queue" keeps `checkQueue` and records the job as waiting |
| `Tracker.Run` | index.js:105-127 | the loop reports one progress message per iteration it survives; it reaches the deadline iff every poll produced a progress message |
| `Tracker.PollOnce` | index.js:106-125 | the imperative loop body computes the new `checkQueue`, `isJobWaitingInQueue` and outcome exactly as `Step` does, evaluating the parameter match only for an older status |
| `Tracker.WaitJenkinsJob` | index.js:100-128 | the imperative loop ends with the verdict and progress log of `Run` from the initial state (`checkQueue` true, not waiting) |
| `Tracker.Classify` | index.js:113-122 | the `if` chain on a fetched status stops the loop only for a status that is not stale, and then only with success naming the build or `Failed job ` + its display name |
| `Tracker.ClassificationOrder` | index.js:113-122 | a status is "not started" iff it is older than submission and its parameters match; otherwise SUCCESS succeeds with the display name, FAILURE or ABORTED fails with `Failed job ` + display name, and anything else continues |
| `Tracker.StaleStatusIgnoresResult` | index.js:113-114 | an older status with matching parameters is "not started" whatever its result, SUCCESS and FAILURE included |
| `Tracker.NonStaleJudgedByResult` | index.js:113-122 | every status that is not stale (newer than submission, stamped at the submission instant, or older with non-matching parameters) is judged by its result alone |
| `Tracker.InQueueSkipsStatus` | index.js:106-124 | while the job is found in the queue the step reports "in queue", keeps the latch open, and does not depend on the status answer |
| `Tracker.LatchClosesWhenAbsent` | index.js:106-113 | the first time the job is found absent, the latch closes and the status answer alone decides the step |
| `Tracker.LatchedIgnoresQueue` | index.js:106-111 | once the latch is closed, a step leaves the state unchanged and does not depend on the queue answer |
| `Tracker.RunIgnoresQueueOnceLatched` | index.js:103-127 | after the latch closes, the queue is never consulted again: runs over polls with the same status answers are identical |
| `Tracker.FirstPollFetchesQueue` | index.js:103-108 | the first iteration always fetches the queue: a failed queue fetch ends the loop at once with that error |
| `Tracker.QueuedForever` | index.js:105-127 | a job that stays in the queue keeps the tracker reporting "in queue" on every poll, with no exit before the deadline |
| `Tracker.ExitDecidedByLastPoll` | index.js:112-119 | whatever the other answers, a SUCCESS break or FAILURE/ABORTED throw is decided by the poll right after the logged iterations: its status was fetched, was not stale, and carried that result and display name |
| `Tracker.OnlyTwoExits` | index.js:105-127 | when every fetch answers, the loop ends only by the SUCCESS break or the FAILURE/ABORTED throw, or is still polling at the deadline; a break or throw is decided by the poll right after the logged iterations, whose status was read, was not stale, and carried that result and display name |
| `Tracker.FinalIsFinal` | index.js:115-119 | after the break or the throw no further poll is read |
| `Tracker.DeployScenario` | index.js:100-128 | job "deploy" with env=prod: seen in the queue, then running with no result, then SUCCESS of build-42 gives success naming build-42 after logging "in queue" and "running" |

## Left out

- The HTTP calls `requestJenkinsJob`, `getLastBuildStatus` and `getQueue` (`index.js:20-76`) are network I/O. Their answers are inputs (`Poll`), and their errors are `FetchError` values.
- The form encoding of the submitted parameters and the Basic credential (`index.js:6`, `index.js:25`) are calls into foreign libraries and are not part of this model.
- The `sleep(5)` calls, the global timeout timer and every `clearTimeout` (`index.js:8-18`, `38`, `55`, `73`, `151`) are timing. The deadline is only the number of polls available, and the timer's "Job Timeout" report, which does not stop the loop in the source, is not modelled.
- Logging, the action's inputs, `setFailed`, the `JSON.parse` of the `parameter` input and the TLS override (`index.js:101`, `114-124`, `130-156`) are host plumbing. The progress messages are kept only as the `Progress` log.
- `main` (`index.js:130-153`) is not modelled beyond the notes above.
- `Matching.UpperChar`: upper-cases ASCII letters only. JavaScript's full Unicode `toUpperCase`, which can change a string's length, is not modelled.
- Parameter values that are not strings, a queue body without `items`, and queue items or builds without `actions[0].parameters` or `task.name`, make the source throw a TypeError. The model assumes every recorded parameter has a string name and value, and that these fields exist.
- JavaScript's loose `==` on `result` is modelled as string equality on a present result, with `null` as `None`.

# Context-aware reminder: task filter and schedule optimiser

A Dafny model of the logic in `context-aware-reminder/frontend/src/api.ts`, the
client API of a reminder dashboard. When the backend cannot be reached, the API
answers from built-in mock data. Two of its answers involve real logic:

- **`getTasks` fallback.** The mock task list is filtered by a type string and a
  priority string, and `"all"` switches either test off. It is modelled as
  `Array.prototype.filter` (`ArrayFilter.Filter`, defined once). That filter is
  applied with the task predicate (`TaskFilter`).
- **`optimizeSchedule`.** The "AI agent" copies the constant task list and
  replaces its first task with an updated record. The new record is marked
  rescheduled. It keeps the old deadline as `original_deadline`, gets the fixed
  deadline `2025-12-09T14:45:00`, and gets a fixed reason naming "Main St" and
  "Client Meeting". No matching is computed: the outcome is hard-coded
  (`ScheduleOptimizer`). The copy is modelled as a fresh array. The update is an
  in-place assignment to index 0 (`RescheduleFirst`), and a function on lists
  (`Optimized`) specifies the result.

Module layout:

- `Wrappers`: `Option` for `T | null` and `Optional` for an optional property `name?: T`.
- `ApiTypes`: the `Task` and `CalendarEvent` records and their literal-union enums.
- `MockData`: `MOCK_TASKS` and `MOCK_CALENDAR_EVENTS` as constants.
- `ArrayFilter`, `TaskFilter` and `ScheduleOptimizer`: the two operations above.
- `LocalTime`: reads timestamps of the form `YYYY-MM-DDTHH:MM:SS`. With it, the
  model states that the new deadline is 15 minutes after the meeting ends.

The code assigns `original_deadline` unconditionally. A scheduler that is meant
to keep a task's first original deadline across repeated passes would assign it
only while it is unset. The model follows the code. `SecondPassOverwritesOriginal`
shows what a second pass over the function's own output would do. The code
itself only ever runs on the pristine constant list. What the code does keep is
the pairing of the two annotations: a task has `original_deadline` exactly when
it is marked rescheduled (`OptimizedKeepsAnnotationsAgree`).

## Model

| member | source | states |
|---|---|---|
| `ApiTypes.PriorityName` | context-aware-reminder/frontend/src/api.ts:12 | each priority's wire literal; none of them is the wildcard `"all"` |
| `ApiTypes.TaskTypeName` | context-aware-reminder/frontend/src/api.ts:13 | each task type's wire literal; none of them is the wildcard `"all"` |
| `ArrayFilter.Filter` | context-aware-reminder/frontend/src/api.ts:286-289 | `Array.filter`: the result is no longer than the input and holds only input elements that pass the callback |
| `ArrayFilter.FilterIsSubsequence` | context-aware-reminder/frontend/src/api.ts:286-289 | the result is an order-preserving subsequence of the input |
| `ArrayFilter.FilterCount` | context-aware-reminder/frontend/src/api.ts:286-289 | every value occurs in the result as often as in the input if it passes, and never otherwise (nothing passing is dropped) |
| `ArrayFilter.FilterKeepsPassing` | context-aware-reminder/frontend/src/api.ts:286-289 | an input element that passes is in the result |
| `ArrayFilter.FilterIdentity` | context-aware-reminder/frontend/src/api.ts:286-289 | filtering returns the input unchanged if and only if every element passes |
| `ArrayFilter.FilterEmpty` | context-aware-reminder/frontend/src/api.ts:286-289 | the result is empty if and only if no element passes |
| `ArrayFilter.FilterIdempotent` | context-aware-reminder/frontend/src/api.ts:286-289 | filtering the result again with the same callback changes nothing |
| `ArrayFilter.FilterConjunction` | context-aware-reminder/frontend/src/api.ts:287-288 | filtering by `p && q` equals filtering by `p` and then by `q` |
| `TaskFilter.FilterTasks` | context-aware-reminder/frontend/src/api.ts:286-289 | every returned task is from the input and satisfies `(type == 'all' or its type is type) and (priority == 'all' or its priority is priority)` |
| `TaskFilter.GetTasksFallback` | context-aware-reminder/frontend/src/api.ts:283-291 | with both filters defaulting to `"all"`, a mock task is returned exactly when it matches both filters |
| `TaskFilter.FilterTasksExact` | context-aware-reminder/frontend/src/api.ts:286-289 | the filtered list is an ordered subsequence of the input and keeps every matching task with its multiplicity and no other task |
| `TaskFilter.WildcardIsIdentity` | context-aware-reminder/frontend/src/api.ts:286-289 | `type = 'all'` and `priority = 'all'` return the input list unchanged |
| `TaskFilter.FilterTasksIdempotent` | context-aware-reminder/frontend/src/api.ts:286 | applying the same type/priority filter to its own output yields the same list |
| `TaskFilter.FilterTestsIndependent` | context-aware-reminder/frontend/src/api.ts:287-288 | the type test and the priority test are independent: both together equal either one applied after the other |
| `TaskFilter.UnknownFilterSelectsNothing` | context-aware-reminder/frontend/src/api.ts:287-288 | a filter string that is neither `"all"` nor a wire literal of its field selects no task |
| `TaskFilter.FallbackUnfiltered` | context-aware-reminder/frontend/src/api.ts:283-291 | with default filters the fallback is the whole mock list |
| `TaskFilter.FallbackLocationBased` | context-aware-reminder/frontend/src/api.ts:283-291 | filtering the mock list by `location_based` yields tasks 1 and 2 in order |
| `TaskFilter.FallbackMediumPriority` | context-aware-reminder/frontend/src/api.ts:283-291 | filtering the mock list by `medium` yields tasks 2 and 3 in order |
| `TaskFilter.FallbackBothFilters` | context-aware-reminder/frontend/src/api.ts:283-291 | `recurring`+`low` yields task 4 only; `time_based`+`high` yields nothing |
| `ScheduleOptimizer.Rescheduled` | context-aware-reminder/frontend/src/api.ts:366-372 | the spread record keeps every field but the four it writes; it is marked rescheduled, keeps the old deadline as `original_deadline`, and gets the fixed deadline and reason |
| `ScheduleOptimizer.Optimized` | context-aware-reminder/frontend/src/api.ts:363-372 | same length as the input; every element at index >= 1 is the input element; the first keeps every field except the four it sets (`is_rescheduled` true, `original_deadline` the old deadline, the new deadline, the reason) |
| `ScheduleOptimizer.RescheduleFirst` | context-aware-reminder/frontend/src/api.ts:366-372 | the in-place update of index 0 leaves the array equal to `Optimized` of its old contents |
| `ScheduleOptimizer.OptimizeSchedule` | context-aware-reminder/frontend/src/api.ts:357-375 | the returned list is `Optimized(MOCK_TASKS)`: four tasks, the first with id `'1'` and `original_deadline` `2025-12-09T17:00:00` |
| `ScheduleOptimizer.OptimizeTwice` | context-aware-reminder/frontend/src/api.ts:363 | the constant list is only copied, never changed, so two calls return the same list, and in it only the first task is marked rescheduled |
| `ScheduleOptimizer.ChangedTasks` | context-aware-reminder/frontend/src/pages/CalendarPage.tsx:33 | the calendar page keeps only tasks whose `is_rescheduled` is true, drawn from the result |
| `ScheduleOptimizer.ChangedAfterOptimize` | context-aware-reminder/frontend/src/pages/CalendarPage.tsx:31-34 | starting from a non-empty list with no task marked, the changed tasks are exactly the rewritten first task |
| `ScheduleOptimizer.OptimizeScheduleChangesOnlyTaskOne` | context-aware-reminder/frontend/src/api.ts:366-372 | on the mock list exactly one task is reported changed: id `'1'`, "Return Amazon package", original deadline `2025-12-09T17:00:00` |
| `ScheduleOptimizer.SecondPassOverwritesOriginal` | context-aware-reminder/frontend/src/api.ts:369 | a second pass over its own output sets `original_deadline` to the first pass's deadline, so the true original is lost |
| `ScheduleOptimizer.OptimizedKeepsAnnotationsAgree` | context-aware-reminder/frontend/src/api.ts:366-372 | if every input task has `original_deadline` exactly when it is marked rescheduled, so does every task of the result |
| `ScheduleOptimizer.OptimizeScheduleAnnotationsAgree` | context-aware-reminder/frontend/src/api.ts:75-118 | the mock tasks satisfy that pairing, and so does the list `optimizeSchedule` returns |
| `ScheduleOptimizer.ReasonMatchesMockData` | context-aware-reminder/frontend/src/api.ts:371 | the reason contains "Main St" and "Client Meeting"; "Main St" occurs in task 1's and evt1's locations, and "Client Meeting" in evt1's summary |
| `ScheduleOptimizer.MeetingEndParses` | context-aware-reminder/frontend/src/api.ts:201 | evt1 ends at 14:30 on 2025-12-09 |
| `ScheduleOptimizer.NewDeadlineParses` | context-aware-reminder/frontend/src/api.ts:370 | the rewritten deadline is 14:45 on 2025-12-09 |
| `ScheduleOptimizer.OriginalDeadlineParses` | context-aware-reminder/frontend/src/api.ts:81 | task 1's deadline is `2025-12-09T17:00:00`, which is 17:00 on 2025-12-09 |
| `ScheduleOptimizer.NewDeadlineFollowsMeeting` | context-aware-reminder/frontend/src/api.ts:370 | the new deadline is on the same day, 15 minutes after evt1 ends (14:30) and 135 minutes before the replaced 17:00 deadline |

## Left out

- The network path of every API method: `fetchWithFallback` and the `axios` calls (api.ts:268-276). Success or failure there depends on a foreign library's exceptions. Only the fallback values are modelled.
- The `userId` argument. No fallback value depends on it.
- The `setTimeout` delays in the API methods. They are artificial latency.
- `getOverview`, `getCompletedTasks`, `getAnalytics`, `getUserProfile`, `getCalendarEvents` and `getEmails`. Offline, they return a constant unchanged. Only the calendar events constant is modelled, because the optimiser facts refer to it.
- `syncGmailTasks`, `createNoteText`, `uploadFile` and `search`. They return constant data or call the network. `FormData` and `File` are browser APIs.
- All React pages, the layout and the router. The one exception is the `is_rescheduled` filter on the calendar page (`ChangedTasks`).
- Locale-dependent date display (`toLocaleTimeString`) and the floating-point formatting of `cost` and `score`. `cost` is carried as a real and never computed with.
- A location matcher, a reschedule planner, a Home/Away toggle and arrival or departure checklists. The code has none of them. Its "Main St" proximity exists only in a comment, and the outcome is hard-coded.
- Object identity. `[...MOCK_TASKS]` is a shallow copy, so tasks 2-4 of the result are the same objects as in `MOCK_TASKS`. Tasks are modelled as values, so that sharing is not represented. No caller mutates a returned task, so no behaviour depends on it.
- `LocalTime.Parse` checks field ranges but not day-of-month against month length. This is enough for the timestamps the API uses.

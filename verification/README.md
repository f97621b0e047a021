# DocumentDB client helpers: a Dafny model

The repository is a set of demos for the DocumentDB client: indexing
policies, queries, stored procedures and hash partitioning. Almost all of it
is a sequence of remote calls. The decision logic lives in the shared helper
class `DocumentClientHelper`, in three places, and this project models those
three:

- **`ExecuteWithRetries`** (module `Retry`). This is the throttle-retry
  executor. It invokes an operation. When the store answers 429 (Too Many
  Requests), either directly as a `DocumentClientException` or as the first
  inner exception of an `AggregateException`, it sleeps for the server's
  `RetryAfter` and invokes the operation again. The first returned value is
  returned. Any other exception is rethrown unchanged: a different status, an
  aggregate that does not wrap a 429, or an exception of some other type. The
  loop has no attempt ceiling. The operation is modelled as the finite script
  of outcomes its successive invocations produce, and `Task.Delay` as a running
  total of milliseconds. A run that is still retrying when the script runs out
  ends in `ScriptExhausted`. This does not bound the number of retries: it only
  marks the end of what was observed.
- **`CopyIndexingPolicy`** (module `Indexing`). This copies a collection
  template's indexing policy onto a collection definition. A null template
  policy leaves the definition untouched. Otherwise `Automatic` and
  `IndexingMode` are overwritten. The template's included and excluded paths
  are then added, in order, after the definition's existing ones. A null
  template list adds nothing.
- **`TryDeleteStoredProcedure(Uri)`** (module `StoredProcedures`). This issues
  one delete. It swallows a `DocumentClientException` whose error code is
  `"NotFound"` and lets every other exception escape. It does not retry.

Module `Remote` holds what the three share: the exception kinds and the
outcome of one remote call. `Remote.Exn.InnerException` is the class
library's `AggregateException.InnerException`: the first wrapped exception,
or null when the aggregate wraps none.

The executor has two renderings. `Retry.ExecuteWithRetries` is a recursive
function. Its contract states the whole behaviour against an independent
reference definition of a throttle and its wait (`IsThrottle`, `AdvisedDelay`, `WaitBefore`).
`Retry.RunWithRetries` follows the source's `while (true)` loop and is proved
to produce the same run.

## Model

| member | source | states |
|---|---|---|
| Retry.SleepTime | Demos/Projects/SharedCode/DocumentClientHelper.cs:201-224 | The catch clauses retry exactly the throttles: a direct 429 `DocumentClientException`, or an `AggregateException` whose first inner exception is one. The sleep is that exception's own `RetryAfter`, not a computed backoff. Every other exception is rethrown or never caught. |
| Retry.ExecuteWithRetries | Demos/Projects/SharedCode/DocumentClientHelper.cs:191-228 | The run stops at the first non-throttling outcome, and every earlier outcome was a throttle. That outcome's value is returned, or its exception is rethrown unchanged. The number of calls is its index plus one. The total wait is the sum of the earlier `RetryAfter` values. A script made only of throttles is consumed entirely and ends still retrying. |
| Retry.RunWithRetries | Demos/Projects/SharedCode/DocumentClientHelper.cs:193-227 | The `while (true)` loop, with `sleepTime` set in the catch clauses and `Task.Delay` after them, produces exactly the completion, call count and total wait of the recursive definition. |
| Retry.ThrottlesThenOutcome | Demos/Projects/SharedCode/DocumentClientHelper.cs:195-227 | For k throttles followed by a non-throttling outcome, the operation is invoked exactly k+1 times. The outcome at index k decides the result. The wait is the sum of the k `RetryAfter` values. |
| Retry.OnlyThrottles | Demos/Projects/SharedCode/DocumentClientHelper.cs:195-227 | The loop never gives up on throttles. A script of throttles only is consumed call by call, has slept all of their `RetryAfter` values, and is still retrying. |
| Retry.NoRetryWithoutThrottle | Demos/Projects/SharedCode/DocumentClientHelper.cs:197-224 | If the first outcome is a success, a non-429 `DocumentClientException`, an aggregate not wrapping a 429, or any other exception, the run ends after one call with zero wait. It returns that value or rethrows that exception unchanged. |
| Retry.ThrottleSleepsThenRetries | Demos/Projects/SharedCode/DocumentClientHelper.cs:201-226 | A throttle adds exactly its own `RetryAfter` to the wait and one call to the count. The run then continues with the same operation over the rest of the outcomes. |
| Retry.ThrottledThenSucceeded | Demos/Projects/SharedCode/DocumentClientHelper.cs:193-227 | For any number k of direct 429s followed by a success, the success value is returned after k+1 calls, having slept the sum of the k `RetryAfter` values. No k is refused: there is no attempt ceiling. |
| Indexing.AddEach | Demos/Projects/SharedCode/DocumentClientHelper.cs:147-150 | A `foreach ... Add` loop leaves the target's existing elements in place. Every item follows them, in enumeration order. |
| Indexing.CopyIndexingPolicy | Demos/Projects/SharedCode/DocumentClientHelper.cs:138-161 | A null template policy leaves the definition unchanged. Otherwise `Automatic` and `IndexingMode` are taken from the template. Each path list becomes the existing list followed by the template's list, with a null template list adding nothing. The id never changes. |
| Indexing.CopyTwiceAddsPathsTwice | Demos/Projects/SharedCode/DocumentClientHelper.cs:145-159 | Paths are appended, not merged. Copying the same template twice adds its paths twice, so the second copy changes the definition exactly when the template has paths. |
| Indexing.CopyOntoEmptyPolicy | Demos/Projects/SharedCode/DocumentClientHelper.cs:140-159 | Onto a definition with no paths, the copy reproduces the template's policy, with null lists read as empty. |
| StoredProcedures.TryDeleteStoredProcedure | Demos/Projects/SharedCode/DocumentClientHelper.cs:239-250 | The helper completes normally exactly when the delete succeeded or failed with error code `"NotFound"`. Any exception that escapes is the delete's own exception, unchanged. |
| StoredProcedures.NotFoundByCodeNotStatus | Demos/Projects/SharedCode/DocumentClientHelper.cs:245-248 | The filter looks only at the error code. `"NotFound"` is swallowed whatever the status. Any other code is rethrown, even with status 404 or a throttling 429. |
| StoredProcedures.AggregateNotFoundEscapes | Demos/Projects/SharedCode/DocumentClientHelper.cs:241-249 | Only a direct `DocumentClientException` is caught. Unlike the retry executor, which looks inside an `AggregateException` for a 429, the helper does not look inside one. An aggregate wrapping a "NotFound" error escapes unchanged. |

## Left out

- The remote client, the network, `async`/`await` and real time. A remote operation is the sequence of outcomes it produces. `Task.Delay` is an addition to a wait total, in milliseconds.
- The `client` parameter of `ExecuteWithRetries`. The method does not use it.
- Retry.ExecuteWithRetries: `StatusCode` is modelled as a plain integer. If the client's status were null, the cast `(int)de.StatusCode` would itself throw inside the catch clause. The client library is not part of this model, so that case is not represented.
- Retry.ExecuteWithRetries: `RetryAfter` is modelled as a non-negative number of milliseconds with no upper bound. `Task.Delay` waits forever on -1 ms, and throws `ArgumentOutOfRangeException` on durations below -1 ms or above `Int32.MaxValue` ms (about 24.8 days). That exception would escape the executor after the throttled call. None of this is modelled: the model sleeps any advised duration and retries.
- StoredProcedures.TryDeleteStoredProcedure: the exception's `Error` object is assumed present. A null `Error` would make `ex.Error.Code` throw a different exception.
- Indexing.CopyIndexingPolicy: the definition's indexing policy and its path lists are assumed non-null, as the client library creates them. A template list that is the same object as the definition's list would be modified while it is enumerated; that aliasing is not modelled. The template's other fields (offer type, stored procedures, triggers, user-defined functions) are not modelled, because the copy never reads them. `collectionSpec` and `collectionDefinition` are assumed non-null. A null one throws `NullReferenceException`. The only caller, `CreateNewCollection`, checks the template first and builds the definition itself.
- Contents of included and excluded paths (indexes, precision). The copy moves them without inspecting them, so each path is modelled by its path string only.
- `GetDatabaseAsync`, `GetNewDatabaseAsync`, both `GetCollectionAsync` overloads, `CreateNewCollection`, `RegisterScripts`, `CreateDocumentCollectionWithRetriesAsync` and the query-based `TryDeleteStoredProcedure` overload. These are get-or-create or null-guarded sequences of remote calls. Their only decisions are null checks on query results and arguments. `GetDatabaseAsync` and both `GetCollectionAsync` overloads create only when the query finds nothing. `GetNewDatabaseAsync` deletes only an existing database. `CreateNewCollection` copies the policy, passes the offer type and registers scripts only when a template is given; otherwise it passes a null offer type rather than the default "S1". `RegisterScripts` skips null script lists. The query-based delete runs through `ExecuteWithRetries` only when the query finds the procedure. The get-or-create helpers and the query-based delete branch on remote query results. `CreateNewCollection` and `RegisterScripts` test only whether the template and its lists are null, and then issue remote calls. `CreateDocumentCollectionWithRetriesAsync` has no branch: it makes one call through `ExecuteWithRetries`. This model does not represent remote calls.
- Hash partitioning. The overrides of `DisplayableHashPartitionResolver` delegate to the client library's `HashPartitionResolver`. `ResolveForCreate` also finds the resolved collection in its own array, which throws if it is absent, and prints that collection's id. The ring, its virtual nodes and its hash function are not part of this model.
- A retry ceiling or cancellation. The source has neither, so the model adds neither.
- The demo programs, configuration reading, the server-side script and the JSON model classes. They are console I/O, remote calls or plain data.

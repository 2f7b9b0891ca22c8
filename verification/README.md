# lambda-serverless backend core, modelled in Dafny

This project models the two sequential pieces of the lambda-serverless
backend that hold real logic.

- **The function registry and execution-log store** (`backend/db/models.py`).
  The MongoDB database is an immutable `Store`. It has a `counters` map, the
  `functions` records in natural order and the `executions` records in
  natural order. A `Database` is either `Offline` (the module-level `db` is
  `None`) or `Online(store)`. Every models.py function is a pure transition
  or query on it: the `$inc`/upsert id counter, `insert_one`, `delete_one`,
  `update_one` with `$set`, `find_one`, `find().sort().limit(50)` and the
  `$match`/`$group` pipeline.
- **The executor's decision rules** (`backend/core/docker_executor.py`).
  These cover the image, command, mount and isolation flags a container is
  started with. They also cover the `container_pool` memo cache with an
  abstract creator, the CPU-percentage formula, the local-fallback status
  rules, the runtime name, and what `run_function_in_container` logs and
  returns. Docker, the subprocess, the clock, the temp directory and the
  uuids are inputs (`RunInputs`).

Files: `wrappers.dfy` (Option, Result), `store.dfy` (records and store
invariant), `registry.dfy` (counter and function CRUD), `execution_log.dfy`
(logging, log query, metrics), `sandbox.dfy` (container arguments),
`container_pool.dfy` (pool), `container_stats.dfy` (stats reading),
`runner.dfy` (run workflow).

`Valid(store)` is the store invariant. It says ids are unique, which is the
unique index created at `backend/db/database.py:26`. It also says no id is
above the `function_id` counter. Every transition preserves it, and under
it an insert always gets a fresh id. Without it, the model lets the unique
index refuse the insert (`DuplicateKey`) after the counter has already
moved, as MongoDB would.

`get_execution_logs` sorts by timestamp descending, so it returns logs
newest first.

## Model

| member | source | states |
|---|---|---|
| Registry.NextSequenceValue | backend/db/models.py:6-14 | Offline gives 0 and no change. Otherwise the named counter goes up by exactly one, the post-increment value is returned, and other counters and both collections are unchanged. A missing counter reads as 0. |
| Registry.FirstSequenceValueIsOne | backend/db/models.py:8-14 | Upsert on a missing counter, or on one seeded with 0, returns 1. |
| Registry.SuccessiveSequenceValues | backend/db/models.py:8-14 | Two successive calls on one counter return consecutive values, both above the starting value. |
| Registry.InsertFunction | backend/db/models.py:16-32 | Offline gives None. On a valid store the id is counter+1, it is absent from the store, and exactly one record with the given name, language, code, timeout and clock value is appended. The store stays valid. A duplicate-key refusal leaves the functions unchanged. |
| Registry.FirstFunctionIdIsOne | backend/tests/test_routes.py:14 | With the `function_id` counter seeded at 0, as the route tests seed it, the first insert (`insert_function`, backend/db/models.py:16-32) returns id 1. |
| Registry.InsertAllFreshIds | backend/db/models.py:19-31 | On a valid store, n successive inserts all succeed with ids counter+1 … counter+n. These ids are pairwise distinct, and the store stays valid. |
| Registry.AllFunctions | backend/db/models.py:34-49 | One (id, name, language, code, timeout) row per stored record, with the same count and order. Offline gives the empty list. |
| Registry.ListedAfterInsert | backend/db/models.py:16-49 | After an insert, the listing is the old listing plus the new row at the end. |
| Registry.ListedIffFound | backend/db/models.py:34-73 | An id is in the listing iff `get_function_code` finds it. |
| Registry.DeleteFunctionById | backend/db/models.py:51-54 | Returns true iff a record with the id existed. Exactly that one record is removed (all others kept, in order) and the count drops by one. When false, nothing changes. Offline gives false. |
| Registry.DeleteKeepsOtherRecords | backend/db/models.py:51-54 | A delete keeps every record with another id exactly as many times as it was stored. |
| Registry.DeleteThenLookup | backend/db/models.py:51-73 | On a valid store, after a delete the id is no longer found and a second delete returns false. Every other id resolves to the same code, and the store stays valid. |
| Registry.UpdateFunctionCode | backend/db/models.py:56-61 | Only the `code` field changes, and only on a record with the id, which gets the new code. An absent id, or Offline, changes nothing. |
| Registry.UpdateThenLookup | backend/db/models.py:56-73 | After an update the id resolves to the new code, or stays absent. Other ids keep their code, and every id keeps its (language, timeout). |
| Registry.FunctionMetadata | backend/db/models.py:63-68 | Some((language, timeout)) of a record with the id iff one exists. None when absent or Offline. |
| Registry.FunctionCode | backend/db/models.py:70-73 | Some(code) of a record with the id iff one exists. None when absent or Offline. |
| Registry.InsertThenLookup | backend/db/models.py:16-73 | A fresh insert is found by its id with the code, language and timeout it was created with. Lookups of other ids are unchanged. |
| Registry.NextKeepsValid | backend/db/models.py:6-14 | Advancing any counter keeps the store invariant: ids stay unique and at or below the `function_id` counter. |
| Registry.OfflineDefaults | backend/db/models.py:7-71 | With no database every registry operation returns 0, None, [] or False and changes nothing. |
| ExecutionLog.LogExecution | backend/db/models.py:75-87 | Appends exactly one execution record with the given fields and clock value. Counters and functions are untouched; Offline is a no-op. |
| ExecutionLog.LogKeepsValid | backend/db/models.py:75-87 | Logging an execution keeps the store invariant. |
| ExecutionLog.ExecutionLogs | backend/db/models.py:89-113 | At most 50 rows, exactly min(50, number of the function's executions). Offline gives the empty list. |
| ExecutionLog.ExecutionLogsShape | backend/db/models.py:101-113 | Every row belongs to the requested function and is the projection (_id, function_id, exec_time, output, mem_usage, status, timestamp) of a stored execution of it, so position 3 is output and position 4 is memory usage. The rows project a sub-multiset of the function's executions, so no execution is listed twice. Timestamps do not increase down the list. |
| ExecutionLog.ExecutionLogsAreNewest | backend/db/models.py:101 | Every execution of the function is either listed, or the list is full and every listed row is at least as new as it. |
| ExecutionLog.SortNewestFirst | backend/db/models.py:101 | The sort is a permutation of its input, ordered by timestamp non-increasing. |
| ExecutionLog.LatestLogHeadsList | backend/db/models.py:85-101 | Right after logging at a clock value no earlier than any stored timestamp, the function's log list is non-empty and starts with that timestamp. |
| ExecutionLog.AggregatedMetrics | backend/db/models.py:115-142 | Offline gives None. When present, total_runs is the number of the function's `success` executions, and it is positive. |
| ExecutionLog.MetricsSummarizeSuccessRuns | backend/db/models.py:118-142 | None iff the function has no `success` execution. Otherwise total_runs is the number of its success executions, and last_run_time is the timestamp of one of them and no earlier than any of them. Other statuses play no part. |
| ExecutionLog.MaxTimestamp | backend/db/models.py:126 | `$max` returns a timestamp of the list that no element exceeds. |
| ExecutionLog.AverageExecTimeWithinBounds | backend/db/models.py:123 | Any bounds on the execution times of a function's success runs also bound its reported average. |
| ExecutionLog.MeanWithinBounds | backend/db/models.py:123-125 | An `$avg` lies between any lower and upper bound of the averaged values. |
| ExecutionLog.LoggedSuccessCounted | backend/db/models.py:118-126 | Logging a success makes the metrics exist. total_runs goes up by one (from none to 1), and last_run_time becomes the later of the old value and the new timestamp. |
| ExecutionLog.OtherLogLeavesMetrics | backend/db/models.py:119 | Logging a non-success run, or a run of another function, leaves the function's metrics unchanged. |
| ExecutionLog.OfflineLogDefaults | backend/db/models.py:76-116 | With no database, logging is a no-op, the log list is empty and the metrics are None. |
| Sandbox.Extension | backend/core/docker_executor.py:42 | The result contains no '.'. It is a suffix of the path and is either the whole path or preceded by a '.'. That is exactly the text after the last dot. |
| Sandbox.ExtensionAfterLastDot | backend/core/docker_executor.py:42-43 | For any prefix, the extension of prefix + "." + ext is ext when ext has no dot. |
| Sandbox.MountPathKeepsExtension | backend/core/docker_executor.py:42-43 | A file named <anything>.<ext> is mounted at "/app/code.<ext>". |
| Sandbox.ImageAndCommandFollowLanguage | backend/core/docker_executor.py:41-49 | The image is lambda_base_python iff the language is "python", else lambda_base_node. The interpreter is python3 exactly with the Python image. The command runs the mount path, and the host file is the given path. |
| Sandbox.SandboxFlagsOnBothVariants | backend/core/docker_executor.py:46-68 | Both variants have the network disabled, a 128m memory limit and a read-only mount. runtime='runsc' is set iff use_gvisor, and the two argument sets differ only in runtime. |
| Sandbox.CreateNewContainer | backend/core/docker_executor.py:32-71 | Raises "Docker client is not available…" without a client. Raises "Error creating container: <msg>" when the daemon refuses. Otherwise it returns a container started with those arguments under the name lambda_<hex>. |
| ContainerPool.GetOrCreateAsWritten | backend/core/docker_executor.py:16-29 | The pool as written, keyed by the formatted string. A hit returns the pooled container with the pool unchanged. A miss stores the created container under the key, or propagates the creation error. |
| ContainerPool.AsWrittenKeyServesWrongLanguage | backend/core/docker_executor.py:20-24 | The string key collides for ("f", "x_python") and ("f_x", "python"). The second call is served the first call's Node container, which does not match its request. |
| ContainerPool.GetOrCreateContainer | backend/core/docker_executor.py:16-29 | The pool keyed by the argument triple. A hit returns the pooled container and leaves the pool unchanged. A miss stores exactly the created container under the request, leaves other entries untouched, or propagates the creation error. |
| ContainerPool.HitIgnoresCreator | backend/core/docker_executor.py:22-24 | On a hit the result is the same whatever the creator does, so nothing is created. |
| ContainerPool.SecondCallHits | backend/core/docker_executor.py:25-29 | After a successful call, a second call with the same arguments returns the same container and leaves the pool as it is. |
| ContainerPool.PoolServesMatchingContainer | backend/core/docker_executor.py:20-29 | Keyed by the triple, a pool whose entries match their keys only hands out containers started for the request. It stays that way after a call. |
| ContainerStats.CalculateCpuPercent | backend/core/docker_executor.py:131-140 | 0 when the system delta is ≤ 0. Otherwise cpu_delta/system_delta·100, which lies in [0, 100] when 0 ≤ cpu_delta ≤ system_delta and is negative only if cpu_delta is. |
| ContainerStats.MissingCpuDataGivesZero | backend/core/docker_executor.py:132-139 | Missing CPU counters default to 0 and missing system counters to 1. Stats lacking either pair in both samples give 0. |
| ContainerStats.EmptyStatsReadAsZero | backend/core/docker_executor.py:102-139 | An empty stats document reads as 0 memory and 0% CPU. |
| Runner.RuntimeLabel | backend/core/docker_executor.py:178-180 | "gVisor" iff use_gvisor, "Docker" otherwise. |
| Runner.LocalCommandMirrorsContainer | backend/core/docker_executor.py:152 | The local command runs the same file as the container command. The interpreters agree except that Python uses the host's own executable. |
| Runner.RunLocallyUnsafe | backend/core/docker_executor.py:145-189 | Status "success" iff exit code 0, "timeout" with output "Function timed out" on timeout, "error" for a non-zero exit or any other exception. Output is stdout+stderr or "Execution error: <msg>". Memory is the fake 12 MiB, CPU the fake 0.5, and the runtime name is spoofed. |
| Runner.RunFileMountedForItsLanguage | backend/core/docker_executor.py:77-79 | The run's temp file is mounted at /app/code.py and run by python3 for Python, and at /app/code.js by node otherwise. |
| Runner.RunFunctionInContainer | backend/core/docker_executor.py:74-128 | A missing function raises before anything happens. Without Docker the report is the local fallback's and is logged with its status. With Docker, a pool miss whose creation the daemon refuses raises "Error creating container: <msg>" and changes nothing. Otherwise the pooled or newly created container is pooled under the request and recorded as removed. A failed wait/logs/stats gives "Error running the function: <msg>" and logs nothing. A finished one reports the logs, status "success", end minus start time, the stats' memory usage and CPU percent, and the runtime name, and logs exactly one execution with those figures and empty output. |
| Runner.AwaitContainer | backend/core/docker_executor.py:94-122 | A finished run is reported with its logs, status success, the elapsed time and the stats' memory and CPU figures, and logged once with those figures. A failure becomes the error dictionary with the store unchanged. |
| Runner.RunKeepsValid | backend/core/docker_executor.py:74-128 | A run changes neither the functions nor the counters, so it keeps the store invariant. |
| Runner.RunKeysInjective | backend/core/docker_executor.py:20 | For temp paths built in one temp directory from uuid hex strings of one length, two requests share the formatted pool key iff they are the same request. |
| Runner.RunPoolHitsAsSource | backend/core/docker_executor.py:20-24 | On a pool of such run requests, the formatted string key finds an entry for a run request iff the triple-keyed pool holds that request. |
| Runner.ContainerRunGrowsPoolWithRemovedContainer | backend/core/docker_executor.py:79-126 | With a fresh temp path the pool misses. Each container-path run that gets past creation adds exactly one entry, and that entry's container has been force-removed. |
| Runner.RuntimeLabelSameOnBothPaths | backend/core/docker_executor.py:88-116 | The container path and the local fallback report the same runtime name for the same use_gvisor. |
| Runner.LocalRunCountedIffExitZero | backend/core/docker_executor.py:85-90 | Without Docker a registered function's run always reports. The function's success count in the store goes up iff the process exited with code 0. |

## Left out

- `backend/static/script.js`: browser UI (DOM rendering, fetch calls, dialogs), with no state logic beyond string templates.
- `backend/db/database.py` and `backend/main.py`: connection setup and app wiring. Only the unique index on `id` is used, as `Valid` and the `DuplicateKey` outcome.
- `backend/api/routes.py` is not part of this model. The optional-field `FunctionUpdate` schema is not modelled because no modelled function consumes it: `update_function_code` sets only `code`.
- Docker client calls, `subprocess.run`, `time.sleep`, and `container.wait`/`logs`/`stats`/`remove` are foreign I/O. Their results are inputs (`DockerRun`, `ProcessOutcome`, `ContainerRun`). The two `get_docker_client()` checks in one run read the same availability flag.
- `datetime.utcnow()`, `time.time()`, `uuid.uuid4()`, `tempfile.gettempdir()` and MongoDB's ObjectId generation are supplied values. `os.path.join` is modelled as a "/" join, and `os.path.abspath` is not modelled: the host path is the given path.
- Writing the temp file, and never deleting it, is not modelled beyond the `None`-code failure. Console `print` output is not modelled.
- `isoformat()` is not modelled: timestamps are kept as clock values.
- The `doc.get("output", "")` fallback is not modelled: every modelled execution record has an output field.
- ExecutionLog.ExecutionLogs: MongoDB leaves the order of equal timestamps unspecified. The model sorts stably, and its contracts state only facts that hold for every tie order.
- ExecutionLog.AggregatedMetrics: the averages are unrounded reals (`round(..., 4)` and `round(..., 2)` not modelled). Only the execution-time average carries a bound lemma.
- ContainerStats.CalculateCpuPercent: the result is not rounded to two places.
- Runner.RunFunctionInContainer: the pool is keyed by the (file_path, language, use_gvisor) triple, the corrected key from the Findings table, not by the formatted string. For the temp paths runs build (one temp directory, 32-digit uuid hex) the two keys hit and miss alike, by Runner.RunKeysInjective and Runner.RunPoolHitsAsSource. `round(end - start, 4)` is not modelled. The container's exit status from `wait` is ignored, as in the code, so a container run is logged as "success" whatever the script did.

## Findings

| source | as written | input that shows it | evidently intended | confidence | as-written member | corrected member |
|---|---|---|---|---|---|---|
| backend/core/docker_executor.py:20 | the pool key is the string f"{file_path}_{language}_{use_gvisor}", which is not injective | ("f", "x_python", False) and ("f_x", "python", False) both give "f_x_python_False", so the second request gets the Node container of the first | one pool entry per (file_path, language, use_gvisor) triple | low: `run_function_in_container` always passes a fresh temp path ending in .py or .js, so its own calls cannot collide; not executed | ContainerPool.AsWrittenKeyServesWrongLanguage | ContainerPool.PoolServesMatchingContainer |

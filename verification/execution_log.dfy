/**
 The execution-log half of backend/db/models.py: `log_execution`, the
 `find`/`sort`/`limit` query behind `get_execution_logs`, and the
 `$match`/`$group` pipeline behind `get_aggregated_metrics`.
 */
module ExecutionLog {
  import opened Wrappers
  import opened Store

  /** `.limit(50)` on the log query. */
  const LogLimit: nat := 50

  const StatusSuccess: string := "success"

  /** A `$match` filter on `executions`: a function id and, optionally, a status. */
  datatype Query = Query(functionId: int, status: Option<string>)

  predicate Matches(q: Query, e: ExecutionRecord)
  {
    e.functionId == q.functionId && (q.status.None? || e.status == q.status.value)
  }

  /**
   One entry of `get_execution_logs`, in tuple order:
   (_id, function_id, exec_time, output, mem_usage, status, timestamp).
   Position 3 is the output and position 4 the memory usage.
   */
  datatype LogRow = LogRow(
    objectId: string,
    functionId: int,
    execTime: real,
    output: string,
    memUsage: int,
    status: string,
    timestamp: Timestamp)

  function LogRowOf(e: ExecutionRecord): LogRow
  {
    LogRow(e.objectId, e.functionId, e.execTime, e.output, e.memUsage, e.status, e.timestamp)
  }

  /** The summary `get_aggregated_metrics` returns (averages without rounding). */
  datatype Metrics = Metrics(
    totalRuns: nat,
    avgExecTime: real,
    avgCpuPercent: real,
    avgMemoryUsage: real,
    lastRunTime: Timestamp)

  /** `log_execution`: appends one execution document stamped with the supplied clock value. */
  function LogExecution(db: Database, functionId: int, execTime: real, memUsage: int, cpuPercent: real,
                        status: string, output: string, objectId: string, now: Timestamp): (r: Database)
    ensures db.Offline? ==> r == Offline
    ensures db.Online? ==> r.Online?
    ensures db.Online? ==>
      && r.store.counters == db.store.counters
      && r.store.functions == db.store.functions
      && |r.store.executions| == |db.store.executions| + 1
      && r.store.executions[..|db.store.executions|] == db.store.executions
      && r.store.executions[|db.store.executions|]
         == ExecutionRecord(objectId, functionId, execTime, memUsage, cpuPercent, status, output, now)
  {
    match db
    case Offline => Offline
    case Online(s) =>
      var e := ExecutionRecord(objectId, functionId, execTime, memUsage, cpuPercent, status, output, now);
      Online(s.(executions := s.executions + [e]))
  }

  /** Logging touches only the executions, so it keeps the store invariant. */
  lemma LogKeepsValid(s: Store, functionId: int, execTime: real, memUsage: int, cpuPercent: real,
                      status: string, output: string, objectId: string, now: Timestamp)
    requires Valid(s)
    ensures Valid(LogExecution(Online(s), functionId, execTime, memUsage, cpuPercent, status, output, objectId, now).store)
  {
  }

  /** The documents `$match` lets through, in natural order. */
  function Select(es: seq<ExecutionRecord>, q: Query): (r: seq<ExecutionRecord>)
    ensures |r| <= |es|
    ensures forall e :: e in r <==> e in es && Matches(q, e)
    ensures forall i :: 0 <= i < |r| ==> Matches(q, r[i])
    decreases |es|
  {
    if |es| == 0 then []
    else
      var init := es[..|es| - 1];
      var last := es[|es| - 1];
      assert es == init + [last];
      if Matches(q, last) then Select(init, q) + [last] else Select(init, q)
  }

  lemma SelectAppend(es: seq<ExecutionRecord>, e: ExecutionRecord, q: Query)
    ensures Select(es + [e], q) == if Matches(q, e) then Select(es, q) + [e] else Select(es, q)
  {
    assert (es + [e])[..|es|] == es;
  }

  ghost predicate NewestFirst(s: seq<ExecutionRecord>)
  {
    forall i, j :: 0 <= i < j < |s| ==> s[i].timestamp >= s[j].timestamp
  }

  /** Putting an entry that is at least as new as the head in front keeps the order newest-first. */
  lemma ConsNewestFirst(x: ExecutionRecord, rest: seq<ExecutionRecord>)
    requires NewestFirst(rest)
    requires |rest| > 0 ==> rest[0].timestamp <= x.timestamp
    ensures NewestFirst([x] + rest)
  {
    var r := [x] + rest;
    forall i, j | 0 <= i < j < |r|
      ensures r[i].timestamp >= r[j].timestamp
    {
      assert r[j] == rest[j - 1];
      if i > 0 {
        assert r[i] == rest[i - 1];
      } else {
        assert rest[0].timestamp >= rest[j - 1].timestamp;
      }
    }
  }

  /** Inserts `e` into a newest-first sequence before the first entry that is not newer. */
  function InsertNewestFirst(e: ExecutionRecord, s: seq<ExecutionRecord>): (r: seq<ExecutionRecord>)
    requires NewestFirst(s)
    ensures NewestFirst(r)
    ensures multiset(r) == multiset(s) + multiset{e}
    ensures |r| == |s| + 1 && (r[0] == e || (|s| > 0 && r[0] == s[0]))
    decreases |s|
  {
    if |s| == 0 then [e]
    else if e.timestamp >= s[0].timestamp then
      ConsNewestFirst(e, s);
      [e] + s
    else
      var tail := s[1..];
      assert s == [s[0]] + tail;
      assert NewestFirst(tail) by {
        forall i, j | 0 <= i < j < |tail|
          ensures tail[i].timestamp >= tail[j].timestamp
        {
          assert tail[i] == s[i + 1] && tail[j] == s[j + 1];
        }
      }
      var rest := InsertNewestFirst(e, tail);
      assert |tail| > 0 ==> s[0].timestamp >= tail[0].timestamp by {
        if |tail| > 0 {
          assert tail[0] == s[1];
        }
      }
      ConsNewestFirst(s[0], rest);
      [s[0]] + rest
  }

  /** `.sort("timestamp", -1)`: a newest-first permutation (ties keep natural order here). */
  function SortNewestFirst(s: seq<ExecutionRecord>): (r: seq<ExecutionRecord>)
    ensures NewestFirst(r)
    ensures multiset(r) == multiset(s)
    ensures |r| == |s|
    decreases |s|
  {
    if |s| == 0 then []
    else
      assert s == [s[0]] + s[1..];
      InsertNewestFirst(s[0], SortNewestFirst(s[1..]))
  }

  /** Every entry of a permutation of `b` is an entry of `b`. */
  lemma PermutationMembers(a: seq<ExecutionRecord>, b: seq<ExecutionRecord>)
    requires multiset(a) == multiset(b)
    ensures forall i :: 0 <= i < |a| ==> a[i] in b
  {
    forall i | 0 <= i < |a|
      ensures a[i] in b
    {
      assert a[i] in multiset(a);
    }
  }

  /** The first `n` entries of a sequence are a sub-multiset of it. */
  lemma PrefixSubMultiset(s: seq<ExecutionRecord>, n: nat)
    requires n <= |s|
    ensures multiset(s[..n]) <= multiset(s)
  {
    assert s == s[..n] + s[n..];
  }

  /** The first `n` entries of a newest-first sequence are newest-first. */
  lemma PrefixNewestFirst(s: seq<ExecutionRecord>, n: nat)
    requires NewestFirst(s) && n <= |s|
    ensures NewestFirst(s[..n])
  {
    var p := s[..n];
    forall i, j | 0 <= i < j < |p|
      ensures p[i].timestamp >= p[j].timestamp
    {
      assert p[i] == s[i] && p[j] == s[j];
    }
  }

  function Min(a: int, b: int): int
  {
    if a <= b then a else b
  }

  /** The function's executions, newest first, cut to the first `LogLimit`. */
  function NewestMatching(es: seq<ExecutionRecord>, functionId: int): (top: seq<ExecutionRecord>)
    ensures |top| == Min(|Select(es, Query(functionId, None))|, LogLimit)
    ensures NewestFirst(top)
    ensures forall i :: 0 <= i < |top| ==> top[i] in es && top[i].functionId == functionId
    ensures multiset(top) <= multiset(Select(es, Query(functionId, None)))
  {
    var selected := Select(es, Query(functionId, None));
    var sorted := SortNewestFirst(selected);
    PermutationMembers(sorted, selected);
    var n := Min(|sorted|, LogLimit);
    PrefixNewestFirst(sorted, n);
    PrefixSubMultiset(sorted, n);
    assert forall i :: 0 <= i < n ==> sorted[..n][i] == sorted[i];
    sorted[..n]
  }

  /** Each selected execution projected to its row, in the same order. */
  function Rows(top: seq<ExecutionRecord>): (r: seq<LogRow>)
    ensures |r| == |top|
  {
    seq(|top|, i requires 0 <= i < |top| => LogRowOf(top[i]))
  }

  /**
   `get_execution_logs`: the function's executions, newest first, at most
   `LogLimit` of them, each projected to its row.
   */
  function ExecutionLogs(db: Database, functionId: int): (r: seq<LogRow>)
    ensures db.Offline? ==> r == []
    ensures |r| <= LogLimit
    ensures db.Online? ==> |r| == Min(|Select(db.store.executions, Query(functionId, None))|, LogLimit)
  {
    match db
    case Offline => []
    case Online(s) => Rows(NewestMatching(s.executions, functionId))
  }

  /**
   Every row belongs to the requested function, rows come newest first,
   and the rows are the projections of distinct stored executions of it:
   a sub-multiset of the function's executions, listed in row order.
   */
  lemma ExecutionLogsShape(s: Store, functionId: int)
    ensures var r := ExecutionLogs(Online(s), functionId);
            && (forall i :: 0 <= i < |r| ==> r[i].functionId == functionId)
            && (forall i, j :: 0 <= i < j < |r| ==> r[i].timestamp >= r[j].timestamp)
            && (forall i :: 0 <= i < |r| ==>
                  exists e :: e in s.executions && e.functionId == functionId && r[i] == LogRowOf(e))
            && (exists top: seq<ExecutionRecord> ::
                  && multiset(top) <= multiset(Select(s.executions, Query(functionId, None)))
                  && |top| == |r|
                  && forall i :: 0 <= i < |r| ==> r[i] == LogRowOf(top[i]))
  {
    var top := NewestMatching(s.executions, functionId);
    var r := ExecutionLogs(Online(s), functionId);
    assert forall i :: 0 <= i < |r| ==> r[i] == LogRowOf(top[i]);
  }

  /** A matching execution is either among the selected ones, or the selection is full of newer ones. */
  lemma NewestMatchingCovers(es: seq<ExecutionRecord>, functionId: int, e: ExecutionRecord)
    requires e in es && e.functionId == functionId
    ensures var top := NewestMatching(es, functionId);
            || (exists k :: 0 <= k < |top| && top[k] == e)
            || (|top| == LogLimit && forall i :: 0 <= i < |top| ==> top[i].timestamp >= e.timestamp)
  {
    var m := Select(es, Query(functionId, None));
    var sorted := SortNewestFirst(m);
    var top := NewestMatching(es, functionId);
    assert top == sorted[..Min(|sorted|, LogLimit)];
    assert e in m;
    assert e in multiset(sorted);
    var k :| 0 <= k < |sorted| && sorted[k] == e;
    if k < |top| {
      assert top[k] == e;
    } else {
      assert forall i :: 0 <= i < |top| ==> top[i] == sorted[i];
    }
  }

  /**
   The returned rows are the newest ones: every execution of the function is
   either listed, or the list is full and every listed row is at least as new.
   */
  lemma ExecutionLogsAreNewest(s: Store, functionId: int)
    ensures var r := ExecutionLogs(Online(s), functionId);
            forall e :: e in s.executions && e.functionId == functionId ==>
              LogRowOf(e) in r || (|r| == LogLimit && forall i :: 0 <= i < |r| ==> r[i].timestamp >= e.timestamp)
  {
    var r := ExecutionLogs(Online(s), functionId);
    var top := NewestMatching(s.executions, functionId);
    assert r == Rows(top);
    forall e | e in s.executions && e.functionId == functionId
      ensures LogRowOf(e) in r || (|r| == LogLimit && forall i :: 0 <= i < |r| ==> r[i].timestamp >= e.timestamp)
    {
      NewestMatchingCovers(s.executions, functionId, e);
      if k :| 0 <= k < |top| && top[k] == e {
        assert r[k] == LogRowOf(e);
      } else {
        assert forall i :: 0 <= i < |r| ==> r[i] == LogRowOf(top[i]);
      }
    }
  }

  /**
   Right after logging an execution stamped no earlier than every stored one,
   the function's log list starts with an entry carrying that timestamp.
   */
  lemma LatestLogHeadsList(s: Store, functionId: int, execTime: real, memUsage: int, cpuPercent: real,
                           status: string, output: string, objectId: string, now: Timestamp)
    requires forall x :: x in s.executions ==> x.timestamp <= now
    ensures var db' := LogExecution(Online(s), functionId, execTime, memUsage, cpuPercent, status, output, objectId, now);
            var r := ExecutionLogs(db', functionId);
            |r| > 0 && r[0].timestamp == now
  {
    var e := ExecutionRecord(objectId, functionId, execTime, memUsage, cpuPercent, status, output, now);
    var es' := s.executions + [e];
    assert LogExecution(Online(s), functionId, execTime, memUsage, cpuPercent, status, output, objectId, now)
           == Online(s.(executions := es'));
    SelectAppend(s.executions, e, Query(functionId, None));
    assert e in es';
    var top := NewestMatching(es', functionId);
    NewestMatchingCovers(es', functionId, e);
    assert |top| > 0;
    assert top[0] in es';
    assert top[0].timestamp <= now;
    if k :| 0 <= k < |top| && top[k] == e {
      assert top[0].timestamp >= top[k].timestamp;
    }
    assert Rows(top)[0] == LogRowOf(top[0]);
  }

  /** The latest timestamp of a non-empty run list (`$max`). */
  function MaxTimestamp(es: seq<ExecutionRecord>): (r: Timestamp)
    requires |es| > 0
    ensures exists i :: 0 <= i < |es| && es[i].timestamp == r
    ensures forall i :: 0 <= i < |es| ==> es[i].timestamp <= r
    decreases |es|
  {
    if |es| == 1 then es[0].timestamp
    else
      var m := MaxTimestamp(es[1..]);
      assert forall i :: 1 <= i < |es| ==> es[i] == es[1..][i - 1];
      if es[0].timestamp >= m then es[0].timestamp else m
  }

  function ExecTimeOf(e: ExecutionRecord): real { e.execTime }
  function CpuPercentOf(e: ExecutionRecord): real { e.cpuPercent }
  function MemUsageOf(e: ExecutionRecord): real { e.memUsage as real }

  /** The `$sum` of a field over a run list. */
  function Sum(es: seq<ExecutionRecord>, f: ExecutionRecord -> real): real
    decreases |es|
  {
    if |es| == 0 then 0.0 else Sum(es[..|es| - 1], f) + f(es[|es| - 1])
  }

  /** The `$avg` of a field over a non-empty run list. */
  function Mean(es: seq<ExecutionRecord>, f: ExecutionRecord -> real): real
    requires |es| > 0
  {
    Sum(es, f) / (|es| as real)
  }

  lemma {:induction false} SumWithinBounds(es: seq<ExecutionRecord>, f: ExecutionRecord -> real, lo: real, hi: real)
    requires forall i :: 0 <= i < |es| ==> lo <= f(es[i]) <= hi
    ensures (|es| as real) * lo <= Sum(es, f) <= (|es| as real) * hi
    decreases |es|
  {
    if |es| > 0 {
      var init := es[..|es| - 1];
      assert forall i :: 0 <= i < |init| ==> init[i] == es[i];
      SumWithinBounds(init, f, lo, hi);
      assert Sum(es, f) == Sum(init, f) + f(es[|es| - 1]);
      assert lo <= f(es[|es| - 1]) <= hi;
      var m := |init| as real;
      assert |es| as real == m + 1.0;
      assert (m + 1.0) * lo == m * lo + lo;
      assert (m + 1.0) * hi == m * hi + hi;
    }
  }

  /** An average lies between any lower and upper bound of the values averaged. */
  lemma MeanWithinBounds(es: seq<ExecutionRecord>, f: ExecutionRecord -> real, lo: real, hi: real)
    requires |es| > 0
    requires forall i :: 0 <= i < |es| ==> lo <= f(es[i]) <= hi
    ensures lo <= Mean(es, f) <= hi
  {
    SumWithinBounds(es, f, lo, hi);
  }

  function SuccessQuery(functionId: int): Query
  {
    Query(functionId, Some(StatusSuccess))
  }

  ghost predicate HasSuccessRun(es: seq<ExecutionRecord>, functionId: int)
  {
    exists i :: 0 <= i < |es| && es[i].functionId == functionId && es[i].status == StatusSuccess
  }

  /**
   `get_aggregated_metrics`: over the function's `success` executions only,
   their count, field averages and latest timestamp; None when there are none.
   */
  function AggregatedMetrics(db: Database, functionId: int): (r: Option<Metrics>)
    ensures db.Offline? ==> r.None?
    ensures r.Some? ==> r.value.totalRuns == |Select(db.store.executions, SuccessQuery(functionId))| > 0
  {
    match db
    case Offline => None
    case Online(s) =>
      var runs := Select(s.executions, SuccessQuery(functionId));
      if |runs| == 0 then None
      else
        var last := MaxTimestamp(runs);
        Some(Metrics(|runs|, Mean(runs, ExecTimeOf), Mean(runs, CpuPercentOf), Mean(runs, MemUsageOf), last))
  }

  /**
   The metrics exist exactly when the function has a `success` execution;
   they then count those executions, and the last run time is the latest
   of their timestamps. Executions with another status play no part.
   */
  lemma MetricsSummarizeSuccessRuns(s: Store, functionId: int)
    ensures var r := AggregatedMetrics(Online(s), functionId);
            var es := s.executions;
            && (r.None? <==> !HasSuccessRun(es, functionId))
            && (r.Some? ==> r.value.totalRuns == |Select(es, SuccessQuery(functionId))|)
            && (r.Some? ==>
                  exists i :: 0 <= i < |es| && es[i].functionId == functionId && es[i].status == StatusSuccess
                              && es[i].timestamp == r.value.lastRunTime)
            && (r.Some? ==>
                  forall i :: 0 <= i < |es| && es[i].functionId == functionId && es[i].status == StatusSuccess
                              ==> es[i].timestamp <= r.value.lastRunTime)
  {
    var es := s.executions;
    var q := SuccessQuery(functionId);
    var runs := Select(es, q);
    MetricsCountAndLast(s, functionId);
    if |runs| > 0 {
      assert runs[0] in es && Matches(q, runs[0]);
      var last := MaxTimestamp(runs);
      var k :| 0 <= k < |runs| && runs[k].timestamp == last;
      assert runs[k] in es && Matches(q, runs[k]);
      forall j | 0 <= j < |es| && es[j].functionId == functionId && es[j].status == StatusSuccess
        ensures es[j].timestamp <= last
      {
        assert Matches(q, es[j]);
        assert es[j] in runs;
      }
    } else {
      forall i | 0 <= i < |es|
        ensures !(es[i].functionId == functionId && es[i].status == StatusSuccess)
      {
        if es[i].functionId == functionId && es[i].status == StatusSuccess {
          assert Matches(q, es[i]);
        }
      }
    }
  }

  /** Bounds on the execution times of a function's successful runs bound its reported average. */
  lemma AverageExecTimeWithinBounds(s: Store, functionId: int, lo: real, hi: real)
    requires forall i :: (0 <= i < |s.executions| && s.executions[i].functionId == functionId
                          && s.executions[i].status == StatusSuccess) ==> lo <= s.executions[i].execTime <= hi
    ensures var m := AggregatedMetrics(Online(s), functionId);
            m.Some? ==> lo <= m.value.avgExecTime <= hi
  {
    var runs := Select(s.executions, SuccessQuery(functionId));
    if |runs| > 0 {
      assert forall i :: 0 <= i < |runs| ==> runs[i] in s.executions;
      MeanWithinBounds(runs, ExecTimeOf, lo, hi);
    }
  }

  /**
   Logging a `success` run is counted by the metrics: one more run, and the
   last run time moves up to the new timestamp if it is later.
   */
  lemma LoggedSuccessCounted(s: Store, functionId: int, execTime: real, memUsage: int, cpuPercent: real,
                             output: string, objectId: string, now: Timestamp)
    ensures var before := AggregatedMetrics(Online(s), functionId);
            var db' := LogExecution(Online(s), functionId, execTime, memUsage, cpuPercent, StatusSuccess, output, objectId, now);
            var after := AggregatedMetrics(db', functionId);
            && after.Some?
            && after.value.totalRuns == (if before.None? then 1 else before.value.totalRuns + 1)
            && after.value.lastRunTime ==
               (if before.None? || before.value.lastRunTime < now then now else before.value.lastRunTime)
  {
    var e := ExecutionRecord(objectId, functionId, execTime, memUsage, cpuPercent, StatusSuccess, output, now);
    var db' := LogExecution(Online(s), functionId, execTime, memUsage, cpuPercent, StatusSuccess, output, objectId, now);
    assert db'.store.executions == s.executions + [e];
    var runs := Select(s.executions, SuccessQuery(functionId));
    SelectAppend(s.executions, e, SuccessQuery(functionId));
    var runs' := runs + [e];
    assert Select(db'.store.executions, SuccessQuery(functionId)) == runs';
    MetricsCountAndLast(s, functionId);
    MetricsCountAndLast(db'.store, functionId);
    if |runs| > 0 {
      MaxTimestampAppend(runs, e);
    } else {
      assert runs' == [e];
    }
  }

  /** The metrics' presence, count and last run time depend on the selected success runs alone. */
  lemma MetricsCountAndLast(s: Store, functionId: int)
    ensures var runs := Select(s.executions, SuccessQuery(functionId));
            var r := AggregatedMetrics(Online(s), functionId);
            && (r.Some? <==> |runs| > 0)
            && (r.Some? ==> r.value.totalRuns == |runs| && r.value.lastRunTime == MaxTimestamp(runs))
  {
  }

  /** The latest timestamp after appending a run is the later of the old latest and the new one. */
  lemma MaxTimestampAppend(es: seq<ExecutionRecord>, e: ExecutionRecord)
    requires |es| > 0
    ensures MaxTimestamp(es + [e]) == if MaxTimestamp(es) < e.timestamp then e.timestamp else MaxTimestamp(es)
  {
    var es' := es + [e];
    var m := MaxTimestamp(es);
    var j :| 0 <= j < |es| && es[j].timestamp == m;
    assert es'[j] == es[j];
    assert es'[|es|] == e;
    var k :| 0 <= k < |es'| && es'[k].timestamp == MaxTimestamp(es');
    if k < |es| {
      assert es'[k] == es[k];
    }
  }

  /** Logging a run that is not a success, or that belongs to another function, leaves the metrics as they were. */
  lemma OtherLogLeavesMetrics(s: Store, functionId: int, loggedId: int, execTime: real, memUsage: int,
                              cpuPercent: real, status: string, output: string, objectId: string, now: Timestamp)
    requires loggedId != functionId || status != StatusSuccess
    ensures var db' := LogExecution(Online(s), loggedId, execTime, memUsage, cpuPercent, status, output, objectId, now);
            AggregatedMetrics(db', functionId) == AggregatedMetrics(Online(s), functionId)
  {
    var e := ExecutionRecord(objectId, loggedId, execTime, memUsage, cpuPercent, status, output, now);
    SelectAppend(s.executions, e, SuccessQuery(functionId));
  }

  /** Without a connection the log operations yield their empty defaults. */
  lemma OfflineLogDefaults(functionId: int, execTime: real, memUsage: int, cpuPercent: real,
                           status: string, output: string, objectId: string, now: Timestamp)
    ensures LogExecution(Offline, functionId, execTime, memUsage, cpuPercent, status, output, objectId, now) == Offline
    ensures ExecutionLogs(Offline, functionId) == []
    ensures AggregatedMetrics(Offline, functionId) == None
  {
  }
}

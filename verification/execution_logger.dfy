/**
  The execution logger: log entries grouped by execution (or under
  `global`), per-execution metrics counting completed and failed nodes,
  the summary statistics over all executions and the pruning of old
  entries. Times are milliseconds since the epoch, passed in as `now`;
  entry ids and console output are outside the model.
 */
module ExecutionLogger {
  import opened StringUtil
  import opened Options
  import opened JsMap

  datatype Level = Debug | Info | Warn | Error

  /** Which execution, agent, node and user an entry belongs to; each may be absent. */
  datatype Context = Context(
    executionId: Option<string>,
    agentId: Option<string>,
    nodeId: Option<string>,
    userId: Option<string>)

  datatype LogEntry = LogEntry(
    timestamp: int,
    level: Level,
    category: string,
    message: string,
    context: Context,
    duration: Option<int>)

  datatype Status = Running | Completed | Failed | Cancelled

  datatype Metrics = Metrics(
    executionId: string,
    agentId: string,
    agentName: string,
    userId: string,
    startTime: int,
    endTime: Option<int>,
    duration: Option<int>,
    status: Status,
    totalNodes: int,
    completedNodes: nat,
    failedNodes: nat,
    error: Option<string>)

  datatype Logger = Logger(logs: OrderedMap<seq<LogEntry>>, metrics: OrderedMap<Metrics>)

  predicate ValidLogger(lg: Logger) {
    Valid(lg.logs) && Valid(lg.metrics)
  }

  function NewLogger(): (lg: Logger)
    ensures ValidLogger(lg) && lg.logs.keys == [] && lg.metrics.keys == []
  {
    Logger(Empty(), Empty())
  }

  // ---------------------------------------------------------------------------
  // Log entries
  // ---------------------------------------------------------------------------

  const GlobalKey := "global"

  /** `entry.executionId || 'global'`: an absent or empty execution id files the entry globally. */
  function LogKey(executionId: Option<string>): (key: string)
    ensures key != "" && (key == GlobalKey || executionId == Some(key))
    ensures executionId.Some? && executionId.value != "" ==> key == executionId.value
    ensures executionId.None? || executionId.value == "" ==> key == GlobalKey
  {
    if executionId.Some? && executionId.value != "" then executionId.value else GlobalKey
  }

  /** `getExecutionLogs`: the entries filed under a key, oldest first. */
  function LogsFor(lg: Logger, key: string): (entries: seq<LogEntry>)
    ensures key !in lg.logs.entries ==> entries == []
  {
    if key in lg.logs.entries then lg.logs.entries[key] else []
  }

  /** `log`: the entry, stamped `now`, is appended under its key. */
  function Log(lg: Logger, level: Level, category: string, message: string, context: Context, duration: Option<int>, now: int)
    : (r: Logger)
    requires ValidLogger(lg)
    ensures ValidLogger(r) && r.metrics == lg.metrics
    ensures LogsFor(r, LogKey(context.executionId))
            == LogsFor(lg, LogKey(context.executionId)) + [LogEntry(now, level, category, message, context, duration)]
    ensures forall key :: key != LogKey(context.executionId) ==> LogsFor(r, key) == LogsFor(lg, key)
  {
    var key := LogKey(context.executionId);
    var entry := LogEntry(now, level, category, message, context, duration);
    Logger(Set(lg.logs, key, LogsFor(lg, key) + [entry]), lg.metrics)
  }

  /** `debug`, `info`, `warn` and `error`: a `system` entry at the given level. */
  function LogSystem(lg: Logger, level: Level, message: string, context: Context, now: int): (r: Logger)
    requires ValidLogger(lg)
    ensures ValidLogger(r) && r.metrics == lg.metrics
    ensures var key := LogKey(context.executionId);
      |LogsFor(r, key)| == |LogsFor(lg, key)| + 1
      && LogsFor(r, key)[|LogsFor(lg, key)|].category == "system"
      && LogsFor(r, key)[|LogsFor(lg, key)|].level == level
    ensures LogsFor(r, LogKey(context.executionId))
            == LogsFor(lg, LogKey(context.executionId)) + [LogEntry(now, level, "system", message, context, None)]
    ensures forall key :: key != LogKey(context.executionId) ==> LogsFor(r, key) == LogsFor(lg, key)
  {
    Log(lg, level, "system", message, context, None, now)
  }

  // ---------------------------------------------------------------------------
  // Execution metrics
  // ---------------------------------------------------------------------------

  /** `getExecutionMetrics`. */
  function MetricsOf(lg: Logger, executionId: string): (m: Option<Metrics>)
    ensures m.Some? <==> executionId in lg.metrics.entries
  {
    Get(lg.metrics, executionId)
  }

  /**
    `startExecution`: fresh metrics for the execution, running with no
    node finished yet, and an `info` entry announcing the agent.
   */
  function StartExecution(lg: Logger, executionId: string, agentId: string, agentName: string, userId: string,
                          totalNodes: int, now: int): (r: Logger)
    requires ValidLogger(lg)
    ensures ValidLogger(r)
    ensures MetricsOf(r, executionId)
            == Some(Metrics(executionId, agentId, agentName, userId, now, None, None, Running, totalNodes, 0, 0, None))
    ensures forall id :: id != executionId ==> MetricsOf(r, id) == MetricsOf(lg, id)
    ensures executionId in lg.metrics.entries ==> r.metrics.keys == lg.metrics.keys
    ensures executionId !in lg.metrics.entries ==> r.metrics.keys == lg.metrics.keys + [executionId]
    ensures var key := LogKey(Some(executionId));
      LogsFor(r, key) == LogsFor(lg, key) + [LogEntry(now, Info, "system", "Execution started: " + agentName,
                                                      Context(Some(executionId), Some(agentId), None, Some(userId)), None)]
  {
    var m := Metrics(executionId, agentId, agentName, userId, now, None, None, Running, totalNodes, 0, 0, None);
    var started := Logger(lg.logs, Set(lg.metrics, executionId, m));
    LogSystem(started, Info, "Execution started: " + agentName, Context(Some(executionId), Some(agentId), None, Some(userId)), now)
  }

  const CompletedMessage := "Execution completed successfully"
  const FailedMessage := "Execution failed"

  /**
    The metrics of an execution that ends at `now`: its end time and
    duration, the outcome's status and a non-empty error; everything else
    is kept.
   */
  function Finish(m: Metrics, success: bool, error: Option<string>, now: int): (done: Metrics)
    ensures done.status == (if success then Completed else Failed)
    ensures done.endTime == Some(now) && done.duration == Some(now - m.startTime)
    ensures done.error == (if error.Some? && error.value != "" then error else m.error)
    ensures done.executionId == m.executionId && done.agentId == m.agentId && done.agentName == m.agentName
    ensures done.userId == m.userId && done.startTime == m.startTime && done.totalNodes == m.totalNodes
    ensures done.completedNodes == m.completedNodes && done.failedNodes == m.failedNodes
  {
    m.(endTime := Some(now), duration := Some(now - m.startTime),
       status := if success then Completed else Failed,
       error := if error.Some? && error.value != "" then error else m.error)
  }

  /**
    `completeExecution`: an unknown execution is ignored altogether;
    a known one gets its end time, its duration since the start and a
    completed or failed status, keeps its node counts, records a
    non-empty error, and an `execution` entry is logged.
   */
  function CompleteExecution(lg: Logger, executionId: string, success: bool, error: Option<string>, now: int)
    : (r: Logger)
    requires ValidLogger(lg)
    ensures ValidLogger(r)
    ensures executionId !in lg.metrics.entries ==> r == lg
    ensures executionId in lg.metrics.entries ==>
              var before := lg.metrics.entries[executionId];
              executionId in r.metrics.entries &&
              var after := r.metrics.entries[executionId];
              after.status == (if success then Completed else Failed)
              && after.endTime == Some(now) && after.duration == Some(now - before.startTime)
              && after.completedNodes == before.completedNodes && after.failedNodes == before.failedNodes
              && after.startTime == before.startTime
              && after.error == (if error.Some? && error.value != "" then error else before.error)
              && after.executionId == before.executionId && after.agentId == before.agentId
              && after.agentName == before.agentName && after.userId == before.userId
              && after.totalNodes == before.totalNodes
    ensures forall id :: id != executionId ==> MetricsOf(r, id) == MetricsOf(lg, id)
    ensures r.metrics.keys == lg.metrics.keys
    ensures executionId in lg.metrics.entries ==>
              var key := LogKey(Some(executionId));
              |LogsFor(r, key)| == |LogsFor(lg, key)| + 1
              && LogsFor(r, key)[|LogsFor(lg, key)|].level == (if success then Info else Error)
              && LogsFor(r, key)[|LogsFor(lg, key)|].message == (if success then CompletedMessage else FailedMessage)
    ensures executionId in lg.metrics.entries ==>
              var before := lg.metrics.entries[executionId];
              LogsFor(r, LogKey(Some(executionId)))
              == LogsFor(lg, LogKey(Some(executionId)))
                 + [LogEntry(now, if success then Info else Error, "execution",
                             if success then CompletedMessage else FailedMessage,
                             Context(Some(executionId), Some(before.agentId), None, Some(before.userId)),
                             Some(now - before.startTime))]
    ensures forall key :: key != LogKey(Some(executionId)) ==> LogsFor(r, key) == LogsFor(lg, key)
  {
    if executionId !in lg.metrics.entries then lg
    else
      var m := lg.metrics.entries[executionId];
      var duration := now - m.startTime;
      var done := Finish(m, success, error, now);
      var updated := Logger(lg.logs, Set(lg.metrics, executionId, done));
      Log(updated, if success then Info else Error, "execution", if success then CompletedMessage else FailedMessage,
          Context(Some(executionId), Some(m.agentId), None, Some(m.userId)), Some(duration), now)
  }

  /** `Node completed: <name>` or `Node failed: <name>`. */
  function NodeMessage(success: bool, nodeName: string): (msg: string)
    ensures EndsWith(msg, nodeName)
    ensures StartsWith(msg, "Node ")
    ensures success ==> StartsWith(msg, "Node completed: ") && msg[|"Node completed: "|..] == nodeName
    ensures !success ==> StartsWith(msg, "Node failed: ") && msg[|"Node failed: "|..] == nodeName
    ensures StartsWith(msg, "Node completed: ") <==> success
  {
    var msg := "Node " + (if success then "completed" else "failed") + ": " + nodeName;
    EndsWithConcat("Node " + (if success then "completed" else "failed") + ": ", nodeName);
    assert msg[..5] == "Node ";
    assert msg[5] == if success then 'c' else 'f';
    assert "Node completed: "[5] == 'c';
    msg
  }

  /**
    `logNodeExecution`: a known execution counts the node as completed or
    failed; the `node` entry is logged whether or not the execution is known.
   */
  function LogNodeExecution(lg: Logger, executionId: string, nodeId: string, nodeName: string, success: bool,
                            duration: int, now: int): (r: Logger)
    requires ValidLogger(lg)
    ensures ValidLogger(r)
    ensures executionId !in lg.metrics.entries ==> r.metrics == lg.metrics
    ensures executionId in lg.metrics.entries ==>
              var before := lg.metrics.entries[executionId];
              executionId in r.metrics.entries &&
              var after := r.metrics.entries[executionId];
              after.completedNodes + after.failedNodes == before.completedNodes + before.failedNodes + 1
              && (success ==> after.completedNodes == before.completedNodes + 1)
              && (!success ==> after.failedNodes == before.failedNodes + 1)
              && after.status == before.status
              && after == before.(completedNodes := after.completedNodes, failedNodes := after.failedNodes)
    ensures forall id :: id != executionId ==> MetricsOf(r, id) == MetricsOf(lg, id)
    ensures r.metrics.keys == lg.metrics.keys
    ensures var key := LogKey(Some(executionId));
      |LogsFor(r, key)| == |LogsFor(lg, key)| + 1
      && LogsFor(r, key)[|LogsFor(lg, key)|].category == "node"
      && LogsFor(r, key)[|LogsFor(lg, key)|].message == NodeMessage(success, nodeName)
    ensures var known := executionId in lg.metrics.entries;
      LogsFor(r, LogKey(Some(executionId)))
      == LogsFor(lg, LogKey(Some(executionId)))
         + [LogEntry(now, if success then Info else Error, "node", NodeMessage(success, nodeName),
                     Context(Some(executionId),
                             if known then Some(lg.metrics.entries[executionId].agentId) else None,
                             Some(nodeId),
                             if known then Some(lg.metrics.entries[executionId].userId) else None),
                     Some(duration))]
    ensures forall key :: key != LogKey(Some(executionId)) ==> LogsFor(r, key) == LogsFor(lg, key)
  {
    var known := executionId in lg.metrics.entries;
    var counted :=
      if !known then lg.metrics
      else
        var m := lg.metrics.entries[executionId];
        Set(lg.metrics, executionId,
            if success then m.(completedNodes := m.completedNodes + 1) else m.(failedNodes := m.failedNodes + 1));
    var context := Context(Some(executionId),
                           if known then Some(lg.metrics.entries[executionId].agentId) else None,
                           Some(nodeId),
                           if known then Some(lg.metrics.entries[executionId].userId) else None);
    Log(Logger(lg.logs, counted), if success then Info else Error, "node", NodeMessage(success, nodeName),
        context, Some(duration), now)
  }

  // ---------------------------------------------------------------------------
  // Statistics
  // ---------------------------------------------------------------------------

  datatype Stats = Stats(total: nat, completed: nat, failed: nat, running: nat, avgDuration: int)

  function CountStatus(ms: seq<Metrics>, s: Status): (n: nat)
    ensures n <= |ms|
  {
    if |ms| == 0 then 0 else (if ms[0].status == s then 1 else 0) + CountStatus(ms[1..], s)
  }

  /** The durations of the completed executions added up, an absent duration counting as 0. */
  function CompletedDurations(ms: seq<Metrics>): int {
    if |ms| == 0 then 0
    else
      (if ms[0].status == Completed then (if ms[0].duration.Some? then ms[0].duration.value else 0) else 0)
      + CompletedDurations(ms[1..])
  }

  /** `avg` is `sum / count` rounded to the nearest integer, halves upwards. */
  predicate IsRoundedMean(avg: int, sum: int, count: nat) {
    2 * count * avg <= 2 * sum + count < 2 * count * (avg + 1)
  }

  /** `Math.round(sum / count)`: the nearest integer to the quotient, halves rounded up. */
  function RoundedMean(sum: int, count: nat): (r: int)
    requires count > 0
    ensures IsRoundedMean(r, sum, count)
  {
    (2 * sum + count) / (2 * count)
  }

  /** `getExecutionStats`. */
  function ExecutionStats(lg: Logger): (st: Stats)
    requires ValidLogger(lg)
    ensures st.total == |lg.metrics.keys|
    ensures st.completed == CountStatus(Values(lg.metrics), Completed)
    ensures st.failed == CountStatus(Values(lg.metrics), Failed)
    ensures st.running == CountStatus(Values(lg.metrics), Running)
    ensures st.completed + st.failed + st.running <= st.total
    ensures st.completed == 0 ==> st.avgDuration == 0
    ensures st.completed > 0 ==> IsRoundedMean(st.avgDuration, CompletedDurations(Values(lg.metrics)), st.completed)
  {
    var all := Values(lg.metrics);
    var completed := CountStatus(all, Completed);
    var failed := CountStatus(all, Failed);
    var running := CountStatus(all, Running);
    StatusesPartition(all);
    Stats(|all|, completed, failed, running,
          if completed > 0 then RoundedMean(CompletedDurations(all), completed) else 0)
  }

  /** Each execution has one status, so the four counts add up to the number of executions. */
  lemma {:induction false} StatusesPartition(ms: seq<Metrics>)
    ensures CountStatus(ms, Completed) + CountStatus(ms, Failed) + CountStatus(ms, Running)
            + CountStatus(ms, Cancelled) == |ms|
  {
    if |ms| > 0 {
      StatusesPartition(ms[1..]);
    }
  }

  /** Replacing one execution's metrics changes each count by that execution alone. */
  lemma {:induction false} CountStatusUpdate(a: seq<Metrics>, b: seq<Metrics>, i: nat, s: Status)
    requires |a| == |b| && i < |a|
    requires forall j :: 0 <= j < |a| && j != i ==> a[j] == b[j]
    ensures CountStatus(b, s) + (if a[i].status == s then 1 else 0)
            == CountStatus(a, s) + (if b[i].status == s then 1 else 0)
  {
    if i == 0 {
      assert a[1..] == b[1..];
    } else {
      assert a[0] == b[0];
      CountStatusUpdate(a[1..], b[1..], i - 1, s);
    }
  }

  lemma {:induction false} CountStatusAppend(a: seq<Metrics>, m: Metrics, s: Status)
    ensures CountStatus(a + [m], s) == CountStatus(a, s) + (if m.status == s then 1 else 0)
  {
    if |a| == 0 {
      assert a + [m] == [m];
    } else {
      assert (a + [m])[1..] == a[1..] + [m];
      CountStatusAppend(a[1..], m, s);
    }
  }

  /** Replacing the metrics under one id changes each count by that execution alone. */
  lemma {:induction false} CountsAfterReplace(a: OrderedMap<Metrics>, b: OrderedMap<Metrics>, id: string, s: Status)
    requires Valid(a) && Valid(b) && a.keys == b.keys && id in a.entries && id in b.entries
    requires forall k :: k != id && k in a.entries ==> k in b.entries && b.entries[k] == a.entries[k]
    ensures CountStatus(Values(b), s) + (if a.entries[id].status == s then 1 else 0)
            == CountStatus(Values(a), s) + (if b.entries[id].status == s then 1 else 0)
  {
    var va := Values(a);
    var vb := Values(b);
    var i := IndexOf(a.keys, id);
    forall j | 0 <= j < |va| && j != i ensures va[j] == vb[j] {
      assert a.keys[j] != id;
    }
    CountStatusUpdate(va, vb, i, s);
  }

  /** Adding metrics under a new id adds that execution to each count. */
  lemma {:induction false} CountsAfterAppend(a: OrderedMap<Metrics>, b: OrderedMap<Metrics>, id: string, s: Status)
    requires Valid(a) && Valid(b) && b.keys == a.keys + [id] && id in b.entries
    requires forall k :: k in a.entries ==> k in b.entries && b.entries[k] == a.entries[k]
    ensures CountStatus(Values(b), s) == CountStatus(Values(a), s) + (if b.entries[id].status == s then 1 else 0)
  {
    var va := Values(a);
    ValuesOfAppend(a.keys, id, a.entries, b.entries);
    CountStatusAppend(va, b.entries[id], s);
  }

  /** Starting a new execution adds one running execution and leaves the other counts alone. */
  lemma StartCountsRunning(lg: Logger, executionId: string, agentId: string, agentName: string, userId: string,
                           totalNodes: int, now: int)
    requires ValidLogger(lg) && executionId !in lg.metrics.entries
    ensures var before := ExecutionStats(lg);
      var after := ExecutionStats(StartExecution(lg, executionId, agentId, agentName, userId, totalNodes, now));
      after.total == before.total + 1 && after.running == before.running + 1
      && after.completed == before.completed && after.failed == before.failed
  {
    var r := StartExecution(lg, executionId, agentId, agentName, userId, totalNodes, now);
    assert forall k :: k in lg.metrics.entries ==> MetricsOf(r, k) == MetricsOf(lg, k);
    CountsAfterAppend(lg.metrics, r.metrics, executionId, Running);
    CountsAfterAppend(lg.metrics, r.metrics, executionId, Completed);
    CountsAfterAppend(lg.metrics, r.metrics, executionId, Failed);
  }

  /** Completing a running execution moves it from the running count to the completed or failed count. */
  lemma CompleteMovesRunning(lg: Logger, executionId: string, success: bool, error: Option<string>, now: int)
    requires ValidLogger(lg) && executionId in lg.metrics.entries
    requires lg.metrics.entries[executionId].status == Running
    ensures var before := ExecutionStats(lg);
      var after := ExecutionStats(CompleteExecution(lg, executionId, success, error, now));
      after.total == before.total && after.running + 1 == before.running
      && after.completed == before.completed + (if success then 1 else 0)
      && after.failed == before.failed + (if success then 0 else 1)
  {
    var r := CompleteExecution(lg, executionId, success, error, now);
    var a, b := lg.metrics, r.metrics;
    assert b.entries[executionId].status == (if success then Completed else Failed);
    assert forall k :: k != executionId && k in a.entries ==> k in b.entries && b.entries[k] == a.entries[k] by {
      forall k | k != executionId && k in a.entries ensures k in b.entries && b.entries[k] == a.entries[k] {
        assert MetricsOf(r, k) == MetricsOf(lg, k);
      }
    }
    CountsAfterReplace(a, b, executionId, Running);
    CountsAfterReplace(a, b, executionId, Completed);
    CountsAfterReplace(a, b, executionId, Failed);
  }

  /** Logging a node's outcome changes no execution's status, so the counts stay as they were. */
  lemma NodeLogKeepsCounts(lg: Logger, executionId: string, nodeId: string, nodeName: string, success: bool,
                           duration: int, now: int, s: Status)
    requires ValidLogger(lg)
    ensures var r := LogNodeExecution(lg, executionId, nodeId, nodeName, success, duration, now);
      CountStatus(Values(r.metrics), s) == CountStatus(Values(lg.metrics), s)
  {
    var r := LogNodeExecution(lg, executionId, nodeId, nodeName, success, duration, now);
    if executionId in lg.metrics.entries {
      assert forall k :: k != executionId ==> MetricsOf(r, k) == MetricsOf(lg, k);
      CountsAfterReplace(lg.metrics, r.metrics, executionId, s);
    }
  }

  // ---------------------------------------------------------------------------
  // Pruning
  // ---------------------------------------------------------------------------

  const HourMillis := 60 * 60 * 1000

  /** The entries stamped strictly after the cutoff, in order. */
  function Recent(entries: seq<LogEntry>, cutoff: int): (r: seq<LogEntry>)
    ensures |r| <= |entries|
    ensures forall k :: 0 <= k < |r| ==> r[k].timestamp > cutoff && r[k] in entries
  {
    if |entries| == 0 then []
    else (if entries[0].timestamp > cutoff then [entries[0]] else []) + Recent(entries[1..], cutoff)
  }

  /** `Recent` is `entries.filter(e => e.timestamp > cutoff)`: the recent entries, in their order. */
  lemma {:induction false} RecentIsFilter(entries: seq<LogEntry>, cutoff: int)
    ensures Recent(entries, cutoff) == Filter(entries, (e: LogEntry) => e.timestamp > cutoff)
  {
    if |entries| > 0 {
      RecentIsFilter(entries[1..], cutoff);
    }
  }

  /** Nothing recent is dropped. */
  lemma {:induction false} RecentKeepsRecent(entries: seq<LogEntry>, cutoff: int, k: nat)
    requires k < |entries| && entries[k].timestamp > cutoff
    ensures entries[k] in Recent(entries, cutoff)
  {
    if k > 0 {
      RecentKeepsRecent(entries[1..], cutoff, k - 1);
    }
  }

  /** Entries that are all recent are kept as they are. */
  lemma {:induction false} RecentOfRecent(entries: seq<LogEntry>, cutoff: int)
    requires forall k :: 0 <= k < |entries| ==> entries[k].timestamp > cutoff
    ensures Recent(entries, cutoff) == entries
  {
    if |entries| > 0 {
      RecentOfRecent(entries[1..], cutoff);
    }
  }

  /** Keeps the recent entries of one key, dropping the key when none are left. */
  function PruneKey(logs: OrderedMap<seq<LogEntry>>, key: string, cutoff: int): (r: OrderedMap<seq<LogEntry>>)
    requires Valid(logs)
    ensures Valid(r)
    ensures key in r.entries <==> key in logs.entries && |Recent(logs.entries[key], cutoff)| > 0
    ensures key in r.entries ==> r.entries[key] == Recent(logs.entries[key], cutoff)
    ensures forall k :: k != key ==> (k in r.entries <==> k in logs.entries)
    ensures forall k :: k != key && k in r.entries ==> r.entries[k] == logs.entries[k]
  {
    if key !in logs.entries then logs
    else
      var kept := Recent(logs.entries[key], cutoff);
      if |kept| > 0 then Set(logs, key, kept) else Delete(logs, key)
  }

  /** Prunes the listed keys one after the other. */
  function PruneLogs(logs: OrderedMap<seq<LogEntry>>, keys: seq<string>, cutoff: int): (r: OrderedMap<seq<LogEntry>>)
    requires Valid(logs)
    ensures Valid(r)
    decreases |keys|
  {
    if |keys| == 0 then logs else PruneLogs(PruneKey(logs, keys[0], cutoff), keys[1..], cutoff)
  }

  /** After pruning, a key is kept with exactly its recent entries when it has some. */
  lemma {:induction false} PruneLogsKeepsRecent(logs: OrderedMap<seq<LogEntry>>, keys: seq<string>, cutoff: int)
    requires Valid(logs)
    requires forall key :: key in logs.entries && key !in keys ==>
               |logs.entries[key]| > 0 && Recent(logs.entries[key], cutoff) == logs.entries[key]
    ensures var r := PruneLogs(logs, keys, cutoff);
      forall key :: (key in r.entries <==> key in logs.entries && |Recent(logs.entries[key], cutoff)| > 0)
        && (key in r.entries ==> r.entries[key] == Recent(logs.entries[key], cutoff))
    decreases |keys|
  {
    if |keys| > 0 {
      var next := PruneKey(logs, keys[0], cutoff);
      forall key | key in next.entries && key !in keys[1..]
        ensures |next.entries[key]| > 0 && Recent(next.entries[key], cutoff) == next.entries[key]
      {
        if key == keys[0] {
          RecentOfRecent(next.entries[key], cutoff);
        }
      }
      PruneLogsKeepsRecent(next, keys[1..], cutoff);
      var r := PruneLogs(logs, keys, cutoff);
      assert r == PruneLogs(next, keys[1..], cutoff);
      forall key
        ensures (key in r.entries <==> key in logs.entries && |Recent(logs.entries[key], cutoff)| > 0)
          && (key in r.entries ==> r.entries[key] == Recent(logs.entries[key], cutoff))
      {
        if key == keys[0] && key in next.entries {
          RecentOfRecent(next.entries[key], cutoff);
        }
      }
    }
  }

  /** The executions started strictly after the cutoff. */
  function PruneMetrics(metrics: OrderedMap<Metrics>, keys: seq<string>, cutoff: int): (r: OrderedMap<Metrics>)
    requires Valid(metrics)
    requires forall id :: id in metrics.entries && id !in keys ==> metrics.entries[id].startTime > cutoff
    ensures Valid(r)
    ensures forall id :: id in r.entries <==> id in metrics.entries && metrics.entries[id].startTime > cutoff
    ensures forall id :: id in r.entries ==> r.entries[id] == metrics.entries[id]
    decreases |keys|
  {
    if |keys| == 0 then metrics
    else
      var id := keys[0];
      var next := if id in metrics.entries && metrics.entries[id].startTime <= cutoff then Delete(metrics, id) else metrics;
      PruneMetrics(next, keys[1..], cutoff)
  }

  /** The instant `olderThanHours` hours before `now`. */
  function Cutoff(now: int, olderThanHours: int): (t: int)
    ensures t <= now <==> olderThanHours >= 0
  {
    now - olderThanHours * HourMillis
  }

  /**
    `clearOldLogs`: forgets entries and executions at or before
    `olderThanHours` hours ago, then logs that it did so.
   */
  function ClearOldLogs(lg: Logger, olderThanHours: int, now: int): (r: Logger)
    requires ValidLogger(lg)
    ensures ValidLogger(r)
    ensures forall id :: id in r.metrics.entries <==>
              id in lg.metrics.entries && lg.metrics.entries[id].startTime > Cutoff(now, olderThanHours)
    ensures forall id :: id in r.metrics.entries ==> r.metrics.entries[id] == lg.metrics.entries[id]
    ensures forall key :: key != GlobalKey ==>
              LogsFor(r, key) == Recent(LogsFor(lg, key), Cutoff(now, olderThanHours))
    ensures LogsFor(r, GlobalKey)
            == Recent(LogsFor(lg, GlobalKey), Cutoff(now, olderThanHours))
               + [LogEntry(now, Info, "system", "Cleared logs older than " + IntToString(olderThanHours) + " hours",
                           Context(None, None, None, None), None)]
  {
    var cutoff := Cutoff(now, olderThanHours);
    var logs := PruneLogs(lg.logs, lg.logs.keys, cutoff);
    PruneLogsKeepsRecent(lg.logs, lg.logs.keys, cutoff);
    var pruned := Logger(logs, PruneMetrics(lg.metrics, lg.metrics.keys, cutoff));
    assert forall key :: LogsFor(pruned, key) == Recent(LogsFor(lg, key), cutoff) by {
      forall key ensures LogsFor(pruned, key) == Recent(LogsFor(lg, key), cutoff) {
        if key in lg.logs.entries && key !in logs.entries {
          assert |Recent(lg.logs.entries[key], cutoff)| == 0;
        }
      }
    }
    Log(pruned, Info, "system", "Cleared logs older than " + IntToString(olderThanHours) + " hours",
        Context(None, None, None, None), None, now)
  }
}

/**
 * `MlflowObserver` of mlflow_observer.py: a Sacred run observer that turns the
 * run's lifecycle events into calls on the mlflow tracking API.
 *
 * Every call into mlflow is recorded, in order, in the observer's call log;
 * what mlflow does with a call is not modelled. What the environment supplies
 * is passed in: the current time already formatted with `time_fmt`, the id
 * mlflow gives the started run, whether a path is a directory, and the
 * conversion of a Sacred timestamp to mlflow milliseconds. Python values that
 * are only passed along (configuration leaves, host-info values, the Sacred
 * id, source digests) have the opaque type `V`.
 */
module Observer {
  import opened Wrappers
  import opened AssocList
  import opened Flatten

  /** mlflow's terminal run statuses. */
  datatype RunStatus = Finished | Killed | Failed

  /** `RunStatus.to_string`. */
  function StatusName(s: RunStatus): (name: string)
    ensures name in {"FINISHED", "KILLED", "FAILED"}
  {
    match s
    case Finished => "FINISHED"
    case Killed => "KILLED"
    case Failed => "FAILED"
  }

  /** The three terminal events end the run with three different statuses. */
  lemma StatusNameInjective(s: RunStatus, t: RunStatus)
    ensures StatusName(s) == StatusName(t) <==> s == t
  {
  }

  /** mlflow's `Metric(key, value, timestamp, step)`. */
  datatype Metric<V> = Metric(key: string, value: V, timestamp: int, step: int)

  /** One entry of Sacred's `metrics_by_name`: parallel lists of measurements. */
  datatype Series<TS, V> = Series(steps: seq<int>, values: seq<V>, timestamps: seq<TS>)

  /** A call the observer makes into mlflow. */
  datatype Call<V> =
    | CreateClient(trackingUri: Option<string>)
    | SetTrackingUri(uri: Option<string>)
    | SetExperiment(experimentName: string)
    | StartRun(runName: string)
    | LogParams(params: map<string, Value<V>>)
    | SetTag(key: string, value: V)
    | SetTags(tags: map<string, V>)
    | EndRun(status: string)
    | LogBatch(runId: Option<string>, metrics: seq<Metric<V>>)
    | LogArtifacts(runId: Option<string>, localDir: string, artifactPath: string)
    | LogArtifact(runId: Option<string>, localPath: string)

  /** `c` is a client call that names the run id `rid`. */
  predicate IsAddressedTo<V>(c: Call<V>, rid: Option<string>)
  {
    match c
    case LogBatch(r, _) => r == rid
    case LogArtifacts(r, _, _) => r == rid
    case LogArtifact(r, _) => r == rid
    case _ => false
  }

  /** Every call of `cs` is a client call addressed to the run id `rid`. */
  predicate AllAddressedTo<V>(cs: seq<Call<V>>, rid: Option<string>)
  {
    forall i :: 0 <= i < |cs| ==> IsAddressedTo(cs[i], rid)
  }

  const DefaultTimeFmt: string := "%b%d_%H-%M-%S"

  /**
   * The run name: `meta_info['comment']` when that is present and not `None`
   * (an empty comment included), otherwise `run_` and the formatted time.
   */
  function RunName(metaInfo: map<string, Option<string>>, now: string): (name: string)
    ensures "comment" in metaInfo && metaInfo["comment"].Some? ==> name == metaInfo["comment"].value
    ensures !("comment" in metaInfo && metaInfo["comment"].Some?) ==>
      |name| == 4 + |now| && name[..4] == "run_" && name[4..] == now
  {
    var comment := if "comment" in metaInfo then metaInfo["comment"] else None;
    if comment.None? then "run_" + now else comment.value
  }

  /** `{prefix + k: v for k, v in pairs}`. */
  function PrefixedTags<V>(prefix: string, pairs: seq<(string, V)>): (tags: map<string, V>)
  {
    ToMap(seq(|pairs|, i requires 0 <= i < |pairs| => (prefix + pairs[i].0, pairs[i].1)))
  }

  /**
   * The tag keys are the source keys behind the prefix, one for one, and each
   * tag holds the value of the last pair with its key.
   */
  lemma PrefixedTagsSpec<V>(prefix: string, pairs: seq<(string, V)>)
    ensures forall key :: key in PrefixedTags(prefix, pairs) ==>
      |prefix| <= |key| && key[..|prefix|] == prefix && key[|prefix|..] in Keys(pairs)
    ensures forall k :: prefix + k in PrefixedTags(prefix, pairs) <==> k in Keys(pairs)
    ensures forall i :: IsLastFor(pairs, i) ==> PrefixedTags(prefix, pairs)[prefix + pairs[i].0] == pairs[i].1
  {
    var ps := seq(|pairs|, i requires 0 <= i < |pairs| => (prefix + pairs[i].0, pairs[i].1));
    forall key | key in PrefixedTags(prefix, pairs)
      ensures |prefix| <= |key| && key[..|prefix|] == prefix && key[|prefix|..] in Keys(pairs)
    {
      var i :| 0 <= i < |ps| && ps[i].0 == key;
      assert key[|prefix|..] == pairs[i].0;
    }
    forall k | prefix + k in PrefixedTags(prefix, pairs) ensures k in Keys(pairs) {
      var i :| 0 <= i < |ps| && ps[i].0 == prefix + k;
      assert (prefix + k)[|prefix|..] == k && (prefix + pairs[i].0)[|prefix|..] == pairs[i].0;
    }
    forall k | k in Keys(pairs) ensures prefix + k in PrefixedTags(prefix, pairs) {
      var i :| 0 <= i < |pairs| && pairs[i].0 == k;
      assert ps[i].0 == prefix + k;
    }
    forall i | IsLastFor(pairs, i) ensures IsLastFor(ps, i) {
      forall j | i < j < |ps| ensures ps[j].0 != ps[i].0 {
        assert (prefix + pairs[j].0)[|prefix|..] == pairs[j].0;
        assert (prefix + pairs[i].0)[|prefix|..] == pairs[i].0;
      }
    }
  }

  /**
   * `[Metric(name, v, millis(t), step) for v, t, step in zip(values,
   * timestamps, steps)]`: entry `j` pairs the `j`-th value, timestamp and
   * step, and the batch is as long as the shortest of the three lists.
   */
  function Batch<TS, V>(name: string, values: seq<V>, timestamps: seq<TS>, steps: seq<int>, toMillis: TS -> int)
    : (b: seq<Metric<V>>)
    ensures |b| == Min(|values|, Min(|timestamps|, |steps|))
    ensures forall j :: 0 <= j < |b| ==> b[j] == Metric(name, values[j], toMillis(timestamps[j]), steps[j])
  {
    if values == [] || timestamps == [] || steps == [] then []
    else
      [Metric(name, values[0], toMillis(timestamps[0]), steps[0])]
      + Batch(name, values[1..], timestamps[1..], steps[1..], toMillis)
  }

  function Min(a: int, b: int): int
  {
    if a <= b then a else b
  }

  /** The batch `log_metrics` sends for one metric. */
  function SeriesBatch<TS, V>(name: string, s: Series<TS, V>, toMillis: TS -> int): seq<Metric<V>>
  {
    Batch(name, s.values, s.timestamps, s.steps, toMillis)
  }

  /**
   * `os.path.basename` on POSIX: the part of the path after its last `/`,
   * which is empty when the path ends with `/`.
   */
  function Basename(path: string): (base: string)
    ensures '/' !in base
    ensures |base| <= |path| && base == path[|path| - |base|..]
    ensures |base| < |path| ==> path[|path| - |base| - 1] == '/'
  {
    if path == [] || path[|path| - 1] == '/' then []
    else Basename(path[..|path| - 1]) + [path[|path| - 1]]
  }

  /** The base name is the longest suffix of the path without a `/`. */
  lemma BasenameLongest(path: string, n: nat)
    requires n <= |path| && '/' !in path[|path| - n..]
    ensures n <= |Basename(path)|
  {
  }

  /** A path that ends with `/` has an empty base name. */
  lemma BasenameTrailingSlash(path: string)
    ensures Basename(path + "/") == ""
  {
  }

  class MlflowObserver<V> {
    const trackingUri: Option<string>
    const timeFmt: string
    /** `_run_id`: the id of the started run, `None` before `started_event`. */
    var runId: Option<string>
    /** A record of the calls made into mlflow so far, oldest first. */
    ghost var calls: seq<Call<V>>

    /** `__init__`: creates the mlflow client; no run is started yet. */
    constructor(trackingUri: Option<string>, timeFmt: string)
      ensures this.trackingUri == trackingUri && this.timeFmt == timeFmt
      ensures runId == None
      ensures calls == [CreateClient(trackingUri)]
    {
      this.trackingUri := trackingUri;
      this.timeFmt := timeFmt;
      runId := None;
      calls := [CreateClient(trackingUri)];
    }

    /**
     * `started_event`: starts the mlflow run under the experiment's name, logs
     * the flattened configuration as parameters, tags the run with the Sacred
     * id, the host info and the sources, and records and returns the run's id.
     * `now` is the current time formatted with `timeFmt`; `startedRunId` is the
     * id mlflow gives the run it starts.
     */
    method StartedEvent(experimentName: string, sources: seq<(string, V)>, hostInfo: seq<(string, V)>,
                        config: seq<(string, Value<V>)>, metaInfo: map<string, Option<string>>, id: V,
                        now: string, startedRunId: string)
      returns (rid: string)
      modifies this
      ensures rid == startedRunId && runId == Some(startedRunId)
      ensures calls == old(calls) + [
        SetTrackingUri(trackingUri),
        SetExperiment(experimentName),
        StartRun(RunName(metaInfo, now)),
        LogParams(FlattenDict(config, DefaultSep)),
        SetTag("sacred_id", id),
        SetTags(PrefixedTags("host_info.", hostInfo)),
        SetTags(PrefixedTags("sources.", sources))]
    {
      calls := calls + [SetTrackingUri(trackingUri), SetExperiment(experimentName)];
      var name := RunName(metaInfo, now);
      calls := calls + [StartRun(name)];
      calls := calls + [LogParams(FlattenDict(config, DefaultSep))];
      calls := calls + [SetTag("sacred_id", id)];
      calls := calls + [SetTags(PrefixedTags("host_info.", hostInfo))];
      calls := calls + [SetTags(PrefixedTags("sources.", sources))];
      runId := Some(startedRunId);
      rid := startedRunId;
    }

    /** `completed_event`: ends the run as finished. */
    method CompletedEvent()
      modifies this`calls
      ensures calls == old(calls) + [EndRun(StatusName(Finished))]
    {
      calls := calls + [EndRun(StatusName(Finished))];
    }

    /** `interrupted_event`: ends the run as killed. */
    method InterruptedEvent()
      modifies this`calls
      ensures calls == old(calls) + [EndRun(StatusName(Killed))]
    {
      calls := calls + [EndRun(StatusName(Killed))];
    }

    /** `failed_event`: ends the run as failed. */
    method FailedEvent()
      modifies this`calls
      ensures calls == old(calls) + [EndRun(StatusName(Failed))]
    {
      calls := calls + [EndRun(StatusName(Failed))];
    }

    /**
     * `log_metrics`: one `log_batch` per metric, in the order of
     * `metrics_by_name`, each addressed to the current run id.
     */
    method LogMetrics<TS>(metricsByName: seq<(string, Series<TS, V>)>, toMillis: TS -> int)
      modifies this`calls
      ensures |calls| == |old(calls)| + |metricsByName|
      ensures calls[..|old(calls)|] == old(calls)
      ensures forall i :: 0 <= i < |metricsByName| ==>
        calls[|old(calls)| + i] == LogBatch(runId, SeriesBatch(metricsByName[i].0, metricsByName[i].1, toMillis))
      ensures AllAddressedTo(calls[|old(calls)|..], runId)
    {
      var i := 0;
      while i < |metricsByName|
        invariant 0 <= i <= |metricsByName|
        invariant |calls| == |old(calls)| + i
        invariant calls[..|old(calls)|] == old(calls)
        invariant forall j :: 0 <= j < i ==>
          calls[|old(calls)| + j] == LogBatch(runId, SeriesBatch(metricsByName[j].0, metricsByName[j].1, toMillis))
      {
        var name, series := metricsByName[i].0, metricsByName[i].1;
        var batch := Batch(name, series.values, series.timestamps, series.steps, toMillis);
        calls := calls + [LogBatch(runId, batch)];
        i := i + 1;
      }
      ghost var added := calls[|old(calls)|..];
      forall j | 0 <= j < |added| ensures IsAddressedTo(added[j], runId) {
        assert added[j] == calls[|old(calls)| + j]
          == LogBatch(runId, SeriesBatch(metricsByName[j].0, metricsByName[j].1, toMillis));
      }
    }

    /**
     * `artifact_event`: a directory is uploaded whole under its base name, a
     * file on its own. `isDir` is what `os.path.isdir(filename)` says.
     */
    method ArtifactEvent(filename: string, isDir: bool)
      modifies this`calls
      ensures calls == old(calls) + [
        if isDir then LogArtifacts(runId, filename, Basename(filename))
        else LogArtifact(runId, filename)]
      ensures AllAddressedTo(calls[|old(calls)|..], runId)
    {
      var call;
      if isDir {
        var dirName := Basename(filename);
        call := LogArtifacts(runId, filename, dirName);
      } else {
        call := LogArtifact(runId, filename);
      }
      assert IsAddressedTo(call, runId);
      calls := calls + [call];
      assert calls[|old(calls)|..] == [call];
    }
  }

  /**
   * A session as Sacred drives one: start, log metrics, store an artifact and
   * complete. Every client call made after the start is addressed to the run
   * id `started_event` returned, and the session ends with the
   * run finished.
   */
  method Session<V, TS>(experimentName: string, config: seq<(string, Value<V>)>, id: V, now: string,
                        startedRunId: string, metricsByName: seq<(string, Series<TS, V>)>,
                        toMillis: TS -> int, artifact: string, isDir: bool)
    returns (rid: string, ghost log: seq<Call<V>>)
    ensures rid == startedRunId
    ensures |log| == 8 + |metricsByName| + 2
    ensures log[0] == CreateClient(None)
    ensures log[3] == StartRun("run_" + now)
    ensures AllAddressedTo(log[8..|log| - 1], Some(rid))
    ensures log[|log| - 1] == EndRun("FINISHED")
  {
    var observer := new MlflowObserver<V>(None, DefaultTimeFmt);
    rid := observer.StartedEvent(experimentName, [], [], config, map[], id, now, startedRunId);
    ghost var started := observer.calls;
    observer.LogMetrics(metricsByName, toMillis);
    ghost var logged := observer.calls;
    observer.ArtifactEvent(artifact, isDir);
    ghost var stored := observer.calls;
    observer.CompletedEvent();
    log := observer.calls;
    assert |started| == 8;
    assert stored[8..] == logged[8..] + stored[|logged|..];
    assert log[8..|log| - 1] == stored[8..];
  }
}

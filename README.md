# mlflow-observer in Dafny

A model of `mlflow_observer.py`: a Sacred run observer that forwards a run's lifecycle to mlflow. It has two parts.

- `flatten_dict` turns the nested Sacred configuration into the flat mapping that is logged as mlflow parameters. In the model it is pure functions: `Flatten.Emit` is the recursive generator `_flatten_dict`, `AssocList.ToMap` is `dict(...)` (a later duplicate key wins), and `Flatten.FlattenDict` composes the two. A Python mapping is an ordered association list (`Flatten.Value.Node`), so `d.items()` keeps its order. Every other Python value is a `Leaf`.
- `MlflowObserver` is a class (`Observer.MlflowObserver`) with the source's `_run_id` (`runId`) and a ghost record of the calls it makes into mlflow (`calls`); the program itself keeps no such log. Each event handler is a method whose postcondition gives the new log and run id.

The result of `flatten_dict` is also described independently:
- `Flatten.Terminals` lists the paths from the root to every value that is not a non-empty mapping, in depth-first order.
- `Flatten.FlatKey` gives the key of such a path: the keys of the path joined by the separator, with the empty keys at the head of the path dropped. Python's `not parent_key` test makes a parent path equal to `''` add no separator.

The lemmas show that the generator yields exactly these keyed terminals (`FlattenDictIsExpected`). From that they derive which keys the result has, which values it holds, and how collisions resolve.

Modules: `Wrappers` (Option), `AssocList` (`dict` of a pair list), `Flatten` (`flatten_dict`) and `Observer` (the observer). They live in `wrappers.dfy`, `assoc_list.dfy`, `flatten.dfy` and `observer.dfy`.

The environment is passed in as parameters:
- `now`: the current time, already formatted with `time_fmt`.
- `startedRunId`: the id mlflow gives the run that `start_run` opens.
- `isDir`: the answer of `os.path.isdir`.
- `toMillis`: the conversion `int(t.timestamp() * 1000)` of a Sacred timestamp.

Python values that the observer only passes along have the opaque type `V`. These are configuration leaves, host-info values, the Sacred id, source digests and metric values (any Python number, NaN and infinity included).

Notes on the code:
- `int(...)` at line 125 truncates the millisecond timestamp; it does not round. The conversion is the opaque `toMillis`.
- `zip` at line 126 cuts a batch to the shortest of the three metric lists; the lists need not be of equal length.
- Re-nesting the flattened mapping does not give the input back: `Flatten.FlattenNotInjective` exhibits two different inputs with the same result.

## Model

| member | source | states |
|---|---|---|
| AssocList.ToMap | mlflow_observer.py:163 | `dict(pairs)` has exactly the keys that occur in the pairs, and each key maps to the value of its last occurrence |
| AssocList.ToMapLastOccurrence | mlflow_observer.py:163 | a key is in `dict(pairs)` exactly when it has a last occurrence in the pairs, and it maps to that occurrence's value |
| AssocList.ToMapSnoc | mlflow_observer.py:163 | appending a pair overrides any earlier value of its key |
| Flatten.Emit | mlflow_observer.py:150-161 | the generator never yields a value that is a non-empty mapping; its helper `Flatten.Prefix` is the `not parent_key` test of lines 151-154 |
| Flatten.FlattenDict | mlflow_observer.py:141-163 | no value of the result is a non-empty mapping, and `flatten_dict({})` is `{}` |
| Flatten.KeyFromNonEmpty | mlflow_observer.py:150-156 | below a non-empty parent key, every key of a path is preceded by the separator |
| Flatten.KeyFromTop | mlflow_observer.py:150-156 | from the top level (parent key None), the key built for a path is its keys joined by the separator, with leading empty keys dropped |
| Flatten.EmitIsKeyed | mlflow_observer.py:150-161 | below any parent key, the generator yields the terminals of the mapping in depth-first order, each under the key built from the parent key and its path |
| Flatten.FlattenDictIsExpected | mlflow_observer.py:141-163 | the yielded pairs are the terminals keyed by `FlatKey`, and the result is `dict` of them |
| Flatten.TerminalsSound | mlflow_observer.py:155-161 | every listed terminal is reached in the input by its path, and it is not a non-empty mapping |
| Flatten.TerminalsComplete | mlflow_observer.py:155-161 | every path that reaches a value other than a non-empty mapping is listed, so no leaf and no empty mapping is dropped |
| Flatten.TerminalPathsDistinct | mlflow_observer.py:155-161 | in a mapping without duplicate keys, no two terminals share a path |
| Flatten.OnePairPerLeaf | mlflow_observer.py:155-161 | in a Python mapping, each leaf and each empty mapping yields exactly one pair |
| Flatten.YieldedUnderFlatKey | mlflow_observer.py:156-161 | each terminal value, the empty mapping included, is yielded unchanged under its full path key |
| Flatten.TopLevelKey | mlflow_observer.py:150-152 | a top-level terminal is yielded under its own key, with no prefix |
| Flatten.NestedKey | mlflow_observer.py:150-156 | a terminal one level down is keyed parent key, separator, own key; if the parent key is `''`, it gets no separator |
| Flatten.FlattenDictKeys | mlflow_observer.py:141-163 | a key is in the result if and only if some path to a terminal value has that key |
| Flatten.FlattenDictValue | mlflow_observer.py:158-163 | for each key of the result, the value of the result is a terminal value, passed through unchanged, of the last path in depth-first order with that key |
| Flatten.LaterKeyWins | mlflow_observer.py:163 | the last terminal with a given key is the one whose value the result holds |
| Flatten.FlattenEmpty | mlflow_observer.py:163 | `flatten_dict({})` is `{}` |
| Flatten.ExampleEmptyMappingKept | mlflow_observer.py:157-161 | `flatten_dict({'a': {}})` is `{'a': {}}` |
| Flatten.ExampleNested | mlflow_observer.py:141-163 | `flatten_dict({'a': {'b': 1, 'c': {'d': 2}}})` is `{'a.b': 1, 'a.c.d': 2}` |
| Flatten.ExampleDistinctPrefixes | mlflow_observer.py:141-163 | `flatten_dict({'a': 1, 'b': {'a': 2}})` is `{'a': 1, 'b.a': 2}` |
| Flatten.ExampleEmptyParentKey | mlflow_observer.py:151-152 | `flatten_dict({'': {'a': 1}})` is `{'a': 1}` |
| Flatten.ExampleCollisionLastWins | mlflow_observer.py:163 | `flatten_dict({'a.b': 1, 'a': {'b': 2}})` is `{'a.b': 2}` |
| Flatten.FlattenNotInjective | mlflow_observer.py:141-163 | `{'a.b': 1}` and `{'a': {'b': 1}}` flatten to the same mapping |
| Observer.RunName | mlflow_observer.py:76-79 | the run name is the comment when one is given and not None (even an empty one); otherwise it is `run_` followed by the formatted time |
| Observer.PrefixedTagsSpec | mlflow_observer.py:86-87 | the tag keys are exactly the source keys behind the `host_info.` or `sources.` prefix; each tag holds the value of the last pair with its key; `Observer.PrefixedTags` is the comprehension itself |
| Observer.StatusName | mlflow_observer.py:96-103 | a terminal status is one of FINISHED, KILLED, FAILED |
| Observer.StatusNameInjective | mlflow_observer.py:96-103 | the three terminal events end the run with three distinct statuses |
| Observer.Batch | mlflow_observer.py:125-126 | the batch is as long as the shortest of values, timestamps and steps; entry j pairs the j-th of each, in order, with the timestamp converted |
| Observer.Basename | mlflow_observer.py:136 | the base name is a suffix of the path without a `/` that is the whole path or follows a `/` |
| Observer.BasenameLongest | mlflow_observer.py:136 | no longer suffix of the path is free of `/` |
| Observer.BasenameTrailingSlash | mlflow_observer.py:136 | a path ending in `/` has the empty base name |
| Observer.MlflowObserver.constructor | mlflow_observer.py:57-62 | the client is created for the tracking URI, and `_run_id` is None |
| Observer.MlflowObserver.StartedEvent | mlflow_observer.py:68-91 | the calls are: tracking URI, experiment, start of the run under the chosen name, the flattened configuration as parameters, then the Sacred-id, host-info and source tags; `_run_id` becomes the started run's id, which is returned |
| Observer.MlflowObserver.CompletedEvent | mlflow_observer.py:96-97 | exactly one call, ending the run as FINISHED |
| Observer.MlflowObserver.InterruptedEvent | mlflow_observer.py:99-100 | exactly one call, ending the run as KILLED |
| Observer.MlflowObserver.FailedEvent | mlflow_observer.py:102-103 | exactly one call, ending the run as FAILED |
| Observer.MlflowObserver.LogMetrics | mlflow_observer.py:121-128 | exactly one `log_batch` per metric, in order, each carrying that metric's zipped batch and addressed to the current `_run_id` |
| Observer.MlflowObserver.ArtifactEvent | mlflow_observer.py:133-139 | a directory gives one `log_artifacts` under its base name; anything else gives one `log_artifact` of the path; both are addressed to the current `_run_id` |
| Observer.Session | mlflow_observer.py:89-139 | `started_event` returns the started run's id, every later metric and artifact call of the session is addressed to that id, and the session ends with the run FINISHED |

## Left out

- The mlflow library is represented only by the calls recorded in the log. That covers `set_tracking_uri`, `set_experiment`, `start_run`, `end_run`, `log_params`, `set_tag`, `set_tags` and `MlflowClient`. What mlflow does with them, including its process-wide active-run state and the stringification of tag values, is not modelled.
- Errors raised by mlflow, Sacred or the filesystem propagate unchanged in the source. The model has no exceptions, so every call is taken to succeed.
- `datetime.now().strftime(time_fmt)` (line 78) is a clock and locale formatting; it is the `now` parameter.
- `int(t.timestamp() * 1000)` (line 125) involves datetime and float arithmetic; it is the `toMillis` parameter.
- `os.path.isdir` (line 133) is a filesystem query; it is the `isDir` parameter. `os.path.basename` is modelled as the POSIX rule "after the last `/`".
- `queued_event`, `heartbeat_event` and `resource_event` do nothing, so they have no model. Parameters that the handlers ignore are not modelled either: `command`, `start_time`, `stop_time`, `result`, `interrupt_time`, `status`, `fail_time`, `fail_trace`, `name`, `metadata`, `content_type` and `info`.
- Flatten.FlattenDict: keys are modelled as strings only. A non-string key at any level makes `parent_key + k` (line 156) raise TypeError in the source, so `started_event` fails at line 83 before `log_params`; the model cannot express such a configuration.
- A `metric_dict` lacking one of `steps`, `values` or `timestamps` raises KeyError in the source. In the model, `Observer.Series` always has all three.
- `meta_info` is modelled as a mapping from keys to optional strings. Only its `comment` entry is read.
- Flatten.Emit: cyclic mappings, and mappings nested deeper than the interpreter's recursion limit, make `flatten_dict` raise RecursionError (each level of line 159 adds a Python frame). `Flatten.Emit` has no depth limit, and Dafny's datatypes are finite, so cycles cannot be built.
- AssocList.ToMap: a Python dict also keeps its keys in first-insertion order; a Dafny `map` has none. Nothing in the observer reads that order, and dict equality ignores it.
- A re-nesting round trip for `flatten_dict` is not claimed because it does not hold (see `Flatten.FlattenNotInjective`).

# Resource usage tracker — a Dafny model

This project models the resource-usage listener of `rf-mapper` (`stuff.py`).
During a Robot Framework run, the listener watches the keywords a test calls.
It turns the marker keywords "Use DB Table", "Use ADLS Path" and "Run
Databricks Job" into records `{"type": KIND, "name": arg}`, and it gathers
those records per test name.

The model has three modules:

- `ResourceMapper` (`resource_mapper.dfy`): the keyword registry
  `KeywordResourceMapper`. It is a class whose `keywordMap` field is updated in
  place by `RegisterKeyword`. The lookup `GetResourceMetadata` and the handlers
  are functions. A handler is a `Kind` (`DB_TABLE | ADLS_PATH |
  DATABRICKS_JOB`), not a closure. Applying a handler to its arguments is
  `Handle`. Each handler takes exactly one positional argument, so any other
  argument count gives `ArityMismatch`. That models the `TypeError` that
  `handler(*args)` raises.
- `UsageTracker` (`usage_tracker.dfy`): the listener `ResourceUsageTracker`.
  It is a class with the fields `currentTest`, `resourceMap` and `mapper`, and
  the callbacks `StartTest`, `StartKeyword` and `EndTest`. Each callback's
  contract gives the complete new state. Each one also extends a ghost
  `history` of callbacks, and `Valid()` ties the fields to `Run(registry,
  history)`. `Step` is the pure transition function of the callbacks. `Run`
  folds `Step` over a callback sequence, starting from the state right after
  construction. The invariant `Consistent` says that the running test always
  has an entry in the map; `Step` and `Run` preserve it.
- `UsageTrace` (`usage_trace.dfy`): what the map holds after any callback
  sequence, stated independently of `Step`. The test's "window" is the
  callbacks after that test's last start, up to the next test start or end.
  `Recorded` gives the records of the calls in a window, in order. The main
  theorem `RunAgrees` proves three things about every name:
  - it has an entry exactly when it was started;
  - its entry equals `Recorded` of its window;
  - it is the running test exactly when it started last and nothing ended it.

Behaviour that follows the code:

- The tracker tests `if self.current_test:` for truthiness. Both "no test"
  and a test named `""` count as no running test, so keyword calls are then
  ignored. `start_test("")` still creates the entry `""` with an empty list.
- `if handler:` and `if metadata:` are always true for the values the code can
  produce: a function object, and a dictionary with two keys. So the only
  branches are "name registered or not" and "handler raised or not".
- The project's design documentation says that a failing handler is caught
  and logged by the tracker and treated as "no record". The code catches
  nothing. In the model, `StartKeyword` returns `TypeError(n)` and leaves the
  state unchanged, because the exception is raised before the append.
- The design documentation leaves open what happens when a test name starts
  twice. The code resets that name's list to empty, and so does the model.

## Model

| member | source | states |
|---|---|---|
| `ResourceMapper.TypeTagInjective` | stuff.py:35-37 | Each kind has its own "type" string, so a record's "type" field identifies its kind. |
| `ResourceMapper.Handle` | stuff.py:35-37 | A default handler given exactly one argument returns the record of its own kind, named by that argument. Given any other number of arguments, it raises the arity `TypeError` and reports the count. It never says "not registered". |
| `ResourceMapper.Resolve` | stuff.py:17-21 | Exact-key lookup. An unknown name gives "not registered" and never an error. A registered name with one argument gives the record of the registered kind, named by the argument. A registered name with any other argument count gives an arity mismatch with that count. |
| `ResourceMapper.RegisterOverrides` | stuff.py:14-15 | After registering `name`, resolving `name` uses only the new handler, whatever was there before. Every other name resolves as it did. |
| `ResourceMapper.KeywordResourceMapper.constructor` | stuff.py:11-12 | The registry starts empty. |
| `ResourceMapper.KeywordResourceMapper.RegisterKeyword` | stuff.py:14-15 | Inserts or silently overwrites `name`. The key set grows by exactly `name`, and every other entry is unchanged. |
| `ResourceMapper.KeywordResourceMapper.GetResourceMetadata` | stuff.py:17-21 | Reads the registry without changing it and agrees with `Resolve` on the current registry. An unregistered name gives `NotRegistered`, the model's `None`. |
| `UsageTracker.DefaultRegistry` | stuff.py:34-37 | The construction-time registry has exactly the three keyword names. |
| `UsageTracker.DefaultKeywords` | stuff.py:35-37 | With the default registry, each of the three keywords applied to one argument `x` gives a record of its own kind named `x`. A registered name with any other argument count raises. Any other name gives nothing. |
| `UsageTracker.Step` | stuff.py:39-50 | Every callback keeps the invariant that the running test has an entry. Entries are never removed. Only `start_test(name)` adds a key, and it adds only `name`. A test's list can change only when that test is started, or when a keyword is called while it is running. |
| `UsageTracker.Raised` | stuff.py:43-47 | A callback raises only in one case: a keyword call during a running (non-empty) test, with a registered name, and with other than one argument. The error reports the argument count. |
| `UsageTracker.Run` | stuff.py:28-30 | Starting from the constructed state, every sequence of callbacks keeps the invariant that the running test is a key of the map. |
| `UsageTracker.StartTestResets` | stuff.py:39-41 | `start_test(name)` makes `name` the running test and sets its list to empty, discarding an earlier list of the same name. All other entries are unchanged. |
| `UsageTracker.KeywordIgnored` | stuff.py:43-46 | A keyword call with no running test (none, or the empty name), or with an unregistered name, changes nothing and does not raise. |
| `UsageTracker.KeywordAppends` | stuff.py:45-47 | A resolved keyword call during a test appends exactly its record at the end of that test's list. The running test, the other entries and the earlier elements are unchanged. |
| `UsageTracker.KeywordRaises` | stuff.py:45-47 | An arity error during a test propagates, and the state is left as it was. |
| `UsageTracker.EndTestKeeps` | stuff.py:49-50 | `end_test` clears the running test and leaves the whole map unchanged. |
| `UsageTracker.ResourceUsageTracker.constructor` | stuff.py:28-32 | No running test, an empty map, a fresh mapper holding exactly the default registry, and the invariant established. |
| `UsageTracker.ResourceUsageTracker.RegisterDefaultKeywords` | stuff.py:34-37 | Adds the three default keywords to the mapper's registry, overwriting any earlier handler under those names. |
| `UsageTracker.ResourceUsageTracker.StartTest` | stuff.py:39-41 | Sets `currentTest` to the name and resets that name's list to empty. The invariant and the callback history are maintained. |
| `UsageTracker.ResourceUsageTracker.StartKeyword` | stuff.py:43-47 | Appends the record only when a test is running and the keyword resolves. Otherwise the map is unchanged. The running test is unchanged. Returns the arity error exactly as `Raised` describes it. |
| `UsageTracker.ResourceUsageTracker.EndTest` | stuff.py:49-50 | Clears `currentTest` and keeps `resourceMap` unchanged. |
| `UsageTrace.RecordedAppend` | stuff.py:47 | Appending is order-preserving and append-only: two consecutive stretches of calls record the first stretch's records followed by the second's. |
| `UsageTrace.RunAgrees` | stuff.py:39-50 | For every callback sequence and every test name: the name has an entry exactly when it was started; its list equals the records of the resolved keyword calls between its last start and the next test start or end, in call order (empty for the name `""`); and it is the running test exactly when it was started last and not ended. |
| `UsageTrace.TrackerAgrees` | stuff.py:25-50 | The same three facts hold of the fields of every valid tracker object, read against the callbacks it has received. |
| `UsageTrace.UsageKeys` | stuff.py:39-41 | A test has an entry, possibly empty, exactly when some callback started it. |
| `UsageTrace.OneCallRun` | stuff.py:39-50 | Start a test, make one registered call with one argument, end the test: the map holds exactly that one record under the test, and no test is running. |
| `UsageTrace.UnmatchedCallRun` | stuff.py:39-50 | A test whose only call is unregistered still gets an entry, and it is empty. Earlier tests' entries are kept. |
| `UsageTrace.SingleTestScenario` | stuff.py:35-50 | Start "T1", call "Use DB Table" with "orders", end: the map is `{"T1": [DB_TABLE "orders"]}`. |
| `UsageTrace.TwoTestsScenario` | stuff.py:35-50 | Two tests "A" and "B" in sequence get independent entries. A's record stays out of B's list, and B's unregistered call records nothing. |

## Left out

- `ResourceUsageTracker.close` (stuff.py:52-56) is not modelled. It writes the map to `resource_usage_map.json` as JSON with a four-space indent and logs a line, which is file I/O and logging. So the order of the JSON keys is not modelled either: Python dicts keep insertion order, and the model's `map` has none.
- `ResourceUsageLibrary` (stuff.py:60-71) is not modelled. Its three keywords only write a log line.
- The Robot Framework integration is not modelled: the `@library` decorator, `ROBOT_LISTENER_API_VERSION`, `BuiltIn()` and the listener's `data`/`result` objects. The callbacks take plain values in their place: the test's name, the keyword's name and its positional arguments as strings. Robot's own handling of an exception that escapes a listener is also outside the model.
- `RegisterKeyword` accepts only the three handler kinds, not an arbitrary Python callable. A handler registered by other code, with a different arity or record shape, is outside the model.
- Aliasing is not modelled. The per-test lists are values in a `map`, where the source appends to a Python list in place. Nothing else in the source holds a reference to those lists.

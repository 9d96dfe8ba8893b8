/** The listener that records, per test, the resources its keywords use.
    The host runner's callbacks become events carrying plain values: the
    test's name, and the keyword's name with its positional arguments. */
module UsageTracker {
  import opened ResourceMapper

  datatype Option<T> = None | Some(value: T)

  /** The three listener callbacks that change the tracker. */
  datatype Event =
    | TestStarted(name: string)
    | KeywordStarted(kwname: string, args: seq<string>)
    | TestEnded

  /** The tracker's fields: the running test, if any, and the records
      gathered so far for every test that has started. */
  datatype State = State(current: Option<string>, usage: map<string, seq<ResourceRecord>>)

  /** How a callback leaves: normally, or by letting the handler's
      `TypeError` (wrong number of arguments) escape. */
  datatype Outcome = Returned | TypeError(given: nat)

  /** The state right after construction. */
  const Init := State(None, map[])

  /** The registry that construction installs: three keyword names, each
      with a one-argument handler of its own kind. */
  function DefaultRegistry(): (registry: map<string, Kind>)
    ensures registry.Keys == {"Use DB Table", "Use ADLS Path", "Run Databricks Job"}
  {
    map["Use DB Table" := DB_TABLE, "Use ADLS Path" := ADLS_PATH, "Run Databricks Job" := DATABRICKS_JOB]
  }

  /** Python truthiness of the running test: no test and the empty name
      both count as "no test running". */
  predicate Active(current: Option<string>)
  {
    current.Some? && current.value != ""
  }

  /** The invariant the tracker keeps: the running test always has an
      entry, so appending to it cannot fail with a missing key. */
  predicate Consistent(s: State)
  {
    s.current.Some? ==> s.current.value in s.usage
  }

  /** Whether callback `e` may change the list of test `t`: starting `t`, or
      a keyword call while `t` is the running test. */
  predicate Touches(s: State, e: Event, t: string)
  {
    e == TestStarted(t) || (e.KeywordStarted? && s.current == Some(t))
  }

  /** The effect of one callback on the tracker's fields. */
  function Step(registry: map<string, Kind>, s: State, e: Event): (r: State)
    requires Consistent(s)
    ensures Consistent(r)
    ensures s.usage.Keys <= r.usage.Keys
    ensures r.usage.Keys <= s.usage.Keys + (if e.TestStarted? then {e.name} else {})
    ensures forall t :: t in s.usage && !Touches(s, e, t) ==> r.usage[t] == s.usage[t]
  {
    match e
    case TestStarted(name) => State(Some(name), s.usage[name := []])
    case KeywordStarted(kwname, args) =>
      if Active(s.current) then
        match Resolve(registry, kwname, args)
        case Resolved(record) =>
          var t := s.current.value;
          State(s.current, s.usage[t := s.usage[t] + [record]])
        case _ => s
      else s
    case TestEnded => State(None, s.usage)
  }

  /** How a callback leaves: only a keyword call while a test is running can
      raise, and only when its handler gets other than one argument. */
  function Raised(registry: map<string, Kind>, s: State, e: Event): (o: Outcome)
    ensures o.TypeError? <==> e.KeywordStarted? && Active(s.current) && e.kwname in registry && |e.args| != 1
    ensures o.TypeError? ==> o.given == |e.args|
  {
    match e
    case KeywordStarted(kwname, args) =>
      if Active(s.current) then
        match Resolve(registry, kwname, args)
        case ArityMismatch(n) => TypeError(n)
        case _ => Returned
      else Returned
    case _ => Returned
  }

  /** The state after a sequence of callbacks, starting from construction. */
  function Run(registry: map<string, Kind>, events: seq<Event>): (s: State)
    ensures Consistent(s)
    decreases |events|
  {
    if events == [] then Init
    else Step(registry, Run(registry, events[..|events| - 1]), events[|events| - 1])
  }

  /** Running one more callback is one more step. */
  lemma RunSnoc(registry: map<string, Kind>, events: seq<Event>, e: Event)
    ensures Run(registry, events + [e]) == Step(registry, Run(registry, events), e)
  {
    assert (events + [e])[..|events|] == events;
  }

  /** Starting a test makes it the running test and gives it an empty list,
      discarding what an earlier test of the same name gathered; no other
      test's list changes. */
  lemma StartTestResets(registry: map<string, Kind>, s: State, name: string)
    requires Consistent(s)
    ensures Step(registry, s, TestStarted(name)).current == Some(name)
    ensures Step(registry, s, TestStarted(name)).usage == s.usage[name := []]
  {
  }

  /** A keyword call while no test runs (none, or the empty name), or one
      whose name is not registered, changes nothing. */
  lemma KeywordIgnored(registry: map<string, Kind>, s: State, kwname: string, args: seq<string>)
    requires Consistent(s)
    requires !Active(s.current) || kwname !in registry
    ensures Step(registry, s, KeywordStarted(kwname, args)) == s
    ensures Raised(registry, s, KeywordStarted(kwname, args)) == Returned
  {
  }

  /** A resolved keyword call during a test appends exactly its record at
      the end of that test's list; nothing else changes. */
  lemma KeywordAppends(registry: map<string, Kind>, s: State, kwname: string, args: seq<string>)
    requires Consistent(s) && Active(s.current)
    requires kwname in registry && |args| == 1
    ensures var r := Step(registry, s, KeywordStarted(kwname, args));
      && r.current == s.current
      && r.usage == s.usage[s.current.value := s.usage[s.current.value] + [ResourceRecord(registry[kwname], args[0])]]
  {
  }

  /** A keyword call with the wrong number of arguments during a test
      raises and leaves the state as it was. */
  lemma KeywordRaises(registry: map<string, Kind>, s: State, kwname: string, args: seq<string>)
    requires Consistent(s) && Active(s.current)
    requires kwname in registry && |args| != 1
    ensures Step(registry, s, KeywordStarted(kwname, args)) == s
    ensures Raised(registry, s, KeywordStarted(kwname, args)) == TypeError(|args|)
  {
  }

  /** Ending a test clears the running test and keeps every list. */
  lemma EndTestKeeps(registry: map<string, Kind>, s: State)
    requires Consistent(s)
    ensures Step(registry, s, TestEnded) == State(None, s.usage)
  {
  }

  /** With the default registry, each of the three keywords called with one
      argument yields a record of its own kind named by that argument; any
      other argument count raises; any other keyword name yields nothing. */
  lemma DefaultKeywords(name: string, args: seq<string>)
    ensures |args| == 1 ==> Resolve(DefaultRegistry(), "Use DB Table", args) == Resolved(ResourceRecord(DB_TABLE, args[0]))
    ensures |args| == 1 ==> Resolve(DefaultRegistry(), "Use ADLS Path", args) == Resolved(ResourceRecord(ADLS_PATH, args[0]))
    ensures |args| == 1 ==> Resolve(DefaultRegistry(), "Run Databricks Job", args) == Resolved(ResourceRecord(DATABRICKS_JOB, args[0]))
    ensures name in DefaultRegistry() && |args| != 1 ==> Resolve(DefaultRegistry(), name, args) == ArityMismatch(|args|)
    ensures name !in {"Use DB Table", "Use ADLS Path", "Run Databricks Job"} ==> Resolve(DefaultRegistry(), name, args) == NotRegistered
  {
  }

  /** The listener object. `history` is the sequence of callbacks it has
      received, kept only for the proofs. */
  class ResourceUsageTracker {
    var currentTest: Option<string>
    var resourceMap: map<string, seq<ResourceRecord>>
    var mapper: KeywordResourceMapper
    ghost var history: seq<Event>

    function Snapshot(): State
      reads this
    {
      State(currentTest, resourceMap)
    }

    /** The fields are those that the callbacks received so far produce. */
    ghost predicate Valid()
      reads this, mapper
    {
      Snapshot() == Run(mapper.keywordMap, history)
    }

    constructor ()
      ensures Valid() && fresh(mapper)
      ensures currentTest == None && resourceMap == map[] && history == []
      ensures mapper.keywordMap == DefaultRegistry()
    {
      currentTest := None;
      resourceMap := map[];
      history := [];
      mapper := new KeywordResourceMapper();
      new;
      RegisterDefaultKeywords();
    }

    /** Installs the three built-in keywords in the registry. */
    method RegisterDefaultKeywords()
      modifies mapper
      ensures mapper.keywordMap == old(mapper.keywordMap) + DefaultRegistry()
    {
      mapper.RegisterKeyword("Use DB Table", DB_TABLE);
      mapper.RegisterKeyword("Use ADLS Path", ADLS_PATH);
      mapper.RegisterKeyword("Run Databricks Job", DATABRICKS_JOB);
    }

    method StartTest(name: string)
      requires Valid()
      modifies this
      ensures Valid() && mapper == old(mapper) && history == old(history) + [TestStarted(name)]
      ensures currentTest == Some(name)
      ensures resourceMap == old(resourceMap)[name := []]
    {
      RunSnoc(mapper.keywordMap, history, TestStarted(name));
      currentTest := Some(name);
      resourceMap := resourceMap[name := []];
      history := history + [TestStarted(name)];
    }

    method StartKeyword(kwname: string, args: seq<string>) returns (outcome: Outcome)
      requires Valid()
      modifies this
      ensures Valid() && mapper == old(mapper) && history == old(history) + [KeywordStarted(kwname, args)]
      ensures outcome == Raised(mapper.keywordMap, old(Snapshot()), KeywordStarted(kwname, args))
      ensures currentTest == old(currentTest)
      ensures resourceMap ==
        if Active(currentTest) && kwname in mapper.keywordMap && |args| == 1
        then old(resourceMap)[currentTest.value := old(resourceMap)[currentTest.value] + [ResourceRecord(mapper.keywordMap[kwname], args[0])]]
        else old(resourceMap)
    {
      RunSnoc(mapper.keywordMap, history, KeywordStarted(kwname, args));
      outcome := Returned;
      if currentTest.Some? && currentTest.value != "" {
        var metadata := mapper.GetResourceMetadata(kwname, args);
        match metadata
        case Resolved(record) =>
          resourceMap := resourceMap[currentTest.value := resourceMap[currentTest.value] + [record]];
        case ArityMismatch(n) =>
          outcome := TypeError(n);
        case NotRegistered =>
      }
      history := history + [KeywordStarted(kwname, args)];
    }

    method EndTest()
      requires Valid()
      modifies this
      ensures Valid() && mapper == old(mapper) && history == old(history) + [TestEnded]
      ensures currentTest == None
      ensures resourceMap == old(resourceMap)
    {
      RunSnoc(mapper.keywordMap, history, TestEnded);
      currentTest := None;
      history := history + [TestEnded];
    }
  }
}

/** What the tracker's map holds after any sequence of callbacks, stated
    without reference to the step function: each test's list is read off
    the callback sequence itself. */
module UsageTrace {
  import opened ResourceMapper
  import opened UsageTracker

  /** Position of the last start of test `t` in `es`, or -1 when `t` was
      never started. */
  function LastStart(es: seq<Event>, t: string): (i: int)
    ensures -1 <= i < |es|
    ensures i >= 0 ==> es[i] == TestStarted(t)
    ensures forall j :: i < j < |es| ==> es[j] != TestStarted(t)
    decreases |es|
  {
    if es == [] then -1
    else if es[|es| - 1] == TestStarted(t) then |es| - 1
    else LastStart(es[..|es| - 1], t)
  }

  /** Position of the first test start or test end at or after `from`, or
      `|es|` when only keyword calls follow. */
  function NextBoundary(es: seq<Event>, from: nat): (b: nat)
    requires from <= |es|
    ensures from <= b <= |es|
    ensures forall j :: from <= j < b ==> es[j].KeywordStarted?
    ensures b < |es| ==> !es[b].KeywordStarted?
    decreases |es| - from
  {
    if from == |es| || !es[from].KeywordStarted? then from else NextBoundary(es, from + 1)
  }

  /** The record one callback contributes, if any: a keyword call whose
      name is registered and which passes its handler one argument. */
  function RecordOf(registry: map<string, Kind>, e: Event): (rs: seq<ResourceRecord>)
    ensures |rs| <= 1
    ensures |rs| == 1 <==> e.KeywordStarted? && e.kwname in registry && |e.args| == 1
    ensures |rs| == 1 ==> rs[0] == ResourceRecord(registry[e.kwname], e.args[0])
  {
    if e.KeywordStarted? then
      match Resolve(registry, e.kwname, e.args)
      case Resolved(record) => [record]
      case _ => []
    else []
  }

  /** The records the callbacks in `es` contribute, in call order. */
  function Recorded(registry: map<string, Kind>, es: seq<Event>): (rs: seq<ResourceRecord>)
    ensures |rs| <= |es|
  {
    if es == [] then [] else RecordOf(registry, es[0]) + Recorded(registry, es[1..])
  }

  /** The first callback of a non-empty stretch contributes first. */
  lemma RecordedCons(registry: map<string, Kind>, xs: seq<Event>, ys: seq<Event>)
    requires xs != []
    ensures Recorded(registry, xs + ys) == RecordOf(registry, xs[0]) + Recorded(registry, xs[1..] + ys)
  {
    assert (xs + ys)[0] == xs[0] && (xs + ys)[1..] == xs[1..] + ys;
  }

  /** Recording is append-only and keeps call order: the records of two
      consecutive stretches of callbacks are those of the first followed by
      those of the second. */
  lemma {:induction false} RecordedAppend(registry: map<string, Kind>, xs: seq<Event>, ys: seq<Event>)
    ensures Recorded(registry, xs + ys) == Recorded(registry, xs) + Recorded(registry, ys)
  {
    if xs == [] {
      assert xs + ys == ys;
    } else {
      var first, rest, tail := RecordOf(registry, xs[0]), Recorded(registry, xs[1..]), Recorded(registry, ys);
      RecordedCons(registry, xs, ys);
      RecordedAppend(registry, xs[1..], ys);
      assert (first + rest) + tail == first + (rest + tail);
    }
  }

  /** One more callback adds its own contribution at the end. */
  lemma RecordedSnoc(registry: map<string, Kind>, es: seq<Event>, e: Event)
    ensures Recorded(registry, es + [e]) == Recorded(registry, es) + RecordOf(registry, e)
  {
    RecordedAppend(registry, es, [e]);
    assert [e][1..] == [];
  }

  /** Slicing below the end is not affected by appending. */
  lemma SliceOfSnoc<T>(s: seq<T>, x: T, lo: nat, hi: nat)
    requires lo <= hi <= |s|
    ensures (s + [x])[lo..hi] == s[lo..hi]
  {
  }

  /** Slicing up to the new end takes the appended element too. */
  lemma SliceToSnocEnd<T>(s: seq<T>, x: T, lo: nat)
    requires lo <= |s|
    ensures (s + [x])[lo..|s| + 1] == s[lo..] + [x]
  {
  }

  /** Test `t` is running after `es`: it started, and no test started or
      ended since. */
  predicate Running(es: seq<Event>, t: string)
  {
    LastStart(es, t) >= 0 && NextBoundary(es, LastStart(es, t) + 1) == |es|
  }

  /** The callbacks attributed to test `t`: those after its last start, up
      to the next test start or end. */
  function Window(es: seq<Event>, t: string): (w: seq<Event>)
    requires LastStart(es, t) >= 0
  {
    var i := LastStart(es, t);
    es[i + 1..NextBoundary(es, i + 1)]
  }

  /** What test `t`'s list holds after `es`: the records of the keyword
      calls in its window, in call order; nothing when its name is empty,
      since the empty name never counts as running. */
  function Expected(registry: map<string, Kind>, es: seq<Event>, t: string): seq<ResourceRecord>
    requires LastStart(es, t) >= 0
  {
    if t == "" then [] else Recorded(registry, Window(es, t))
  }

  /** One more callback moves the last start of `t` only if it starts `t`. */
  lemma LastStartSnoc(es: seq<Event>, e: Event, t: string)
    ensures LastStart(es + [e], t) == if e == TestStarted(t) then |es| else LastStart(es, t)
  {
    assert (es + [e])[..|es|] == es;
  }

  /** One more callback moves the next boundary only when none was found
      yet: to the new callback if it starts or ends a test, past it if not. */
  lemma NextBoundarySnoc(es: seq<Event>, e: Event, from: nat)
    requires from <= |es|
    ensures NextBoundary(es + [e], from) ==
      if NextBoundary(es, from) < |es| then NextBoundary(es, from)
      else if e.KeywordStarted? then |es| + 1 else |es|
  {
    var es' := es + [e];
    assert forall j :: from <= j < |es| ==> es'[j] == es[j];
    assert es'[|es|] == e;
  }

  /** After one more callback, `t` is running when that callback started
      it, or when it was running and the callback is a keyword call. */
  lemma RunningSnoc(es: seq<Event>, e: Event, t: string)
    ensures Running(es + [e], t) <==> e == TestStarted(t) || (Running(es, t) && e.KeywordStarted?)
  {
    LastStartSnoc(es, e, t);
    if e != TestStarted(t) && LastStart(es, t) >= 0 {
      NextBoundarySnoc(es, e, LastStart(es, t) + 1);
    }
  }

  /** A keyword call while `t` is running extends `t`'s window by itself. */
  lemma WindowGrows(es: seq<Event>, e: Event, t: string)
    requires Running(es, t) && e.KeywordStarted?
    ensures LastStart(es + [e], t) == LastStart(es, t)
    ensures Window(es + [e], t) == Window(es, t) + [e]
  {
    var es', i := es + [e], LastStart(es, t);
    assert LastStart(es', t) == i by {
      LastStartSnoc(es, e, t);
    }
    assert NextBoundary(es', i + 1) == |es'| by {
      NextBoundarySnoc(es, e, i + 1);
    }
    SliceToSnocEnd(es, e, i + 1);
  }

  /** Any other callback that does not start `t` leaves `t`'s window
      alone: the window is already closed, or the callback closes it. */
  lemma WindowKept(es: seq<Event>, e: Event, t: string)
    requires LastStart(es, t) >= 0 && e != TestStarted(t)
    requires !Running(es, t) || !e.KeywordStarted?
    ensures LastStart(es + [e], t) == LastStart(es, t)
    ensures Window(es + [e], t) == Window(es, t)
  {
    var es', i := es + [e], LastStart(es, t);
    var b := NextBoundary(es, i + 1);
    assert LastStart(es', t) == i by {
      LastStartSnoc(es, e, t);
    }
    assert NextBoundary(es', i + 1) == b by {
      NextBoundarySnoc(es, e, i + 1);
    }
    SliceOfSnoc(es, e, i + 1, b);
  }

  /** Right after `t` starts, its window is empty. */
  lemma WindowStart(es: seq<Event>, t: string)
    ensures LastStart(es + [TestStarted(t)], t) == |es|
    ensures Window(es + [TestStarted(t)], t) == []
  {
    LastStartSnoc(es, TestStarted(t), t);
  }

  /** The three facts the main theorem keeps about one test name. */
  predicate TraceAgrees(registry: map<string, Kind>, es: seq<Event>, s: State, t: string)
  {
    && (t in s.usage <==> LastStart(es, t) >= 0)
    && (t in s.usage ==> s.usage[t] == Expected(registry, es, t))
    && (s.current == Some(t) <==> Running(es, t))
  }

  /** A keyword call while `t` is the running test adds to `t`'s list
      exactly the record that call contributes, unless `t` is the empty
      name. */
  lemma StepRecords(registry: map<string, Kind>, s: State, e: Event, t: string)
    requires e.KeywordStarted? && Consistent(s) && s.current == Some(t)
    ensures Step(registry, s, e).usage[t] == s.usage[t] + (if t == "" then [] else RecordOf(registry, e))
  {
    if t == "" || RecordOf(registry, e) == [] {
      assert s.usage[t] + [] == s.usage[t];
    }
  }

  /** Starting a test keeps the agreement for test `t`: `t` itself gets an
      empty list and becomes the running test; any other test's window
      closes and its list stays. */
  lemma StartAgrees(registry: map<string, Kind>, es: seq<Event>, s: State, u: string, t: string)
    requires Consistent(s)
    requires TraceAgrees(registry, es, s, t)
    ensures TraceAgrees(registry, es + [TestStarted(u)], Step(registry, s, TestStarted(u)), t)
  {
    var e := TestStarted(u);
    RunningSnoc(es, e, t);
    if u == t {
      WindowStart(es, t);
    } else if t in s.usage {
      WindowKept(es, e, t);
    } else {
      LastStartSnoc(es, e, t);
    }
  }

  /** Ending a test keeps the agreement for test `t`: every window closes
      and every list stays. */
  lemma EndAgrees(registry: map<string, Kind>, es: seq<Event>, s: State, t: string)
    requires Consistent(s)
    requires TraceAgrees(registry, es, s, t)
    ensures TraceAgrees(registry, es + [TestEnded], Step(registry, s, TestEnded), t)
  {
    RunningSnoc(es, TestEnded, t);
    if t in s.usage {
      WindowKept(es, TestEnded, t);
    } else {
      LastStartSnoc(es, TestEnded, t);
    }
  }

  /** A keyword call keeps the agreement for a running test `t`: its window
      and its list both grow by that call's contribution. */
  lemma KeywordInsideAgrees(registry: map<string, Kind>, es: seq<Event>, s: State, e: Event, t: string)
    requires e.KeywordStarted? && Consistent(s)
    requires TraceAgrees(registry, es, s, t)
    requires Running(es, t)
    ensures TraceAgrees(registry, es + [e], Step(registry, s, e), t)
  {
    RunningSnoc(es, e, t);
    WindowGrows(es, e, t);
    StepRecords(registry, s, e, t);
    if t != "" {
      RecordedSnoc(registry, Window(es, t), e);
    }
  }

  /** A keyword call keeps the agreement for a test `t` that is not
      running: nothing about `t` changes. */
  lemma KeywordOutsideAgrees(registry: map<string, Kind>, es: seq<Event>, s: State, e: Event, t: string)
    requires e.KeywordStarted? && Consistent(s)
    requires TraceAgrees(registry, es, s, t)
    requires !Running(es, t)
    ensures TraceAgrees(registry, es + [e], Step(registry, s, e), t)
  {
    RunningSnoc(es, e, t);
    assert !Touches(s, e, t);
    if t in s.usage {
      WindowKept(es, e, t);
    } else {
      LastStartSnoc(es, e, t);
    }
  }

  /** The main theorem: after any sequence of callbacks from construction,
      exactly the tests that were started have an entry; each entry holds
      the records of the keyword calls between that test's last start and
      the next test start or end, in call order; and the running test is
      the one started last with no test end after it. */
  lemma {:induction false} RunAgrees(registry: map<string, Kind>, es: seq<Event>, t: string)
    ensures TraceAgrees(registry, es, Run(registry, es), t)
    decreases |es|
  {
    if es != [] {
      var init, e := es[..|es| - 1], es[|es| - 1];
      assert es == init + [e];
      var s := Run(registry, init);
      RunAgrees(registry, init, t);
      RunSnoc(registry, init, e);
      match e
      case TestStarted(u) => StartAgrees(registry, init, s, u, t);
      case TestEnded => EndAgrees(registry, init, s, t);
      case KeywordStarted(_, _) =>
        if Running(init, t) {
          KeywordInsideAgrees(registry, init, s, e, t);
        } else {
          KeywordOutsideAgrees(registry, init, s, e, t);
        }
    }
  }

  /** The main theorem holds of every tracker object: its fields are those
      the callbacks it has received describe. */
  lemma TrackerAgrees(tracker: ResourceUsageTracker, t: string)
    requires tracker.Valid()
    ensures TraceAgrees(tracker.mapper.keywordMap, tracker.history, State(tracker.currentTest, tracker.resourceMap), t)
  {
    RunAgrees(tracker.mapper.keywordMap, tracker.history, t);
  }

  /** A test has an entry exactly when it was started at some point, even
      if no keyword of it ever resolved. */
  lemma UsageKeys(registry: map<string, Kind>, es: seq<Event>, t: string)
    ensures t in Run(registry, es).usage <==> exists i :: 0 <= i < |es| && es[i] == TestStarted(t)
  {
    RunAgrees(registry, es, t);
    if exists i :: 0 <= i < |es| && es[i] == TestStarted(t) {
      var i :| 0 <= i < |es| && es[i] == TestStarted(t);
      assert LastStart(es, t) >= i;
    }
  }

  /** A run made of one test that calls one registered keyword with one
      argument leaves exactly that record under the test's name and no
      running test. */
  lemma OneCallRun(registry: map<string, Kind>, t: string, kwname: string, x: string)
    requires t != "" && kwname in registry
    ensures Run(registry, [TestStarted(t), KeywordStarted(kwname, [x]), TestEnded])
         == State(None, map[t := [ResourceRecord(registry[kwname], x)]])
  {
    var e0, e1, e2 := TestStarted(t), KeywordStarted(kwname, [x]), TestEnded;
    var record := ResourceRecord(registry[kwname], x);
    RunSnoc(registry, [], e0);
    assert [] + [e0] == [e0];
    assert Run(registry, [e0]) == State(Some(t), map[t := []]);
    RunSnoc(registry, [e0], e1);
    assert [e0] + [e1] == [e0, e1];
    KeywordAppends(registry, Run(registry, [e0]), kwname, [x]);
    assert [] + [record] == [record];
    assert Run(registry, [e0, e1]) == State(Some(t), map[t := [record]]);
    RunSnoc(registry, [e0, e1], e2);
    assert [e0, e1] + [e2] == [e0, e1, e2];
  }

  /** Starting "T1", calling "Use DB Table" with "orders" and ending "T1"
      leaves exactly that one record under "T1". */
  lemma SingleTestScenario()
    ensures Run(DefaultRegistry(), [TestStarted("T1"), KeywordStarted("Use DB Table", ["orders"]), TestEnded])
         == State(None, map["T1" := [ResourceRecord(DB_TABLE, "orders")]])
  {
    OneCallRun(DefaultRegistry(), "T1", "Use DB Table", "orders");
  }

  /** A test whose only keyword call is not registered still gets an
      entry, and it is empty; the lists of earlier tests are kept. */
  lemma UnmatchedCallRun(registry: map<string, Kind>, es: seq<Event>, t: string, kwname: string, args: seq<string>)
    requires kwname !in registry
    ensures Run(registry, es + [TestStarted(t), KeywordStarted(kwname, args), TestEnded])
         == State(None, Run(registry, es).usage[t := []])
  {
    var e0, e1, e2 := TestStarted(t), KeywordStarted(kwname, args), TestEnded;
    var started := Run(registry, es).usage[t := []];
    RunSnoc(registry, es, e0);
    RunSnoc(registry, es + [e0], e1);
    KeywordIgnored(registry, Run(registry, es + [e0]), kwname, args);
    RunSnoc(registry, es + [e0, e1], e2);
    assert es + [e0] + [e1] == es + [e0, e1];
    assert es + [e0, e1] + [e2] == es + [e0, e1, e2];
  }

  /** Calls made during test "A" never reach the list of test "B" started
      after it, an unregistered keyword adds nothing, and a test with no
      resolved call still gets its (empty) entry. */
  lemma TwoTestsScenario()
    ensures Run(DefaultRegistry(),
              [TestStarted("A"), KeywordStarted("Use ADLS Path", ["raw/in"]), TestEnded]
            + [TestStarted("B"), KeywordStarted("Log", ["x"]), TestEnded])
         == State(None, map["A" := [ResourceRecord(ADLS_PATH, "raw/in")], "B" := []])
  {
    var registry := DefaultRegistry();
    var a := [TestStarted("A"), KeywordStarted("Use ADLS Path", ["raw/in"]), TestEnded];
    OneCallRun(registry, "A", "Use ADLS Path", "raw/in");
    assert "Log" !in registry by {
      assert |"Log"| == 3;
    }
    UnmatchedCallRun(registry, a, "B", "Log", ["x"]);
  }
}

/** The runner as a state machine on values: a pass of a test body moves the section tracker, counts
    assertions, and calls the reporter. */
module RunnerModel {
  import opened Basics
  import opened TestBodies
  import opened TrackerModel
  import opened TotalsKeeping

  /** A test body with its assertions. `Raise` lets an exception escape; what the runner reports about an
      exception of its own kind is nothing, about any other an assertion with the result `report`. */
  datatype Script =
    | Finish
    | Raise(report: Option<Result>)
    | Check(result: Result, rest: Script)
    | Nest(key: Key, inner: Script, rest: Script)

  /** The sections of a script. */
  function Erase(s: Script): Body {
    match s
    case Finish => Done
    case Raise(_) => Throw
    case Check(_, rest) => Erase(rest)
    case Nest(key, inner, rest) => Section(key, Erase(inner), Erase(rest))
  }

  /** A call to the reporter. Of the end of a section, `since` is the number of the call for its begin, and
      `hasChildren` what the tracker answered about the section it then stood in. */
  datatype Entry =
    | Begun(path: Path)
    | Asserted(result: Result)
    | Ended(path: Path, since: nat, hasChildren: bool, assertions: Counts, missing: bool)

  /** Whether sections without assertions are failures, and how many failures end the run. */
  datatype Config = Config(warn: bool, abortAfter: Size)

  datatype Context = Context(tracker: Tracker, counts: Counts, history: seq<Entry>)

  /** A section that an exception has left, with the counts and calls at its begin. */
  datatype Unfinished = Unfinished(path: Path, prev: Counts, since: nat)

  function Scored(c: Counts, r: Result): (n: Counts)
    ensures c.AtMost(n)
  {
    match r
    case Ok => c.(passed := c.passed + 1)
    case Failed => c.(failed := c.failed + 1)
    case Suppressed => c
  }

  function Assert(c: Context, r: Result): Context {
    c.(counts := Scored(c.counts, r), history := c.history + [Asserted(r)])
  }

  function Begin(c: Context, path: Path): Context {
    c.(history := c.history + [Begun(path)])
  }

  /** Whether a section that began at `prev` is one in which an assertion is missing. */
  ghost predicate Misses(c: Context, prev: Counts, config: Config)
    requires prev.AtMost(c.counts)
  {
    c.counts.Minus(prev).Total() == 0 && config.warn && !HasChildren(c.tracker)
  }

  function WithFailure(c: Counts, missing: bool): (n: Counts)
    ensures c.AtMost(n)
  {
    if missing then c.(failed := c.failed + 1) else c
  }

  /** The end of a section: the assertions it made are counted up and reported, and the tracker leaves the
      section it stands in. */
  ghost function EndSection(c: Context, u: Unfinished, config: Config): (d: Context)
    requires c.tracker.current != [] && u.prev.AtMost(c.counts)
    ensures c.counts.AtMost(d.counts) && c.history <= d.history && d.tracker == Leave(c.tracker)
  {
    var missing := Misses(c, u.prev, config);
    Context(Leave(c.tracker), WithFailure(c.counts, missing),
            c.history + [Ended(u.path, u.since, HasChildren(c.tracker),
                               WithFailure(c.counts.Minus(u.prev), missing), missing)])
  }

  /** What a pass leaves: the sections unfinished, whether an exception escapes and what is to be reported of
      it, whether that is the runner's own because the run is aborting, and the sections of the body as far as
      the pass went by them. */
  datatype Executed = Executed(context: Context, pending: seq<Unfinished>, threw: bool, report: Option<Result>,
                               aborted: bool, course: Body)

  ghost predicate SamePaths(pending: seq<Unfinished>, paths: seq<Path>) {
    |pending| == |paths| && forall j | 0 <= j < |pending| :: pending[j].path == paths[j]
  }

  ghost predicate AllBefore(pending: seq<Unfinished>, c: Counts) {
    forall u | u in pending :: u.prev.AtMost(c)
  }

  /** A failure that brings the run to its abort count. */
  predicate Aborts(c: Context, r: Result, config: Config) {
    r == Failed && c.counts.failed == config.abortAfter
  }

  /** One pass of a script below the current section. A check whose failure makes the run abort throws. The
      tracker moves as it does for the sections of the course, which are those of the script unless the run
      aborts. */
  ghost function Exec(c: Context, s: Script, config: Config): (r: Executed)
    ensures c.counts.AtMost(r.context.counts) && c.history <= r.context.history
    ensures var u := Invoke(c.tracker, r.course);
            r.context.tracker == u.tracker && r.threw == u.threw && SamePaths(r.pending, u.pending)
    ensures !r.aborted ==> r.course == Erase(s)
    ensures r.aborted ==> r.threw && r.report == None && r.context.counts.failed == config.abortAfter
    ensures !r.threw ==> r.report == None
    decreases s
  {
    hide EndSection, LeftState, Scored;
    match s
    case Finish => Executed(c, [], false, None, false, Done)
    case Raise(report) => Executed(c, [], true, report, false, Throw)
    case Check(result, rest) =>
      var a := Assert(c, result);
      if Aborts(a, result, config) then Executed(a, [], true, None, true, Throw) else Exec(a, rest, config)
    case Nest(key, inner, rest) =>
      if Enters(c.tracker, key) then
        var path := c.tracker.current + [key];
        var begun := Begin(c.(tracker := Enter(c.tracker, key)), path);
        var u := Unfinished(path, c.counts, |c.history|);
        var r := Exec(begun, inner, config);
        if r.threw then r.(pending := r.pending + [u], course := Section(key, r.course, Erase(rest)))
        else
          var f := Exec(EndSection(r.context, u, config), rest, config);
          f.(course := Section(key, r.course, f.course))
      else
        var f := Exec(c.(tracker := Acquire(c.tracker, key)), rest, config);
        f.(course := Section(key, Erase(inner), f.course))
  }

  lemma {:induction false} ExecBefore(c: Context, s: Script, config: Config)
    ensures AllBefore(Exec(c, s, config).pending, Exec(c, s, config).context.counts)
    decreases s
  {
    hide Enters, EndSection, Invoke;
    match s
    case Finish =>
    case Raise(_) =>
    case Check(result, rest) =>
      var a := Assert(c, result);
      if !Aborts(a, result, config) {
        ExecBefore(a, rest, config);
      }
    case Nest(key, inner, rest) =>
      if Enters(c.tracker, key) {
        var path := c.tracker.current + [key];
        var begun := Begin(c.(tracker := Enter(c.tracker, key)), path);
        var r := Exec(begun, inner, config);
        ExecBefore(begun, inner, config);
        if !r.threw {
          ExecBefore(EndSection(r.context, Unfinished(path, c.counts, |c.history|), config), rest, config);
        }
      } else {
        ExecBefore(c.(tracker := Acquire(c.tracker, key)), rest, config);
      }
  }

  /** The first `n` unfinished sections are ended, last recorded first. */
  ghost function ReplayEnds(c: Context, pending: seq<Unfinished>, n: nat, config: Config): (d: Context)
    requires n <= |pending| && n <= |c.tracker.current| && AllBefore(pending, c.counts)
    ensures c.counts.AtMost(d.counts) && c.history <= d.history && d.tracker == Replay(c.tracker, n)
    decreases n
  {
    if n == 0 then c else ReplayEnds(EndSection(c, pending[n - 1], config), pending, n - 1, config)
  }

  /** The end of the test case itself: its failures may be tolerated, and the tracker has left it before. */
  ghost function EndTest(c: Context, prev: Counts, since: nat, okToFail: bool, config: Config): (d: Context)
    requires prev.AtMost(c.counts)
    ensures prev.AtMost(d.counts) && c.history <= d.history && d.tracker == c.tracker
  {
    var missing := Misses(c, prev, config);
    var counts := Reclassified(WithFailure(c.counts, missing), prev, okToFail);
    var a := WithFailure(c.counts.Minus(prev), missing);
    Context(c.tracker, counts,
            c.history + [Ended([], since, HasChildren(c.tracker),
                               if okToFail then a.(failed := a.failedButOk, failedButOk := a.failed) else a, missing)])
  }

  /** A pass from its begin to where the unfinished sections are to be ended. */
  ghost function Unwinding(c: Context, s: Script, config: Config): (r: Executed)
    requires [] in c.tracker.states
    ensures c.counts.AtMost(r.context.counts) && c.history <= r.context.history
    ensures var u := Invoke(EnterTestCase(c.tracker), r.course);
            r.context.tracker == LeaveTestCase(u.tracker) && r.threw == u.threw && SamePaths(r.pending, u.pending)
    ensures !r.aborted ==> r.course == Erase(s)
    ensures AllBefore(r.pending, r.context.counts)
  {
    var begun := Begin(c.(tracker := EnterTestCase(c.tracker)), []);
    ExecBefore(begun, s, config);
    var r := Exec(begun, s, config);
    var left := r.context.(tracker := LeaveTestCase(r.context.tracker));
    r.(context := if r.report.Some? then Assert(left, r.report.value) else left)
  }

  /** One pass of a test case. */
  ghost function Pass(c: Context, s: Script, okToFail: bool, config: Config): (d: Context)
    requires [] in c.tracker.states
    ensures c.counts.AtMost(d.counts) && c.history <= d.history
    ensures d.tracker == RunOnce(c.tracker, Unwinding(c, s, config).course)
  {
    var r := Unwinding(c, s, config);
    EndTest(ReplayEnds(r.context, r.pending, |r.pending|, config), c.counts, |c.history|, okToFail, config)
  }

  /** The context after `n` passes. */
  ghost function RunPasses(c: Context, s: Script, okToFail: bool, config: Config, n: nat): (d: Context)
    requires [] in c.tracker.states
    ensures [] in d.tracker.states && c.counts.AtMost(d.counts) && c.history <= d.history
    decreases n
  {
    if n == 0 then c else Pass(RunPasses(c, s, okToFail, config, n - 1), s, okToFail, config)
  }

  lemma RunPassesNext(c: Context, s: Script, okToFail: bool, config: Config, n: nat)
    requires [] in c.tracker.states
    ensures RunPasses(c, s, okToFail, config, n)
            == if n == 0 then c else Pass(RunPasses(c, s, okToFail, config, n - 1), s, okToFail, config)
  {
  }

  /** The same but for the course. */
  ghost predicate SameBut(a: Executed, b: Executed) {
    a.(course := Done) == b.(course := Done)
  }

  /** A section object: its constructor, its body, its end, and what follows it. */
  lemma ExecNest(c: Context, key: Key, inner: Script, rest: Script, config: Config)
    ensures var r := Exec(c, Nest(key, inner, rest), config);
            var path := c.tracker.current + [key];
            var u := Unfinished(path, c.counts, |c.history|);
            var x := Exec(Begin(c.(tracker := Enter(c.tracker, key)), path), inner, config);
            if !Enters(c.tracker, key) then SameBut(r, Exec(c.(tracker := Acquire(c.tracker, key)), rest, config))
            else if x.threw then SameBut(r, x.(pending := x.pending + [u]))
            else
              && x.pending == [] && x.context.tracker.current == path
              && SameBut(r, Exec(EndSection(x.context, u, config), rest, config))
  {
    hide EndSection, Scored, Enters, Invoke, Erase;
  }

  /** A section and what follows it. */
  lemma ExecNext(c: Context, key: Key, inner: Script, rest: Script, config: Config)
    ensures var a := Exec(c, Nest(key, inner, Finish), config);
            var r := Exec(c, Nest(key, inner, rest), config);
            if a.threw then SameBut(a, r)
            else
              && a.pending == [] && a.context.tracker.current == c.tracker.current
              && SameBut(r, Exec(a.context, rest, config))
  {
    hide Exec, EndSection, Enters, Invoke, Erase;
    ExecNest(c, key, inner, rest, config);
    ExecSection(c, key, inner, config);
  }

  /** A section on its own. */
  lemma ExecSection(c: Context, key: Key, inner: Script, config: Config)
    ensures var r := Exec(c, Nest(key, inner, Finish), config);
            var path := c.tracker.current + [key];
            var u := Unfinished(path, c.counts, |c.history|);
            var x := Exec(Begin(c.(tracker := Enter(c.tracker, key)), path), inner, config);
            if !Enters(c.tracker, key) then
              SameBut(r, Executed(c.(tracker := Acquire(c.tracker, key)), [], false, None, false, Done))
            else if x.threw then SameBut(r, x.(pending := x.pending + [u]))
            else
              && x.pending == [] && x.context.tracker.current == path
              && SameBut(r, Executed(EndSection(x.context, u, config), [], false, None, false, Done))
  {
    hide EndSection, Scored, Enters, Invoke, Erase;
  }

  lemma ExecFirst(c: Context, s: Script, config: Config)
    ensures s.Finish? ==> Exec(c, s, config) == Executed(c, [], false, None, false, Done)
    ensures s.Raise? ==> Exec(c, s, config) == Executed(c, [], true, s.report, false, Throw)
    ensures s.Check? ==>
              var a := Assert(c, s.result);
              Exec(c, s, config)
              == if Aborts(a, s.result, config) then Executed(a, [], true, None, true, Throw)
                 else Exec(a, s.rest, config)
  {
  }

  /** A section inside another lets an exception escape that is not reported. */
  const TWO_LEFT := Nest("a", Nest("b", Raise(None), Finish), Finish)

  lemma TwoLeftUnaborted(c: Context, config: Config)
    requires c.tracker == FRESH
    ensures Erase(TWO_LEFT) == Section("a", Section("b", Throw, Done), Done)
    ensures var r := Unwinding(c, TWO_LEFT, config);
            && !r.aborted && r.context.counts == c.counts
            && forall u | u in r.pending :: u.prev == c.counts
  {
    hide EndSection, LeftState, Scored, Invoke, Erase, Exec;
    TwoLeftErased();
    var t := EnterTestCase(c.tracker);
    var d := Begin(c.(tracker := t), []);
    var e := Begin(d.(tracker := Enter(t, "a")), ["a"]);
    var f := Begin(e.(tracker := Enter(e.tracker, "b")), ["a", "b"]);
    assert t.current + ["a"] == ["a"] && e.tracker.current + ["b"] == ["a", "b"];
    ExecFirst(f, Raise(None), config);
    ExecSection(e, "b", Raise(None), config);
    ExecSection(d, "a", Nest("b", Raise(None), Finish), config);
  }

  lemma TwoLeftErased()
    ensures Erase(TWO_LEFT) == Section("a", Section("b", Throw, Done), Done)
  {
  }
}

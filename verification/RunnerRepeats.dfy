/** What a pass depends on: the sections known and their states, and the failures counted so far. Two contexts
    that agree in these go through the same pass. */
module RunnerRepeats {
  import opened TestBodies
  import opened TrackerModel
  import opened TrackerProofs
  import opened TrackerProgress
  import opened TotalsKeeping
  import opened RunnerModel

  ghost predicate AlikeTrackers(t: Tracker, u: Tracker) {
    t.current == u.current && t.completedOne == u.completedOne && SameSections(t.states, u.states)
  }

  /** The same failures, and as many passed and tolerated ones more as the numbers say. */
  ghost predicate Apart(x: Counts, y: Counts, passed: int, tolerated: int) {
    && x.failed == y.failed
    && x.passed == y.passed + passed && x.failedButOk == y.failedButOk + tolerated
  }

  ghost predicate Alike(c: Context, d: Context, passed: int, tolerated: int) {
    AlikeTrackers(c.tracker, d.tracker) && Apart(c.counts, d.counts, passed, tolerated)
  }

  ghost predicate AlikePending(p: seq<Unfinished>, q: seq<Unfinished>, passed: int, tolerated: int) {
    |p| == |q| && forall j | 0 <= j < |p| :: Apart(p[j].prev, q[j].prev, passed, tolerated)
  }

  ghost predicate AlikeRuns(r: Executed, q: Executed, passed: int, tolerated: int) {
    && Alike(r.context, q.context, passed, tolerated) && AlikePending(r.pending, q.pending, passed, tolerated)
    && r.threw == q.threw && r.report == q.report && r.aborted == q.aborted
  }

  // ---------- the tracker ----------

  lemma SetAlike(s: States, s': States, p: Path, state: RunState)
    requires SameSections(s, s')
    ensures SameSections(s[p := state], s'[p := state])
  {
    var a, b := s[p := state], s'[p := state];
    forall q: Path | q != [] ensures Find(a, q) == Find(b, q) {
      assert Find(s, q) == Find(s', q);
    }
  }

  lemma EnterAlike(t: Tracker, u: Tracker, key: Key)
    requires AlikeTrackers(t, u)
    ensures Enters(t, key) == Enters(u, key)
    ensures AlikeTrackers(Enter(t, key), Enter(u, key)) && AlikeTrackers(Acquire(t, key), Acquire(u, key))
  {
    var child := t.current + [key];
    assert Find(t.states, child) == Find(u.states, child);
    SetAlike(t.states, u.states, child, NotStarted);
    hide SameSections;
    var a, b := Acquire(t, key), Acquire(u, key);
    SetAlike(a.states, b.states, child, Started(a.states[child]));
  }

  lemma ChildrenAlike(t: Tracker, u: Tracker)
    requires AlikeTrackers(t, u)
    ensures HasChildren(t) == HasChildren(u)
    ensures LeftState(t.states, t.current) == LeftState(u.states, u.current)
  {
    assert forall k: Key :: Find(t.states, t.current + [k]) == Find(u.states, t.current + [k]);
    if k: Key :| t.current + [k] in t.states {
      assert u.current + [k] in u.states;
    }
    if k: Key :| u.current + [k] in u.states {
      assert t.current + [k] in t.states;
    }
  }

  lemma LeaveAlike(t: Tracker, u: Tracker)
    requires AlikeTrackers(t, u) && t.current != []
    ensures AlikeTrackers(Leave(t), Leave(u))
  {
    hide LeftState, SameSections;
    ChildrenAlike(t, u);
    SetAlike(t.states, u.states, t.current, LeftState(t.states, t.current));
  }

  // ---------- a pass below a section ----------

  lemma EndAlike(c: Context, d: Context, u: Unfinished, v: Unfinished, config: Config, k: int, m: int)
    requires Alike(c, d, k, m) && Apart(u.prev, v.prev, k, m) && c.tracker.current != []
    requires u.prev.AtMost(c.counts) && v.prev.AtMost(d.counts)
    ensures Alike(EndSection(c, u, config), EndSection(d, v, config), k, m)
  {
    hide HasChildren, Leave, SameSections;
    ChildrenAlike(c.tracker, d.tracker);
    LeaveAlike(c.tracker, d.tracker);
  }

  lemma {:induction false} ExecAlike(c: Context, d: Context, s: Script, config: Config, k: int, m: int)
    requires Alike(c, d, k, m)
    ensures AlikeRuns(Exec(c, s, config), Exec(d, s, config), k, m)
    decreases s
  {
    hide Enters, EndSection, Invoke, SameSections, Erase;
    match s
    case Finish =>
    case Raise(_) =>
    case Check(result, rest) => ExecAlike(Assert(c, result), Assert(d, result), rest, config, k, m);
    case Nest(key, inner, rest) =>
      EnterAlike(c.tracker, d.tracker, key);
      if Enters(c.tracker, key) {
        NestAlike(c, d, key, inner, rest, config, k, m);
      } else {
        ExecAlike(c.(tracker := Acquire(c.tracker, key)), d.(tracker := Acquire(d.tracker, key)), rest, config, k, m);
      }
  }

  lemma {:induction false} NestAlike(c: Context, d: Context, key: Key, inner: Script, rest: Script, config: Config,
                                     k: int, m: int)
    requires Alike(c, d, k, m) && Enters(c.tracker, key) && Enters(d.tracker, key)
    ensures AlikeRuns(Exec(c, Nest(key, inner, rest), config), Exec(d, Nest(key, inner, rest), config), k, m)
    decreases Nest(key, inner, rest), 0
  {
    hide Enters, EndSection, Invoke, SameSections, Erase, Exec;
    EnterAlike(c.tracker, d.tracker, key);
    var path := c.tracker.current + [key];
    var cb := Begin(c.(tracker := Enter(c.tracker, key)), path);
    var db := Begin(d.(tracker := Enter(d.tracker, key)), path);
    var u, v := Unfinished(path, c.counts, |c.history|), Unfinished(path, d.counts, |d.history|);
    var x, y := Exec(cb, inner, config), Exec(db, inner, config);
    ExecNest(c, key, inner, rest, config);
    ExecNest(d, key, inner, rest, config);
    ExecAlike(cb, db, inner, config, k, m);
    if !x.threw {
      EndAlike(x.context, y.context, u, v, config, k, m);
      ExecAlike(EndSection(x.context, u, config), EndSection(y.context, v, config), rest, config, k, m);
    }
  }

  lemma {:induction false} ReplayAlike(c: Context, d: Context, p: seq<Unfinished>, q: seq<Unfinished>, n: nat,
                                       config: Config, k: int, m: int)
    requires Alike(c, d, k, m) && AlikePending(p, q, k, m) && n <= |p| && n <= |c.tracker.current|
    requires AllBefore(p, c.counts) && AllBefore(q, d.counts)
    ensures Alike(ReplayEnds(c, p, n, config), ReplayEnds(d, q, n, config), k, m)
    decreases n
  {
    hide EndSection, SameSections, LeftState, Replay;
    if n > 0 {
      assert p[n - 1] in p && q[n - 1] in q;
      var e, f := EndSection(c, p[n - 1], config), EndSection(d, q[n - 1], config);
      EndAlike(c, d, p[n - 1], q[n - 1], config, k, m);
      StillBefore(p, c.counts, e.counts);
      StillBefore(q, d.counts, f.counts);
      hide AllBefore, AlikeTrackers, Apart;
      ReplayAlike(e, f, p, q, n - 1, config, k, m);
    }
  }

  lemma StillBefore(p: seq<Unfinished>, c: Counts, d: Counts)
    requires AllBefore(p, c) && c.AtMost(d)
    ensures AllBefore(p, d)
  {
  }

  // ---------- a whole pass ----------

  lemma EnterTestAlike(t: Tracker, u: Tracker)
    requires SameSections(t.states, u.states) && [] in t.states && [] in u.states
    ensures AlikeTrackers(EnterTestCase(t), EnterTestCase(u))
  {
    forall q: Path | q != [] ensures Find(EnterTestCase(t).states, q) == Find(EnterTestCase(u).states, q) {
      assert Find(t.states, q) == Find(u.states, q);
    }
  }

  lemma LeaveTestAlike(t: Tracker, u: Tracker)
    requires AlikeTrackers(t, u)
    ensures AlikeTrackers(LeaveTestCase(t), LeaveTestCase(u))
    ensures [] in LeaveTestCase(t).states && [] in LeaveTestCase(u).states
    ensures LeaveTestCase(t).states[[]] == LeaveTestCase(u).states[[]]
  {
    hide LeftState, SameSections;
    ChildrenAlike(t.(current := []), u.(current := []));
    SetAlike(t.states, u.states, [], LeftState(t.states, []));
  }

  lemma UnwindingAlike(c: Context, d: Context, s: Script, config: Config, k: int, m: int)
    requires SameSections(c.tracker.states, d.tracker.states) && Apart(c.counts, d.counts, k, m)
    requires [] in c.tracker.states && [] in d.tracker.states
    ensures var r, q := Unwinding(c, s, config), Unwinding(d, s, config);
            && AlikeRuns(r, q, k, m) && [] in r.context.tracker.states && [] in q.context.tracker.states
            && r.context.tracker.states[[]] == q.context.tracker.states[[]]
  {
    hide Exec, Invoke, SameSections, EnterTestCase, LeaveTestCase;
    var cb := Begin(c.(tracker := EnterTestCase(c.tracker)), []);
    var db := Begin(d.(tracker := EnterTestCase(d.tracker)), []);
    EnterTestAlike(c.tracker, d.tracker);
    ExecAlike(cb, db, s, config, k, m);
    LeaveTestAlike(Exec(cb, s, config).context.tracker, Exec(db, s, config).context.tracker);
  }

  lemma {:induction false} ReplayRoot(t: Tracker, n: nat)
    requires n <= |t.current| && [] in t.states
    ensures [] in Replay(t, n).states && Replay(t, n).states[[]] == t.states[[]]
    decreases n
  {
    hide LeftState;
    if n > 0 {
      ReplayRoot(Leave(t), n - 1);
    }
  }

  lemma TestEndAlike(c: Context, d: Context, x: Counts, y: Counts, i: nat, j: nat, okToFail: bool, config: Config,
                     k: int, m: int)
    requires Alike(c, d, k, m) && Apart(x, y, k, m) && x.AtMost(c.counts) && y.AtMost(d.counts)
    ensures Alike(EndTest(c, x, i, okToFail, config), EndTest(d, y, j, okToFail, config), k, m)
  {
    hide HasChildren, SameSections;
    ChildrenAlike(c.tracker, d.tracker);
  }

  /** The same pass, also as far as the state of the test case itself is concerned. */
  lemma PassAlike(c: Context, d: Context, s: Script, okToFail: bool, config: Config, k: int, m: int)
    requires SameSections(c.tracker.states, d.tracker.states) && Apart(c.counts, d.counts, k, m)
    requires [] in c.tracker.states && [] in d.tracker.states
    ensures var e, f := Pass(c, s, okToFail, config), Pass(d, s, okToFail, config);
            && Alike(e, f, k, m) && [] in e.tracker.states && [] in f.tracker.states
            && e.tracker.states[[]] == f.tracker.states[[]]
  {
    hide Unwinding, ReplayEnds, EndTest, Invoke, SameSections;
    var r, q := Unwinding(c, s, config), Unwinding(d, s, config);
    UnwindingAlike(c, d, s, config, k, m);
    ReplayAlike(r.context, q.context, r.pending, q.pending, |r.pending|, config, k, m);
    ReplayRoot(r.context.tracker, |r.pending|);
    ReplayRoot(q.context.tracker, |q.pending|);
    TestEndAlike(ReplayEnds(r.context, r.pending, |r.pending|, config),
                 ReplayEnds(q.context, q.pending, |q.pending|, config),
                 c.counts, d.counts, |c.history|, |d.history|, okToFail, config, k, m);
  }
}

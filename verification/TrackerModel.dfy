/** The section tracker as a state machine on values: which sections are known, in which
    state each is, where execution is, and whether a section was already completed in
    this pass. `log` records every section entered and left. */
module TrackerModel {
  import opened TestBodies

  datatype RunState = NotStarted | Executing | ExecutingChildren | Completed

  datatype Event = Entered(path: Path) | Left(path: Path)

  type States = map<Path, RunState>

  datatype Tracker = Tracker(states: States, current: Path, completedOne: bool, log: seq<Event>)

  const FRESH := Tracker(map[[] := NotStarted], [], false, [])

  ghost predicate ChildrenCompleted(s: States, p: Path) {
    forall k: Key | p + [k] in s :: s[p + [k]] == Completed
  }

  ghost function LeftState(s: States, p: Path): RunState {
    if ChildrenCompleted(s, p) then Completed else ExecutingChildren
  }

  /** Whether `currentSectionHasChildren` answers yes. */
  ghost predicate HasChildren(t: Tracker) {
    exists k: Key :: t.current + [k] in t.states
  }

  /** Whether `enterSection` lets the section `key` run. */
  predicate Enters(t: Tracker, key: Key) {
    !t.completedOne && (t.current + [key] in t.states ==> t.states[t.current + [key]] != Completed)
  }

  function Started(s: RunState): RunState {
    if s == NotStarted then Executing else s
  }

  function Acquire(t: Tracker, key: Key): Tracker {
    var child := t.current + [key];
    if child in t.states then t else t.(states := t.states[child := NotStarted])
  }

  function Enter(t: Tracker, key: Key): Tracker {
    var child := t.current + [key];
    var a := Acquire(t, key);
    Tracker(a.states[child := Started(a.states[child])], child, a.completedOne, a.log + [Entered(child)])
  }

  ghost function Leave(t: Tracker): Tracker
    requires t.current != []
  {
    Tracker(t.states[t.current := LeftState(t.states, t.current)],
            t.current[..|t.current| - 1], true, t.log + [Left(t.current)])
  }

  function EnterTestCase(t: Tracker): Tracker
    requires [] in t.states
  {
    Tracker(t.states[[] := Started(t.states[[]])], [], false, t.log)
  }

  ghost function LeaveTestCase(t: Tracker): Tracker {
    t.(states := t.states[[] := LeftState(t.states, [])])
  }

  /** What unwinding leaves behind: the sections whose end was deferred, innermost first. */
  datatype Unwound = Unwound(tracker: Tracker, pending: seq<Path>, threw: bool)

  ghost predicate Chain(pending: seq<Path>, inner: Path, outer: Path) {
    && outer <= inner
    && |inner| == |outer| + |pending|
    && forall j | 0 <= j < |pending| :: pending[j] == inner[..|inner| - j]
  }

  /** One pass of the body below the current section. A section left by an exception is
      only recorded; it is left for good by `Replay`. */
  ghost function Invoke(t: Tracker, b: Body): (u: Unwound)
    ensures Chain(u.pending, u.tracker.current, t.current)
    ensures !u.threw ==> u.pending == []
    ensures t.states.Keys <= u.tracker.states.Keys
    decreases b
  {
    match b
    case Done => Unwound(t, [], false)
    case Throw => Unwound(t, [], true)
    case Section(key, inner, next) =>
      if Enters(t, key) then
        var u := Invoke(Enter(t, key), inner);
        if u.threw then Unwound(u.tracker, u.pending + [t.current + [key]], true)
        else Invoke(Leave(u.tracker), next)
      else Invoke(Acquire(t, key), next)
  }

  /** Leaves the current section `n` times. */
  ghost function Replay(t: Tracker, n: nat): (r: Tracker)
    requires n <= |t.current|
    ensures r.current == t.current[..|t.current| - n]
    ensures t.states.Keys <= r.states.Keys
    decreases n
  {
    if n == 0 then t else Replay(Leave(t), n - 1)
  }

  /** One pass of a whole test case: the guard leaves the test case during unwinding,
      before the deferred sections are replayed. */
  ghost function RunOnce(t: Tracker, b: Body): (r: Tracker)
    requires [] in t.states
    ensures r.current == [] && [] in r.states
  {
    var u := Invoke(EnterTestCase(t), b);
    Replay(LeaveTestCase(u.tracker), |u.pending|)
  }

  // ---------- leaving at once instead of through a replay ----------

  datatype Outcome = Outcome(tracker: Tracker, threw: bool)

  /** The same pass with every section left at the moment the exception passes it. */
  ghost function Eager(t: Tracker, b: Body): (r: Outcome)
    ensures r.tracker.current == t.current
    decreases b
  {
    match b
    case Done => Outcome(t, false)
    case Throw => Outcome(t, true)
    case Section(key, inner, next) =>
      if Enters(t, key) then
        var r := Eager(Enter(t, key), inner);
        if r.threw then Outcome(Leave(r.tracker), true)
        else Eager(Leave(r.tracker), next)
      else Eager(Acquire(t, key), next)
  }

  lemma {:induction false} ReplayLast(t: Tracker, n: nat)
    requires n < |t.current|
    ensures Replay(t, n + 1) == Leave(Replay(t, n))
    decreases n
  {
    if n > 0 {
      ReplayLast(Leave(t), n - 1);
    }
  }

  /** Deferring the ends of sections changes nothing: replaying them afterwards gives the
      tracker that leaving each section at once would have given. */
  lemma {:induction false} DeferredIsEager(t: Tracker, b: Body)
    ensures var u, r := Invoke(t, b), Eager(t, b);
            u.threw == r.threw && Replay(u.tracker, |u.pending|) == r.tracker
    decreases b
  {
    match b
    case Done =>
    case Throw =>
    case Section(key, inner, next) =>
      if Enters(t, key) {
        DeferredIsEager(Enter(t, key), inner);
        var u := Invoke(Enter(t, key), inner);
        if u.threw {
          ReplayLast(u.tracker, |u.pending|);
        } else {
          DeferredIsEager(Leave(u.tracker), next);
        }
      } else {
        DeferredIsEager(Acquire(t, key), next);
      }
  }
}

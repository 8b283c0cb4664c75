/** What the cumulative reporter builds from any log of events, on values, and when that is the tree of the
    log's sections. */
module ReporterShape {
  import opened Basics
  import opened SectionTrie

  /** A section node; its children are numbers of nodes. */
  datatype Node = Node(stats: SectionStats, children: seq<nat>, assertions: seq<int>)

  /** The nodes in the order of their creation, the root first, and the numbers of those on the stack. */
  datatype Shape = Shape(nodes: seq<Node>, stack: seq<nat>)

  const EMPTY: Shape := Shape([], [])

  predicate Sound(s: Shape) {
    && (forall i, j | 0 <= i < |s.nodes| && 0 <= j < |s.nodes[i].children| :: s.nodes[i].children[j] < |s.nodes|)
    && (forall i | 0 <= i < |s.stack| :: s.stack[i] < |s.nodes|)
  }

  predicate HasLine(nodes: seq<Node>, c: nat, line: LineInfo) {
    c < |nodes| && nodes[c].stats.info.lineInfo == line
  }

  /** The first child whose latest statistics carry the line, or the number of children. */
  function FirstWith(nodes: seq<Node>, children: seq<nat>, line: LineInfo): (i: nat)
    ensures i <= |children|
    ensures i < |children| ==> HasLine(nodes, children[i], line)
    ensures forall j | 0 <= j < i :: !HasLine(nodes, children[j], line)
  {
    if children == [] || HasLine(nodes, children[0], line) then 0
    else
      var i := FirstWith(nodes, children[1..], line);
      assert forall j | 0 < j <= i :: children[j] == children[1..][j - 1];
      1 + i
  }

  /** The number of the node for a section that begins. */
  function Begins(s: Shape, info: SectionInfo): (c: nat)
    requires Sound(s)
    ensures c <= |s.nodes|
  {
    if s.stack == [] then 0
    else
      var children := s.nodes[s.stack[|s.stack| - 1]].children;
      var i := FirstWith(s.nodes, children, info.lineInfo);
      if i < |children| then children[i] else |s.nodes|
  }

  /** The nodes with one for the section that begins, as a child of the innermost one. */
  function WithNode(s: Shape, info: SectionInfo): (nodes: seq<Node>)
    requires Sound(s)
    ensures Begins(s, info) < |nodes| && |s.nodes| <= |nodes|
  {
    if Begins(s, info) < |s.nodes| then s.nodes
    else if s.stack == [] then s.nodes + [Node(Incomplete(info), [], [])]
    else
      var top := s.stack[|s.stack| - 1];
      var parent := s.nodes[top];
      s.nodes[top := parent.(children := parent.children + [|s.nodes|])] + [Node(Incomplete(info), [], [])]
  }

  function Step(s: Shape, e: Event): (t: Shape)
    requires Sound(s)
    ensures Sound(t)
  {
    if e.Starting? then Shape(WithNode(s, e.info), s.stack + [Begins(s, e.info)])
    else if s.stack == [] then s
    else
      var top := s.stack[|s.stack| - 1];
      var n := s.nodes[top];
      match e
      case Assertion(id) => s.(nodes := s.nodes[top := n.(assertions := n.assertions + [id])])
      case Ended(stats) => Shape(s.nodes[top := n.(stats := stats)], s.stack[..|s.stack| - 1])
  }

  function ShapeOf(log: seq<Event>): (s: Shape)
    ensures Sound(s)
  {
    if log == [] then EMPTY else Step(ShapeOf(log[..|log| - 1]), log[|log| - 1])
  }

  lemma ShapeNext(log: seq<Event>, e: Event)
    ensures ShapeOf(log + [e]) == Step(ShapeOf(log), e)
  {
    Snoc(log, e);
  }

  /** The stack is as high as the sections are deep, whatever lines the ends carry. */
  lemma {:induction false} StackDepth(log: seq<Event>)
    ensures |ShapeOf(log).stack| == if Where(log).Closed? then 0 else |Where(log).path| + 1
    decreases |log|
  {
    hide WithNode, Begins;
    if log != [] {
      StackDepth(log[..|log| - 1]);
    }
  }

  lemma {:induction false} BegunHasNode(log: seq<Event>)
    requires Inside(log) && log != []
    ensures ShapeOf(log).nodes != []
    decreases |log|
  {
    hide Begins;
    var before := log[..|log| - 1];
    if before != [] {
      BegunHasNode(before);
    }
  }

  // ---------- no assertion is lost ----------

  function Held(nodes: seq<Node>): nat {
    if nodes == [] then 0 else Held(nodes[..|nodes| - 1]) + |nodes[|nodes| - 1].assertions|
  }

  lemma {:induction false} HeldUpdated(nodes: seq<Node>, i: nat, n: Node)
    requires i < |nodes|
    ensures Held(nodes[i := n]) + |nodes[i].assertions| == Held(nodes) + |n.assertions|
    decreases |nodes|
  {
    var last := |nodes| - 1;
    if i < last {
      HeldUpdated(nodes[..last], i, n);
      assert nodes[i := n][..last] == nodes[..last][i := n];
    } else {
      assert nodes[i := n][..last] == nodes[..last];
    }
  }

  lemma HeldBegun(s: Shape, info: SectionInfo)
    requires Sound(s)
    ensures Held(WithNode(s, info)) == Held(s.nodes)
  {
    hide Begins;
    var nodes := WithNode(s, info);
    var n := |s.nodes|;
    if |nodes| > n {
      if s.stack == [] {
        assert nodes[..n] == s.nodes;
      } else {
        var top := s.stack[|s.stack| - 1];
        assert nodes[..n] == s.nodes[top := nodes[top]];
        HeldUpdated(s.nodes, top, nodes[top]);
      }
    }
  }

  lemma HeldStep(s: Shape, e: Event)
    requires Sound(s)
    ensures Held(Step(s, e).nodes) == Held(s.nodes) + if e.Assertion? && s.stack != [] then 1 else 0
  {
    hide Held, WithNode, Begins;
    if e.Starting? {
      HeldBegun(s, e.info);
    } else if s.stack != [] {
      var top := s.stack[|s.stack| - 1];
      HeldUpdated(s.nodes, top, Step(s, e).nodes[top]);
    }
  }

  /** Each assertion is held by one node, in whatever order sections are ended. */
  lemma {:induction false} NoAssertionLost(log: seq<Event>)
    requires Inside(log)
    ensures Held(ShapeOf(log).nodes) == AssertionCount(log)
    decreases |log|
  {
    hide Step, Where;
    if log != [] {
      var before := log[..|log| - 1];
      NoAssertionLost(before);
      StackDepth(before);
      HeldStep(ShapeOf(before), log[|log| - 1]);
    }
  }

  // ---------- the tree of the sections ----------

  /** The known paths in the order of their first begin. */
  function Paths(log: seq<Event>): (paths: seq<Path>)
    ensures NoRepeats(paths)
    ensures forall p :: p in paths <==> p in Known(log)
  {
    if log == [] then []
    else
      var before, e := log[..|log| - 1], log[|log| - 1];
      var paths := Paths(before);
      if !e.Starting? then paths
      else
        var q := Moved(Where(before), e).path;
        if q in Known(before) then paths else paths + [q]
  }

  lemma PathsNext(log: seq<Event>, e: Event)
    ensures Paths(log + [e])
            == if e.Starting? && Moved(Where(log), e).path !in Known(log) then Paths(log) + [Moved(Where(log), e).path]
               else Paths(log)
  {
    Snoc(log, e);
  }

  /** Node `i` holds what the log says about the section at its path, linked to the nodes of its children. */
  predicate Mirrors(log: seq<Event>, i: nat)
    requires i < |Paths(log)| == |ShapeOf(log).nodes|
  {
    var p, n, lines := Paths(log)[i], ShapeOf(log).nodes[i], ChildLines(log, Paths(log)[i]);
    && n.stats == StatsAt(log, p)
    && n.assertions == AssertionsAt(log, p)
    && (p != [] ==> n.stats.info.lineInfo == p[|p| - 1])
    && |n.children| == |lines|
    && forall j | 0 <= j < |lines| :: Paths(log)[n.children[j]] == p + [lines[j]]
  }

  predicate OnStack(log: seq<Event>)
    requires |Paths(log)| == |ShapeOf(log).nodes|
  {
    var w, stack := Where(log), ShapeOf(log).stack;
    if w.Closed? then stack == []
    else
      && |stack| == |w.path| + 1
      && forall i | 0 <= i <= |w.path| :: Paths(log)[stack[i]] == w.path[..i]
  }

  /** The reporter holds one node for each section begun, which holds what belongs to that section. */
  predicate IsTrie(log: seq<Event>) {
    && |Paths(log)| == |ShapeOf(log).nodes|
    && (forall i {:trigger Mirrors(log, i)} | 0 <= i < |Paths(log)| :: Mirrors(log, i))
    && OnStack(log)
  }

  /** The top of the stack is the node of the innermost section. */
  lemma TopIsCurrent(log: seq<Event>)
    requires IsTrie(log) && Where(log).At?
    ensures var s := ShapeOf(log);
            s.stack != [] && Paths(log)[s.stack[|s.stack| - 1]] == Where(log).path
  {
    var p := Where(log).path;
    assert p[..|p|] == p;
  }

  lemma {:induction false} AssertionKeeps(log: seq<Event>, id: int)
    requires IsTrie(log) && Where(log).At?
    ensures IsTrie(log + [Assertion(id)])
  {
    hide ShapeOf, Paths, Where, StatsAt, ChildLines, AssertionsAt, Known, FirstWith, Begins, WithNode;
    var e := Assertion(id);
    var next := log + [e];
    ShapeNext(log, e);
    PathsNext(log, e);
    WhereNext(log, e);
    TopIsCurrent(log);
    forall i | 0 <= i < |Paths(next)| ensures Mirrors(next, i) {
      assert Mirrors(log, i);
      AtNext(log, e, Paths(log)[i]);
      StatsNext(log, e, Paths(log)[i]);
    }
  }

  lemma {:induction false} EndKeeps(log: seq<Event>, stats: SectionStats)
    requires IsTrie(log) && Fits(Where(log), Ended(stats))
    ensures IsTrie(log + [Ended(stats)])
  {
    hide ShapeOf, Paths, Where, StatsAt, ChildLines, AssertionsAt, Known, FirstWith, Begins, WithNode;
    var e := Ended(stats);
    var next := log + [e];
    ShapeNext(log, e);
    PathsNext(log, e);
    WhereNext(log, e);
    TopIsCurrent(log);
    forall i | 0 <= i < |Paths(next)| ensures Mirrors(next, i) {
      assert Mirrors(log, i);
      AtNext(log, e, Paths(log)[i]);
      StatsNext(log, e, Paths(log)[i]);
    }
    var w, v := Where(log), Where(next);
    if v.At? {
      forall i | 0 <= i <= |v.path| ensures Paths(next)[ShapeOf(next).stack[i]] == v.path[..i] {
        assert v.path[..i] == w.path[..i];
      }
    }
  }

  /** The node found for a section that begins is that of its path, if there is one. */
  lemma BeginsAtPath(log: seq<Event>, info: SectionInfo)
    requires IsTrie(log)
    ensures var q := Moved(Where(log), Starting(info)).path;
            var c := Begins(ShapeOf(log), info);
            if q in Known(log) then c < |Paths(log)| && Paths(log)[c] == q else c == |Paths(log)|
  {
    hide ShapeOf, Paths, Where, StatsAt, ChildLines, AssertionsAt, Known, FirstWith;
    var s, paths := ShapeOf(log), Paths(log);
    if Where(log).At? {
      TopIsCurrent(log);
      var p := Where(log).path;
      var top := s.stack[|s.stack| - 1];
      assert Mirrors(log, top);
      var children, lines := s.nodes[top].children, ChildLines(log, p);
      ChildrenAreKnown(log, p, info.lineInfo);
      forall j | 0 <= j < |children|
        ensures HasLine(s.nodes, children[j], info.lineInfo) <==> lines[j] == info.lineInfo
      {
        assert Mirrors(log, children[j]);
        assert paths[children[j]] == p + [lines[j]];
      }
      var i := FirstWith(s.nodes, children, info.lineInfo);
      assert i < |children| <==> info.lineInfo in lines;
    } else {
      RootFirst(log);
    }
  }

  /** The first section to begin is the test case. */
  lemma {:induction false} RootFirst(log: seq<Event>)
    ensures [] in Known(log) <==> Paths(log) != []
    ensures Paths(log) != [] ==> Paths(log)[0] == []
    ensures Where(log).At? ==> Paths(log) != []
    decreases |log|
  {
    hide StatsAt, ChildLines, AssertionsAt;
    if log != [] {
      RootFirst(log[..|log| - 1]);
    }
  }

  lemma StartKeeps(log: seq<Event>, info: SectionInfo)
    requires IsTrie(log)
    ensures IsTrie(log + [Starting(info)])
  {
    hide ShapeOf, Paths, Where, StatsAt, ChildLines, AssertionsAt, Known, FirstWith, Begins, Mirrors, OnStack;
    var e := Starting(info);
    ShapeNext(log, e);
    PathsNext(log, e);
    BeginsAtPath(log, info);
    StartSizes(log, info);
    forall i | 0 <= i < |Paths(log + [e])| ensures Mirrors(log + [e], i) {
      if i < |Paths(log)| {
        StartMirrors(log, info, i);
      } else {
        NewMirrors(log, info);
      }
    }
    StartOnStack(log, info);
  }

  lemma StartSizes(log: seq<Event>, info: SectionInfo)
    requires IsTrie(log)
    ensures |Paths(log + [Starting(info)])| == |ShapeOf(log + [Starting(info)]).nodes|
  {
    hide ShapeOf, Paths, Where, StatsAt, ChildLines, AssertionsAt, Known, FirstWith, Begins, Mirrors, OnStack;
    ShapeNext(log, Starting(info));
    PathsNext(log, Starting(info));
    BeginsAtPath(log, info);
  }

  lemma StartMirrors(log: seq<Event>, info: SectionInfo, i: nat)
    requires IsTrie(log) && i < |Paths(log)|
    requires |Paths(log + [Starting(info)])| == |ShapeOf(log + [Starting(info)]).nodes| >= |Paths(log)|
    ensures Mirrors(log + [Starting(info)], i)
  {
    hide ShapeOf, Paths, Where, StatsAt, ChildLines, AssertionsAt, Known, FirstWith, Begins;
    var e := Starting(info);
    var p := Paths(log)[i];
    ShapeNext(log, e);
    PathsNext(log, e);
    WhereNext(log, e);
    BeginsAtPath(log, info);
    assert Mirrors(log, i);
    AtNext(log, e, p);
    StatsNext(log, e, p);
    ChildrenAreKnown(log, p, info.lineInfo);
    if Where(log).At? {
      TopIsCurrent(log);
    } else {
      RootFirst(log);
    }
  }

  lemma NewMirrors(log: seq<Event>, info: SectionInfo)
    requires IsTrie(log) && |Paths(log + [Starting(info)])| > |Paths(log)|
    requires |Paths(log + [Starting(info)])| == |ShapeOf(log + [Starting(info)]).nodes|
    ensures Mirrors(log + [Starting(info)], |Paths(log)|)
  {
    hide ShapeOf, Paths, Where, StatsAt, ChildLines, AssertionsAt, Known, FirstWith, Begins, WithNode, IsTrie;
    var e := Starting(info);
    var q := Moved(Where(log), e).path;
    ShapeNext(log, e);
    PathsNext(log, e);
    WhereNext(log, e);
    NewNode(log, info);
    FreshPathIsEmpty(log, q);
    AtNext(log, e, q);
    StatsNext(log, e, q);
  }

  lemma NewNode(log: seq<Event>, info: SectionInfo)
    requires IsTrie(log) && Moved(Where(log), Starting(info)).path !in Known(log)
    ensures |WithNode(ShapeOf(log), info)| == |Paths(log)| + 1
    ensures WithNode(ShapeOf(log), info)[|Paths(log)|] == Node(Incomplete(info), [], [])
  {
    hide ShapeOf, Paths, Where, Known, Mirrors, OnStack, Begins;
    BeginsAtPath(log, info);
  }

  lemma StartOnStack(log: seq<Event>, info: SectionInfo)
    requires IsTrie(log)
    requires |Paths(log + [Starting(info)])| == |ShapeOf(log + [Starting(info)]).nodes|
    ensures OnStack(log + [Starting(info)])
  {
    hide ShapeOf, Paths, Where, StatsAt, ChildLines, AssertionsAt, Known, FirstWith, Begins, Mirrors, WithNode;
    var e := Starting(info);
    var w, q := Where(log), Moved(Where(log), e).path;
    ShapeNext(log, e);
    PathsNext(log, e);
    WhereNext(log, e);
    BeginsAtPath(log, info);
    forall i | 0 <= i <= |q| ensures Paths(log + [e])[ShapeOf(log + [e]).stack[i]] == q[..i] {
      if i < |q| {
        assert q[..i] == w.path[..i];
      } else {
        assert q[..i] == q;
      }
    }
  }

  /** An end that carries another line than its section leaves a node that does not belong to its path. */
  lemma MisfitBreaks(log: seq<Event>, e: Event)
    requires IsTrie(log) && Inside(log + [e]) && !Fits(Where(log), e)
    ensures !IsTrie(log + [e])
  {
    hide ShapeOf, Paths, Where, StatsAt, ChildLines, AssertionsAt, Known, FirstWith, Begins, WithNode;
    ShapeNext(log, e);
    PathsNext(log, e);
    WhereNext(log, e);
    TopIsCurrent(log);
    var s, next := ShapeOf(log), log + [e];
    assert |Paths(next)| == |ShapeOf(next).nodes| && !Mirrors(next, s.stack[|s.stack| - 1]);
  }

  lemma StepKeepsIff(log: seq<Event>, e: Event)
    requires IsTrie(log) && Inside(log + [e])
    ensures IsTrie(log + [e]) <==> Fits(Where(log), e)
  {
    hide IsTrie, Where;
    WhereNext(log, e);
    if !Fits(Where(log), e) {
      MisfitBreaks(log, e);
    } else {
      match e
      case Starting(info) => StartKeeps(log, info);
      case Assertion(id) => AssertionKeeps(log, id);
      case Ended(stats) => EndKeeps(log, stats);
    }
  }

  /** The reporter holds the tree of the sections after each event of a log if and only if each end carries
      the line of the innermost open section. */
  lemma {:induction false} TrieIff(log: seq<Event>)
    requires Inside(log)
    ensures WellNested(log) <==> forall k | 0 <= k <= |log| :: IsTrie(log[..k])
    decreases |log|
  {
    hide IsTrie, Where;
    assert log[..|log|] == log;
    if log == [] {
      NothingBegun();
    } else {
      var before, e := log[..|log| - 1], log[|log| - 1];
      assert log == before + [e];
      TrieIff(before);
      assert before == before[..|before|];
      assert forall k | 0 <= k <= |before| :: log[..k] == before[..k];
      if IsTrie(before) {
        StepKeepsIff(before, e);
      }
    }
  }

  lemma NothingBegun()
    ensures IsTrie([])
  {
  }
}

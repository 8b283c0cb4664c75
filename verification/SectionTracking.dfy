/** The tracker as the runner keeps it: a tree of section objects linked by parent pointers,
    a pointer to the current section and a per-run flag. Every method is tied to the step
    of the state machine it carries out. */
module SectionTracking {
  import opened TestBodies
  import opened TrackerModel

  class TrackedSection {
    ghost const path: Path
    const name: Key
    const parent: TrackedSection?
    var runState: RunState
    var children: map<Key, TrackedSection>

    constructor (name: Key, parent: TrackedSection?, ghost path: Path)
      ensures this.name == name && this.parent == parent && this.path == path
      ensures runState == NotStarted && children == map[]
    {
      this.name := name;
      this.parent := parent;
      this.path := path;
      runState := NotStarted;
      children := map[];
    }

    method FindChild(childName: Key) returns (child: TrackedSection?)
      ensures child == if childName in children then children[childName] else null
    {
      child := if childName in children then children[childName] else null;
    }

    method AcquireChild(childName: Key) returns (child: TrackedSection)
      modifies this`children
      ensures childName in old(children) ==> child == old(children)[childName] && children == old(children)
      ensures childName !in old(children) ==>
                && fresh(child)
                && child.path == path + [childName] && child.name == childName && child.parent == this
                && child.runState == NotStarted && child.children == map[]
                && children == old(children)[childName := child]
    {
      var found := FindChild(childName);
      if found != null {
        return found;
      }
      child := new TrackedSection(childName, this, path + [childName]);
      children := children[childName := child];
    }

    method Enter()
      modifies this`runState
      ensures runState == Started(old(runState))
    {
      if runState == NotStarted {
        runState := Executing;
      }
    }

    method Leave()
      modifies this`runState
      ensures runState == if forall k | k in children :: old(children[k].runState) == Completed
                          then Completed else ExecutingChildren
    {
      var todo := children.Keys;
      while todo != {}
        invariant todo <= children.Keys
        invariant forall k | k in children && k !in todo :: children[k].runState == Completed
        invariant runState == old(runState)
        decreases todo
      {
        var k :| k in todo;
        if children[k].runState != Completed {
          runState := ExecutingChildren;
          return;
        }
        todo := todo - {k};
      }
      runState := Completed;
    }

    method GetParent() returns (p: TrackedSection?)
      ensures p == parent
    {
      p := parent;
    }
  }

  class TestCaseTracker {
    const testCase: TrackedSection
    var currentSection: TrackedSection
    var completedASectionThisRun: bool
    ghost var nodes: map<Path, TrackedSection>
    ghost var states: States
    ghost var log: seq<Event>
    ghost var sections: set<TrackedSection>

    /** The section object at `p` is linked to its parent and its children. */
    ghost predicate Linked(p: Path)
      requires p in nodes && nodes[p] in sections
      reads this`nodes, this`states, this`sections, sections
    {
      var n := nodes[p];
      && n.path == p
      && p in states && states[p] == n.runState
      && (if p == [] then n.parent == null else
            && n.parent != null && n.parent.path == p[..|p| - 1] && n.name == p[|p| - 1]
            && n.parent in sections && n.parent.path in nodes && nodes[n.parent.path] == n.parent
            && n.name in n.parent.children)
      && (forall k | k in n.children :: p + [k] in nodes && nodes[p + [k]] == n.children[k])
    }

    ghost predicate Valid()
      reads this, sections
    {
      && (forall p | p in nodes :: nodes[p] in sections)
      && states.Keys == nodes.Keys
      && [] in nodes && nodes[[]] == testCase
      && (forall p {:trigger Linked(p)} | p in nodes :: Linked(p))
      && currentSection.path in nodes && nodes[currentSection.path] == currentSection
    }

    /** The state machine's view of the object tree. */
    ghost function Model(): Tracker
      reads this
    {
      Tracker(states, currentSection.path, completedASectionThisRun, log)
    }

    /** The children of a section object are the known paths one key longer. */
    lemma ChildrenAreNodes(p: Path)
      requires Valid() && p in nodes
      ensures forall k: Key :: k in nodes[p].children <==> p + [k] in states
      ensures ChildrenCompleted(states, p)
              <==> forall k | k in nodes[p].children :: nodes[p].children[k].runState == Completed
    {
      assert Linked(p);
      forall k: Key | p + [k] in nodes ensures k in nodes[p].children {
        assert Linked(p + [k]);
        assert (p + [k])[..|p|] == p;
      }
      forall k | k in nodes[p].children ensures states[p + [k]] == nodes[p].children[k].runState {
        assert Linked(p + [k]);
      }
    }

    /** Changing the run state of one section keeps every link. */
    twostate lemma KeepsLinks(at: Path)
      requires old(Valid()) && nodes == old(nodes) && sections == old(sections)
      requires at in nodes && states == old(states)[at := nodes[at].runState]
      requires forall n | n in sections :: n.children == old(n.children)
      requires forall n | n in sections && n != nodes[at] :: n.runState == old(n.runState)
      ensures forall p {:trigger Linked(p)} | p in nodes :: Linked(p)
    {
      assert old(Linked(at));
      forall p | p in nodes ensures Linked(p) {
        assert old(Linked(p));
      }
    }

    lemma ParentIsNode()
      requires Valid() && currentSection.path != []
      ensures var p := currentSection.path;
              var q := p[..|p| - 1];
              q in nodes && currentSection.parent == nodes[q] && nodes[q].path == q
    {
      assert Linked(currentSection.path);
    }

    constructor (testCaseName: Key)
      ensures Valid() && fresh(sections)
      ensures Model() == FRESH
    {
      testCase := new TrackedSection(testCaseName, null, []);
      currentSection := testCase;
      completedASectionThisRun := false;
      nodes := map[[] := testCase];
      sections := {testCase};
      states := map[[] := NotStarted];
      log := [];
    }

    /** A new section at `q` keeps every link. */
    twostate lemma AddsLink(q: Path)
      requires old(Valid()) && q != [] && q !in old(nodes) && q in nodes
      requires var at, name, child := q[..|q| - 1], q[|q| - 1], nodes[q];
               && at in old(nodes)
               && child !in old(sections) && child.path == q && child.name == name
               && child.parent == old(nodes)[at] && child.children == map[]
               && old(nodes)[at].children == old(nodes[at].children)[name := child]
               && nodes == old(nodes)[q := child] && sections == old(sections) + {child}
               && states == old(states)[q := child.runState]
      requires forall n | n in old(sections) :: n.runState == old(n.runState)
      requires forall n | n in old(sections) && n != old(nodes)[q[..|q| - 1]] :: n.children == old(n.children)
      ensures forall p {:trigger Linked(p)} | p in nodes :: Linked(p)
    {
      assert old(Linked(q[..|q| - 1]));
      assert q == q[..|q| - 1] + [q[|q| - 1]];
      forall p | p in nodes ensures Linked(p) {
        if p in old(nodes) {
          assert old(Linked(p));
        }
      }
    }

    /** The child `name` of the current section, made known if it was not. */
    method AcquireChild(name: Key) returns (child: TrackedSection)
      requires Valid()
      modifies this`nodes, this`sections, this`states, sections
      ensures Valid() && fresh(sections - old(sections))
      ensures currentSection == old(currentSection)
      ensures Model() == Acquire(old(Model()), name)
      ensures currentSection.path + [name] in nodes && child == nodes[currentSection.path + [name]]
    {
      ghost var p := currentSection.path;
      ChildrenAreNodes(p);
      assert Linked(p);
      child := currentSection.AcquireChild(name);
      Register(p, name, child);
      if p + [name] in old(nodes) {
        KeepsLinks(p);
      } else {
        assert (p + [name])[..|p|] == p;
        AddsLink(p + [name]);
      }
    }

    /** Records a child object made by `TrackedSection.AcquireChild`. */
    ghost method Register(at: Path, name: Key, child: TrackedSection)
      modifies this`nodes, this`sections, this`states
      ensures nodes == if at + [name] in old(nodes) then old(nodes) else old(nodes)[at + [name] := child]
      ensures sections == if at + [name] in old(nodes) then old(sections) else old(sections) + {child}
      ensures states == if at + [name] in old(nodes) then old(states) else old(states)[at + [name] := NotStarted]
    {
      if at + [name] !in nodes {
        nodes := nodes[at + [name] := child];
        sections := sections + {child};
        states := states[at + [name] := NotStarted];
      }
    }

    /** Whether the section `name` below the current one is to run; it becomes current if so,
        and is known from now on in any case. */
    method EnterSection(name: Key) returns (entered: bool)
      requires Valid()
      modifies this, sections
      ensures Valid() && fresh(sections - old(sections))
      ensures entered <==> Enters(old(Model()), name)
      ensures Model() == if entered then TrackerModel.Enter(old(Model()), name) else Acquire(old(Model()), name)
    {
      var child := AcquireChild(name);
      assert Linked(currentSection.path + [name]);
      if completedASectionThisRun || child.runState == Completed {
        return false;
      }
      EnterChild(child);
      return true;
    }

    method EnterChild(child: TrackedSection)
      requires Valid() && child.path in nodes && nodes[child.path] == child
      modifies this`currentSection, this`states, this`log, child`runState
      ensures Valid()
      ensures Model() == Tracker(old(states)[child.path := Started(old(states)[child.path])], child.path,
                                 completedASectionThisRun, old(log) + [Entered(child.path)])
    {
      assert Linked(child.path);
      currentSection := child;
      currentSection.Enter();
      log := log + [Entered(currentSection.path)];
      states := states[currentSection.path := currentSection.runState];
      KeepsLinks(child.path);
    }

    /** A section is left; which one is current does not change. */
    method LeaveNode(section: TrackedSection)
      requires Valid() && section.path in nodes && nodes[section.path] == section
      modifies this`states, section`runState
      ensures Valid() && states == old(states)[section.path := LeftState(old(states), section.path)]
    {
      assert Linked(section.path);
      ChildrenAreNodes(section.path);
      section.Leave();
      states := states[section.path := section.runState];
      KeepsLinks(section.path);
    }

    method LeaveSection()
      requires Valid()
      requires Model().current != []
      modifies this, sections
      ensures Valid() && nodes == old(nodes) && sections == old(sections)
      ensures Model() == TrackerModel.Leave(old(Model()))
    {
      hide Linked, ChildrenCompleted;
      ParentIsNode();
      LeaveNode(currentSection);
      log := log + [Left(currentSection.path)];
      var outer := currentSection.GetParent();
      currentSection := outer;
      completedASectionThisRun := true;
    }

    method CurrentSectionHasChildren() returns (b: bool)
      requires Valid()
      ensures b <==> exists k: Key :: Model().current + [k] in Model().states
    {
      ghost var p := currentSection.path;
      ChildrenAreNodes(p);
      b := currentSection.children != map[];
    }

    method IsCompleted() returns (b: bool)
      requires Valid()
      ensures b <==> Model().states[[]] == Completed
    {
      assert Linked([]);
      b := testCase.runState == Completed;
    }

    method EnterTestCase()
      requires Valid()
      modifies this, sections
      ensures Valid() && nodes == old(nodes) && sections == old(sections)
      ensures Model() == TrackerModel.EnterTestCase(old(Model()))
    {
      assert Linked([]);
      currentSection := testCase;
      completedASectionThisRun := false;
      testCase.Enter();
      states := states[[] := testCase.runState];
      KeepsLinks([]);
    }

    method LeaveTestCase()
      requires Valid()
      modifies this, sections
      ensures Valid() && nodes == old(nodes) && sections == old(sections)
      ensures Model() == TrackerModel.LeaveTestCase(old(Model()))
    {
      assert Linked([]);
      LeaveNode(testCase);
    }
  }
}

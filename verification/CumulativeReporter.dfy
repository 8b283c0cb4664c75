/** The cumulative reporter: section nodes linked to their children, and a stack of the open ones. */
module CumulativeReporting {
  import opened Basics
  import opened SectionTrie
  import opened ReporterShape

  class SectionNode {
    var stats: SectionStats
    var childSections: seq<SectionNode>
    var assertions: seq<int>
    var stdOut: string
    var stdErr: string

    constructor (stats: SectionStats)
      ensures this.stats == stats && childSections == [] && assertions == []
    {
      this.stats := stats;
      childSections, assertions, stdOut, stdErr := [], [], "", "";
    }
  }

  datatype TestCaseStats = TestCaseStats(stdOut: string, stdErr: string)

  datatype TestCaseNode = TestCaseNode(stats: TestCaseStats, rootSection: SectionNode)

  class CumulativeReporter {
    var rootSection: SectionNode?
    var deepestSection: SectionNode?
    var sectionStack: seq<SectionNode>
    var testCases: seq<TestCaseNode>
    /** The nodes of the current test case in the order of their creation, and what they hold. */
    ghost var nodes: seq<SectionNode>
    ghost var shape: Shape

    ghost predicate Valid()
      reads this, nodes
    {
      && Linked()
      && (rootSection != null ==> deepestSection != null && deepestSection in nodes)
    }

    /** The node objects hold the statistics, the children and the assertions of `shape`. */
    ghost predicate Linked()
      reads this, nodes
    {
      && Sound(shape)
      && |nodes| == |shape.nodes|
      && NoRepeats(nodes)
      && (forall i | 0 <= i < |nodes| :: Holds(nodes[i], shape.nodes[i]))
      && Named(sectionStack, shape.stack)
      && (rootSection == if nodes == [] then null else nodes[0])
    }

    ghost predicate Holds(n: SectionNode, v: Node)
      reads this, n
    {
      n.stats == v.stats && n.assertions == v.assertions && Named(n.childSections, v.children)
    }

    /** The objects are those with the given numbers. */
    ghost predicate Named(objects: seq<SectionNode>, numbers: seq<nat>)
      reads this
    {
      && |objects| == |numbers|
      && forall i | 0 <= i < |numbers| :: numbers[i] < |nodes| && objects[i] == nodes[numbers[i]]
    }

    lemma NodesCounted()
      requires Valid()
      ensures |nodes| == |shape.nodes| && |sectionStack| == |shape.stack|
    {
    }

    constructor ()
      ensures Valid() && shape == EMPTY && nodes == [] && testCases == [] && sectionStack == []
    {
      rootSection, deepestSection := null, null;
      sectionStack, testCases := [], [];
      nodes, shape := [], EMPTY;
    }

    method AssertionEnded(assertion: int)
      requires Valid() && sectionStack != []
      modifies this`shape, nodes
      ensures Valid() && shape == Step(old(shape), Assertion(assertion))
    {
      var sectionNode := sectionStack[|sectionStack| - 1];
      sectionNode.assertions := sectionNode.assertions + [assertion];
      shape := Step(shape, Assertion(assertion));
    }

    method SectionEnded(sectionStats: SectionStats)
      requires Valid() && sectionStack != []
      modifies this`shape, this`sectionStack, nodes
      ensures Valid() && shape == Step(old(shape), Ended(sectionStats))
    {
      var node := sectionStack[|sectionStack| - 1];
      node.stats := sectionStats;
      sectionStack := sectionStack[..|sectionStack| - 1];
      shape := Step(shape, Ended(sectionStats));
    }

    /** The first child whose latest statistics carry the given line. */
    method FindChild(parent: SectionNode, ghost number: nat, lineInfo: LineInfo) returns (child: SectionNode?)
      requires Linked() && number < |nodes| && parent == nodes[number]
      ensures var children := shape.nodes[number].children;
              var i := FirstWith(shape.nodes, children, lineInfo);
              child == if i < |children| then nodes[children[i]] else null
    {
      ghost var children := shape.nodes[number].children;
      ghost var first := FirstWith(shape.nodes, children, lineInfo);
      var i := 0;
      while i < |parent.childSections|
        invariant 0 <= i <= first
      {
        assert Holds(parent.childSections[i], shape.nodes[children[i]]);
        if parent.childSections[i].stats.info.lineInfo == lineInfo {
          return parent.childSections[i];
        }
        i := i + 1;
      }
      return null;
    }

    /** The child of the innermost open section for `info`, made if there is none. */
    method AcquireChild(parentNode: SectionNode, info: SectionInfo) returns (node: SectionNode)
      requires Linked() && sectionStack != [] && parentNode == sectionStack[|sectionStack| - 1]
      modifies this`nodes, this`shape, parentNode`childSections
      ensures Linked() && shape == old(shape).(nodes := WithNode(old(shape), info))
      ensures Begins(old(shape), info) < |nodes| && node == nodes[Begins(old(shape), info)]
      ensures old(nodes) <= nodes && forall i | |old(nodes)| <= i < |nodes| :: fresh(nodes[i])
    {
      hide FirstWith, Sound, Linked;
      TopIsNode();
      var child := FindChild(parentNode, shape.stack[|shape.stack| - 1], info.lineInfo);
      if child == null {
        node := AddChild(parentNode, info);
      } else {
        node := child;
      }
    }

    lemma TopIsNode()
      requires Linked() && sectionStack != []
      ensures Sound(shape) && |nodes| == |shape.nodes| && shape.stack != []
      ensures var top := shape.stack[|shape.stack| - 1];
              && top < |nodes| && sectionStack[|sectionStack| - 1] == nodes[top]
              && forall c | c in shape.nodes[top].children :: c < |nodes|
    {
    }

    /** A new last child of the innermost open section. */
    method AddChild(parentNode: SectionNode, info: SectionInfo) returns (node: SectionNode)
      requires Linked() && sectionStack != [] && parentNode == sectionStack[|sectionStack| - 1]
      requires Begins(shape, info) == |nodes|
      modifies this`nodes, this`shape, parentNode`childSections
      ensures Linked() && shape == old(shape).(nodes := WithNode(old(shape), info))
      ensures fresh(node) && nodes == old(nodes) + [node]
    {
      hide FirstWith, Begins;
      node := new SectionNode(Incomplete(info));
      parentNode.childSections := parentNode.childSections + [node];
      nodes := nodes + [node];
      shape := shape.(nodes := WithNode(shape, info));
      forall i | 0 <= i < |nodes| ensures Holds(nodes[i], shape.nodes[i]) {
        if i < |old(nodes)| {
          assert old(Holds(nodes[i], shape.nodes[i]));
        }
      }
    }

    method SectionStarting(info: SectionInfo)
      requires Valid()
      modifies this`rootSection, this`deepestSection, this`sectionStack, this`nodes, this`shape, nodes
      ensures Valid() && shape == Step(old(shape), Starting(info))
      ensures old(nodes) <= nodes && forall i | |old(nodes)| <= i < |nodes| :: fresh(nodes[i])
      ensures sectionStack != [] && deepestSection == sectionStack[|sectionStack| - 1]
    {
      var node: SectionNode;
      ghost var number := Begins(shape, info);
      if sectionStack == [] {
        if rootSection == null {
          rootSection := new SectionNode(Incomplete(info));
          nodes, shape := [rootSection], shape.(nodes := WithNode(shape, info));
        }
        node := rootSection;
      } else {
        node := AcquireChild(sectionStack[|sectionStack| - 1], info);
      }
      Push(node, number);
    }

    /** The last part of the begin of a section. */
    method Push(node: SectionNode, ghost number: nat)
      requires Linked() && number < |nodes| && node == nodes[number]
      modifies this`sectionStack, this`deepestSection, this`shape
      ensures Valid() && shape == old(shape).(stack := old(shape).stack + [number])
      ensures sectionStack == old(sectionStack) + [node] && deepestSection == node
    {
      sectionStack := sectionStack + [node];
      deepestSection := node;
      shape := shape.(stack := shape.stack + [number]);
    }

    /** The finished tree is stored under the test case, the captured output in the section begun last,
        and the next test case starts with no nodes; no stored tree is reachable from then on. */
    method TestCaseEnded(testCaseStats: TestCaseStats)
      requires Valid() && sectionStack == [] && rootSection != null
      modifies this`testCases, this`rootSection, this`nodes, this`shape
      modifies deepestSection`stdOut, deepestSection`stdErr
      ensures Valid() && shape == EMPTY && rootSection == null && nodes == []
      ensures testCases == old(testCases) + [TestCaseNode(testCaseStats, old(nodes)[0])]
      ensures deepestSection.stdOut == testCaseStats.stdOut && deepestSection.stdErr == testCaseStats.stdErr
    {
      var node := TestCaseNode(testCaseStats, rootSection);
      testCases := testCases + [node];
      rootSection := null;
      deepestSection.stdOut := testCaseStats.stdOut;
      deepestSection.stdErr := testCaseStats.stdErr;
      nodes, shape := [], EMPTY;
    }
  }
}

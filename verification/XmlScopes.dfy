/** Scoped elements over any sequence of scopes opened, copied and destroyed on one writer: which
    element each end closes. */
module XmlScopes {
  import opened Basics
  import opened XmlWriting

  /** `Write` is any call on the writer that neither starts nor ends an element. */
  datatype ScopeStep =
    | Open(id: nat, name: string)
    | CopyTo(from: nat, id: nat)
    | Drop(id: nat)
    | Write(call: Call)

  /** `alive` are the scope objects not yet destroyed; `owners` leads from those that still hold the writer
      to the element each was made for. Elements are numbered in opening order, with `names` their names;
      `stack` are the open ones. */
  datatype Scopes = Scopes(alive: set<nat>, owners: map<nat, nat>, names: seq<string>, stack: seq<nat>, writer: Writer)

  const NO_SCOPES := Scopes({}, map[], [], [], FRESH)

  predicate CanStep(s: Scopes, step: ScopeStep) {
    match step
    case Open(id, _) => id !in s.alive
    case CopyTo(from, id) => from in s.alive && id !in s.alive
    case Drop(id) => id in s.alive
    case Write(call) => !call.StartElement? && !call.EndElement?
  }

  /** `None` stands for ending an element when none is open. */
  function Step(s: Scopes, step: ScopeStep): Option<Scopes>
    requires CanStep(s, step)
  {
    match step
    case Open(id, name) =>
      Some(Scopes(s.alive + {id}, s.owners[id := |s.names|], s.names + [name], s.stack + [|s.names|],
                  Started(s.writer, name)))
    case CopyTo(from, id) =>
      Some(s.(alive := s.alive + {id},
              owners := if from in s.owners then (s.owners - {from})[id := s.owners[from]] else s.owners))
    case Drop(id) =>
      var left := s.(alive := s.alive - {id}, owners := s.owners - {id});
      if id !in s.owners then Some(left)
      else if s.stack == [] || s.writer.tags == [] || |s.writer.indent| < 2 then None
      else Some(left.(stack := s.stack[..|s.stack| - 1], writer := Ended(s.writer)))
    case Write(call) => Some(s.(writer := Perform(s.writer, call)))
  }

  // ---------- what every step keeps ----------

  /** The writer's tags are the names of the open elements, which are in opening order. */
  ghost predicate Stacked(s: Scopes) {
    && |s.stack| == |s.writer.tags| && |s.writer.indent| == 2 * |s.writer.tags|
    && (forall i | 0 <= i < |s.stack| :: s.stack[i] < |s.names| && s.writer.tags[i] == s.names[s.stack[i]])
    && (forall i, j | 0 <= i < j < |s.stack| :: s.stack[i] < s.stack[j])
  }

  /** Different owners have different elements, and as many elements are open as there are owners. */
  ghost predicate Sound(s: Scopes) {
    && s.owners.Keys <= s.alive
    && (forall e | e in s.owners.Values :: e < |s.names|)
    && Injective(s.owners) && |s.owners| == |s.stack|
    && Stacked(s)
  }

  /** The open elements are those of the owners, so the tags are the owners' names in opening order. */
  ghost predicate Lined(s: Scopes) {
    forall e :: e in s.stack <==> e in s.owners.Values
  }

  lemma InValues(m: map<nat, nat>, k: nat)
    requires k in m
    ensures m[k] in m.Values
  {
  }

  lemma AddedValues(owners: map<nat, nat>, id: nat, e: nat)
    requires id !in owners
    ensures owners[id := e].Values == owners.Values + {e}
  {
    var t := owners[id := e];
    forall v | v in owners.Values + {e} ensures v in t.Values {
      if v != e {
        var k :| k in owners && owners[k] == v;
        InValues(t, k);
      } else {
        InValues(t, id);
      }
    }
  }

  lemma AddOwner(owners: map<nat, nat>, id: nat, e: nat)
    requires Injective(owners) && id !in owners && e !in owners.Values
    ensures Injective(owners[id := e]) && |owners[id := e]| == |owners| + 1
    ensures owners[id := e].Values == owners.Values + {e}
  {
    AddedValues(owners, id, e);
    assert owners[id := e].Keys == owners.Keys + {id};
    forall k | k in owners ensures owners[k] != e {
      InValues(owners, k);
    }
  }

  lemma RemoveOwner(owners: map<nat, nat>, id: nat)
    requires Injective(owners) && id in owners
    ensures Injective(owners - {id}) && |owners - {id}| == |owners| - 1
    ensures (owners - {id}).Values == owners.Values - {owners[id]}
  {
    var t := owners - {id};
    assert t.Keys == owners.Keys - {id};
    forall v | v in owners.Values && v != owners[id] ensures v in t.Values {
      var k :| k in owners && owners[k] == v;
      InValues(t, k);
    }
  }

  lemma StartedTags(w: Writer, name: string)
    ensures Started(w, name).tags == w.tags + [name] && |Started(w, name).indent| == |w.indent| + 2
  {
  }

  lemma EndedTags(w: Writer)
    requires w.tags != [] && |w.indent| >= 2
    ensures Ended(w).tags == w.tags[..|w.tags| - 1] && |Ended(w).indent| == |w.indent| - 2
  {
  }

  lemma PushedStack(s: Scopes, t: Scopes, name: string)
    requires Stacked(s) && t.stack == s.stack + [|s.names|] && t.names == s.names + [name]
    requires t.writer == Started(s.writer, name)
    ensures Stacked(t)
  {
    hide Started;
    StartedTags(s.writer, name);
  }

  lemma OpenKeeps(s: Scopes, id: nat, name: string)
    requires Sound(s) && id !in s.alive
    ensures var t := Step(s, Open(id, name)).value; Sound(t) && (Lined(s) ==> Lined(t))
  {
    hide Started, Injective, Stacked, Lined;
    AddOwner(s.owners, id, |s.names|);
    var t := Step(s, Open(id, name)).value;
    PushedStack(s, t, name);
    assert Sound(t);
    if Lined(s) {
      LinedGrows(s, t, |s.names|);
    }
  }

  lemma LinedGrows(s: Scopes, t: Scopes, e: nat)
    requires Lined(s) && t.stack == s.stack + [e] && t.owners.Values == s.owners.Values + {e}
    ensures Lined(t)
  {
  }

  lemma CopyKeeps(s: Scopes, from: nat, id: nat)
    requires Sound(s) && from in s.alive && id !in s.alive
    ensures var t := Step(s, CopyTo(from, id)).value; Sound(t) && (Lined(t) <==> Lined(s))
  {
    hide Injective, Stacked;
    var t := Step(s, CopyTo(from, id)).value;
    SameStack(s, t);
    if from in s.owners {
      HandOver(s.owners, from, id);
    }
  }

  lemma HandOver(owners: map<nat, nat>, from: nat, id: nat)
    requires Injective(owners) && from in owners && id !in owners
    ensures var t: map<nat, nat> := (owners - {from})[id := owners[from]];
            Injective(t) && |t| == |owners| && t.Values == owners.Values
  {
    hide Injective;
    RemoveOwner(owners, from);
    AddOwner(owners - {from}, id, owners[from]);
    InValues(owners, from);
  }

  lemma SameStack(s: Scopes, t: Scopes)
    requires Stacked(s) && t.stack == s.stack && t.names == s.names
    requires t.writer.tags == s.writer.tags && |t.writer.indent| == |s.writer.indent|
    ensures Stacked(t)
  {
  }

  lemma PoppedStack(s: Scopes, t: Scopes)
    requires Stacked(s) && s.stack != [] && t.stack == s.stack[..|s.stack| - 1] && t.names == s.names
    requires t.writer == Ended(s.writer)
    ensures Stacked(t)
  {
    hide Ended;
    EndedTags(s.writer);
  }

  lemma DropKeeps(s: Scopes, id: nat)
    requires Sound(s) && id in s.alive
    ensures Step(s, Drop(id)).Some? && Sound(Step(s, Drop(id)).value)
  {
    hide Ended, Injective, Stacked;
    if id in s.owners {
      RemoveOwner(s.owners, id);
      DropPops(s, id);
      var t := Step(s, Drop(id)).value;
      assert |t.stack| == |s.stack| - 1;
    } else {
      assert s.owners - {id} == s.owners;
      SameStack(s, Step(s, Drop(id)).value);
    }
  }

  lemma DropPops(s: Scopes, id: nat)
    requires Sound(s) && id in s.owners
    ensures Step(s, Drop(id)).Some? && s.stack != [] && Stacked(Step(s, Drop(id)).value)
  {
    hide Ended, Injective;
    assert |s.owners| > 0 by {
      assert id in s.owners.Keys;
    }
    PoppedStack(s, Step(s, Drop(id)).value);
  }

  /** Whatever the order of the drops, an end always finds an open element, and every step keeps the books. */
  lemma StepKeepsSound(s: Scopes, step: ScopeStep)
    requires Sound(s) && CanStep(s, step)
    ensures Step(s, step).Some? && Sound(Step(s, step).value)
  {
    match step
    case Open(id, name) => OpenKeeps(s, id, name);
    case CopyTo(from, id) => CopyKeeps(s, from, id);
    case Drop(id) => DropKeeps(s, id);
    case Write(call) =>
  }

  ghost predicate CanRun(s: Scopes, steps: seq<ScopeStep>)
    decreases |steps|
  {
    steps == [] ||
    (CanStep(s, steps[0]) && (Step(s, steps[0]).Some? ==> CanRun(Step(s, steps[0]).value, steps[1..])))
  }

  ghost function Run(s: Scopes, steps: seq<ScopeStep>): Option<Scopes>
    requires CanRun(s, steps)
    decreases |steps|
  {
    if steps == [] then Some(s)
    else match Step(s, steps[0])
         case None => None
         case Some(t) => Run(t, steps[1..])
  }

  /** Over any run no end is missing an open element, as many elements are open as there are scopes that
      hold the writer, and when no scope is left none is open. */
  lemma {:induction false} ScopesEndOnce(s: Scopes, steps: seq<ScopeStep>)
    requires Sound(s) && CanRun(s, steps)
    ensures Run(s, steps).Some? && Sound(Run(s, steps).value)
    ensures Run(s, steps).value.alive == {} ==> Run(s, steps).value.writer.tags == []
    decreases |steps|
  {
    hide Step;
    if steps != [] {
      StepKeepsSound(s, steps[0]);
      ScopesEndOnce(Step(s, steps[0]).value, steps[1..]);
    } else if s.alive == {} {
      assert s.owners == map[];
    }
  }

  // ---------- which element a drop ends ----------

  /** The owner was opened last among the owners. */
  ghost predicate OpenedLast(s: Scopes, id: nat) {
    id in s.owners && forall other | other in s.owners :: s.owners[other] <= s.owners[id]
  }

  /** The last open element is the greatest of them. */
  lemma LastIsGreatest(s: Scopes, id: nat)
    requires Sound(s) && Lined(s) && id in s.owners
    ensures s.stack != [] && (s.stack[|s.stack| - 1] == s.owners[id] <==> OpenedLast(s, id))
  {
    assert s.owners[id] in s.owners.Values && s.owners[id] in s.stack;
    var last := s.stack[|s.stack| - 1];
    assert last in s.stack && last in s.owners.Values;
    var k :| k in s.owners && s.owners[k] == last;
    forall other | other in s.owners ensures s.owners[other] <= last {
      assert s.owners[other] in s.owners.Values && s.owners[other] in s.stack;
    }
  }

  /** While the tags are the owners' names in opening order, a drop ends the element of its own scope if and
      only if that was opened last among the owners; and only then are they still so afterwards. */
  lemma DropEndsOwnIff(s: Scopes, id: nat)
    requires Sound(s) && Lined(s) && id in s.owners
    ensures s.stack != [] && (s.stack[|s.stack| - 1] == s.owners[id] <==> OpenedLast(s, id))
    ensures Step(s, Drop(id)).Some? && (Lined(Step(s, Drop(id)).value) <==> OpenedLast(s, id))
  {
    hide Injective, Ended, OpenedLast;
    LastIsGreatest(s, id);
    RemoveOwner(s.owners, id);
    var own, t := s.owners[id], Step(s, Drop(id)).value;
    var last := s.stack[|s.stack| - 1];
    assert own in s.owners.Values && last in s.stack && last in s.owners.Values;
    assert s.stack == t.stack + [last] && last !in t.stack;
    assert t.owners.Values == s.owners.Values - {own};
    if last != own {
      assert last in t.owners.Values;
    }
  }

  /** Every drop of a scope that holds the writer is of the one opened last among them. */
  ghost predicate LastFirst(s: Scopes, steps: seq<ScopeStep>)
    requires CanRun(s, steps)
    decreases |steps|
  {
    steps == [] ||
    (&& (steps[0].Drop? && steps[0].id in s.owners ==> OpenedLast(s, steps[0].id))
     && (Step(s, steps[0]).Some? ==> LastFirst(Step(s, steps[0]).value, steps[1..])))
  }

  ghost predicate AlwaysLined(s: Scopes, steps: seq<ScopeStep>)
    requires CanRun(s, steps)
    decreases |steps|
  {
    Lined(s) && (steps != [] && Step(s, steps[0]).Some? ==> AlwaysLined(Step(s, steps[0]).value, steps[1..]))
  }

  /** Over a whole run the tags are always the owners' names in opening order if and only if scopes that hold
      the writer are dropped in the reverse of that order. */
  lemma {:induction false} LinedIffLastFirst(s: Scopes, steps: seq<ScopeStep>)
    requires Sound(s) && Lined(s) && CanRun(s, steps)
    ensures AlwaysLined(s, steps) <==> LastFirst(s, steps)
    decreases |steps|
  {
    hide Sound, Lined, OpenedLast, Step;
    if steps != [] {
      var step := steps[0];
      StepKeepsSound(s, step);
      var t := Step(s, step).value;
      if step.Drop? && step.id in s.owners {
        DropEndsOwnIff(s, step.id);
        LinedAtStart(t, steps[1..]);
      } else {
        OthersKeepLined(s, step);
      }
      if Lined(t) {
        LinedIffLastFirst(t, steps[1..]);
      }
    }
  }

  /** Every drop of a scope that holds the writer ends the element that scope was made for. */
  ghost predicate OwnEnds(s: Scopes, steps: seq<ScopeStep>)
    requires CanRun(s, steps)
    decreases |steps|
  {
    steps == [] ||
    (&& (steps[0].Drop? && steps[0].id in s.owners ==>
           s.stack != [] && s.stack[|s.stack| - 1] == s.owners[steps[0].id])
     && (Step(s, steps[0]).Some? ==> OwnEnds(Step(s, steps[0]).value, steps[1..])))
  }

  /** So over a whole run every scope ends its own element if and only if scopes that hold the writer are
      dropped in the reverse of their opening order. */
  lemma {:induction false} OwnEndsIffLastFirst(s: Scopes, steps: seq<ScopeStep>)
    requires Sound(s) && Lined(s) && CanRun(s, steps)
    ensures OwnEnds(s, steps) <==> LastFirst(s, steps)
    decreases |steps|
  {
    hide Sound, Lined, OpenedLast, Step;
    if steps != [] {
      var step := steps[0];
      StepKeepsSound(s, step);
      var t := Step(s, step).value;
      if step.Drop? && step.id in s.owners {
        DropEndsOwnIff(s, step.id);
      } else {
        OthersKeepLined(s, step);
      }
      if Lined(t) {
        OwnEndsIffLastFirst(t, steps[1..]);
      }
    }
  }

  lemma LinedAtStart(s: Scopes, steps: seq<ScopeStep>)
    requires CanRun(s, steps)
    ensures AlwaysLined(s, steps) ==> Lined(s)
  {
  }

  lemma OthersKeepLined(s: Scopes, step: ScopeStep)
    requires Sound(s) && Lined(s) && CanStep(s, step)
    requires step.Drop? ==> step.id !in s.owners
    ensures Step(s, step).Some? && Lined(Step(s, step).value)
  {
    match step
    case Open(id, name) => OpenKeeps(s, id, name);
    case CopyTo(from, id) => CopyKeeps(s, from, id);
    case Drop(id) => assert s.owners - {id} == s.owners;
    case Write(call) =>
  }

  /** Two scopes dropped in the order they were opened: the outer one writes the end of the inner one. */
  lemma OutOfOrder()
    ensures var steps := [Open(0, "a"), Open(1, "b"), Drop(0)];
            CanRun(NO_SCOPES, steps) && Run(NO_SCOPES, steps).Some?
            && Run(NO_SCOPES, steps).value.writer.tags == ["a"] && Run(NO_SCOPES, steps).value.owners == map[1 := 1]
  {
    var s := Step(NO_SCOPES, Open(0, "a")).value;
    var t := Step(s, Open(1, "b")).value;
    assert t.writer.tags == ["a", "b"] && |t.writer.indent| == 4;
    var u := Step(t, Drop(0)).value;
    assert u.writer.tags == ["a"];
    var steps := [Open(0, "a"), Open(1, "b"), Drop(0)];
    assert steps[1..] == [Open(1, "b"), Drop(0)] && steps[1..][1..] == [Drop(0)] && steps[1..][1..][1..] == [];
    assert Run(t, [Drop(0)]) == Some(u);
  }
}

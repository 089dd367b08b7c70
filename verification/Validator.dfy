/** The pipeline checks that concern the graph (api/pkg/dsl/validator.go, validateCross and validateDAG),
    and how they relate to the graph the engine builds. */
module Validator {
  import opened Sequences
  import opened Digraphs
  import opened Pipelines
  import opened Dags
  import opened Cycles
  import opened Rotations
  import opened Strings

  // ---- validateCross ----

  /** `stage` and `need` are positions; `first` is where a repeated id was first used. */
  datatype CrossError =
    | DuplicateID(stage: nat, first: nat)
    | UnknownNeed(stage: nat, need: nat)
    | SelfNeed(stage: nat, need: nat)

  function StageIDs(stages: seq<Stage>): set<NodeID> {
    set s | s in stages && s.id != "" :: s.id
  }

  predicate UniqueIDs(stages: seq<Stage>) {
    forall i, j :: 0 <= i < j < |stages| && stages[i].id != "" ==> stages[i].id != stages[j].id
  }

  predicate NeedsKnown(stages: seq<Stage>) {
    forall s, n :: s in stages && n in s.needs ==> n in StageIDs(stages) && n != s.id
  }

  /** The error `e` is there in the pipeline. */
  predicate Faulty(stages: seq<Stage>, e: CrossError) {
    && e.stage < |stages|
    && match e
       case DuplicateID(i, first) => stages[i].id != "" && first < i && FirstUse(stages, stages[i].id, first)
       case UnknownNeed(i, k) => k < |stages[i].needs| && stages[i].needs[k] !in StageIDs(stages)
       case SelfNeed(i, k) => k < |stages[i].needs| && stages[i].needs[k] == stages[i].id
  }

  /** `ids` has the first use of every id among the first `n` stages. */
  ghost predicate FirstUses(stages: seq<Stage>, n: nat, ids: map<NodeID, nat>)
    requires n <= |stages|
  {
    && (forall j :: 0 <= j < n && stages[j].id != "" ==> stages[j].id in ids)
    && (forall id :: id in ids ==> id != "" && ids[id] < n && FirstUse(stages, id, ids[id]))
  }

  /** Every error that is there is reported, and nothing else; so nothing is reported exactly when ids are
      unique and every need names another stage. */
  method ValidateCross(stages: seq<Stage>) returns (errs: seq<CrossError>)
    ensures forall e :: e in errs <==> Faulty(stages, e)
    ensures errs == [] <==> UniqueIDs(stages) && NeedsKnown(stages)
  {
    errs := [];
    var ids: map<NodeID, nat> := map[];
    for i := 0 to |stages|
      invariant FirstUses(stages, i, ids)
      invariant forall e :: e in errs <==> e.DuplicateID? && e.stage < i && Faulty(stages, e)
    {
      var s := stages[i];
      if s.id == "" {
        continue;
      }
      if s.id in ids {
        OnlyFirst(stages, s.id, ids[s.id]);
        errs := errs + [DuplicateID(i, ids[s.id])];
        continue;
      }
      ids := ids[s.id := i];
    }
    var more := CheckNeeds(stages, ids);
    errs := errs + more;
    NoFault(stages, errs);
  }

  lemma OnlyFirst(stages: seq<Stage>, id: NodeID, first: nat)
    requires FirstUse(stages, id, first)
    ensures forall m: nat :: FirstUse(stages, id, m) ==> m == first
  {
  }

  /** The second pass of validateCross. */
  method CheckNeeds(stages: seq<Stage>, ids: map<NodeID, nat>) returns (errs: seq<CrossError>)
    requires FirstUses(stages, |stages|, ids)
    ensures forall e :: e in errs <==> !e.DuplicateID? && Faulty(stages, e)
  {
    errs := [];
    KnownIDs(stages, ids);
    for i := 0 to |stages|
      invariant forall e :: e in errs <==> !e.DuplicateID? && e.stage < i && Faulty(stages, e)
    {
      var needs := stages[i].needs;
      for k := 0 to |needs|
        invariant forall e :: e in errs <==>
                    !e.DuplicateID? && (e.stage < i || (e.stage == i && e.need < k)) && Faulty(stages, e)
      {
        if needs[k] !in ids {
          errs := errs + [UnknownNeed(i, k)];
        }
        if needs[k] == stages[i].id {
          errs := errs + [SelfNeed(i, k)];
        }
      }
    }
  }

  lemma KnownIDs(stages: seq<Stage>, ids: map<NodeID, nat>)
    requires FirstUses(stages, |stages|, ids)
    ensures forall id :: id in ids <==> id in StageIDs(stages)
  {
    forall id | id in StageIDs(stages) ensures id in ids {
      var s :| s in stages && s.id == id && s.id != "";
      var j :| 0 <= j < |stages| && stages[j] == s;
    }
    forall id | id in ids ensures id in StageIDs(stages) {
      assert stages[ids[id]] in stages;
    }
  }

  lemma {:induction false} FirstUseExists(stages: seq<Stage>, id: NodeID, j: nat) returns (first: nat)
    requires j < |stages| && stages[j].id == id
    ensures first <= j && FirstUse(stages, id, first)
  {
    if m :| 0 <= m < j && stages[m].id == id {
      first := FirstUseExists(stages, id, m);
    } else {
      first := j;
    }
  }

  lemma RepeatIsFaulty(stages: seq<Stage>, i: nat, j: nat)
    requires i < j < |stages| && stages[i].id == stages[j].id != ""
    ensures exists e :: Faulty(stages, e)
  {
    var first := FirstUseExists(stages, stages[j].id, i);
    assert Faulty(stages, DuplicateID(j, first));
  }

  lemma NoFault(stages: seq<Stage>, errs: seq<CrossError>)
    requires forall e :: e in errs <==> Faulty(stages, e)
    ensures errs == [] <==> UniqueIDs(stages) && NeedsKnown(stages)
  {
    if errs == [] {
      assert forall e :: !Faulty(stages, e);
      NothingFaulty(stages);
    } else {
      assert Faulty(stages, errs[0]);
      FaultBreaks(stages, errs[0]);
    }
  }

  lemma NothingFaulty(stages: seq<Stage>)
    requires forall e :: !Faulty(stages, e)
    ensures UniqueIDs(stages) && NeedsKnown(stages)
  {
    forall i, j | 0 <= i < j < |stages| && stages[i].id != "" ensures stages[i].id != stages[j].id {
      if stages[i].id == stages[j].id {
        RepeatIsFaulty(stages, i, j);
      }
    }
    forall s, n | s in stages && n in s.needs ensures n in StageIDs(stages) && n != s.id {
      var i: nat :| i < |stages| && stages[i] == s;
      var k: nat :| k < |s.needs| && s.needs[k] == n;
      assert !Faulty(stages, UnknownNeed(i, k)) && !Faulty(stages, SelfNeed(i, k));
    }
  }

  lemma FaultBreaks(stages: seq<Stage>, e: CrossError)
    requires Faulty(stages, e)
    ensures !(UniqueIDs(stages) && NeedsKnown(stages))
  {
    var s := stages[e.stage];
    match e {
      case DuplicateID(_, first) => assert stages[first].id == s.id;
      case UnknownNeed(_, k) => assert s.needs[k] in s.needs;
      case SelfNeed(_, k) =>
        var n := s.needs[k];
        assert s in stages && n in s.needs && (n in StageIDs(stages) || n !in StageIDs(stages));
    }
  }

  // ---- validateDAG ----

  /** What a stage needs among the existing ids, itself included; stages with the same id are merged. */
  function NeedsOf(ids: set<NodeID>, stages: seq<Stage>, id: NodeID): seq<NodeID> {
    if stages == [] then []
    else
      var prev, s := NeedsOf(ids, stages[..|stages| - 1], id), stages[|stages| - 1];
      if s.id == id then prev + Select(s.needs, ids) else prev
  }

  function NeedsGraph(stages: seq<Stage>): Digraph {
    map id | id in StageIDs(stages) :: NeedsOf(StageIDs(stages), stages, id)
  }

  lemma {:induction false} NeedsOfMembers(ids: set<NodeID>, stages: seq<Stage>, id: NodeID)
    ensures forall n :: n in NeedsOf(ids, stages, id) <==>
              n in ids && exists s :: s in stages && s.id == id && n in s.needs
  {
    if stages != [] {
      NeedsOfMembers(ids, stages[..|stages| - 1], id);
      assert stages == stages[..|stages| - 1] + [stages[|stages| - 1]];
    }
  }

  /** validateDAG's search. Unlike DetectCycles it stops a search at the first cycle, without
      unwinding the stack and the colours; `clean` says that this has not happened yet. */
  class NeedsSearch {
    const graph: Digraph
    var color: map<NodeID, Color>
    var stack: seq<NodeID>
    ghost var finished: seq<NodeID>

    function ColorOf(id: NodeID): Color
      reads this
    {
      if id in color then color[id] else White
    }

    ghost predicate Valid()
      reads this
    {
      && Closed(graph)
      && (forall id :: id in color ==> id in graph && color[id] != White)
      && Distinct(stack)
      && (forall id :: id in stack <==> ColorOf(id) == Gray)
    }

    ghost predicate Clean()
      reads this
    {
      && Linked(graph, stack)
      && FinishOrder(graph, finished)
      && (forall id :: id in finished <==> ColorOf(id) == Black)
    }

    constructor (g: Digraph)
      requires Closed(g)
      ensures Valid() && Clean() && graph == g && color == map[] && stack == []
    {
      graph := g;
      color, stack, finished := map[], [], [];
    }

    /** Search from a white node; the result is the first cycle met. */
    method Dfs(id: NodeID, ghost clean: bool) returns (cycle: Option<seq<NodeID>>)
      requires Valid() && id in graph && ColorOf(id) == White
      requires clean ==> Clean() && (stack != [] ==> Edge(graph, stack[|stack| - 1], id))
      modifies this
      ensures Valid()
      ensures forall x :: x in old(color) ==> x in color
      ensures cycle.None? ==> stack == old(stack) && ColorOf(id) == Black
      ensures cycle.None? ==> forall x :: x in old(color) ==> color[x] == old(color[x])
      ensures clean && cycle.None? ==> Clean()
      ensures clean && cycle.Some? ==> Cycle(graph, cycle.value)
      ensures id in color
      decreases graph.Keys - color.Keys
    {
      hide FinishOrder, Linked, Distinct;
      Enter(id, clean);
      var deps := graph[id];
      for i := 0 to |deps|
        invariant Valid() && stack == old(stack) + [id]
        invariant id in color && color[id] == Gray
        invariant forall x :: x in old(color) ==> x in color && color[x] == old(color[x])
        invariant clean ==> Clean() && forall j :: 0 <= j < i ==> ColorOf(deps[j]) == Black
      {
        var dep := deps[i];
        assert Edge(graph, id, dep);
        match ColorOf(dep) {
          case Gray =>
            var path := StackFrom(dep, clean);
            return Some(path);
          case White =>
            var c := Dfs(dep, clean);
            if c != None {
              return c;
            }
          case Black =>
        }
      }
      Leave(id, clean);
      return None;
    }

    method Enter(id: NodeID, ghost clean: bool)
      requires Valid() && id in graph && ColorOf(id) == White
      requires clean ==> Clean() && (stack != [] ==> Edge(graph, stack[|stack| - 1], id))
      modifies `color, `stack
      ensures Valid() && (clean ==> Clean())
      ensures stack == old(stack) + [id] && color == old(color)[id := Gray]
    {
      color := color[id := Gray];
      stack := stack + [id];
    }

    method Leave(id: NodeID, ghost clean: bool)
      requires Valid() && stack != [] && stack[|stack| - 1] == id && id in graph
      requires clean ==> Clean() && forall x :: x in graph[id] ==> ColorOf(x) == Black
      modifies `color, `stack, `finished
      ensures Valid() && (clean ==> Clean())
      ensures stack == old(stack)[..|old(stack)| - 1] && color == old(color)[id := Black]
    {
      ghost var below := stack[..|stack| - 1];
      assert stack == below + [id];
      assert forall x :: x in below <==> x in stack && x != id;
      color := color[id := Black];
      stack := stack[..|stack| - 1];
      ghost var n := |finished|;
      finished := finished + [id];
      if clean {
        forall i, b | 0 <= i < |finished| && Edge(graph, finished[i], b) ensures b in finished[..i] {
          if i < n {
            assert finished[..i] == old(finished)[..i];
          } else {
            assert finished[..i] == old(finished);
          }
        }
      }
    }

    /** The part of the stack from a gray node, closed. */
    method StackFrom(dep: NodeID, ghost clean: bool) returns (path: seq<NodeID>)
      requires Valid() && ColorOf(dep) == Gray && stack != []
      requires clean ==> Clean() && Edge(graph, stack[|stack| - 1], dep)
      ensures clean ==> Cycle(graph, path)
    {
      var idx := 0;
      while stack[idx] != dep
        invariant 0 <= idx < |stack|
        invariant dep in stack[idx..]
        decreases |stack| - idx
      {
        idx := idx + 1;
      }
      path := stack[idx..] + [dep];
      if clean {
        SuffixCycle(graph, stack, idx);
      }
    }
  }

  /** The reported cycles; their text is only meaningful for the first one. */
  method ValidateDAG(stages: seq<Stage>) returns (errs: seq<seq<NodeID>>)
    ensures errs == [] <==> Acyclic(NeedsGraph(stages))
    ensures errs != [] ==> Cycle(NeedsGraph(stages), errs[0])
  {
    errs := [];
    var g := NeedsGraph(stages);
    NeedsGraphClosed(stages);
    if |stages| == 0 {
      NoStages(stages);
      return;
    }
    var search := new NeedsSearch(g);
    var todo := g.Keys;
    var reported: set<string> := {};
    while todo != {}
      invariant search.Valid() && search.graph == g && fresh(search)
      invariant todo <= g.Keys && forall id :: id in g && id !in todo ==> id in search.color
      invariant errs == [] ==> search.Clean() && search.stack == []
      invariant errs != [] ==> Cycle(g, errs[0])
      invariant errs == [] ==> reported == {}
      decreases todo
    {
      var id :| id in todo;
      if search.ColorOf(id) == White {
        var cycle := search.Dfs(id, errs == []);
        if cycle.Some? {
          var key := Join(cycle.value, "\U{2192}");
          if key !in reported {
            reported := reported + {key};
            errs := errs + [cycle.value];
          }
        }
      }
      todo := todo - {id};
    }
    if errs == [] {
      forall a | a in g ensures a in search.finished {
        assert a !in search.stack;
      }
      FinishOrderAcyclic(g, search.finished);
    }
  }

  lemma NeedsGraphClosed(stages: seq<Stage>)
    ensures Closed(NeedsGraph(stages))
  {
    var g := NeedsGraph(stages);
    forall a, b | a in g && b in g[a] ensures b in g {
      NeedsOfMembers(StageIDs(stages), stages, a);
    }
  }

  lemma NoStages(stages: seq<Stage>)
    requires stages == []
    ensures Acyclic(NeedsGraph(stages))
  {
    assert NeedsGraph(stages) == map[];
    FinishOrderAcyclic(NeedsGraph(stages), []);
  }

  // ---- The validator and the engine ----

  ghost predicate NoSelfNeed(stages: seq<Stage>) {
    forall s :: s in stages && s.id != "" ==> s.id !in s.needs
  }

  /** Whatever the ids, every edge of the engine's graph is one the validator sees. */
  lemma EngineEdges(stages: seq<Stage>, a: NodeID, b: NodeID)
    requires Edge(DagOf(stages).Needs(), b, a)
    ensures Edge(NeedsGraph(stages), b, a) && a != b
  {
    DagEdges(stages, a, b);
    FirstIdsNames(stages);
    NeedsOfMembers(StageIDs(stages), stages, b);
    var s, t := FirstStages(stages)[b], FirstStages(stages)[a];
    assert s in stages && s.id == b && t in stages && t.id == a;
  }

  lemma {:induction false} FirstIsOnly(stages: seq<Stage>, s: Stage)
    requires UniqueIDs(stages) && s in stages && s.id != ""
    ensures s.id in FirstStages(stages) && FirstStages(stages)[s.id] == s
  {
    var n := |stages| - 1;
    FirstIdsNames(stages[..n]);
    UniqueBefore(stages);
    hide UniqueIDs;
    assert stages == stages[..n] + [stages[n]];
    if s in stages[..n] {
      FirstIsOnly(stages[..n], s);
    }
  }

  lemma UniqueBefore(stages: seq<Stage>)
    requires UniqueIDs(stages) && stages != []
    ensures var n := |stages| - 1;
            UniqueIDs(stages[..n]) && forall t :: t in stages[..n] && t.id != "" ==> t.id != stages[n].id
  {
    var n := |stages| - 1;
    forall t | t in stages[..n] && t.id != "" ensures t.id != stages[n].id {
      var j :| 0 <= j < n && stages[j] == t;
      assert stages[j].id != stages[n].id;
    }
  }

  /** With unique ids the only edges the engine drops are self-needs. */
  lemma ValidatorEdges(stages: seq<Stage>, a: NodeID, b: NodeID)
    requires UniqueIDs(stages) && Edge(NeedsGraph(stages), b, a) && a != b
    ensures Edge(DagOf(stages).Needs(), b, a)
  {
    NeedsOfMembers(StageIDs(stages), stages, b);
    var s :| s in stages && s.id == b && a in s.needs;
    var t :| t in stages && t.id == a && t.id != "";
    FirstIsOnly(stages, s);
    FirstIsOnly(stages, t);
    DagEdges(stages, a, b);
  }

  /** What validateDAG accepts has no cycle in the engine, even with duplicate ids. */
  lemma AcceptedIsAcyclic(stages: seq<Stage>)
    requires Acyclic(NeedsGraph(stages))
    ensures NoSelfNeed(stages) && Acyclic(DagOf(stages).Needs())
  {
    forall s | s in stages && s.id != "" ensures s.id !in s.needs {
      if s.id in s.needs {
        NeedsOfMembers(StageIDs(stages), stages, s.id);
        assert Cycle(NeedsGraph(stages), [s.id, s.id]);
        assert false;
      }
    }
    forall p | Cycle(DagOf(stages).Needs(), p) ensures false {
      CycleKept(stages, p);
    }
  }

  lemma CycleKept(stages: seq<Stage>, p: seq<NodeID>)
    requires Cycle(DagOf(stages).Needs(), p)
    ensures Cycle(NeedsGraph(stages), p)
  {
    var g, h := DagOf(stages).Needs(), NeedsGraph(stages);
    forall i, j | 0 <= i < |p| && j == i + 1 && j < |p| ensures Edge(h, p[i], p[j]) {
      assert Edge(g, p[i], p[j]);
      EngineEdges(stages, p[j], p[i]);
    }
    assert Edge(h, p[0], p[1]);
  }

  /** With unique ids validateDAG reports nothing exactly when no stage needs itself and the engine's
      graph has no cycle, although they search opposite directions. */
  lemma ValidatorAgrees(stages: seq<Stage>)
    requires UniqueIDs(stages)
    ensures Acyclic(NeedsGraph(stages)) <==> NoSelfNeed(stages) && Acyclic(DagOf(stages).Feeds())
  {
    DagWellFormed(stages);
    FeedsReverseNeeds(DagOf(stages));
    if Acyclic(NeedsGraph(stages)) {
      AcceptedIsAcyclic(stages);
    }
    if NoSelfNeed(stages) && Acyclic(DagOf(stages).Needs()) {
      forall p | Cycle(NeedsGraph(stages), p) ensures false {
        CycleReflected(stages, p);
      }
    }
  }

  lemma CycleReflected(stages: seq<Stage>, p: seq<NodeID>)
    requires UniqueIDs(stages) && NoSelfNeed(stages) && Cycle(NeedsGraph(stages), p)
    ensures Cycle(DagOf(stages).Needs(), p)
  {
    var g, h := NeedsGraph(stages), DagOf(stages).Needs();
    forall i, j | 0 <= i < |p| && j == i + 1 && j < |p| ensures Edge(h, p[i], p[j]) {
      assert Edge(g, p[i], p[j]);
      NeedsOfMembers(StageIDs(stages), stages, p[i]);
      ValidatorEdges(stages, p[j], p[i]);
    }
    assert Edge(h, p[0], p[1]);
  }

  lemma FirstOfTwoWins(a: Stage, b: Stage, a': Stage)
    requires a.id == a'.id == "a" && b.id == "b"
    ensures FirstStages([a, b, a']) == map["a" := a, "b" := b]
  {
    assert [a, b, a'][..2] == [a, b] && [a, b][..1] == [a] && [a][..0] == [];
    assert "a"[0] != "b"[0];
    assert FirstStages([a]) == map["a" := a];
    assert FirstStages([a, b]) == map["a" := a, "b" := b];
  }

  /** Uniqueness is needed: here validateDAG reports a cycle and the engine, which keeps the first of
      two stages with the same id, finds none. */
  lemma DuplicateIDsDisagree(a: Stage, b: Stage, a': Stage)
    requires a.id == a'.id == "a" && b.id == "b" && a.needs == [] && b.needs == ["a"] && a'.needs == ["b"]
    ensures !Acyclic(NeedsGraph([a, b, a'])) && Acyclic(DagOf([a, b, a']).Feeds())
  {
    var stages := [a, b, a'];
    CycleOfTwo(a, b, a');
    hide NeedsGraph, DagOf, WellFormed;
    DagWellFormed(stages);
    FeedsReverseNeeds(DagOf(stages));
    FirstOfTwoWins(a, b, a');
    TwoNodes(stages, a, b);
    OneEdge(stages, a, b);
    FinishOrderAcyclic(DagOf(stages).Needs(), ["a", "b"]);
  }

  lemma OneEdge(stages: seq<Stage>, a: Stage, b: Stage)
    requires FirstStages(stages) == map["a" := a, "b" := b] && a.needs == [] && b.needs == ["a"]
    ensures FinishOrder(DagOf(stages).Needs(), ["a", "b"])
  {
    hide DagOf;
    var g, fin := DagOf(stages).Needs(), ["a", "b"];
    forall i, x | 0 <= i < |fin| && Edge(g, fin[i], x) ensures x in fin[..i] {
      DagEdges(stages, x, fin[i]);
      assert fin[..1] == ["a"];
    }
  }

  lemma CycleOfTwo(a: Stage, b: Stage, a': Stage)
    requires a.id == a'.id == "a" && b.id == "b" && b.needs == ["a"] && a'.needs == ["b"]
    ensures Cycle(NeedsGraph([a, b, a']), ["a", "b", "a"])
  {
    var stages := [a, b, a'];
    NeedsOfMembers(StageIDs(stages), stages, "a");
    NeedsOfMembers(StageIDs(stages), stages, "b");
    assert stages[0] in stages && stages[1] in stages && stages[2] in stages;
  }

  lemma TwoNodes(stages: seq<Stage>, a: Stage, b: Stage)
    requires FirstStages(stages) == map["a" := a, "b" := b]
    ensures forall id :: id in DagOf(stages).Needs() ==> id in ["a", "b"]
    ensures Closed(DagOf(stages).Needs())
  {
    DagWellFormed(stages);
  }

  /** A pipeline that both checks accept loses no edge in the engine and has no cycle there. */
  lemma AcceptedPipeline(stages: seq<Stage>)
    requires UniqueIDs(stages) && NeedsKnown(stages) && Acyclic(NeedsGraph(stages))
    ensures Acyclic(DagOf(stages).Feeds())
    ensures forall s, n :: s in stages && s.id != "" && n in s.needs ==> Edge(DagOf(stages).Needs(), s.id, n)
  {
    ValidatorAgrees(stages);
    forall s, n | s in stages && s.id != "" && n in s.needs ensures Edge(DagOf(stages).Needs(), s.id, n) {
      NeedsOfMembers(StageIDs(stages), stages, s.id);
      assert Edge(NeedsGraph(stages), s.id, n);
      ValidatorEdges(stages, n, s.id);
    }
  }
}

/** Expanding a whole pipeline (api/pkg/engine/matrix.go, ExpandPipeline) preserves its graph. */
module MatrixGraph {
  import opened Sequences
  import opened Strings
  import opened Digraphs
  import opened Pipelines
  import opened Dags
  import opened Matrix
  import opened Validator

  // ---- ExpandPipeline ----

  function Names(stages: seq<Stage>): (r: seq<string>)
    ensures |r| == |stages| && forall i :: 0 <= i < |r| ==> r[i] == stages[i].id
  {
    seq(|stages|, i requires 0 <= i < |stages| => stages[i].id)
  }

  function Flatten(inst: seq<seq<Stage>>): seq<Stage> {
    if inst == [] then [] else Flatten(inst[..|inst| - 1]) + inst[|inst| - 1]
  }

  /** From a stage id to its instance ids. */
  function Expansion(stages: seq<Stage>, inst: seq<seq<Stage>>): map<string, seq<string>>
    requires |inst| == |stages|
  {
    if stages == [] then map[]
    else
      var n := |stages| - 1;
      Expansion(stages[..n], inst[..n])[stages[n].id := Names(inst[n])]
  }

  /** Append what is not in the list yet. */
  function AddNew(list: seq<string>, more: seq<string>): seq<string> {
    if more == [] then list
    else
      var prev, e := AddNew(list, more[..|more| - 1]), more[|more| - 1];
      if e in prev then prev else prev + [e]
  }

  function Targets(exp: map<string, seq<string>>, dep: string): seq<string> {
    if dep in exp then exp[dep] else [dep]
  }

  function Rewire(exp: map<string, seq<string>>, needs: seq<string>): seq<string> {
    if needs == [] then []
    else AddNew(Rewire(exp, needs[..|needs| - 1]), Targets(exp, needs[|needs| - 1]))
  }

  function Rewired(exp: map<string, seq<string>>, stages: seq<Stage>): (r: seq<Stage>)
    ensures |r| == |stages|
    ensures forall i :: 0 <= i < |r| ==> r[i] == stages[i].(needs := Rewire(exp, stages[i].needs))
  {
    seq(|stages|, i requires 0 <= i < |stages| => stages[i].(needs := Rewire(exp, stages[i].needs)))
  }

  /** `inst` lists the instances of each stage. */
  ghost predicate Expanded(stages: seq<Stage>, inst: seq<seq<Stage>>) {
    |inst| == |stages| && forall i :: 0 <= i < |stages| ==> ExpandedStage(stages[i]) == Some(inst[i])
  }

  function Output(stages: seq<Stage>, inst: seq<seq<Stage>>): (r: seq<Stage>)
    requires |inst| == |stages|
  {
    Rewired(Expansion(stages, inst), Flatten(inst))
  }

  method ExpandPipeline(stages: seq<Stage>) returns (r: Option<seq<Stage>>, ghost inst: seq<seq<Stage>>)
    ensures r.None? <==> exists s :: s in stages && ExpandedStage(s) == None
    ensures r.Some? ==> Expanded(stages, inst) && r.value == Output(stages, inst)
  {
    hide ExpandedStage;
    var expansion: map<string, seq<string>> := map[];
    var all: seq<Stage> := [];
    inst := [];
    for i := 0 to |stages|
      invariant |inst| == i && forall j :: 0 <= j < i ==> ExpandedStage(stages[j]) == Some(inst[j])
      invariant expansion == Expansion(stages[..i], inst) && all == Flatten(inst)
    {
      var instances := ExpandMatrix(stages[i]);
      if instances.None? {
        assert stages[i] in stages;
        return None, inst;
      }
      assert stages[..i + 1][..i] == stages[..i] && (inst + [instances.value])[..i] == inst;
      expansion := expansion[stages[i].id := Names(instances.value)];
      all := all + instances.value;
      inst := inst + [instances.value];
    }
    assert stages[..|stages|] == stages;
    var out := RewireAll(expansion, all);
    return Some(out), inst;
  }

  method RewireAll(expansion: map<string, seq<string>>, all: seq<Stage>) returns (out: seq<Stage>)
    ensures out == Rewired(expansion, all)
  {
    out := [];
    for i := 0 to |all|
      invariant out == Rewired(expansion, all)[..i]
    {
      if |all[i].needs| == 0 {
        out := out + [all[i]];
        continue;
      }
      var needs := RewireNeeds(expansion, all[i].needs);
      out := out + [all[i].(needs := needs)];
    }
  }

  method RewireNeeds(exp: map<string, seq<string>>, needs: seq<string>) returns (r: seq<string>)
    ensures r == Rewire(exp, needs) && FirstsOf(Mentions(exp, needs), r)
  {
    RewireFirsts(exp, needs);
    hide FirstsOf;
    r := [];
    var seen: set<string> := {};
    for i := 0 to |needs|
      invariant r == Rewire(exp, needs[..i]) && seen == Elements(r)
    {
      var targets := if needs[i] in exp then exp[needs[i]] else [needs[i]];
      ghost var before := r;
      for m := 0 to |targets|
        invariant r == AddNew(before, targets[..m]) && seen == Elements(r)
      {
        assert targets[..m + 1][..m] == targets[..m];
        if targets[m] !in seen {
          r := r + [targets[m]];
          seen := seen + {targets[m]};
        }
      }
      assert targets[..|targets|] == targets && needs[..i + 1][..i] == needs[..i];
    }
    assert needs[..|needs|] == needs;
  }

  /** Every id that the needs stand for, in their order. */
  function Mentions(exp: map<string, seq<string>>, needs: seq<string>): seq<string> {
    if needs == [] then []
    else
      Mentions(exp, needs[..|needs| - 1]) +
      if needs[|needs| - 1] in exp then exp[needs[|needs| - 1]] else [needs[|needs| - 1]]
  }

  lemma {:induction false} AddNewFirsts(s: seq<string>, list: seq<string>, more: seq<string>)
    requires FirstsOf(s, list)
    ensures FirstsOf(s + more, AddNew(list, more))
  {
    hide FirstsOf;
    if more == [] {
      assert s + more == s;
    } else {
      var n := |more| - 1;
      AddNewFirsts(s, list, more[..n]);
      FirstsMore(s + more[..n], AddNew(list, more[..n]), more[n]);
      assert s + more == s + more[..n] + [more[n]];
    }
  }

  /** The rewired needs are these ids, each once, in the order in which they come first. */
  lemma {:induction false} RewireFirsts(exp: map<string, seq<string>>, needs: seq<string>)
    ensures FirstsOf(Mentions(exp, needs), Rewire(exp, needs))
  {
    if needs == [] {
      FirstsNone<string>();
    } else {
      var n := |needs| - 1;
      RewireFirsts(exp, needs[..n]);
      AddNewFirsts(Mentions(exp, needs[..n]), Rewire(exp, needs[..n]), Targets(exp, needs[n]));
    }
  }

  // ---- Instances ----

  /** What ExpandMatrix makes of a stage: at least one copy, with the same needs and different ids. */
  lemma InstanceShape(s: Stage, r: seq<Stage>)
    requires ExpandedStage(s) == Some(r)
    ensures r != [] && forall k :: 0 <= k < |r| ==>
              r[k].needs == s.needs && r[k].id == if HasMatrix(s) then MatrixSuffix(s.id, k) else s.id
    ensures !HasMatrix(s) ==> |r| == 1
  {
  }

  function Offset(inst: seq<seq<Stage>>, m: nat): nat
    requires m <= |inst|
  {
    if m == 0 then 0 else Offset(inst, m - 1) + |inst[m - 1]|
  }

  lemma {:induction false} OffsetPrefix(inst: seq<seq<Stage>>, n: nat, m: nat)
    requires m <= n <= |inst|
    ensures Offset(inst[..n], m) == Offset(inst, m)
  {
    if m > 0 {
      OffsetPrefix(inst, n, m - 1);
    }
  }

  lemma {:induction false} OffsetOrder(inst: seq<seq<Stage>>, m: nat, n: nat)
    requires m < n <= |inst|
    ensures Offset(inst, m) + |inst[m]| <= Offset(inst, n)
  {
    if m < n - 1 {
      OffsetOrder(inst, m, n - 1);
    }
  }

  lemma {:induction false} FlattenAt(inst: seq<seq<Stage>>, m: nat, k: nat)
    requires m < |inst| && k < |inst[m]|
    ensures |Flatten(inst)| == Offset(inst, |inst|)
    ensures Offset(inst, m) + k < |Flatten(inst)| && Flatten(inst)[Offset(inst, m) + k] == inst[m][k]
  {
    var n := |inst| - 1;
    FlattenSize(inst[..n]);
    OffsetPrefix(inst, n, n);
    OffsetPrefix(inst, n, m);
    if m < n {
      FlattenAt(inst[..n], m, k);
    }
  }

  lemma {:induction false} FlattenSize(inst: seq<seq<Stage>>)
    ensures |Flatten(inst)| == Offset(inst, |inst|)
  {
    if inst != [] {
      FlattenSize(inst[..|inst| - 1]);
      OffsetPrefix(inst, |inst| - 1, |inst| - 1);
    }
  }

  lemma {:induction false} FlattenSource(inst: seq<seq<Stage>>, s: Stage) returns (m: nat, k: nat)
    requires s in Flatten(inst)
    ensures m < |inst| && k < |inst[m]| && inst[m][k] == s
  {
    var n := |inst| - 1;
    if s in inst[n] {
      m := n;
      k :| 0 <= k < |inst[n]| && inst[n][k] == s;
    } else {
      m, k := FlattenSource(inst[..n], s);
    }
  }

  // ---- Edges ----

  /** A pipeline both validators accept, whose instance ids are unique as well. */
  ghost predicate Clean(stages: seq<Stage>, inst: seq<seq<Stage>>) {
    && Expanded(stages, inst)
    && UniqueIDs(stages) && NeedsKnown(stages)
    && (forall s :: s in stages ==> s.id != "")
    && UniqueIDs(Output(stages, inst))
  }

  ghost predicate InstanceAt(stages: seq<Stage>, inst: seq<seq<Stage>>, i: nat, e: string)
    requires |inst| == |stages|
  {
    i < |stages| && e in Names(inst[i])
  }

  /** Unique instance ids belong to one stage only. */
  lemma OneOrigin(stages: seq<Stage>, inst: seq<seq<Stage>>, i: nat, j: nat, e: string)
    requires Clean(stages, inst) && InstanceAt(stages, inst, i, e) && InstanceAt(stages, inst, j, e)
    ensures i == j && e != ""
  {
    var k :| 0 <= k < |inst[i]| && Names(inst[i])[k] == e;
    var l :| 0 <= l < |inst[j]| && Names(inst[j])[l] == e;
    OutputAt(stages, inst, i, k);
    OutputAt(stages, inst, j, l);
    InstanceShape(stages[i], inst[i]);
    hide Output, Flatten, ExpandedStage;
    if i < j {
      OffsetOrder(inst, i, j);
    } else if j < i {
      OffsetOrder(inst, j, i);
    }
    assert stages[i] in stages;
  }

  lemma {:induction false} ExpansionAt(stages: seq<Stage>, inst: seq<seq<Stage>>, i: nat)
    requires |inst| == |stages| && i < |stages| && UniqueIDs(stages) && forall s :: s in stages ==> s.id != ""
    ensures stages[i].id in Expansion(stages, inst) && Expansion(stages, inst)[stages[i].id] == Names(inst[i])
  {
    var n := |stages| - 1;
    if i < n {
      assert stages[..n][i] == stages[i];
      ExpansionAt(stages[..n], inst[..n], i);
      assert stages[i] in stages && stages[i].id != stages[n].id;
    }
  }

  /** Of several stages with the same id the last one counts. */
  lemma {:induction false} ExpansionSays(stages: seq<Stage>, inst: seq<seq<Stage>>, m: nat)
    requires |inst| == |stages| && m < |stages|
    requires forall j :: m < j < |stages| ==> stages[j].id != stages[m].id
    ensures stages[m].id in Expansion(stages, inst)
    ensures Expansion(stages, inst)[stages[m].id] == seq(|inst[m]|, k requires 0 <= k < |inst[m]| => inst[m][k].id)
    ensures forall id :: id in Expansion(stages, inst) ==> id in Names(stages)
  {
    var n := |stages| - 1;
    ExpansionNames(stages, inst);
    if m < n {
      ExpansionSays(stages[..n], inst[..n], m);
    }
    assert Names(inst[m]) == seq(|inst[m]|, k requires 0 <= k < |inst[m]| => inst[m][k].id);
  }

  lemma {:induction false} ExpansionNames(stages: seq<Stage>, inst: seq<seq<Stage>>)
    requires |inst| == |stages|
    ensures forall id :: id in Expansion(stages, inst) ==> id in Names(stages)
  {
    if stages != [] {
      var n := |stages| - 1;
      ExpansionNames(stages[..n], inst[..n]);
      assert Names(stages) == Names(stages[..n]) + [stages[n].id];
    }
  }

  lemma {:induction false} AddNewMembers(list: seq<string>, more: seq<string>)
    ensures forall e :: e in AddNew(list, more) <==> e in list || e in more
  {
    if more != [] {
      AddNewMembers(list, more[..|more| - 1]);
      assert more == more[..|more| - 1] + [more[|more| - 1]];
    }
  }

  lemma {:induction false} RewireMembers(exp: map<string, seq<string>>, needs: seq<string>)
    ensures forall e :: e in Rewire(exp, needs) <==> exists dep :: dep in needs && e in Targets(exp, dep)
  {
    if needs != [] {
      var n := |needs| - 1;
      RewireMembers(exp, needs[..n]);
      AddNewMembers(Rewire(exp, needs[..n]), Targets(exp, needs[n]));
      assert needs == needs[..n] + [needs[n]];
    }
  }

  /** The stage that carries an instance id in the expanded pipeline. */
  lemma OutputStage(stages: seq<Stage>, inst: seq<seq<Stage>>, i: nat, e: string)
    requires Clean(stages, inst) && InstanceAt(stages, inst, i, e)
    ensures e in FirstStages(Output(stages, inst))
    ensures FirstStages(Output(stages, inst))[e].needs == Rewire(Expansion(stages, inst), stages[i].needs)
  {
    OneOrigin(stages, inst, i, i, e);
    var k := InstanceIndex(stages, inst, i, e);
    var s := OutputEntry(stages, inst, i, k);
    assert UniqueIDs(Output(stages, inst));
    hide *;
    FirstIsOnly(Output(stages, inst), s);
  }

  lemma InstanceIndex(stages: seq<Stage>, inst: seq<seq<Stage>>, i: nat, e: string) returns (k: nat)
    requires Expanded(stages, inst) && InstanceAt(stages, inst, i, e)
    ensures k < |inst[i]| && inst[i][k].id == e && inst[i][k].needs == stages[i].needs
  {
    k :| 0 <= k < |inst[i]| && Names(inst[i])[k] == e;
    InstanceShape(stages[i], inst[i]);
  }

  lemma OutputEntry(stages: seq<Stage>, inst: seq<seq<Stage>>, m: nat, k: nat) returns (s: Stage)
    requires |inst| == |stages| && m < |inst| && k < |inst[m]|
    ensures s in Output(stages, inst) && s.id == inst[m][k].id
    ensures s.needs == Rewire(Expansion(stages, inst), inst[m][k].needs)
  {
    FlattenAt(inst, m, k);
    hide Flatten, Expansion, Rewire, Offset;
    s := Output(stages, inst)[Offset(inst, m) + k];
  }

  /** An instance is among the rewired needs of a stage exactly when its stage is among the needs. */
  lemma RewiredNeed(stages: seq<Stage>, inst: seq<seq<Stage>>, i: nat, j: nat, f: string)
    requires Clean(stages, inst) && i < |stages| && InstanceAt(stages, inst, j, f)
    ensures f in Rewire(Expansion(stages, inst), stages[i].needs) <==> stages[j].id in stages[i].needs
  {
    var exp := Expansion(stages, inst);
    RewireMembers(exp, stages[i].needs);
    assert stages[i] in stages;
    if f in Rewire(exp, stages[i].needs) {
      var dep :| dep in stages[i].needs && f in Targets(exp, dep);
      var m := KnownNeed(stages, stages[i], dep);
      ExpansionAt(stages, inst, m);
      OneOrigin(stages, inst, m, j, f);
    }
    if stages[j].id in stages[i].needs {
      ExpansionAt(stages, inst, j);
      assert f in Targets(exp, stages[j].id);
    }
  }

  lemma KnownNeed(stages: seq<Stage>, s: Stage, dep: string) returns (m: nat)
    requires NeedsKnown(stages) && s in stages && dep in s.needs
    ensures m < |stages| && stages[m].id == dep && dep != s.id
  {
    assert dep in StageIDs(stages) && dep != s.id;
    var t :| t in stages && t.id == dep;
    m :| 0 <= m < |stages| && stages[m] == t;
  }

  lemma StageNode(stages: seq<Stage>, i: nat)
    requires UniqueIDs(stages) && i < |stages| && stages[i].id != ""
    ensures stages[i].id in FirstStages(stages) && FirstStages(stages)[stages[i].id] == stages[i]
  {
    assert stages[i] in stages;
    FirstIsOnly(stages, stages[i]);
  }

  /** Two instances have an edge exactly when their stages do. */
  lemma ExpandedEdges(stages: seq<Stage>, inst: seq<seq<Stage>>, i: nat, j: nat, e: string, f: string)
    requires Clean(stages, inst) && InstanceAt(stages, inst, i, e) && InstanceAt(stages, inst, j, f)
    ensures Edge(DagOf(Output(stages, inst)).Needs(), e, f) <==>
            Edge(DagOf(stages).Needs(), stages[i].id, stages[j].id)
  {
    var x, y := stages[i].id, stages[j].id;
    assert stages[i] in stages && stages[j] in stages;
    StageNode(stages, i);
    StageNode(stages, j);
    if y in stages[i].needs {
      var m := KnownNeed(stages, stages[i], y);
    }
    if e == f {
      OneOrigin(stages, inst, i, j, e);
    }
    hide Clean, DagOf, Edge, Expansion, Rewire, Output, FirstStages, InstanceAt;
    OutputStage(stages, inst, i, e);
    OutputStage(stages, inst, j, f);
    RewiredNeed(stages, inst, i, j, f);
    DagEdges(Output(stages, inst), f, e);
    DagEdges(stages, y, x);
  }

  /** Every node of the expanded graph is an instance. */
  lemma NodeIsInstance(stages: seq<Stage>, inst: seq<seq<Stage>>, e: string)
    requires Clean(stages, inst) && e in DagOf(Output(stages, inst)).nodes
    ensures exists i :: InstanceAt(stages, inst, i, e)
  {
    var out := Output(stages, inst);
    FirstIdsNames(out);
    var s := FirstStages(out)[e];
    var p :| 0 <= p < |out| && out[p] == s;
    assert Flatten(inst)[p] in Flatten(inst);
    var m, k := FlattenSource(inst, Flatten(inst)[p]);
    assert Names(inst[m])[k] == e;
    assert InstanceAt(stages, inst, m, e);
  }

  lemma NodeOfStage(stages: seq<Stage>, inst: seq<seq<Stage>>, i: nat, e: string)
    requires Clean(stages, inst) && InstanceAt(stages, inst, i, e)
    ensures e in DagOf(Output(stages, inst)).nodes && stages[i].id in DagOf(stages).nodes
  {
    OutputStage(stages, inst, i, e);
    assert stages[i] in stages;
    FirstIsOnly(stages, stages[i]);
  }

  // ---- Cycles and layers ----

  ghost function OriginOf(stages: seq<Stage>, inst: seq<seq<Stage>>, e: string): (i: nat)
    requires Clean(stages, inst) && e in DagOf(Output(stages, inst)).nodes
    ensures InstanceAt(stages, inst, i, e)
  {
    NodeIsInstance(stages, inst, e);
    var i :| InstanceAt(stages, inst, i, e);
    i
  }

  /** The first instance of a stage. */
  function FirstInstance(inst: seq<seq<Stage>>, i: nat): string
    requires i < |inst| && inst[i] != []
  {
    Names(inst[i])[0]
  }

  /** A closed walk is carried over edge by edge. */
  lemma CycleCarried(g: Digraph, h: Digraph, p: seq<NodeID>, q: seq<NodeID>)
    requires Cycle(g, p) && |q| == |p| && q[0] == q[|q| - 1]
    requires forall k, l :: 0 <= k < |p| && l == k + 1 && l < |p| && Edge(g, p[k], p[l]) ==> Edge(h, q[k], q[l])
    ensures Cycle(h, q)
  {
    assert Edge(g, p[0], p[1]);
    assert Edge(h, q[0], q[1]);
  }

  lemma WalkNodes(g: Digraph, p: seq<NodeID>, k: nat)
    requires Closed(g) && Walk(g, p) && k < |p|
    ensures p[k] in g
  {
    if k > 0 {
      assert Edge(g, p[k - 1], p[k]);
    }
  }

  lemma InstanceCycle(stages: seq<Stage>, inst: seq<seq<Stage>>, p: seq<NodeID>)
    requires Clean(stages, inst) && Cycle(DagOf(Output(stages, inst)).Needs(), p)
    ensures !Acyclic(DagOf(stages).Needs())
  {
    var d := DagOf(Output(stages, inst));
    var g, h := d.Needs(), DagOf(stages).Needs();
    DagWellFormed(Output(stages, inst));
    assert Closed(g) && forall e :: e in g ==> e in d.nodes;
    hide DagOf, WellFormed, Clean, Expanded, Output, OriginID;
    forall k | 0 <= k < |p| ensures p[k] in d.nodes {
      WalkNodes(g, p, k);
    }
    var q := seq(|p|, k requires 0 <= k < |p| => OriginID(stages, inst, p[k]));
    forall k, l | 0 <= k < |p| && l == k + 1 && l < |p| && Edge(g, p[k], p[l]) ensures Edge(h, q[k], q[l]) {
      OriginEdge(stages, inst, p[k], p[l]);
    }
    CycleCarried(g, h, p, q);
  }

  ghost function OriginID(stages: seq<Stage>, inst: seq<seq<Stage>>, e: string): string
    requires Clean(stages, inst) && e in DagOf(Output(stages, inst)).nodes
  {
    stages[OriginOf(stages, inst, e)].id
  }

  lemma OriginEdge(stages: seq<Stage>, inst: seq<seq<Stage>>, e: string, f: string)
    requires Clean(stages, inst)
    requires e in DagOf(Output(stages, inst)).nodes && f in DagOf(Output(stages, inst)).nodes
    requires Edge(DagOf(Output(stages, inst)).Needs(), e, f)
    ensures Edge(DagOf(stages).Needs(), OriginID(stages, inst, e), OriginID(stages, inst, f))
  {
    hide DagOf, Clean, Output;
    ExpandedEdges(stages, inst, OriginOf(stages, inst, e), OriginOf(stages, inst, f), e, f);
  }

  lemma NodeIndex(stages: seq<Stage>, x: string)
    requires x in DagOf(stages).nodes
    ensures exists i :: 0 <= i < |stages| && stages[i].id == x
  {
    FirstIdsNames(stages);
    var s := FirstStages(stages)[x];
    assert s in stages;
    var i :| 0 <= i < |stages| && stages[i] == s;
  }

  lemma StageCycle(stages: seq<Stage>, inst: seq<seq<Stage>>, p: seq<NodeID>)
    requires Clean(stages, inst) && Cycle(DagOf(stages).Needs(), p)
    ensures !Acyclic(DagOf(Output(stages, inst)).Needs())
  {
    var d := DagOf(stages);
    var g, h := d.Needs(), DagOf(Output(stages, inst)).Needs();
    DagWellFormed(stages);
    assert Closed(g) && Expanded(stages, inst);
    hide DagOf, WellFormed, Expanded, Clean;
    forall k | 0 <= k < |p| ensures exists i :: 0 <= i < |stages| && stages[i].id == p[k] {
      WalkNodes(g, p, k);
      NodeIndex(stages, p[k]);
    }
    var q := seq(|p|, k requires 0 <= k < |p| => FirstInstanceOf(stages, inst, p[k]));
    forall k, l | 0 <= k < |p| && l == k + 1 && l < |p| && Edge(g, p[k], p[l]) ensures Edge(h, q[k], q[l]) {
      ExpandedEdges(stages, inst, IndexOf(stages, p[k]), IndexOf(stages, p[l]), q[k], q[l]);
    }
    CycleCarried(g, h, p, q);
  }

  ghost function IndexOf(stages: seq<Stage>, id: string): (i: nat)
    requires exists i :: 0 <= i < |stages| && stages[i].id == id
    ensures i < |stages| && stages[i].id == id
  {
    var i :| 0 <= i < |stages| && stages[i].id == id;
    i
  }

  ghost function FirstInstanceOf(stages: seq<Stage>, inst: seq<seq<Stage>>, id: string): (e: string)
    requires Expanded(stages, inst) && exists i :: 0 <= i < |stages| && stages[i].id == id
    ensures InstanceAt(stages, inst, IndexOf(stages, id), e)
  {
    InstanceShape(stages[IndexOf(stages, id)], inst[IndexOf(stages, id)]);
    FirstInstance(inst, IndexOf(stages, id))
  }

  /** Expansion creates no cycle and hides none. */
  lemma CyclesPreserved(stages: seq<Stage>, inst: seq<seq<Stage>>)
    requires Clean(stages, inst)
    ensures Acyclic(DagOf(Output(stages, inst)).Needs()) <==> Acyclic(DagOf(stages).Needs())
  {
    if !Acyclic(DagOf(Output(stages, inst)).Needs()) {
      var p :| Cycle(DagOf(Output(stages, inst)).Needs(), p);
      InstanceCycle(stages, inst, p);
    }
    if !Acyclic(DagOf(stages).Needs()) {
      var p :| Cycle(DagOf(stages).Needs(), p);
      StageCycle(stages, inst, p);
    }
  }

  ghost function LayerNumber(stages: seq<Stage>, id: string): nat {
    var g := DagOf(stages).Needs();
    if Closed(g) && Acyclic(g) && id in g then Depth(g, id) else 0
  }

  /** Every instance is in the layer of its stage. */
  lemma {:induction false} LayersPreserved(stages: seq<Stage>, inst: seq<seq<Stage>>, i: nat, e: string)
    requires Clean(stages, inst) && InstanceAt(stages, inst, i, e) && Acyclic(DagOf(stages).Needs())
    ensures var g, h := DagOf(stages).Needs(), DagOf(Output(stages, inst)).Needs();
            && Closed(g) && Closed(h) && Acyclic(h) && e in h && stages[i].id in g
            && Depth(h, e) == Depth(g, stages[i].id)
    decreases LayerNumber(stages, stages[i].id)
  {
    var g, h := DagOf(stages).Needs(), DagOf(Output(stages, inst)).Needs();
    var x := stages[i].id;
    DagWellFormed(stages);
    DagWellFormed(Output(stages, inst));
    assert Closed(g) && Closed(h) && Expanded(stages, inst);
    hide DagOf, WellFormed, Clean, Expanded, InstanceAt, Output;
    CyclesPreserved(stages, inst);
    NodeOfStage(stages, inst, i, e);
    DepthEdges(g, x);
    DepthEdges(h, e);
    forall f | f in h[e] ensures Depth(h, f) < Depth(g, x) {
      var j := OriginOf(stages, inst, f);
      ExpandedEdges(stages, inst, i, j, e, f);
      assert Edge(h, e, f);
      LayersPreserved(stages, inst, j, f);
    }
    if Depth(g, x) > 0 {
      var y :| y in g[x] && y in g && Depth(g, y) == Depth(g, x) - 1;
      NodeIndex(stages, y);
      var j, f := IndexOf(stages, y), FirstInstanceOf(stages, inst, y);
      ExpandedEdges(stages, inst, i, j, e, f);
      assert Edge(g, x, y);
      LayersPreserved(stages, inst, j, f);
    }
  }

  // ---- When instance ids are unique ----

  lemma {:induction false} FlattenSourceAt(inst: seq<seq<Stage>>, p: nat) returns (m: nat, k: nat)
    requires p < |Flatten(inst)|
    ensures m < |inst| && k < |inst[m]| && p == Offset(inst, m) + k && Flatten(inst)[p] == inst[m][k]
  {
    var n := |inst| - 1;
    FlattenSize(inst[..n]);
    OffsetPrefix(inst, n, n);
    if p < |Flatten(inst[..n])| {
      m, k := FlattenSourceAt(inst[..n], p);
      OffsetPrefix(inst, n, m);
    } else {
      m, k := n, p - |Flatten(inst[..n])|;
    }
  }

  /** No stage without a matrix is called like an instance of a stage with one. */
  ghost predicate NoLiteralInstance(stages: seq<Stage>, inst: seq<seq<Stage>>)
    requires |inst| == |stages|
  {
    forall i, j :: 0 <= i < |stages| && 0 <= j < |stages| && !HasMatrix(stages[i]) && HasMatrix(stages[j]) ==>
      stages[i].id !in Names(inst[j])
  }

  lemma SameInstance(stages: seq<Stage>, inst: seq<seq<Stage>>, m: nat, k: nat, m': nat, k': nat)
    requires Expanded(stages, inst) && UniqueIDs(stages) && NoLiteralInstance(stages, inst)
    requires forall s :: s in stages ==> s.id != ""
    requires m < |stages| && m' < |stages| && k < |inst[m]| && k' < |inst[m']|
    requires inst[m][k].id == inst[m'][k'].id
    ensures m == m' && k == k'
  {
    InstanceShape(stages[m], inst[m]);
    InstanceShape(stages[m'], inst[m']);
    assert stages[m] in stages && stages[m'] in stages;
    assert Names(inst[m])[k] in Names(inst[m]) && Names(inst[m'])[k'] in Names(inst[m']);
    if HasMatrix(stages[m]) && HasMatrix(stages[m']) {
      SuffixInjective(stages[m].id, k, stages[m'].id, k');
    }
  }

  /** Instance ids collide exactly when a stage without a matrix is literally called X-i. */
  lemma CollisionsExactly(stages: seq<Stage>, inst: seq<seq<Stage>>)
    requires Expanded(stages, inst) && UniqueIDs(stages) && forall s :: s in stages ==> s.id != ""
    ensures UniqueIDs(Output(stages, inst)) <==> NoLiteralInstance(stages, inst)
  {
    var out := Output(stages, inst);
    if NoLiteralInstance(stages, inst) {
      forall p, q | 0 <= p < q < |out| ensures out[p].id != out[q].id {
        if out[p].id == out[q].id {
          var m, k := FlattenSourceAt(inst, p);
          var m', k' := FlattenSourceAt(inst, q);
          SameInstance(stages, inst, m, k, m', k');
        }
      }
    }
    if UniqueIDs(out) {
      forall i, j | 0 <= i < |stages| && 0 <= j < |stages| && !HasMatrix(stages[i]) && HasMatrix(stages[j])
        ensures stages[i].id !in Names(inst[j])
      {
        if stages[i].id in Names(inst[j]) {
          var l :| 0 <= l < |inst[j]| && Names(inst[j])[l] == stages[i].id;
          LiteralClash(stages, inst, i, j, l);
        }
      }
    }
  }

  lemma OutputAt(stages: seq<Stage>, inst: seq<seq<Stage>>, m: nat, k: nat)
    requires |inst| == |stages| && m < |inst| && k < |inst[m]|
    ensures Offset(inst, m) + k < |Output(stages, inst)| == Offset(inst, |inst|)
    ensures Output(stages, inst)[Offset(inst, m) + k] ==
            inst[m][k].(needs := Rewire(Expansion(stages, inst), inst[m][k].needs))
  {
    FlattenAt(inst, m, k);
    hide Flatten, Expansion, Rewire, Offset;
  }

  lemma OffsetsApart(inst: seq<seq<Stage>>, i: nat, j: nat, l: nat)
    requires i < |inst| && j < |inst| && i != j && |inst[i]| > 0 && l < |inst[j]|
    ensures Offset(inst, i) != Offset(inst, j) + l
  {
    if i < j {
      OffsetOrder(inst, i, j);
    } else {
      OffsetOrder(inst, j, i);
    }
  }

  lemma LiteralClash(stages: seq<Stage>, inst: seq<seq<Stage>>, i: nat, j: nat, l: nat)
    requires Expanded(stages, inst) && i < |stages| && j < |stages| && i != j && l < |inst[j]|
    requires !HasMatrix(stages[i]) && stages[i].id != "" && inst[j][l].id == stages[i].id
    ensures !UniqueIDs(Output(stages, inst))
  {
    hide *;
    PlainInstance(stages, inst, i);
    OutputAt(stages, inst, i, 0);
    OutputAt(stages, inst, j, l);
    OffsetsApart(inst, i, j, l);
    SameIDTwice(Output(stages, inst), Offset(inst, i), Offset(inst, j) + l);
  }

  lemma PlainInstance(stages: seq<Stage>, inst: seq<seq<Stage>>, i: nat)
    requires Expanded(stages, inst) && i < |stages| && !HasMatrix(stages[i])
    ensures |inst| == |stages| && |inst[i]| == 1 && inst[i][0].id == stages[i].id
  {
    InstanceShape(stages[i], inst[i]);
  }

  lemma SameIDTwice(stages: seq<Stage>, p: nat, q: nat)
    requires p < |stages| && q < |stages| && p != q && stages[p].id == stages[q].id != ""
    ensures !UniqueIDs(stages)
  {
    if p < q {
      assert stages[p].id == stages[q].id;
    } else {
      assert stages[q].id == stages[p].id;
    }
  }
}

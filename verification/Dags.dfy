/** The stage graph of a pipeline (api/pkg/engine/dag.go, BuildDAG).

    `DagOf` describes the graph outright: the first stage of every id, its incoming edges in the order of
    its needs, its outgoing edges in the order in which the loops meet them, and the needs that name no
    stage. BuildDAG is proved to build exactly that, and every graph built is shown to be well formed,
    which the other modules of the engine rely on. */
module Dags {
  import opened Sequences
  import opened Digraphs
  import opened Pipelines

  datatype Node = Node(id: NodeID, stage: Stage, ins: seq<NodeID>, outs: seq<NodeID>)

  datatype Dag = Dag(nodes: map<NodeID, Node>, order: seq<NodeID>, dangling: map<NodeID, seq<NodeID>>) {

    /** Edges from a stage to what it needs. */
    function Needs(): Digraph {
      map id | id in nodes :: nodes[id].ins
    }

    /** Edges from a stage to the stages that need it. */
    function Feeds(): Digraph {
      map id | id in nodes :: nodes[id].outs
    }
  }

  /** In and Out describe the same edges, with the same multiplicity, and Order lists every node once. */
  ghost predicate WellFormed(d: Dag) {
    && Distinct(d.order)
    && (forall id :: id in d.order <==> id in d.nodes)
    && (forall id {:trigger d.nodes[id].id} {:trigger id in d.nodes[id].ins} ::
          id in d.nodes ==> d.nodes[id].id == id && id !in d.nodes[id].ins)
    && Closed(d.Needs()) && Closed(d.Feeds())
    && (forall u, x {:trigger multiset(d.nodes[u].outs)[x]} :: u in d.nodes && x in d.nodes ==>
          multiset(d.nodes[u].outs)[x] == multiset(d.nodes[x].ins)[u])
  }

  lemma OrderNodes(d: Dag)
    requires WellFormed(d)
    ensures Distinct(d.order)
    ensures forall id :: id in d.order <==> id in d.nodes
  {
  }

  lemma Neighbours(d: Dag, u: NodeID)
    requires WellFormed(d) && u in d.nodes
    ensures forall y :: y in d.nodes[u].ins ==> y in d.nodes && y != u
    ensures forall y :: y in d.nodes[u].outs ==> y in d.nodes
  {
    var needs, feeds := d.Needs(), d.Feeds();
    assert needs[u] == d.nodes[u].ins && feeds[u] == d.nodes[u].outs;
    assert forall y :: y in needs[u] ==> y in needs;
    assert forall y :: y in feeds[u] ==> y in feeds;
  }

  // ---- What BuildDAG computes ----

  /** The non-empty ids of `stages`, each at its first occurrence. */
  function FirstIds(stages: seq<Stage>): seq<NodeID> {
    if stages == [] then []
    else
      var prev, s := FirstIds(stages[..|stages| - 1]), stages[|stages| - 1];
      if s.id == "" || s.id in prev then prev else prev + [s.id]
  }

  /** The first stage with each id. */
  function FirstStages(stages: seq<Stage>): map<NodeID, Stage> {
    if stages == [] then map[]
    else
      var prev, s := FirstStages(stages[..|stages| - 1]), stages[|stages| - 1];
      if s.id == "" || s.id in prev then prev else prev[s.id := s]
  }

  /** One entry of one stage's `needs`. */
  datatype Link = Link(id: NodeID, dep: string)

  function StageLinks(id: NodeID, needs: seq<string>): seq<Link> {
    seq(|needs|, i requires 0 <= i < |needs| => Link(id, needs[i]))
  }

  lemma NoLinks(id: NodeID)
    ensures StageLinks(id, []) == []
  {
  }

  lemma StageLinksSnoc(id: NodeID, needs: seq<string>, m: nat)
    requires m < |needs|
    ensures StageLinks(id, needs[..m + 1]) == StageLinks(id, needs[..m]) + [Link(id, needs[m])]
  {
  }

  /** All needs entries, stage by stage in Order. */
  function AllLinks(first: map<NodeID, Stage>, order: seq<NodeID>): seq<Link>
    requires forall id :: id in order ==> id in first
  {
    if order == [] then []
    else
      var id := order[|order| - 1];
      AllLinks(first, order[..|order| - 1]) + StageLinks(id, first[id].needs)
  }

  lemma AllLinksStep(first: map<NodeID, Stage>, order: seq<NodeID>, k: nat)
    requires k < |order| && forall id :: id in order ==> id in first
    ensures AllLinks(first, order[..k + 1]) ==
            AllLinks(first, order[..k]) + StageLinks(order[k], first[order[k]].needs)
  {
    assert order[..k + 1][..k] == order[..k];
  }

  /** The entries of `id` that name another existing stage, in order and with repetitions. */
  function InsOf(ids: set<NodeID>, links: seq<Link>, id: NodeID): seq<NodeID> {
    if links == [] then []
    else
      var prev, l := InsOf(ids, links[..|links| - 1], id), links[|links| - 1];
      if l.id == id && l.dep != id && l.dep in ids then prev + [l.dep] else prev
  }

  /** The stages that name `u`, once for every entry that does. */
  function OutsOf(links: seq<Link>, u: NodeID): seq<NodeID> {
    if links == [] then []
    else
      var prev, l := OutsOf(links[..|links| - 1], u), links[|links| - 1];
      if l.dep == u && l.id != u then prev + [l.id] else prev
  }

  /** The entries of `id` that name no stage at all. */
  function DanglingOf(ids: set<NodeID>, links: seq<Link>, id: NodeID): seq<NodeID> {
    if links == [] then []
    else
      var prev, l := DanglingOf(ids, links[..|links| - 1], id), links[|links| - 1];
      if l.id == id && l.dep != id && l.dep !in ids then prev + [l.dep] else prev
  }

  function DagOf(stages: seq<Stage>): Dag {
    FirstIdsNames(stages);
    var first, order := FirstStages(stages), FirstIds(stages);
    var links := AllLinks(first, order);
    Dag(
      map id | id in first :: Node(id, first[id], InsOf(first.Keys, links, id), OutsOf(links, id)),
      order,
      map id | id in first && DanglingOf(first.Keys, links, id) != [] :: DanglingOf(first.Keys, links, id))
  }

  lemma {:induction false} FirstIdsNames(stages: seq<Stage>)
    ensures Distinct(FirstIds(stages))
    ensures forall id :: id in FirstIds(stages) <==> id in FirstStages(stages)
    ensures forall id :: id in FirstStages(stages) ==>
              FirstStages(stages)[id].id == id && id != "" && FirstStages(stages)[id] in stages
    ensures forall s :: s in stages && s.id != "" ==> s.id in FirstStages(stages)
  {
    if stages != [] {
      var n := |stages| - 1;
      FirstIdsNames(stages[..n]);
      assert stages == stages[..n] + [stages[n]];
    }
  }

  // ---- BuildDAG ----

  lemma OneMore(ids: set<NodeID>, links: seq<Link>, l: Link)
    ensures forall id :: InsOf(ids, links + [l], id) ==
              InsOf(ids, links, id) + if l.id == id && l.dep != id && l.dep in ids then [l.dep] else []
    ensures forall id :: OutsOf(links + [l], id) ==
              OutsOf(links, id) + if l.dep == id && l.id != id then [l.id] else []
    ensures forall id :: DanglingOf(ids, links + [l], id) ==
              DanglingOf(ids, links, id) + if l.id == id && l.dep != id && l.dep !in ids then [l.dep] else []
  {
    assert (links + [l])[..|links|] == links;
  }

  /** The adjacency lists after the entries `links` have been connected. */
  ghost predicate Connected(first: map<NodeID, Stage>, links: seq<Link>,
                            nodes: map<NodeID, Node>, dangling: map<NodeID, seq<NodeID>>) {
    && nodes.Keys == first.Keys
    && (forall id :: id in first ==>
          nodes[id] == Node(id, first[id], InsOf(first.Keys, links, id), OutsOf(links, id)))
    && (forall id :: id in dangling <==> id in first && DanglingOf(first.Keys, links, id) != [])
    && (forall id :: id in dangling ==> dangling[id] == DanglingOf(first.Keys, links, id))
  }

  method BuildDAG(stages: seq<Stage>) returns (d: Dag)
    ensures d == DagOf(stages)
  {
    hide Connected, StageLinks;
    var nodes, order := Collect(stages);
    ConnectedNodes(FirstStages(stages), [], nodes, map[]);
    FirstIdsNames(stages);
    ghost var first := FirstStages(stages);
    var dangling := map[];
    ghost var links: seq<Link> := [];
    for k := 0 to |order|
      invariant links == AllLinks(first, order[..k])
      invariant Connected(first, links, nodes, dangling)
    {
      nodes, dangling := ConnectStage(first, links, order[k], nodes, dangling);
      AllLinksStep(first, order, k);
      links := AllLinks(first, order[..k + 1]);
    }
    assert order[..|order|] == order;
    d := Dag(nodes, order, dangling);
    ConnectedAll(stages, d);
  }

  lemma ConnectedNodes(first: map<NodeID, Stage>, links: seq<Link>,
                       nodes: map<NodeID, Node>, dangling: map<NodeID, seq<NodeID>>)
    requires Connected(first, links, nodes, dangling)
    ensures nodes.Keys == first.Keys && forall id :: id in first ==> nodes[id].stage == first[id]
  {
  }

  lemma ConnectedAll(stages: seq<Stage>, d: Dag)
    requires forall id :: id in FirstIds(stages) ==> id in FirstStages(stages)
    requires d.order == FirstIds(stages)
    requires Connected(FirstStages(stages), AllLinks(FirstStages(stages), d.order), d.nodes, d.dangling)
    ensures d == DagOf(stages)
  {
    assert d.nodes == DagOf(stages).nodes;
    assert d.dangling == DagOf(stages).dangling;
  }

  /** First pass: one bare node for each id, first stage wins. */
  method Collect(stages: seq<Stage>) returns (nodes: map<NodeID, Node>, order: seq<NodeID>)
    ensures order == FirstIds(stages)
    ensures Connected(FirstStages(stages), [], nodes, map[])
  {
    nodes, order := map[], [];
    for i := 0 to |stages|
      invariant order == FirstIds(stages[..i])
      invariant Connected(FirstStages(stages[..i]), [], nodes, map[])
    {
      var s := stages[i];
      FirstIdsNames(stages[..i]);
      assert stages[..i + 1][..i] == stages[..i];
      if s.id == "" || s.id in nodes {
        continue;
      }
      nodes := nodes[s.id := Node(s.id, s, [], [])];
      order := order + [s.id];
    }
    assert stages[..|stages|] == stages;
  }

  /** Second pass, one stage: connect every needs entry, or record it as dangling. */
  method ConnectStage(ghost first: map<NodeID, Stage>, ghost links: seq<Link>, id: NodeID,
                      nodes: map<NodeID, Node>, dangling: map<NodeID, seq<NodeID>>)
    returns (nodes': map<NodeID, Node>, dangling': map<NodeID, seq<NodeID>>)
    requires id in first && Connected(first, links, nodes, dangling)
    ensures Connected(first, links + StageLinks(id, first[id].needs), nodes', dangling')
  {
    hide Connected, StageLinks;
    ConnectedNodes(first, links, nodes, dangling);
    nodes', dangling' := nodes, dangling;
    var needs := nodes[id].stage.needs;
    NoLinks(id);
    ghost var done := links;
    for m := 0 to |needs|
      invariant done == links + StageLinks(id, needs[..m])
      invariant Connected(first, done, nodes', dangling')
    {
      nodes', dangling' := ConnectEntry(first, done, id, needs[m], nodes', dangling');
      done := done + [Link(id, needs[m])];
      StageLinksSnoc(id, needs, m);
    }
    assert needs[..|needs|] == needs;
  }

  method ConnectEntry(ghost first: map<NodeID, Stage>, ghost links: seq<Link>, id: NodeID, dep: string,
                      nodes: map<NodeID, Node>, dangling: map<NodeID, seq<NodeID>>)
    returns (nodes': map<NodeID, Node>, dangling': map<NodeID, seq<NodeID>>)
    requires id in first && Connected(first, links, nodes, dangling)
    ensures Connected(first, links + [Link(id, dep)], nodes', dangling')
  {
    ConnectedNodes(first, links, nodes, dangling);
    hide Connected;
    nodes', dangling' := nodes, dangling;
    if dep == id {
      // A self-need is dropped.
      ConnectedNothing(first, links, id, nodes, dangling);
    } else if dep !in nodes {
      dangling' := dangling[id := (if id in dangling then dangling[id] else []) + [dep]];
      ConnectedUnknown(first, links, id, dep, nodes, dangling);
    } else {
      nodes' := nodes[id := nodes[id].(ins := nodes[id].ins + [dep])];
      nodes' := nodes'[dep := nodes'[dep].(outs := nodes'[dep].outs + [id])];
      ConnectedEdge(first, links, id, dep, nodes, dangling);
    }
  }

  lemma ConnectedNothing(first: map<NodeID, Stage>, links: seq<Link>, id: NodeID,
                         nodes: map<NodeID, Node>, dangling: map<NodeID, seq<NodeID>>)
    requires Connected(first, links, nodes, dangling)
    ensures Connected(first, links + [Link(id, id)], nodes, dangling)
  {
    hide InsOf, OutsOf, DanglingOf;
    OneMore(first.Keys, links, Link(id, id));
  }

  lemma ConnectedUnknown(first: map<NodeID, Stage>, links: seq<Link>, id: NodeID, dep: string,
                         nodes: map<NodeID, Node>, dangling: map<NodeID, seq<NodeID>>)
    requires id in first && dep != id && dep !in first && Connected(first, links, nodes, dangling)
    ensures Connected(first, links + [Link(id, dep)], nodes,
                      dangling[id := (if id in dangling then dangling[id] else []) + [dep]])
  {
    hide InsOf, OutsOf, DanglingOf;
    OneMore(first.Keys, links, Link(id, dep));
  }

  lemma ConnectedEdge(first: map<NodeID, Stage>, links: seq<Link>, id: NodeID, dep: string,
                      nodes: map<NodeID, Node>, dangling: map<NodeID, seq<NodeID>>)
    requires id in first && dep != id && dep in first && Connected(first, links, nodes, dangling)
    ensures id in nodes && dep in nodes
    ensures Connected(first, links + [Link(id, dep)],
                      nodes[id := nodes[id].(ins := nodes[id].ins + [dep])]
                           [dep := nodes[dep].(outs := nodes[dep].outs + [id])],
                      dangling)
  {
    hide InsOf, OutsOf, DanglingOf;
    OneMore(first.Keys, links, Link(id, dep));
  }

  // ---- The graph is consistent ----

  lemma {:induction false} LinkMembers(ids: set<NodeID>, links: seq<Link>, id: NodeID)
    ensures forall u :: u in InsOf(ids, links, id) <==> Link(id, u) in links && u != id && u in ids
    ensures forall x :: x in OutsOf(links, id) <==> Link(x, id) in links && x != id
  {
    if links != [] {
      var n := |links| - 1;
      LinkMembers(ids, links[..n], id);
      assert links == links[..n] + [links[n]];
    }
  }

  lemma {:induction false} LinkCounts(ids: set<NodeID>, links: seq<Link>, u: NodeID, x: NodeID)
    requires u in ids
    ensures multiset(OutsOf(links, u))[x] == multiset(InsOf(ids, links, x))[u]
  {
    if links != [] {
      LinkCounts(ids, links[..|links| - 1], u, x);
    }
  }

  lemma {:induction false} AllLinksMembers(first: map<NodeID, Stage>, order: seq<NodeID>)
    requires forall id :: id in order ==> id in first
    ensures forall l :: l in AllLinks(first, order) <==> l.id in order && l.dep in first[l.id].needs
  {
    if order != [] {
      var n := |order| - 1;
      AllLinksMembers(first, order[..n]);
      assert order == order[..n] + [order[n]];
      var id, needs := order[n], first[order[n]].needs;
      forall l: Link | l.id == id && l.dep in needs ensures l in StageLinks(id, needs) {
        var i :| 0 <= i < |needs| && needs[i] == l.dep;
        assert StageLinks(id, needs)[i] == l;
      }
    }
  }

  /** BuildDAG always yields a consistent graph. */
  lemma DagWellFormed(stages: seq<Stage>)
    ensures WellFormed(DagOf(stages))
  {
    var d, first := DagOf(stages), FirstStages(stages);
    FirstIdsNames(stages);
    var links := AllLinks(first, d.order);
    AllLinksMembers(first, d.order);
    forall id | id in first
      ensures forall u :: u in d.nodes[id].ins ==> u in first && u != id
      ensures forall u :: u in d.nodes[id].outs ==> u in first
    {
      LinkMembers(first.Keys, links, id);
      forall u | u in d.nodes[id].outs ensures u in first {
        assert Link(u, id) in links;
      }
    }
    assert Closed(d.Needs());
    assert Closed(d.Feeds());
    forall u, x | u in d.nodes && x in d.nodes
      ensures multiset(d.nodes[u].outs)[x] == multiset(d.nodes[x].ins)[u]
    {
      assert d.nodes[u].outs == OutsOf(links, u) && d.nodes[x].ins == InsOf(first.Keys, links, x);
      LinkCounts(first.Keys, links, u, x);
    }
  }

  /** The two adjacency lists describe one relation, so cycles and acyclicity do not depend on the direction. */
  lemma FeedsReverseNeeds(d: Dag)
    requires WellFormed(d)
    ensures Reversed(d.Needs(), d.Feeds())
    ensures Acyclic(d.Needs()) <==> Acyclic(d.Feeds())
  {
    forall a, b ensures Edge(d.Needs(), a, b) <==> Edge(d.Feeds(), b, a) {
      if a in d.nodes && b in d.nodes {
        assert multiset(d.nodes[b].outs)[a] == multiset(d.nodes[a].ins)[b];
        assert a in d.nodes[b].outs <==> a in multiset(d.nodes[b].outs);
        assert b in d.nodes[a].ins <==> b in multiset(d.nodes[a].ins);
      }
    }
    ReversedAcyclic(d.Needs(), d.Feeds());
  }

  /** Which edges there are: `b` needs `a` when the first stage called `b` lists `a`, another existing stage. */
  lemma DagEdges(stages: seq<Stage>, a: NodeID, b: NodeID)
    ensures Edge(DagOf(stages).Needs(), b, a) <==>
            && a in FirstStages(stages) && b in FirstStages(stages) && a != b
            && a in FirstStages(stages)[b].needs
  {
    FirstIdsNames(stages);
    AllLinksMembers(FirstStages(stages), FirstIds(stages));
    LinkMembers(FirstStages(stages).Keys, AllLinks(FirstStages(stages), FirstIds(stages)), b);
    assert a in FirstStages(stages) && b in FirstStages(stages) && a in FirstStages(stages)[b].needs ==>
        Link(b, a) in AllLinks(FirstStages(stages), FirstIds(stages));
  }

  // ---- What the graph says about the stages ----

  /** Stage `first` is the first one with this id. */
  predicate FirstUse(stages: seq<Stage>, id: NodeID, first: nat) {
    && first < |stages| && stages[first].id == id
    && forall m :: 0 <= m < first ==> stages[m].id != id
  }

  /** The ids of the stages that have one. */
  function StageNames(stages: seq<Stage>): seq<NodeID> {
    if stages == [] then []
    else
      StageNames(stages[..|stages| - 1]) + if stages[|stages| - 1].id == "" then [] else [stages[|stages| - 1].id]
  }

  lemma {:induction false} OrderFirsts(stages: seq<Stage>)
    ensures FirstsOf(StageNames(stages), FirstIds(stages))
  {
    hide FirstsOf;
    if stages == [] {
      FirstsNone<NodeID>();
    } else {
      var n := |stages| - 1;
      OrderFirsts(stages[..n]);
      FirstsMore(StageNames(stages[..n]), FirstIds(stages[..n]), stages[n].id);
      assert StageNames(stages[..n]) + [] == StageNames(stages[..n]);
    }
  }

  lemma {:induction false} FirstStageIs(stages: seq<Stage>, id: NodeID) returns (i: nat)
    requires id in FirstStages(stages)
    ensures FirstUse(stages, id, i) && FirstStages(stages)[id] == stages[i]
  {
    var n := |stages| - 1;
    if id in FirstStages(stages[..n]) {
      i := FirstStageIs(stages[..n], id);
    } else {
      i := n;
      FirstIdsNames(stages[..n]);
      forall m | 0 <= m < n ensures stages[m].id != id {
        assert stages[m] in stages[..n];
      }
    }
  }

  lemma {:induction false} StageIns(ids: set<NodeID>, links: seq<Link>, x: NodeID, needs: seq<string>, id: NodeID)
    ensures InsOf(ids, links + StageLinks(x, needs), id) ==
            InsOf(ids, links, id) + if x == id then Select(needs, ids - {id}) else []
    ensures DanglingOf(ids, links + StageLinks(x, needs), id) ==
            DanglingOf(ids, links, id) + if x == id then Select(needs, Elements(needs) - ids - {id}) else []
  {
    hide InsOf, DanglingOf, StageLinks;
    if needs == [] {
      NoLinks(x);
      assert links + [] == links;
    } else {
      var n := |needs| - 1;
      StageIns(ids, links, x, needs[..n], id);
      StageLinksSnoc(x, needs, n);
      assert needs[..n + 1] == needs == needs[..n] + [needs[n]];
      assert links + StageLinks(x, needs) == links + StageLinks(x, needs[..n]) + [Link(x, needs[n])];
      OneMore(ids, links + StageLinks(x, needs[..n]), Link(x, needs[n]));
      SelectSnoc(needs[..n], needs[n], ids - {id});
      SelectSnoc(needs[..n], needs[n], Elements(needs) - ids - {id});
      SelectAgree(needs[..n], Elements(needs[..n]) - ids - {id}, Elements(needs) - ids - {id});
    }
  }

  lemma {:induction false} NodeIns(first: map<NodeID, Stage>, order: seq<NodeID>, id: NodeID)
    requires Distinct(order) && forall x :: x in order ==> x in first
    ensures InsOf(first.Keys, AllLinks(first, order), id) ==
            if id in order then Select(first[id].needs, first.Keys - {id}) else []
    ensures DanglingOf(first.Keys, AllLinks(first, order), id) ==
            if id in order then Select(first[id].needs, Elements(first[id].needs) - first.Keys - {id}) else []
  {
    if order != [] {
      var n := |order| - 1;
      LastApart(order);
      LinksStep(first, order);
      hide InsOf, DanglingOf, StageLinks, AllLinks, Select, Distinct;
      NodeIns(first, order[..n], id);
      StageIns(first.Keys, AllLinks(first, order[..n]), order[n], first[order[n]].needs, id);
    }
  }

  lemma LastApart(order: seq<NodeID>)
    requires order != [] && Distinct(order)
    ensures var n := |order| - 1;
            && Distinct(order[..n]) && order == order[..n] + [order[n]] && order[n] !in order[..n]
            && forall x :: x in order <==> x in order[..n] || x == order[n]
  {
    assert order == order[..|order| - 1] + [order[|order| - 1]];
  }

  lemma LinksStep(first: map<NodeID, Stage>, order: seq<NodeID>)
    requires order != [] && forall x :: x in order ==> x in first
    ensures var n := |order| - 1;
            && (forall x :: x in order[..n] ==> x in first) && order[n] in first
            && AllLinks(first, order) == AllLinks(first, order[..n]) + StageLinks(order[n], first[order[n]].needs)
  {
  }

  lemma {:induction false} StageOuts(links: seq<Link>, x: NodeID, needs: seq<string>, u: NodeID)
    ensures var before, after := OutsOf(links, u), OutsOf(links + StageLinks(x, needs), u);
            before <= after && forall k :: |before| <= k < |after| ==> after[k] == x
  {
    hide OutsOf, StageLinks;
    if needs == [] {
      NoLinks(x);
      assert links + [] == links;
    } else {
      var n := |needs| - 1;
      StageOuts(links, x, needs[..n], u);
      StageLinksSnoc(x, needs, n);
      assert needs[..n + 1] == needs == needs[..n] + [needs[n]];
      assert links + StageLinks(x, needs) == links + StageLinks(x, needs[..n]) + [Link(x, needs[n])];
      OneMore({}, links + StageLinks(x, needs[..n]), Link(x, needs[n]));
    }
  }

  /** What needs a node is listed in the order of the stages. */
  lemma {:induction false} OutsInOrder(first: map<NodeID, Stage>, order: seq<NodeID>, u: NodeID, i: nat, j: nat)
    requires Distinct(order) && forall x :: x in order ==> x in first
    requires i < j < |OutsOf(AllLinks(first, order), u)|
    ensures var outs := OutsOf(AllLinks(first, order), u);
            outs[i] == outs[j] || Earlier(order, outs[i], outs[j])
  {
    if order != [] {
      var n := |order| - 1;
      LastApart(order);
      LinksStep(first, order);
      hide OutsOf, AllLinks, StageLinks, Distinct, Earlier;
      var before := OutsOf(AllLinks(first, order[..n]), u);
      StageOuts(AllLinks(first, order[..n]), order[n], first[order[n]].needs, u);
      if j < |before| {
        OutsInOrder(first, order[..n], u, i, j);
        EarlierMore(order[..n], order[n], before[i], before[j]);
      } else if i < |before| {
        OutsNodes(first, order[..n], u, before[i]);
        EarlierLast(order[..n], order[n], before[i]);
      }
    }
  }

  lemma OutsNodes(first: map<NodeID, Stage>, order: seq<NodeID>, u: NodeID, x: NodeID)
    requires (forall y :: y in order ==> y in first) && x in OutsOf(AllLinks(first, order), u)
    ensures x in order
  {
    LinkMembers({}, AllLinks(first, order), u);
    AllLinksMembers(first, order);
  }

  lemma EarlierMore(s: seq<NodeID>, z: NodeID, x: NodeID, y: NodeID)
    requires x == y || Earlier(s, x, y)
    ensures x == y || Earlier(s + [z], x, y)
  {
    if x != y {
      var k :| 0 <= k < |s| && s[k] == x && y !in s[..k + 1];
      assert (s + [z])[k] == x && (s + [z])[..k + 1] == s[..k + 1];
    }
  }

  lemma EarlierLast(s: seq<NodeID>, z: NodeID, x: NodeID)
    requires Distinct(s + [z]) && x in s
    ensures Earlier(s + [z], x, z)
  {
    var k :| 0 <= k < |s| && s[k] == x;
    forall m | 0 <= m <= k ensures s[m] != z {
      assert (s + [z])[m] != (s + [z])[|s|];
    }
    assert (s + [z])[k] == x && z !in (s + [z])[..k + 1];
  }

  /** Its nodes are the ids of the stages, each once, in the order of the pipeline. */
  lemma BuiltOrder(stages: seq<Stage>)
    ensures FirstsOf(StageNames(stages), DagOf(stages).order)
    ensures forall id :: id in DagOf(stages).nodes <==> id in DagOf(stages).order
  {
    OrderFirsts(stages);
    FirstIdsNames(stages);
    hide FirstsOf, FirstStages, FirstIds;
  }

  /** A node has the first stage with its id. It needs what the entries of that stage name, in order, if it is another
      node; what is no node at all is dangling. */
  lemma BuiltSays(stages: seq<Stage>, id: NodeID) returns (i: nat)
    requires id in DagOf(stages).nodes
    ensures var d := DagOf(stages);
            && FirstUse(stages, id, i) && d.nodes[id].stage == stages[i] && d.nodes[id].id == id
            && d.nodes[id].ins == Select(stages[i].needs, d.nodes.Keys - {id})
            && var unknown := Select(stages[i].needs, Elements(stages[i].needs) - d.nodes.Keys - {id});
               if unknown == [] then id !in d.dangling else id in d.dangling && d.dangling[id] == unknown
  {
    i := FirstStageIs(stages, id);
    FirstIdsNames(stages);
    NodeIns(FirstStages(stages), FirstIds(stages), id);
    hide FirstStages, FirstIds, InsOf, DanglingOf, OutsOf, Select;
    assert DagOf(stages).nodes.Keys == FirstStages(stages).Keys;
  }

  /** What needs a node is listed in Order, as often as it names the node. */
  lemma BuiltOuts(stages: seq<Stage>, id: NodeID, i: nat, j: nat)
    requires id in DagOf(stages).nodes && i < j < |DagOf(stages).nodes[id].outs|
    ensures var outs := DagOf(stages).nodes[id].outs;
            outs[i] == outs[j] || Earlier(DagOf(stages).order, outs[i], outs[j])
  {
    FirstIdsNames(stages);
    hide FirstStages, FirstIds, InsOf, DanglingOf, OutsOf, Earlier;
    OutsInOrder(FirstStages(stages), FirstIds(stages), id, i, j);
  }
}

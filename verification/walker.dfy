/**
 * The translation graph walk (`walk_to_translation`). The dataflow graph is
 * an arena of nodes addressed by their index, which stands for the node's
 * uid (or hash). The walk builds a directed graph whose edges point from a
 * node to the node one hop closer to the reconstruction node that started
 * the walk.
 */
module Walker {
  import opened Documents

  /** The kinds of dataflow node the walk distinguishes. */
  datatype Kind = From(principle: bool) | To | Other

  /** A dataflow node: its kind, its uid, its upstreams (some may be
      `None`) and its downstreams, all as arena indices. */
  datatype Node = Node(kind: Kind, uid: string, upstreams: seq<Option<nat>>, downstreams: seq<nat>)

  type Arena = seq<Node>

  /** Every upstream and downstream reference points into the arena. */
  predicate ValidArena(a: Arena)
  {
    forall i | 0 <= i < |a| ::
      && (forall j | 0 <= j < |a[i].upstreams| :: a[i].upstreams[j].Some? ==> a[i].upstreams[j].value < |a|)
      && (forall j | 0 <= j < |a[i].downstreams| :: a[i].downstreams[j] < |a|)
  }

  /** A directed graph over node ids; nodes are kept in insertion order. */
  datatype Graph = Graph(nodes: seq<nat>, edges: set<(nat, nat)>)

  function Empty(): Graph
  {
    Graph([], {})
  }

  /** `graph.add_node(v)`: appended once, at its first insertion. */
  function AddNode(g: Graph, v: nat): Graph
  {
    if v in g.nodes then g else g.(nodes := g.nodes + [v])
  }

  /** `graph.add_edge(u, v)`, which also adds both endpoints. */
  function AddEdge(g: Graph, u: nat, v: nat): Graph
  {
    AddNode(AddNode(g, u), v).(edges := g.edges + {(u, v)})
  }

  /** No id occurs twice. */
  predicate Distinct(s: seq<nat>)
  {
    forall i, j | 0 <= i < j < |s| :: s[i] != s[j]
  }

  /** Node ids lie in the arena, appear once, and edges join graph nodes. */
  predicate WellFormed(g: Graph, n: nat)
  {
    && (forall i | 0 <= i < |g.nodes| :: g.nodes[i] < n)
    && Distinct(g.nodes)
    && (forall e | e in g.edges :: e.0 in g.nodes && e.1 in g.nodes)
  }

  /** `g'` extends `g`: earlier nodes keep their insertion order, no edge is lost. */
  predicate Grows(g: Graph, g': Graph)
  {
    g.nodes <= g'.nodes && g.edges <= g'.edges
  }

  /** Every non-`None` upstream of `t` is a node of `g`. */
  predicate UpstreamsIn(a: Arena, t: nat, g: Graph)
    requires t < |a|
  {
    forall j | 0 <= j < |a[t].upstreams| && a[t].upstreams[j].Some? :: a[t].upstreams[j].value in g.nodes
  }

  /** The first `i` upstreams of `t` that are not `None` are nodes of `g`. */
  predicate UpstreamsReached(a: Arena, t: nat, i: nat, g: Graph)
    requires t < |a| && i <= |a[t].upstreams|
  {
    forall j | 0 <= j < i && a[t].upstreams[j].Some? :: a[t].upstreams[j].value in g.nodes
  }

  /** Reaching upstream `i` extends the reached prefix by one. */
  lemma ReachNext(a: Arena, t: nat, i: nat, m: Graph, r: Graph)
    requires t < |a| && i < |a[t].upstreams|
    requires UpstreamsReached(a, t, i, m) && Grows(m, r)
    requires a[t].upstreams[i].Some? ==> a[t].upstreams[i].value in r.nodes
    ensures UpstreamsReached(a, t, i + 1, r)
  {
    forall j | 0 <= j < i && a[t].upstreams[j].Some?
      ensures a[t].upstreams[j].value in r.nodes
    {
      GrowsKeeps(m, r, a[t].upstreams[j].value);
    }
  }

  /** A node of `g` stays a node of every graph `g` grows into. */
  lemma GrowsKeeps(g: Graph, r: Graph, v: nat)
    requires Grows(g, r) && v in g.nodes
    ensures v in r.nodes
  {
    var k :| 0 <= k < |g.nodes| && g.nodes[k] == v;
    assert r.nodes[k] == v;
  }

  /** Reached upstreams stay reached as the graph grows. */
  lemma UpstreamsGrow(a: Arena, t: nat, m: Graph, r: Graph)
    requires t < |a| && UpstreamsIn(a, t, m) && Grows(m, r)
    ensures UpstreamsIn(a, t, r)
  {
    forall j | 0 <= j < |a[t].upstreams| && a[t].upstreams[j].Some?
      ensures a[t].upstreams[j].value in r.nodes
    {
      GrowsKeeps(m, r, a[t].upstreams[j].value);
    }
  }

  /** The walk stopped at `v` because of `d`: a reconstruction node
      downstream of `v` that was not yet in `g`, joined to `v` by an edge. */
  predicate StoppedAtTo(a: Arena, g: Graph, r: Graph, v: nat)
    requires v < |a|
  {
    exists d | d in a[v].downstreams :: (v, d) in r.edges && d !in g.nodes && d < |a| && a[d].kind.To?
  }

  /** Every pass-through node added between `g` and `r` has had its
      upstreams walked, unless the walk stopped at it (`StoppedAtTo`). So
      the walk goes on upstream through every processing node until it
      meets an extraction or a reconstruction node. */
  predicate PassThroughsExpanded(a: Arena, g: Graph, r: Graph)
  {
    forall v | v in r.nodes && v !in g.nodes && v < |a| && a[v].kind.Other? ::
      UpstreamsIn(a, v, r) || StoppedAtTo(a, g, r, v)
  }

  /** `PassThroughsExpanded` composes along `g`, `m`, `r`. */
  lemma ComposeExpanded(a: Arena, g: Graph, m: Graph, r: Graph)
    requires Grows(g, m) && Grows(m, r)
    requires PassThroughsExpanded(a, g, m) && PassThroughsExpanded(a, m, r)
    ensures PassThroughsExpanded(a, g, r)
  {
    forall v | v in r.nodes && v !in g.nodes && v < |a| && a[v].kind.Other?
      ensures UpstreamsIn(a, v, r) || StoppedAtTo(a, g, r, v)
    {
      if v in m.nodes {
        if UpstreamsIn(a, v, m) {
          UpstreamsGrow(a, v, m, r);
        } else {
          var d :| d in a[v].downstreams && (v, d) in m.edges && d !in g.nodes && d < |a| && a[d].kind.To?;
          assert (v, d) in r.edges;
        }
      } else if !UpstreamsIn(a, v, r) {
        var d :| d in a[v].downstreams && (v, d) in r.edges && d !in m.nodes && d < |a| && a[d].kind.To?;
        if d in g.nodes {
          GrowsKeeps(g, m, d);
        }
      }
    }
  }

  /** A node `t` added just before walking its upstreams: with its own
      upstreams reached, the closure of the upstream walk extends to it. */
  lemma ExpandedHere(a: Arena, g: Graph, r0: Graph, r: Graph, t: nat)
    requires t < |a| && Grows(g, r0) && Grows(r0, r)
    requires forall v | v in r0.nodes && v !in g.nodes :: v == t
    requires UpstreamsIn(a, t, r) && PassThroughsExpanded(a, r0, r)
    ensures PassThroughsExpanded(a, g, r)
  {
    forall v | v in r.nodes && v !in g.nodes && v < |a| && a[v].kind.Other?
      ensures UpstreamsIn(a, v, r) || StoppedAtTo(a, g, r, v)
    {
      if v != t && !UpstreamsIn(a, v, r) {
        var d :| d in a[v].downstreams && (v, d) in r.edges && d !in r0.nodes && d < |a| && a[d].kind.To?;
        if d in g.nodes {
          GrowsKeeps(g, r0, d);
        }
      }
    }
  }

  /** `u` and `v` are joined by an edge of `g`, in either direction. */
  predicate Joined(g: Graph, u: nat, v: nat)
  {
    (u, v) in g.edges || (v, u) in g.edges
  }

  /** Every node added between `g` and `r` is joined by an edge of `r` to a
      node added before it, so the added nodes hang together with `g`. */
  ghost predicate Anchored(g: Graph, r: Graph)
  {
    forall i | |g.nodes| <= i < |r.nodes| :: JoinedEarlier(r, i)
  }

  /** The node at position `i` of `r` is joined to a node before it. */
  ghost predicate JoinedEarlier(r: Graph, i: nat)
    requires i < |r.nodes|
  {
    exists j | 0 <= j < i :: Joined(r, r.nodes[i], r.nodes[j])
  }

  /** `Anchored` composes along `g`, `m`, `r`. */
  lemma ComposeAnchored(g: Graph, m: Graph, r: Graph)
    requires Grows(g, m) && Grows(m, r)
    requires Anchored(g, m) && Anchored(m, r)
    ensures Anchored(g, r)
  {
    forall i | |g.nodes| <= i < |r.nodes|
      ensures JoinedEarlier(r, i)
    {
      if i < |m.nodes| {
        assert JoinedEarlier(m, i);
        var j :| 0 <= j < i && Joined(m, m.nodes[i], m.nodes[j]);
        assert r.nodes[i] == m.nodes[i] && r.nodes[j] == m.nodes[j];
        assert Joined(r, r.nodes[i], r.nodes[j]);
      }
    }
  }

  /** Every edge that can exist between ids of an arena of size `n`. */
  function Universe(n: nat): set<(nat, nat)>
  {
    set i: nat, j: nat | i < n && j < n :: (i, j)
  }

  /** An edge follows the dataflow: its source is an upstream of its
      target, or its target is a reconstruction node downstream of its source. */
  predicate Justified(a: Arena, e: (nat, nat))
  {
    && e.0 < |a| && e.1 < |a|
    && (Some(e.0) in a[e.1].upstreams || (a[e.1].kind.To? && e.1 in a[e.0].downstreams))
  }

  /** A set of arena nodes that no edge following the dataflow enters or
      leaves, edges into extraction nodes aside: the walk never crosses those. */
  ghost predicate Component(a: Arena, c: set<nat>)
  {
    forall e: (nat, nat) | Justified(a, e) && !a[e.1].kind.From? :: e.0 in c <==> e.1 in c
  }

  /** In a graph whose edges follow the dataflow and whose nodes hang
      together with its first node, the node at position `i` lies in every
      component of the first node. */
  lemma {:induction false} AnchoredInComponent(a: Arena, g: Graph, c: set<nat>, i: nat)
    requires |g.nodes| > 0 && g.nodes[0] in c && Component(a, c)
    requires Anchored(Graph([g.nodes[0]], {}), g)
    requires forall e | e in g.edges :: Justified(a, e) && !a[e.1].kind.From?
    requires i < |g.nodes|
    ensures g.nodes[i] in c
    decreases i
  {
    if i > 0 {
      assert JoinedEarlier(g, i);
      var j :| 0 <= j < i && Joined(g, g.nodes[i], g.nodes[j]);
      AnchoredInComponent(a, g, c, j);
    }
  }

  /** Such a graph lies within every component of its first node. */
  lemma GraphInComponent(a: Arena, g: Graph, c: set<nat>)
    requires |g.nodes| > 0 && g.nodes[0] in c && Component(a, c)
    requires Anchored(Graph([g.nodes[0]], {}), g)
    requires forall e | e in g.edges :: Justified(a, e) && !a[e.1].kind.From?
    ensures forall v | v in g.nodes :: v in c
  {
    forall i | 0 <= i < |g.nodes|
      ensures g.nodes[i] in c
    {
      AnchoredInComponent(a, g, c, i);
    }
  }

  /** `v` is an endpoint of some edge of `es`. */
  ghost predicate Touches(es: set<(nat, nat)>, v: nat)
  {
    exists u :: (v, u) in es || (u, v) in es
  }

  /** A reconstruction node that is not yet in the graph. */
  predicate FreshTo(a: Arena, d: nat, nodes: seq<nat>)
  {
    d < |a| && a[d].kind.To? && d !in nodes
  }

  /** The position of the first downstream that is a fresh reconstruction node. */
  function FirstFreshTo(a: Arena, ds: seq<nat>, nodes: seq<nat>): (r: Option<nat>)
    ensures r.Some? ==> r.value < |ds| && FreshTo(a, ds[r.value], nodes)
    ensures r.Some? ==> forall j | 0 <= j < r.value :: !FreshTo(a, ds[j], nodes)
    ensures r.None? ==> forall j | 0 <= j < |ds| :: !FreshTo(a, ds[j], nodes)
    decreases |ds|
  {
    if |ds| == 0 then None
    else if FreshTo(a, ds[0], nodes) then Some(0)
    else
      match FirstFreshTo(a, ds[1..], nodes)
      case None => None
      case Some(k) => Some(k + 1)
  }

  /** Membership of an in-arena edge in the universe of edges. */
  lemma InUniverse(n: nat, u: nat, v: nat)
    requires u < n && v < n
    ensures (u, v) in Universe(n)
  {
  }

  /** Every edge added between `g` and `r` follows the dataflow. */
  predicate NewEdgesJustified(a: Arena, g: Graph, r: Graph)
  {
    forall e | e in r.edges && e !in g.edges :: Justified(a, e)
  }

  /** No edge added between `g` and `r` points at an extraction node. */
  predicate NoNewEdgeIntoFrom(a: Arena, g: Graph, r: Graph)
  {
    forall e | e in r.edges && e !in g.edges :: e.1 < |a| && !a[e.1].kind.From?
  }

  /** Every node added between `g` and `r` is `root` or an endpoint of an added edge. */
  ghost predicate NewNodesTouched(g: Graph, r: Graph, root: Option<nat>)
  {
    forall v | v in r.nodes && v !in g.nodes :: root == Some(v) || Touches(r.edges - g.edges, v)
  }

  lemma TouchesMono(es: set<(nat, nat)>, es': set<(nat, nat)>, v: nat)
    requires es <= es'
    requires Touches(es, v)
    ensures Touches(es', v)
  {
    var u :| (v, u) in es || (u, v) in es;
    assert (v, u) in es' || (u, v) in es';
  }

  /** The three growth properties compose along `g`, `m`, `r`. */
  lemma {:induction false} Compose(a: Arena, g: Graph, m: Graph, r: Graph, root: Option<nat>)
    requires Grows(g, m) && Grows(m, r)
    requires NewNodesTouched(g, m, root) && NewNodesTouched(m, r, None)
    ensures Grows(g, r)
    ensures NewNodesTouched(g, r, root)
    ensures NewEdgesJustified(a, g, m) && NewEdgesJustified(a, m, r) ==> NewEdgesJustified(a, g, r)
    ensures NoNewEdgeIntoFrom(a, g, m) && NoNewEdgeIntoFrom(a, m, r) ==> NoNewEdgeIntoFrom(a, g, r)
  {
    forall v | v in r.nodes && v !in g.nodes
      ensures root == Some(v) || Touches(r.edges - g.edges, v)
    {
      if v in m.nodes {
        if root != Some(v) {
          TouchesMono(m.edges - g.edges, r.edges - g.edges, v);
        }
      } else {
        TouchesMono(r.edges - m.edges, r.edges - g.edges, v);
      }
    }
  }

  /** Adding an edge between two arena ids keeps the graph well formed. */
  lemma AddEdgeWellFormed(g: Graph, n: nat, u: nat, v: nat)
    requires WellFormed(g, n) && u < n && v < n
    ensures WellFormed(AddEdge(g, u, v), n)
    ensures Grows(g, AddEdge(g, u, v))
    ensures AddEdge(g, u, v).edges == g.edges + {(u, v)}
  {
  }

  /** `walk_to_translation(node, graph, prior_node)`. */
  method Walk(a: Arena, node: Option<nat>, g: Graph, prior: Option<nat>) returns (r: Graph)
    requires ValidArena(a)
    requires WellFormed(g, |a|)
    requires node.Some? ==> node.value < |a|
    requires prior.Some? ==> prior.value < |a| && prior.value in g.nodes
    ensures WellFormed(r, |a|)
    ensures Grows(g, r)
    // a missing node is a no-op
    ensures node.None? ==> r == g
    // the visited node always ends up in the graph
    ensures node.Some? ==> node.value in r.nodes && AddNode(g, node.value).nodes <= r.nodes
    // new edges follow the dataflow
    ensures (prior.Some? && node.Some? ==> Some(node.value) in a[prior.value].upstreams) ==>
              NewEdgesJustified(a, g, r)
    // new nodes are the root or endpoints of new edges
    ensures NewNodesTouched(g, r, if prior.None? then node else None)
    // walked as the root, every non-`None` upstream is reached
    ensures node.Some? && prior.None? ==> UpstreamsIn(a, node.value, r)
    // and the walk goes on upstream through every pass-through node it adds
    ensures PassThroughsExpanded(a, if prior.None? && node.Some? then AddNode(g, node.value) else g, r)
    // and every node it adds is joined to one added before it
    ensures Anchored(if prior.None? && node.Some? then AddNode(g, node.value) else g, r)
    // walked from a non-extraction node, no new edge points at an extraction node
    ensures (prior.Some? ==> !a[prior.value].kind.From?) && (prior.None? && node.Some? ==> !a[node.value].kind.From?) ==>
              NoNewEdgeIntoFrom(a, g, r)
    decreases Universe(|a|) - g.edges, if prior.None? then 4 else 2
  {
    if node.None? {
      return g;
    }
    var t := node.value;
    if prior.Some? {
      r := WalkStep(a, t, g, prior.value);
    } else {
      var r0 := AddNode(g, t);
      assert r0.edges == g.edges;
      assert NewEdgesJustified(a, g, r0) && NoNewEdgeIntoFrom(a, g, r0);
      assert NewNodesTouched(g, r0, node);
      r := WalkUpstreams(a, t, r0);
      Compose(a, g, r0, r, node);
    }
  }

  /** One visit of `t`, reached from its downstream caller `p`. */
  method WalkStep(a: Arena, t: nat, g: Graph, p: nat) returns (r: Graph)
    requires ValidArena(a)
    requires WellFormed(g, |a|)
    requires t < |a| && p < |a| && p in g.nodes
    ensures WellFormed(r, |a|)
    ensures Grows(g, r)
    ensures t in r.nodes && AddNode(g, t).nodes <= r.nodes
    // an edge that is already present stops the walk
    ensures (t, p) in g.edges ==> r == AddNode(g, t)
    // an extraction node is a boundary: the branch stops after its edge
    ensures (t, p) !in g.edges && a[t].kind.From? ==> r == AddEdge(AddNode(g, t), t, p)
    // the first fresh reconstruction node downstream is a boundary too
    ensures (t, p) !in g.edges && !a[t].kind.From? ==>
              var g1 := AddEdge(AddNode(g, t), t, p);
              var k := FirstFreshTo(a, a[t].downstreams, g1.nodes);
              k.Some? ==> r == AddEdge(g1, t, a[t].downstreams[k.value])
    // otherwise the edge to `p` is recorded and the walk goes on upstream
    ensures (t, p) !in g.edges ==> (t, p) in r.edges
    ensures (t, p) !in g.edges && !a[t].kind.From? &&
            FirstFreshTo(a, a[t].downstreams, AddEdge(AddNode(g, t), t, p).nodes).None? ==>
              UpstreamsIn(a, t, r)
    ensures PassThroughsExpanded(a, g, r)
    ensures Anchored(g, r)
    ensures Some(t) in a[p].upstreams ==> NewEdgesJustified(a, g, r)
    ensures NewNodesTouched(g, r, None)
    ensures !a[p].kind.From? ==> NoNewEdgeIntoFrom(a, g, r)
    decreases Universe(|a|) - g.edges, 1
  {
    r := AddNode(g, t);
    if (t, p) in r.edges {
      assert r.edges == g.edges;
      assert r == g;
      return;
    }
    InUniverse(|a|, t, p);
    PriorEdge(a, g, t, p);
    r := AddEdge(r, t, p);
    PriorEdgeNodes(g, t, p);
    PriorEdgeAnchored(g, t, p);
    if a[t].kind.From? {
      return;
    }
    var k := FirstFreshTo(a, a[t].downstreams, r.nodes);
    if k.Some? {
      var d := a[t].downstreams[k.value];
      assert d in a[t].downstreams;
      AddEdgeWellFormed(r, |a|, t, d);
      var r1 := AddEdge(r, t, d);
      StopAtTo(a, g, r, r1, t, p, d);
      StopAtToExpanded(a, g, r, r1, t, d);
      StopAtToAnchored(g, r, r1, t, d);
      r := r1;
      return;
    }
    ghost var r0 := r;
    r := WalkUpstreams(a, t, r);
    Compose(a, g, r0, r, None);
    ExpandedHere(a, g, r0, r, t);
    ComposeAnchored(g, r0, r);
  }

  /** The node `t` recorded with its edge to the caller `p` is joined to it. */
  lemma PriorEdgeAnchored(g: Graph, t: nat, p: nat)
    requires p in g.nodes
    ensures Anchored(g, AddEdge(AddNode(g, t), t, p))
  {
    var r := AddEdge(AddNode(g, t), t, p);
    if t !in g.nodes {
      var j :| 0 <= j < |g.nodes| && g.nodes[j] == p;
      assert r.nodes == g.nodes + [t] && r.nodes[j] == p;
      assert JoinedEarlier(r, |g.nodes|);
    }
  }

  /** The reconstruction node `d` the walk stops at is joined to `t`. */
  lemma StopAtToAnchored(g: Graph, r: Graph, r1: Graph, t: nat, d: nat)
    requires Grows(g, r) && Anchored(g, r)
    requires t in r.nodes && d !in r.nodes
    requires r1 == AddEdge(r, t, d)
    ensures Anchored(g, r1)
  {
    assert r1.nodes == r.nodes + [d];
    var k :| 0 <= k < |r.nodes| && r.nodes[k] == t;
    assert r1.nodes[k] == t && r1.nodes[|r.nodes|] == d && (t, d) in r1.edges;
    assert Joined(r1, r1.nodes[|r.nodes|], r1.nodes[k]);
    assert JoinedEarlier(r1, |r.nodes|);
    assert Anchored(r, r1);
    ComposeAnchored(g, r, r1);
  }

  /** With the caller already in the graph, recording the edge to it adds
      only `t`. */
  lemma PriorEdgeNodes(g: Graph, t: nat, p: nat)
    requires p in g.nodes
    ensures forall v | v in AddEdge(AddNode(g, t), t, p).nodes && v !in g.nodes :: v == t
  {
  }

  /** Stopping at the fresh reconstruction node `d` keeps the closure: `t`
      is stopped by `d`, and `d` is not a pass-through node. */
  lemma StopAtToExpanded(a: Arena, g: Graph, r: Graph, r1: Graph, t: nat, d: nat)
    requires t < |a| && d < |a| && a[d].kind.To? && d in a[t].downstreams
    requires d !in r.nodes && Grows(g, r)
    requires forall v | v in r.nodes && v !in g.nodes :: v == t
    requires r1 == AddEdge(r, t, d)
    ensures PassThroughsExpanded(a, g, r1)
  {
    if d in g.nodes {
      GrowsKeeps(g, r, d);
    }
    assert (t, d) in r1.edges;
    forall v | v in r1.nodes && v !in g.nodes && v < |a| && a[v].kind.Other?
      ensures StoppedAtTo(a, g, r1, v)
    {
      assert v == t;
    }
  }

  /** Recording the edge from `t` to the caller `p` keeps the growth properties. */
  lemma PriorEdge(a: Arena, g: Graph, t: nat, p: nat)
    requires WellFormed(g, |a|) && t < |a| && p < |a| && (t, p) !in g.edges
    ensures var r := AddEdge(AddNode(g, t), t, p);
            && WellFormed(r, |a|) && Grows(g, r) && AddNode(g, t).nodes <= r.nodes
            && r.edges - g.edges == {(t, p)} && t in r.nodes && p in r.nodes
            && NewNodesTouched(g, r, None)
            && (Some(t) in a[p].upstreams ==> NewEdgesJustified(a, g, r))
            && (!a[p].kind.From? ==> NoNewEdgeIntoFrom(a, g, r))
  {
    var r := AddEdge(AddNode(g, t), t, p);
    PriorEdgeShape(a, g, t, p);
    PriorEdgeFlow(a, g, r, t, p);
  }

  /** The shape of the graph after recording the edge from `t` to `p`. */
  lemma PriorEdgeShape(a: Arena, g: Graph, t: nat, p: nat)
    requires WellFormed(g, |a|) && t < |a| && p < |a| && (t, p) !in g.edges
    ensures var r := AddEdge(AddNode(g, t), t, p);
            && WellFormed(r, |a|) && Grows(g, r) && AddNode(g, t).nodes <= r.nodes
            && r.edges - g.edges == {(t, p)} && t in r.nodes && p in r.nodes
  {
    AddEdgeWellFormed(AddNode(g, t), |a|, t, p);
  }

  /** With the one new edge `(t, p)`, the new nodes are its endpoints and
      the edge follows the dataflow when `t` is an upstream of `p`. */
  lemma PriorEdgeFlow(a: Arena, g: Graph, r: Graph, t: nat, p: nat)
    requires t < |a| && p < |a|
    requires r.edges - g.edges == {(t, p)}
    requires forall x | x in r.nodes && x !in g.nodes :: x == t || x == p
    ensures NewNodesTouched(g, r, None)
    ensures Some(t) in a[p].upstreams ==> NewEdgesJustified(a, g, r)
    ensures !a[p].kind.From? ==> NoNewEdgeIntoFrom(a, g, r)
  {
    assert (t, p) in r.edges - g.edges;
    forall x | x in r.nodes && x !in g.nodes
      ensures Touches(r.edges - g.edges, x)
    {
      assert x == t || x == p;
    }
    forall e | e in r.edges && e !in g.edges
      ensures e == (t, p)
    {
      assert e in r.edges - g.edges;
    }
    if Some(t) in a[p].upstreams {
      assert Justified(a, (t, p));
    }
  }

  /** Adding the boundary edge `(t, d)` towards a reconstruction node keeps
      the growth properties. */
  lemma StopAtTo(a: Arena, g: Graph, r: Graph, r1: Graph, t: nat, p: nat, d: nat)
    requires t < |a| && p < |a| && d < |a| && a[d].kind.To? && d in a[t].downstreams
    requires WellFormed(g, |a|) && d !in r.nodes
    requires Grows(g, r) && r.edges - g.edges == {(t, p)} && t in r.nodes && p in r.nodes
    requires r1 == AddEdge(r, t, d)
    requires NewNodesTouched(g, r, None)
    ensures Grows(g, r1)
    ensures NewNodesTouched(g, r1, None)
    ensures NewEdgesJustified(a, g, r) ==> NewEdgesJustified(a, g, r1)
    ensures NoNewEdgeIntoFrom(a, g, r) ==> NoNewEdgeIntoFrom(a, g, r1)
  {
    assert (t, d) in r1.edges - g.edges;
    assert r1.edges - g.edges <= {(t, p), (t, d)};
    assert Justified(a, (t, d));
    forall x | x in r1.nodes && x !in g.nodes
      ensures Touches(r1.edges - g.edges, x)
    {
      if x == d {
      } else {
        assert x in r.nodes;
        TouchesMono(r.edges - g.edges, r1.edges - g.edges, x);
      }
    }
  }

  /** Walks, in order, every upstream of `t` that is not `None`, with `t`
      as the prior node. */
  method WalkUpstreams(a: Arena, t: nat, g: Graph) returns (r: Graph)
    requires ValidArena(a)
    requires WellFormed(g, |a|)
    requires t < |a| && t in g.nodes
    ensures WellFormed(r, |a|)
    ensures Grows(g, r)
    ensures UpstreamsIn(a, t, r)
    ensures NewEdgesJustified(a, g, r)
    ensures NewNodesTouched(g, r, None)
    ensures !a[t].kind.From? ==> NoNewEdgeIntoFrom(a, g, r)
    ensures PassThroughsExpanded(a, g, r)
    ensures Anchored(g, r)
    decreases Universe(|a|) - g.edges, 3
  {
    var ups := a[t].upstreams;
    r := g;
    var i := 0;
    while i < |ups|
      invariant 0 <= i <= |ups|
      invariant WellFormed(r, |a|)
      invariant Grows(g, r)
      invariant NewEdgesJustified(a, g, r)
      invariant NewNodesTouched(g, r, None)
      invariant !a[t].kind.From? ==> NoNewEdgeIntoFrom(a, g, r)
      invariant UpstreamsReached(a, t, i, r)
      invariant PassThroughsExpanded(a, g, r)
      invariant Anchored(g, r)
    {
      ghost var m := r;
      if ups[i].Some? {
        assert ups[i] in a[t].upstreams;
        GrowsKeeps(g, r, t);
        r := Walk(a, ups[i], r, Some(t));
        Compose(a, g, m, r, None);
        ComposeExpanded(a, g, m, r);
        ComposeAnchored(g, m, r);
      }
      ReachNext(a, t, i, m, r);
      i := i + 1;
    }
  }

  /** The graph a reconstruction node builds at construction: the walk from itself. */
  method TranslationGraph(a: Arena, self: nat) returns (g: Graph)
    requires ValidArena(a)
    requires self < |a|
    ensures WellFormed(g, |a|)
    ensures |g.nodes| > 0 && g.nodes[0] == self
    ensures forall e | e in g.edges :: Justified(a, e)
    ensures !a[self].kind.From? ==> forall e | e in g.edges :: !a[e.1].kind.From?
    ensures UpstreamsIn(a, self, g)
    ensures PassThroughsExpanded(a, Graph([self], {}), g)
    ensures Anchored(Graph([self], {}), g)
  {
    g := Walk(a, Some(self), Empty(), None);
    assert AddNode(Empty(), self).nodes == [self];
  }
}

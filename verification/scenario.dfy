/**
 * An extraction node feeding a reconstruction node: the extraction node's
 * lifecycle notifications drive the reconstruction node's `emit_start` /
 * `emit_stop`, and every value it forwards becomes a payload `update`.
 * Re-wrapping the images of a session yields one new session with one
 * descriptor and one event per image, in order.
 */
module Scenario {
  import opened Documents
  import E = Extraction
  import R = Reconstruction
  import W = Walker

  /** How the two nodes are wired: the arena, the arena positions of both
      nodes and the reconstruction node's own subscribers. */
  datatype Wiring = Wiring(a: W.Arena, fromId: nat, toId: nat, toSubs: seq<nat>)

  /** A principle extraction node with the reconstruction node directly
      downstream of it. */
  predicate ValidWiring(w: Wiring)
  {
    && w.fromId < |w.a| && w.toId < |w.a| && w.fromId != w.toId
    && w.a[w.fromId].kind == W.From(true) && w.a[w.toId].kind == W.To
    && w.toId in w.a[w.fromId].downstreams && Some(w.fromId) in w.a[w.toId].upstreams
  }

  /** The extraction node's parameters: the `img` field of the events'
      `data`, under any stream name. */
  function ImageExtractor(): E.Config
  {
    E.Config(Event, E.Path([E.Key("data"), E.Key("img")]), ALL)
  }

  /** The reconstruction node in a given phase; the extraction node is its
      only translation node and its only principle node. Between calls its
      start document is always `None`, so the phase is all that changes. */
  function ToNodeOf(w: Wiring, p: R.Phase): R.ToNode
  {
    R.ToNode(w.toId, [w.fromId], [w.fromId], p, None)
  }

  /** The elements of a sequence. */
  function Elems(s: seq<nat>): set<nat>
  {
    set x | x in s
  }

  /** A sequence without repeats has as many elements as its set. */
  lemma {:induction false} DistinctCard(s: seq<nat>)
    requires W.Distinct(s)
    ensures |Elems(s)| == |s|
    decreases |s|
  {
    if |s| > 0 {
      var init := s[..|s| - 1];
      var last := s[|s| - 1];
      assert W.Distinct(init);
      DistinctCard(init);
      assert last !in Elems(init);
      assert Elems(s) == Elems(init) + {last};
    }
  }

  /** A sequence whose only element is `k`, without repeats, is `[k]`. */
  lemma SingletonOfDistinct(s: seq<nat>, k: nat)
    requires W.Distinct(s) && k in s
    requires forall v | v in s :: v == k
    ensures s == [k]
  {
    DistinctCard(s);
    assert Elems(s) == {k};
    assert s[0] in s;
  }

  /** Builds a source node, a principle extraction node below it and a
      reconstruction node below that, then constructs the reconstruction
      node: the walk finds the extraction node as its only translation and
      principle node, and the construction subscribes the reconstruction
      node to it. This is the node and the subscription that `Feed` uses. */
  method Connect(fromUid: string, toUid: string, toSubs: seq<nat>) returns (w: Wiring, n: R.ToNode, subs: R.Subscribers)
    ensures ValidWiring(w) && w.toSubs == toSubs
    ensures w.a[w.fromId].uid == fromUid && w.a[w.toId].uid == toUid
    ensures n == ToNodeOf(w, R.Stopped)
    ensures R.SubsOf(subs, w.fromId) == [w.toId]
  {
    var a := [
      W.Node(W.To, toUid, [Some(1)], []),
      W.Node(W.From(true), fromUid, [Some(2)], [0]),
      W.Node(W.Other, "source", [], [1])];
    assert W.ValidArena(a);
    var g, r := R.Construct(a, 0, map[]);
    assert a[0].upstreams[0] == Some(1);
    assert 1 in g.nodes;
    assert R.IsPrinciple(a, 1);
    assert r.Ok?;
    n, subs := r.value.0, r.value.1;
    assert forall v | v in g.nodes :: v < 3;
    SingletonOfDistinct(n.translation, 1);
    SingletonOfDistinct(n.principles, 1);
    w := Wiring(a, 1, 0, toSubs);
    assert R.SubsOf(map[], 1) == [];
  }

  /** A source node, a principle extraction node, a processing node below it
      and a reconstruction node below that. */
  function ThroughArena(fromUid: string, toUid: string): (a: W.Arena)
    ensures W.ValidArena(a)
  {
    [W.Node(W.To, toUid, [Some(1)], []),
     W.Node(W.Other, "map", [Some(2)], [0]),
     W.Node(W.From(true), fromUid, [Some(3)], [1]),
     W.Node(W.Other, "source", [], [2])]
  }

  /** Any graph with the walk's reach and closure from the reconstruction
      node of `ThroughArena` holds the extraction node: the processing node
      has no fresh reconstruction node below it, so its upstreams are walked. */
  lemma ThroughReached(fromUid: string, toUid: string, g: W.Graph)
    requires W.UpstreamsIn(ThroughArena(fromUid, toUid), 0, g)
    requires W.PassThroughsExpanded(ThroughArena(fromUid, toUid), W.Graph([0], {}), g)
    ensures 2 in g.nodes
  {
    var a := ThroughArena(fromUid, toUid);
    assert a[0].upstreams[0] == Some(1);
    assert 1 in g.nodes;
    assert !W.StoppedAtTo(a, W.Graph([0], {}), g, 1);
    assert a[1].upstreams[0] == Some(2);
  }

  /** Constructs the reconstruction node of `ThroughArena`: the walk passes
      through the processing node to the extraction node, which becomes the
      only translation and principle node, and the construction subscribes
      the reconstruction node to it. */
  method ConnectThrough(fromUid: string, toUid: string) returns (a: W.Arena, n: R.ToNode, subs: R.Subscribers)
    ensures a == ThroughArena(fromUid, toUid)
    ensures a[1].kind == W.Other && a[2].kind == W.From(true) && a[2].uid == fromUid
    ensures n == R.ToNode(0, [2], [2], R.Stopped, None)
    ensures R.SubsOf(subs, 2) == [0]
  {
    a := ThroughArena(fromUid, toUid);
    var g, r := R.Construct(a, 0, map[]);
    ThroughReached(fromUid, toUid, g);
    assert R.IsPrinciple(a, 2);
    assert r.Ok?;
    n, subs := r.value.0, r.value.1;
    assert forall v | v in g.nodes :: v < 4;
    SingletonOfDistinct(n.translation, 2);
    SingletonOfDistinct(n.principles, 2);
    assert R.SubsOf(map[], 2) == [];
  }

  /** Two separate pipelines, each a principle extraction node feeding a
      reconstruction node. */
  function TwoPipelines(): (a: W.Arena)
    ensures W.ValidArena(a)
  {
    [W.Node(W.To, "t1", [Some(1)], []),
     W.Node(W.From(true), "f1", [], [0]),
     W.Node(W.To, "t2", [Some(3)], []),
     W.Node(W.From(true), "f2", [], [2])]
  }

  /** No edge following the dataflow joins the first pipeline to the second. */
  lemma FirstPipelineApart()
    ensures W.Component(TwoPipelines(), {0, 1})
  {
    var a := TwoPipelines();
    forall e: (nat, nat) | W.Justified(a, e) && !a[e.1].kind.From?
      ensures e.0 in {0, 1} <==> e.1 in {0, 1}
    {
      assert e.1 == 0 || e.1 == 1 || e.1 == 2 || e.1 == 3;
    }
  }

  /** Any graph that reaches the upstreams of the first reconstruction node
      and stays within its part of the dataflow holds exactly the first
      pipeline's nodes. */
  lemma FirstGraph(g: W.Graph)
    requires W.UpstreamsIn(TwoPipelines(), 0, g)
    requires !TwoPipelines()[0].kind.From? ==> forall c | W.Component(TwoPipelines(), c) && 0 in c :: forall v | v in g.nodes :: v in c
    ensures 1 in g.nodes && forall v | v in g.nodes :: v == 0 || v == 1
  {
    FirstPipelineApart();
    assert TwoPipelines()[0].upstreams[0] == Some(1);
  }

  /** Constructing the first pipeline's reconstruction node subscribes it to
      its own extraction node only: the other pipeline's extraction node is
      neither a translation nor a principle node, and its subscribers are
      left alone. */
  method ConnectFirst() returns (n: R.ToNode, subs: R.Subscribers)
    ensures n == R.ToNode(0, [1], [1], R.Stopped, None)
    ensures R.SubsOf(subs, 1) == [0] && R.SubsOf(subs, 3) == []
  {
    var a := TwoPipelines();
    var g, r := R.Construct(a, 0, map[]);
    FirstGraph(g);
    assert R.IsPrinciple(a, 1);
    assert r.Ok?;
    n, subs := r.value.0, r.value.1;
    SingletonOfDistinct(n.translation, 1);
    SingletonOfDistinct(n.principles, 1);
    assert R.SubsOf(map[], 1) == [] && R.SubsOf(map[], 3) == [];
  }

  /** What changes in the pipeline as documents go through. */
  datatype Pipe = Pipe(from: E.State, phase: R.Phase)

  /** Hands the notifications addressed to node `n` to its lifecycle calls. */
  function Dispatch(a: W.Arena, n: R.ToNode, toSubs: seq<nat>, notices: seq<E.Notice>, starts: map<nat, Value>): (r: (R.ToNode, seq<R.Out>))
    requires forall v | v in n.translation :: v < |a|
    ensures r.0.translation == n.translation && r.0.id == n.id
    decreases |notices|
  {
    if |notices| == 0 then (n, [])
    else
      var (n1, l1) :=
        if notices[0].sub != n.id then (n, [])
        else match notices[0]
          case NotifyStart(_, x) => R.EmitStart(a, n, toSubs, x, starts)
          case NotifyStop(_, x) => R.EmitStop(n, toSubs, x);
      var (n2, l2) := Dispatch(a, n1, toSubs, notices[1..], starts);
      (n2, l1 + l2)
  }

  /** One document into the extraction node, and what follows in the
      reconstruction node: first the lifecycle calls, then the payload. */
  function Feed(w: Wiring, x: Pipe, d: Doc): (r: (Pipe, seq<R.Out>))
    requires ValidWiring(w)
  {
    var st := E.Update(ImageExtractor(), x.from, d);
    var (n1, l1) := Dispatch(w.a, ToNodeOf(w, x.phase), w.toSubs, st.notices, map[w.fromId := st.state.startUid]);
    if st.out.Emitted? then
      var (n2, l2) := R.Update(n1, st.out.v);
      (Pipe(st.state, n2.phase), l1 + l2)
    else (Pipe(st.state, n1.phase), l1)
  }

  /** A document step of a pipeline. */
  type StepFn = (Pipe, Doc) -> (Pipe, seq<R.Out>)

  function Pipeline(w: Wiring): StepFn
    requires ValidWiring(w)
  {
    (x: Pipe, d: Doc) => Feed(w, x, d)
  }

  /** A stream of documents, fed in order; the logs are concatenated. */
  function Run(step: StepFn, x: Pipe, ds: seq<Doc>): (Pipe, seq<R.Out>)
    decreases |ds|
  {
    if |ds| == 0 then (x, [])
    else
      var (y, l1) := step(x, ds[0]);
      var (z, l2) := Run(step, y, ds[1..]);
      (z, l1 + l2)
  }

  lemma {:induction false} RunConcat(step: StepFn, x: Pipe, ds1: seq<Doc>, ds2: seq<Doc>)
    ensures var r1 := Run(step, x, ds1);
            var r2 := Run(step, r1.0, ds2);
            Run(step, x, ds1 + ds2) == (r2.0, r1.1 + r2.1)
    decreases |ds1|
  {
    if |ds1| == 0 {
      assert ds1 + ds2 == ds2;
      assert [] + Run(step, x, ds2).1 == Run(step, x, ds2).1;
    } else {
      assert (ds1 + ds2)[0] == ds1[0];
      assert (ds1 + ds2)[1..] == ds1[1..] + ds2;
      var (y, l1) := step(x, ds1[0]);
      RunConcat(step, y, ds1[1..], ds2);
      var ra := Run(step, y, ds1[1..]);
      var rb := Run(step, ra.0, ds2);
      assert l1 + (ra.1 + rb.1) == (l1 + ra.1) + rb.1;
    }
  }

  lemma RunSingle(step: StepFn, x: Pipe, d: Doc)
    ensures Run(step, x, [d]) == step(x, d)
  {
    assert [d][1..] == [];
    assert step(x, d).1 + [] == step(x, d).1;
  }

  /** The payloads of the event documents of a log, in order. */
  function EventPayloads(log: seq<R.Out>): seq<Value>
    decreases |log|
  {
    if |log| == 0 then []
    else (if log[0].Emit? && log[0].doc.NewEvent? then [log[0].doc.payload] else []) + EventPayloads(log[1..])
  }

  lemma {:induction false} EventPayloadsAppend(l1: seq<R.Out>, l2: seq<R.Out>)
    ensures EventPayloads(l1 + l2) == EventPayloads(l1) + EventPayloads(l2)
    decreases |l1|
  {
    if |l1| == 0 {
      assert l1 + l2 == l2;
    } else {
      var h := if l1[0].Emit? && l1[0].doc.NewEvent? then [l1[0].doc.payload] else [];
      assert (l1 + l2)[0] == l1[0];
      assert (l1 + l2)[1..] == l1[1..] + l2;
      EventPayloadsAppend(l1[1..], l2);
      calc {
        EventPayloads(l1 + l2);
        h + EventPayloads(l1[1..] + l2);
        h + (EventPayloads(l1[1..]) + EventPayloads(l2));
        (h + EventPayloads(l1[1..])) + EventPayloads(l2);
      }
    }
  }

  /** Lifecycle calls to subscribers carry no payload. */
  lemma {:induction false} EventPayloadsOfSignals(subs: seq<nat>, x: Doc)
    ensures EventPayloads(R.StartSignals(subs, x)) == []
    ensures EventPayloads(R.StopSignals(subs, x)) == []
    decreases |subs|
  {
    if |subs| > 0 {
      assert R.StartSignals(subs, x)[1..] == R.StartSignals(subs[1..], x);
      assert R.StopSignals(subs, x)[1..] == R.StopSignals(subs[1..], x);
      EventPayloadsOfSignals(subs[1..], x);
    }
  }

  /** `count` copies of one document type. */
  function Repeat(k: DocKind, count: nat): (r: seq<DocKind>)
    ensures |r| == count && forall i | 0 <= i < count :: r[i] == k
  {
    seq(count, _ => k)
  }

  /** Session documents as an acquisition produces them. */
  function StartDoc(u: Value): Doc
  {
    Doc(Start, map["uid" := u])
  }

  function DescriptorDoc(du: Value): Doc
  {
    Doc(Descriptor, map["uid" := du])
  }

  function EventDoc(du: Value, img: Value): Doc
  {
    Doc(Event, map["descriptor" := du, "data" := VMap(map["img" := img])])
  }

  function StopDoc(): Doc
  {
    Doc(Stop, map[])
  }

  /** One event per image, all belonging to descriptor `du`. */
  function EventDocs(du: Value, imgs: seq<Value>): (r: seq<Doc>)
    ensures |r| == |imgs| && forall i | 0 <= i < |imgs| :: r[i] == EventDoc(du, imgs[i])
  {
    seq(|imgs|, i requires 0 <= i < |imgs| => EventDoc(du, imgs[i]))
  }

  /** A whole session: start, descriptor, one event per image, stop. */
  function Session(u: Value, du: Value, imgs: seq<Value>): seq<Doc>
  {
    [StartDoc(u), DescriptorDoc(du)] + EventDocs(du, imgs) + [StopDoc()]
  }

  /** The provenance of a reconstruction node with one translation node. */
  lemma ProvenanceSingle(a: W.Arena, fromId: nat, u: Value)
    requires fromId < |a| && u != VNone
    ensures R.ProvenanceOf(a, [fromId], map[fromId := u]) == R.Provenance([u], map[a[fromId].uid := u])
  {
    assert [fromId][1..] == [];
    assert [fromId][..0] == [];
  }

  /** A start document reaching a stopped pipeline: the session uid is
      recorded, and the reconstruction node opens its log with a start
      whose provenance names that session. */
  lemma FeedStart(w: Wiring, x: Pipe, u: Value)
    requires ValidWiring(w) && u != VNone
    requires x.from.subs == [w.toId] && x.phase == R.Stopped
    ensures var r := Pipeline(w)(x, StartDoc(u));
            && r.0 == Pipe(x.from.(startUid := u), R.Started)
            && R.Kinds(r.1) == [Start] && EventPayloads(r.1) == []
            && |r.1| > 0 && r.1[0] == R.Emit(R.NewStart(StartDoc(u), R.Provenance([u], map[w.a[w.fromId].uid := u])))
  {
    var d := StartDoc(u);
    var starts := map[w.fromId := u];
    var l1 := FeedStartLog(w, x, u);
    var head := [R.Emit(R.NewStart(d, R.ProvenanceOf(w.a, [w.fromId], starts)))];
    assert l1 == head + R.StartSignals(w.toSubs, d) by {
      assert l1 == l1[..1] + l1[1..];
    }
    EventPayloadsOfSignals(w.toSubs, d);
    EventPayloadsAppend(head, R.StartSignals(w.toSubs, d));
    ProvenanceSingle(w.a, w.fromId, u);
  }

  /** The start goes through the extraction node's bookkeeping, and its one
      notification reaches the reconstruction node as `emit_start`. */
  lemma FeedStartLog(w: Wiring, x: Pipe, u: Value) returns (l1: seq<R.Out>)
    requires ValidWiring(w) && u != VNone
    requires x.from.subs == [w.toId] && x.phase == R.Stopped
    ensures l1 == R.EmitStart(w.a, ToNodeOf(w, R.Stopped), w.toSubs, StartDoc(u), map[w.fromId := u]).1
    ensures Feed(w, x, StartDoc(u)) == (Pipe(x.from.(startUid := u), R.Started), l1)
  {
    var d := StartDoc(u);
    var n := ToNodeOf(w, x.phase);
    var starts := map[w.fromId := u];
    var notes := [E.NotifyStart(w.toId, d)];
    assert E.Update(ImageExtractor(), x.from, d) == E.Step(x.from.(startUid := u), notes, E.Silent);
    var n1;
    n1, l1 := R.EmitStart(w.a, n, w.toSubs, d, starts).0, R.EmitStart(w.a, n, w.toSubs, d, starts).1;
    assert notes[1..] == [];
    assert Dispatch(w.a, n1, w.toSubs, notes[1..], starts) == (n1, []);
    assert l1 + [] == l1;
    assert Dispatch(w.a, n, w.toSubs, notes, starts) == (n1, l1);
  }

  /** A descriptor (no name) is recorded and not forwarded. */
  lemma FeedDescriptor(w: Wiring, x: Pipe, du: Value)
    requires ValidWiring(w)
    ensures Pipeline(w)(x, DescriptorDoc(du)) == (x.(from := x.from.(descriptorUids := x.from.descriptorUids + [du])), [])
  {
    var s := x.from;
    assert E.Update(ImageExtractor(), s, DescriptorDoc(du)) == E.Step(s.(descriptorUids := s.descriptorUids + [du]), [], E.Silent);
    assert Feed(w, x, DescriptorDoc(du)) == (x.(from := s.(descriptorUids := s.descriptorUids + [du])), []);
  }

  /** An event of a recorded descriptor in an open session: the extraction
      node is unchanged, and the image becomes the payload of the
      reconstruction node's update. */
  lemma FeedEvent(w: Wiring, x: Pipe, du: Value, img: Value)
    requires ValidWiring(w)
    requires du in x.from.descriptorUids && x.phase != R.Stopped
    ensures var r := Pipeline(w)(x, EventDoc(du, img));
            && r.0 == Pipe(x.from, R.Described)
            && R.Kinds(r.1) == (if x.phase == R.Started then [Descriptor, Event] else [Event])
            && EventPayloads(r.1) == [img]
  {
    var d := EventDoc(du, img);
    assert E.Resolve(VMap(d.body), [E.Key("data"), E.Key("img")]) == E.Resolve(VMap(map["img" := img]), [E.Key("img")]);
    assert E.Resolve(VMap(map["img" := img]), [E.Key("img")]) == E.Resolve(img, []);
    assert E.Update(ImageExtractor(), x.from, d) == E.Step(x.from, [], E.Emitted(img));
    var (n1, l1) := R.Update(ToNodeOf(w, x.phase), img);
    assert [] + l1 == l1;
    assert Feed(w, x, d) == (Pipe(x.from, n1.phase), l1);
    if x.phase == R.Started {
      assert l1 == [R.Emit(R.NewDescriptor(img)), R.Emit(R.NewEvent(img))];
      assert l1[1..] == [R.Emit(R.NewEvent(img))];
      assert l1[1..][1..] == [];
      assert EventPayloads(l1[1..]) == [img] + EventPayloads([]);
    } else {
      assert l1 == [R.Emit(R.NewEvent(img))];
      assert l1[1..] == [];
    }
  }

  /** A stop document: the extraction node forgets its descriptors and the
      reconstruction node, its only subscriber, emits one stop. */
  lemma FeedStop(w: Wiring, x: Pipe)
    requires ValidWiring(w)
    requires x.from.subs == [w.toId]
    ensures var r := Pipeline(w)(x, StopDoc());
            && r.0 == Pipe(x.from.(descriptorUids := []), R.Stopped)
            && R.Kinds(r.1) == [Stop] && EventPayloads(r.1) == []
  {
    var d := StopDoc();
    var n := ToNodeOf(w, x.phase);
    var starts := map[w.fromId := x.from.startUid];
    var notes := [E.NotifyStop(w.toId, d)];
    assert E.Update(ImageExtractor(), x.from, d) == E.Step(x.from.(descriptorUids := []), notes, E.Silent);
    var (n1, l1) := R.EmitStop(n, w.toSubs, d);
    assert notes[1..] == [];
    assert Dispatch(w.a, n1, w.toSubs, notes[1..], starts) == (n1, []);
    assert l1 + [] == l1;
    assert Dispatch(w.a, n, w.toSubs, notes, starts) == (n1, l1);
    assert Feed(w, x, d) == (Pipe(x.from.(descriptorUids := []), R.Stopped), l1);
    var head := [R.Emit(R.NewStop(d))];
    assert l1 == head + R.StopSignals(w.toSubs, d);
    EventPayloadsOfSignals(w.toSubs, d);
    EventPayloadsAppend(head, R.StopSignals(w.toSubs, d));
  }

  /** What an event step does, for any step function. */
  ghost predicate EventStep(step: StepFn, s: E.State, du: Value)
  {
    forall y: Pipe, img: Value {:trigger step(y, EventDoc(du, img))} | y.from == s && y.phase != R.Stopped ::
      && step(y, EventDoc(du, img)).0 == Pipe(s, R.Described)
      && R.Kinds(step(y, EventDoc(du, img)).1) == (if y.phase == R.Started then [Descriptor, Event] else [Event])
      && EventPayloads(step(y, EventDoc(du, img)).1) == [img]
  }

  lemma PipelineEventStep(w: Wiring, s: E.State, du: Value)
    requires ValidWiring(w)
    requires du in s.descriptorUids
    ensures EventStep(Pipeline(w), s, du)
  {
    forall y: Pipe, img: Value {:trigger Pipeline(w)(y, EventDoc(du, img))} | y.from == s && y.phase != R.Stopped
      ensures var r := Pipeline(w)(y, EventDoc(du, img));
              && r.0 == Pipe(s, R.Described)
              && R.Kinds(r.1) == (if y.phase == R.Started then [Descriptor, Event] else [Event])
              && EventPayloads(r.1) == [img]
    {
      FeedEvent(w, y, du, img);
    }
  }

  lemma KindsAppendEvents(l1: seq<R.Out>, l2: seq<R.Out>, started: bool, k: nat)
    requires R.Kinds(l1) == (if started then [Descriptor, Event] else [Event])
    requires R.Kinds(l2) == Repeat(Event, k)
    ensures R.Kinds(l1 + l2) == (if started then [Descriptor] else []) + Repeat(Event, k + 1)
  {
    R.KindsAppend(l1, l2);
    assert [Event] + Repeat(Event, k) == Repeat(Event, k + 1);
  }

  /** The images of one event each: the extraction node is unchanged, and
      the reconstruction node emits a descriptor before the first event when
      it has just started, then one event per image, in order. */
  lemma {:induction false} RunEvents(step: StepFn, x: Pipe, du: Value, imgs: seq<Value>)
    requires EventStep(step, x.from, du)
    requires x.phase != R.Stopped
    ensures var r := Run(step, x, EventDocs(du, imgs));
            && r.0 == (if |imgs| == 0 then x else Pipe(x.from, R.Described))
            && R.Kinds(r.1) == (if x.phase == R.Started && |imgs| > 0 then [Descriptor] else []) + Repeat(Event, |imgs|)
            && EventPayloads(r.1) == imgs
    decreases |imgs|
  {
    if |imgs| == 0 {
      assert EventDocs(du, imgs) == [];
    } else {
      var d := EventDoc(du, imgs[0]);
      var (y, l1) := step(x, d);
      assert y == Pipe(x.from, R.Described);
      assert R.Kinds(l1) == (if x.phase == R.Started then [Descriptor, Event] else [Event]);
      assert EventPayloads(l1) == [imgs[0]];
      RunEvents(step, y, du, imgs[1..]);
      var (z, l2) := Run(step, y, EventDocs(du, imgs[1..]));
      RunEventsCons(step, x, du, imgs, y, l1, z, l2);
      KindsAppendEvents(l1, l2, x.phase == R.Started, |imgs| - 1);
      EventPayloadsAppend(l1, l2);
      assert [imgs[0]] + imgs[1..] == imgs;
    }
  }

  /** Running a list of events is running the first, then the rest. */
  lemma RunEventsCons(step: StepFn, x: Pipe, du: Value, imgs: seq<Value>, y: Pipe, l1: seq<R.Out>, z: Pipe, l2: seq<R.Out>)
    requires |imgs| > 0
    requires step(x, EventDoc(du, imgs[0])) == (y, l1)
    requires Run(step, y, EventDocs(du, imgs[1..])) == (z, l2)
    ensures Run(step, x, EventDocs(du, imgs)) == (z, l1 + l2)
  {
    var d := EventDoc(du, imgs[0]);
    var rest := EventDocs(du, imgs[1..]);
    assert EventDocs(du, imgs) == [d] + rest;
    RunSingle(step, x, d);
    RunConcat(step, x, [d], rest);
  }

  lemma Reassociate<T>(a: seq<T>, b: seq<T>, c: seq<T>, d: seq<T>)
    ensures a + ((b + c) + d) == a + b + c + d
  {
  }

  /** What a descriptor step does, for any step function. */
  ghost predicate DescriptorStep(step: StepFn, du: Value)
  {
    forall y: Pipe {:trigger step(y, DescriptorDoc(du))} :: step(y, DescriptorDoc(du)) == (y.(from := y.from.(descriptorUids := y.from.descriptorUids + [du])), [])
  }

  /** What a stop step does, for any step function. */
  ghost predicate StopStep(step: StepFn, subs: seq<nat>)
  {
    forall y: Pipe {:trigger step(y, StopDoc())} | y.from.subs == subs ::
      && step(y, StopDoc()).0 == Pipe(y.from.(descriptorUids := []), R.Stopped)
      && R.Kinds(step(y, StopDoc()).1) == [Stop] && EventPayloads(step(y, StopDoc()).1) == []
  }

  /** The events and the stop of a session, from a started pipeline. */
  lemma RunTail(step: StepFn, x: Pipe, du: Value, imgs: seq<Value>)
    requires EventStep(step, x.from, du) && StopStep(step, x.from.subs)
    requires x.phase == R.Started
    ensures var r := Run(step, x, EventDocs(du, imgs) + [StopDoc()]);
            && r.0 == Pipe(x.from.(descriptorUids := []), R.Stopped)
            && R.Kinds(r.1) == (if |imgs| > 0 then [Descriptor] else []) + Repeat(Event, |imgs|) + [Stop]
            && EventPayloads(r.1) == imgs
  {
    var events := EventDocs(du, imgs);
    RunEvents(step, x, du, imgs);
    var (x3, l3) := Run(step, x, events);
    assert x3.from == x.from;
    var (x4, l4) := step(x3, StopDoc());
    RunSingle(step, x3, StopDoc());
    RunConcat(step, x, events, [StopDoc()]);
    assert Run(step, x, events + [StopDoc()]) == (x4, l3 + l4);
    R.KindsAppend(l3, l4);
    EventPayloadsAppend(l3, l4);
    assert imgs + [] == imgs;
  }

  /** The start and the descriptor of a session, from a stopped pipeline. */
  lemma RunHead(step: StepFn, x0: Pipe, u: Value, du: Value, rest: seq<Doc>)
    requires DescriptorStep(step, du)
    requires step(x0, StartDoc(u)).0 == Pipe(x0.from.(startUid := u), R.Started)
    ensures var x2 := Pipe(x0.from.(startUid := u, descriptorUids := x0.from.descriptorUids + [du]), R.Started);
            var r := Run(step, x2, rest);
            Run(step, x0, [StartDoc(u), DescriptorDoc(du)] + rest) == (r.0, step(x0, StartDoc(u)).1 + r.1)
  {
    var (x1, l1) := step(x0, StartDoc(u));
    var (x2, l2) := step(x1, DescriptorDoc(du));
    assert l2 == [];
    RunSingle(step, x0, StartDoc(u));
    RunSingle(step, x1, DescriptorDoc(du));
    assert [StartDoc(u), DescriptorDoc(du)] + rest == [StartDoc(u)] + ([DescriptorDoc(du)] + rest);
    RunConcat(step, x1, [DescriptorDoc(du)], rest);
    RunConcat(step, x0, [StartDoc(u)], [DescriptorDoc(du)] + rest);
    var r := Run(step, x2, rest);
    assert [] + r.1 == r.1;
  }

  /** The shape of the output of a session, for any step function that
      behaves like the pipeline on each kind of document. */
  lemma SessionShape(step: StepFn, x0: Pipe, u: Value, du: Value, imgs: seq<Value>, head: R.Out)
    requires x0.phase == R.Stopped
    requires var r := step(x0, StartDoc(u));
             && r.0 == Pipe(x0.from.(startUid := u), R.Started)
             && R.Kinds(r.1) == [Start] && EventPayloads(r.1) == [] && |r.1| > 0 && r.1[0] == head
    requires DescriptorStep(step, du)
    requires EventStep(step, x0.from.(startUid := u, descriptorUids := x0.from.descriptorUids + [du]), du)
    requires StopStep(step, x0.from.subs)
    ensures var r := Run(step, x0, Session(u, du, imgs));
            && R.Kinds(r.1) == [Start] + (if |imgs| > 0 then [Descriptor] else []) + Repeat(Event, |imgs|) + [Stop]
            && EventPayloads(r.1) == imgs
            && r.1[0] == head
            && r.0 == Pipe(x0.from.(startUid := u, descriptorUids := []), R.Stopped)
  {
    var tail := EventDocs(du, imgs) + [StopDoc()];
    var x2 := Pipe(x0.from.(startUid := u, descriptorUids := x0.from.descriptorUids + [du]), R.Started);
    RunHead(step, x0, u, du, tail);
    RunTail(step, x2, du, imgs);
    var l1 := step(x0, StartDoc(u)).1;
    var r := Run(step, x2, tail);
    assert Session(u, du, imgs) == [StartDoc(u), DescriptorDoc(du)] + tail;
    assert Run(step, x0, Session(u, du, imgs)) == (r.0, l1 + r.1);
    R.KindsAppend(l1, r.1);
    EventPayloadsAppend(l1, r.1);
    assert (l1 + r.1)[0] == l1[0];
    var middle := (if |imgs| > 0 then [Descriptor] else []) + Repeat(Event, |imgs|);
    Reassociate([Start], (if |imgs| > 0 then [Descriptor] else []), Repeat(Event, |imgs|), [Stop]);
  }

  /** Re-wrapping a session: the extraction node forwards the images of a
      start / descriptor / events / stop session to a reconstruction node
      whose only translation node it is. The output is one new session: a
      start whose provenance names the original session, one descriptor
      (when there is at least one image), one event per image in order, and
      one stop. Both nodes end with their session closed. */
  lemma SessionRoundTrip(w: Wiring, u: Value, du: Value, imgs: seq<Value>)
    requires ValidWiring(w) && u != VNone
    ensures var x0 := Pipe(E.Init().(subs := [w.toId]), R.Stopped);
            var r := Run(Pipeline(w), x0, Session(u, du, imgs));
            && R.Kinds(r.1) == [Start] + (if |imgs| > 0 then [Descriptor] else []) + Repeat(Event, |imgs|) + [Stop]
            && EventPayloads(r.1) == imgs
            && r.1[0] == R.Emit(R.NewStart(StartDoc(u), R.Provenance([u], map[w.a[w.fromId].uid := u])))
            && r.0.phase == R.Stopped
            && r.0.from.descriptorUids == [] && r.0.from.startUid == u
  {
    var x0 := Pipe(E.Init().(subs := [w.toId]), R.Stopped);
    var step := Pipeline(w);
    FeedStart(w, x0, u);
    forall y: Pipe {:trigger step(y, DescriptorDoc(du))}
      ensures step(y, DescriptorDoc(du)) == (y.(from := y.from.(descriptorUids := y.from.descriptorUids + [du])), [])
    {
      FeedDescriptor(w, y, du);
    }
    assert DescriptorStep(step, du);
    var s2 := x0.from.(startUid := u, descriptorUids := x0.from.descriptorUids + [du]);
    PipelineEventStep(w, s2, du);
    forall y: Pipe {:trigger step(y, StopDoc())} | y.from.subs == x0.from.subs
      ensures && step(y, StopDoc()).0 == Pipe(y.from.(descriptorUids := []), R.Stopped)
              && R.Kinds(step(y, StopDoc()).1) == [Stop] && EventPayloads(step(y, StopDoc()).1) == []
    {
      FeedStop(w, y);
    }
    assert StopStep(step, x0.from.subs);
    SessionShape(step, x0, u, du, imgs, R.Emit(R.NewStart(StartDoc(u), R.Provenance([u], map[w.a[w.fromId].uid := u]))));
  }

  /** A session re-wrapped by a freshly constructed pair of nodes: the
      provenance of the new start names the extraction node by its uid. */
  method ReWrap(fromUid: string, toUid: string, toSubs: seq<nat>, u: Value, du: Value, imgs: seq<Value>) returns (out: seq<R.Out>)
    requires u != VNone
    ensures R.Kinds(out) == [Start] + (if |imgs| > 0 then [Descriptor] else []) + Repeat(Event, |imgs|) + [Stop]
    ensures EventPayloads(out) == imgs
    ensures out[0] == R.Emit(R.NewStart(StartDoc(u), R.Provenance([u], map[fromUid := u])))
  {
    var w, n, subs := Connect(fromUid, toUid, toSubs);
    var x0 := Pipe(E.Init().(subs := R.SubsOf(subs, w.fromId)), n.phase);
    SessionRoundTrip(w, u, du, imgs);
    out := Run(Pipeline(w), x0, Session(u, du, imgs)).1;
  }
}

/**
 * The reconstruction node (`SimpleToEventStream`): construction from the
 * translation graph, the `stopped` / `started` / `described` state machine
 * that re-wraps payloads into a new document session, and the provenance
 * fields of the new session's start document.
 *
 * The schema generator that fills document bodies is not modelled: an
 * emitted document records its type, what it was made from and, for a
 * start document, the provenance fields added to it. Lifecycle calls to
 * the node's own subscribers are recorded in the output log.
 */
module Reconstruction {
  import opened Documents
  import opened Walker

  /** The construction-time configuration error. */
  datatype ConfigError = NoPrincipleNodes

  /** An extraction or reconstruction node of the arena. */
  predicate IsTranslation(a: Arena, v: nat)
  {
    v < |a| && (a[v].kind.From? || a[v].kind.To?)
  }

  /** A principle extraction node, or any reconstruction node. */
  predicate IsPrinciple(a: Arena, v: nat)
  {
    v < |a| && (a[v].kind == From(true) || a[v].kind.To?)
  }

  /** The graph nodes that are translation nodes, other than `self`, in graph order. */
  function TranslationNodes(a: Arena, self: nat, nodes: seq<nat>): (r: seq<nat>)
    ensures forall v :: v in r <==> v in nodes && IsTranslation(a, v) && v != self
    ensures Distinct(nodes) ==> Distinct(r)
    decreases |nodes|
  {
    if |nodes| == 0 then []
    else
      var rest := TranslationNodes(a, self, nodes[1..]);
      assert forall v :: v in nodes[1..] ==> v in nodes;
      if IsTranslation(a, nodes[0]) && nodes[0] != self then [nodes[0]] + rest else rest
  }

  /** The translation nodes that drive the lifecycle, in order. */
  function PrincipleNodes(a: Arena, ts: seq<nat>): (r: seq<nat>)
    ensures forall v :: v in r <==> v in ts && IsPrinciple(a, v)
    ensures Distinct(ts) ==> Distinct(r)
    decreases |ts|
  {
    if |ts| == 0 then []
    else
      var rest := PrincipleNodes(a, ts[1..]);
      assert forall v :: v in ts[1..] ==> v in ts;
      if IsPrinciple(a, ts[0]) then [ts[0]] + rest else rest
  }

  /** Construction-time classification of the walked graph: the translation
      nodes and the principle nodes, or the configuration error when there
      is no principle node. */
  function Classify(a: Arena, self: nat, g: Graph): (r: Result<(seq<nat>, seq<nat>), ConfigError>)
    ensures r.Err? <==> forall v | v in g.nodes && v != self :: !IsPrinciple(a, v)
    ensures r.Err? ==> r.error == NoPrincipleNodes
    ensures r.Ok? ==> forall v :: v in r.value.0 <==> v in g.nodes && v != self && IsTranslation(a, v)
    ensures r.Ok? ==> forall v :: v in r.value.1 <==> v in g.nodes && v != self && IsPrinciple(a, v)
    ensures r.Ok? && Distinct(g.nodes) ==> Distinct(r.value.0) && Distinct(r.value.1)
  {
    var ts := TranslationNodes(a, self, g.nodes);
    var ps := PrincipleNodes(a, ts);
    if |ps| == 0 then
      Err(NoPrincipleNodes)
    else
      assert ps[0] in ps;
      Ok((ts, ps))
  }

  /** The lifecycle subscribers (`subs`) of every extraction and reconstruction node. */
  type Subscribers = map<nat, seq<nat>>

  function SubsOf(m: Subscribers, v: nat): seq<nat>
  {
    if v in m then m[v] else []
  }

  /** Subscribes `self` to every principle node: appended as the last
      subscriber of each, in the order of `ps`. */
  function Register(m: Subscribers, ps: seq<nat>, self: nat): (r: Subscribers)
    ensures forall v :: v !in ps ==> SubsOf(r, v) == SubsOf(m, v)
    ensures Distinct(ps) ==> forall v :: v in ps ==> SubsOf(r, v) == SubsOf(m, v) + [self]
    decreases |ps|
  {
    if |ps| == 0 then m
    else
      var r := Register(m[ps[0] := SubsOf(m, ps[0]) + [self]], ps[1..], self);
      assert forall v :: v in ps[1..] ==> v in ps;
      assert Distinct(ps) ==> ps[0] !in ps[1..] && Distinct(ps[1..]);
      r
  }

  /** The three lifecycle states. */
  datatype Phase = Stopped | Started | Described

  /** Provenance fields added to a new start document. */
  datatype Provenance = Provenance(parentUids: seq<Value>, parentNodeMap: map<string, Value>)

  /** A document made by the node; bodies come from the schema generator. */
  datatype NewDoc =
    | NewStart(src: Doc, prov: Provenance)
    | NewDescriptor(payload: Value)
    | NewEvent(payload: Value)
    | NewStop(src: Doc)
  {
    function Kind(): DocKind
    {
      match this
      case NewStart(_, _) => Start
      case NewDescriptor(_) => Descriptor
      case NewEvent(_) => Event
      case NewStop(_) => Stop
    }
  }

  /** One entry of the output log: an emitted document, or a lifecycle call
      passed on to a subscriber. */
  datatype Out = Emit(doc: NewDoc) | SignalStart(sub: nat, x: Doc) | SignalStop(sub: nat, x: Doc)

  /** A reconstruction node: its id, its translation and principle nodes, its
      lifecycle state and the start document being built. */
  datatype ToNode = ToNode(
    id: nat,
    translation: seq<nat>,
    principles: seq<nat>,
    phase: Phase,
    startDocument: Option<NewDoc>)

  /** `SimpleToEventStream.__init__`: walk the graph from `self`, classify
      it, then subscribe `self` to every principle node. */
  method Construct(a: Arena, self: nat, subs: Subscribers) returns (g: Graph, r: Result<(ToNode, Subscribers), ConfigError>)
    requires ValidArena(a)
    requires self < |a|
    ensures WellFormed(g, |a|) && |g.nodes| > 0 && g.nodes[0] == self
    ensures UpstreamsIn(a, self, g)
    ensures PassThroughsExpanded(a, Graph([self], {}), g)
    ensures Anchored(Graph([self], {}), g) && forall e | e in g.edges :: Justified(a, e)
    // so the walk never leaves the part of the dataflow that `self` belongs to
    ensures !a[self].kind.From? ==> forall c | Component(a, c) && self in c :: forall v | v in g.nodes :: v in c
    ensures r.Err? <==> forall v | v in g.nodes && v != self :: !IsPrinciple(a, v)
    ensures r.Ok? ==>
              var (n, subs') := r.value;
              && n.id == self && n.phase == Stopped && n.startDocument == None
              && (forall v :: v in n.translation <==> v in g.nodes && v != self && IsTranslation(a, v))
              && (forall v :: v in n.principles <==> v in g.nodes && v != self && IsPrinciple(a, v))
              && Distinct(n.translation) && Distinct(n.principles)
              && (forall v :: v in n.principles ==> SubsOf(subs', v) == SubsOf(subs, v) + [self])
              && (forall v :: v !in n.principles ==> SubsOf(subs', v) == SubsOf(subs, v))
  {
    g := TranslationGraph(a, self);
    forall c | !a[self].kind.From? && Component(a, c) && self in c
      ensures forall v | v in g.nodes :: v in c
    {
      GraphInComponent(a, g, c);
    }
    match Classify(a, self, g)
    case Err(e) =>
      r := Err(e);
    case Ok((ts, ps)) =>
      r := Ok((ToNode(self, ts, ps, Stopped, None), Register(subs, ps, self)));
  }

  /** The start uid recorded for a node, `None` when it has not started. */
  function StartUidOf(starts: map<nat, Value>, v: nat): Value
  {
    if v in starts then starts[v] else VNone
  }

  /** `parent_uids`: the start uid of each translation node that has one. */
  function ParentUids(ts: seq<nat>, starts: map<nat, Value>): (r: seq<Value>)
    ensures |r| <= |ts|
    ensures forall i | 0 <= i < |r| :: r[i] != VNone
    ensures forall v | v in ts && StartUidOf(starts, v) != VNone :: StartUidOf(starts, v) in r
    ensures forall x | x in r :: exists v :: v in ts && StartUidOf(starts, v) == x
    decreases |ts|
  {
    if |ts| == 0 then []
    else
      var rest := ParentUids(ts[1..], starts);
      assert forall v :: v in ts[1..] ==> v in ts;
      assert forall v :: v in ts ==> v == ts[0] || v in ts[1..];
      if StartUidOf(starts, ts[0]) != VNone then [StartUidOf(starts, ts[0])] + rest else rest
  }

  /** Node uids are pairwise different (they are fresh uuids). */
  predicate UniqueUids(a: Arena)
  {
    forall i, j | 0 <= i < j < |a| :: a[i].uid != a[j].uid
  }

  /** `parent_node_map`: node uid to start uid, for each translation node that has one. */
  function ParentNodeMap(a: Arena, ts: seq<nat>, starts: map<nat, Value>): (r: map<string, Value>)
    requires forall v | v in ts :: v < |a|
    ensures forall k :: k in r <==> exists v :: v in ts && StartUidOf(starts, v) != VNone && a[v].uid == k
    ensures UniqueUids(a) ==>
              forall v | v in ts && StartUidOf(starts, v) != VNone :: a[v].uid in r && r[a[v].uid] == StartUidOf(starts, v)
    decreases |ts|
  {
    if |ts| == 0 then map[]
    else
      var last := ts[|ts| - 1];
      var init := ts[..|ts| - 1];
      assert forall v :: v in ts <==> v in init || v == last;
      var m := ParentNodeMap(a, init, starts);
      if StartUidOf(starts, last) != VNone then m[a[last].uid := StartUidOf(starts, last)] else m
  }

  /** `start_doc`'s provenance, from the translation nodes' current start uids. */
  function ProvenanceOf(a: Arena, ts: seq<nat>, starts: map<nat, Value>): Provenance
    requires forall v | v in ts :: v < |a|
  {
    Provenance(ParentUids(ts, starts), ParentNodeMap(a, ts, starts))
  }

  function StartSignals(subs: seq<nat>, x: Doc): (o: seq<Out>)
    ensures |o| == |subs| && forall i | 0 <= i < |subs| :: o[i] == SignalStart(subs[i], x)
  {
    seq(|subs|, i requires 0 <= i < |subs| => SignalStart(subs[i], x))
  }

  function StopSignals(subs: seq<nat>, x: Doc): (o: seq<Out>)
    ensures |o| == |subs| && forall i | 0 <= i < |subs| :: o[i] == SignalStop(subs[i], x)
  {
    seq(|subs|, i requires 0 <= i < |subs| => SignalStop(subs[i], x))
  }

  /** The document types, in order, of the documents emitted in a log. */
  function Kinds(log: seq<Out>): (ks: seq<DocKind>)
    ensures |ks| <= |log|
    decreases |log|
  {
    if |log| == 0 then []
    else (if log[0].Emit? then [log[0].doc.Kind()] else []) + Kinds(log[1..])
  }

  lemma {:induction false} KindsAppend(l1: seq<Out>, l2: seq<Out>)
    ensures Kinds(l1 + l2) == Kinds(l1) + Kinds(l2)
    decreases |l1|
  {
    if |l1| == 0 {
      assert l1 + l2 == l2;
    } else {
      assert (l1 + l2)[0] == l1[0];
      assert (l1 + l2)[1..] == l1[1..] + l2;
      KindsAppend(l1[1..], l2);
    }
  }

  /** Lifecycle calls to subscribers emit no document. */
  lemma {:induction false} KindsOfSignals(subs: seq<nat>, x: Doc)
    ensures Kinds(StartSignals(subs, x)) == []
    ensures Kinds(StopSignals(subs, x)) == []
    decreases |subs|
  {
    if |subs| > 0 {
      assert StartSignals(subs, x)[1..] == StartSignals(subs[1..], x);
      assert StopSignals(subs, x)[1..] == StopSignals(subs[1..], x);
      KindsOfSignals(subs[1..], x);
    }
  }

  /** `emit_stop(x)`: emit a stop document, pass the stop on, become `stopped`. */
  function EmitStop(n: ToNode, subs: seq<nat>, x: Doc): (r: (ToNode, seq<Out>))
    ensures r.0 == n.(phase := Stopped)
    ensures Kinds(r.1) == [Stop]
    ensures |r.1| == 1 + |subs| && r.1[0] == Emit(NewStop(x))
    ensures r.1[1..] == StopSignals(subs, x)
  {
    var log := [Emit(NewStop(x))] + StopSignals(subs, x);
    KindsOfSignals(subs, x);
    KindsAppend([Emit(NewStop(x))], StopSignals(subs, x));
    (n.(phase := Stopped), log)
  }

  /** `emit_start(x)`: a stop first unless `stopped`, then a start document
      carrying the provenance of the current translation-node sessions, the
      start passed on to every subscriber, and the state `started`. */
  function EmitStart(a: Arena, n: ToNode, subs: seq<nat>, x: Doc, starts: map<nat, Value>): (r: (ToNode, seq<Out>))
    requires forall v | v in n.translation :: v < |a|
    ensures r.0 == n.(phase := Started, startDocument := None)
    ensures Kinds(r.1) == (if n.phase == Stopped then [Start] else [Stop, Start])
    ensures Emit(NewStart(x, ProvenanceOf(a, n.translation, starts))) in r.1
    ensures n.phase != Stopped ==> r.1[0] == Emit(NewStop(x))
    // the log: an emergency stop passed on to every subscriber unless
    // `stopped`, then the start document, then the start passed on
    ensures |r.1| == (if n.phase == Stopped then 0 else 1 + |subs|) + 1 + |subs|
    ensures n.phase != Stopped ==> r.1[..1 + |subs|] == [Emit(NewStop(x))] + StopSignals(subs, x)
    ensures r.1[|r.1| - |subs| - 1] == Emit(NewStart(x, ProvenanceOf(a, n.translation, starts)))
    ensures r.1[|r.1| - |subs|..] == StartSignals(subs, x)
  {
    var (n1, log1) := if n.phase != Stopped then EmitStop(n, subs, x) else (n, []);
    var startDoc := NewStart(x, ProvenanceOf(a, n.translation, starts));
    var n2 := n1.(startDocument := Some(startDoc));
    var log2 := [Emit(startDoc)] + StartSignals(subs, x);
    KindsOfSignals(subs, x);
    KindsAppend([Emit(startDoc)], StartSignals(subs, x));
    KindsAppend(log1, log2);
    assert (log1 + log2)[|log1|] == Emit(startDoc);
    assert (log1 + log2)[|log1| + 1..] == StartSignals(subs, x);
    assert n.phase != Stopped ==> (log1 + log2)[..1 + |subs|] == log1;
    (n2.(phase := Started, startDocument := None), log1 + log2)
  }

  /** `update(x)`: a descriptor first when `started` (then `described`),
      and always one event wrapping the payload. */
  function Update(n: ToNode, x: Value): (r: (ToNode, seq<Out>))
    ensures r.0.phase == (if n.phase == Started then Described else n.phase)
    ensures r.0 == n.(phase := r.0.phase)
    ensures Kinds(r.1) == (if n.phase == Started then [Descriptor, Event] else [Event])
    // only documents are emitted: no subscriber is called
    ensures forall i | 0 <= i < |r.1| :: r.1[i].Emit?
    ensures n.phase == Started ==> r.1[0] == Emit(NewDescriptor(x))
    ensures r.1[|r.1| - 1] == Emit(NewEvent(x))
  {
    if n.phase == Started then
      (n.(phase := Described), [Emit(NewDescriptor(x)), Emit(NewEvent(x))])
    else
      (n, [Emit(NewEvent(x))])
  }

  /** Between any two start documents there is a stop document. */
  ghost predicate StopBetweenStarts(ks: seq<DocKind>)
  {
    forall i, j | 0 <= i < j < |ks| && ks[i] == Start && ks[j] == Start :: Stop in ks[i + 1..j]
  }

  /** Every descriptor comes right after a start and right before an event. */
  ghost predicate DescriptorFramed(ks: seq<DocKind>)
  {
    forall j | 0 <= j < |ks| && ks[j] == Descriptor :: 0 < j && ks[j - 1] == Start && j + 1 < |ks| && ks[j + 1] == Event
  }

  /** No two descriptors share a session: a start lies between any two. */
  ghost predicate OneDescriptorPerSession(ks: seq<DocKind>)
  {
    forall i, j | 0 <= i < j < |ks| && ks[i] == Descriptor && ks[j] == Descriptor :: Start in ks[i + 1..j]
  }

  /** Every start so far has been followed by a stop. */
  ghost predicate Closed(ks: seq<DocKind>)
  {
    forall i | 0 <= i < |ks| && ks[i] == Start :: Stop in ks[i + 1..]
  }

  /** A start is directly followed by a descriptor or a stop, the two
      transitions out of a start. */
  ghost predicate StartThenDescriptorOrStop(ks: seq<DocKind>)
  {
    forall i | 0 <= i < |ks| - 1 && ks[i] == Start :: ks[i + 1] == Descriptor || ks[i + 1] == Stop
  }

  /** What the phase says about the documents emitted so far. */
  ghost predicate SessionInvariant(p: Phase, ks: seq<DocKind>)
  {
    && StopBetweenStarts(ks)
    && DescriptorFramed(ks)
    && StartThenDescriptorOrStop(ks)
    && (p == Stopped ==> Closed(ks))
    && (p == Started ==> |ks| > 0 && ks[|ks| - 1] == Start)
    && (p != Started ==> |ks| == 0 || ks[|ks| - 1] != Start)
  }

  /** A framed descriptor implies at most one descriptor per session. */
  lemma FramedImpliesOneDescriptor(ks: seq<DocKind>)
    requires DescriptorFramed(ks)
    ensures OneDescriptorPerSession(ks)
  {
    forall i, j | 0 <= i < j < |ks| && ks[i] == Descriptor && ks[j] == Descriptor
      ensures Start in ks[i + 1..j]
    {
      assert ks[j - 1] == Start;
      assert ks[i + 1..j][j - 1 - (i + 1)] == ks[j - 1];
    }
  }

  lemma PushStop(ks: seq<DocKind>)
    requires StopBetweenStarts(ks) && DescriptorFramed(ks) && StartThenDescriptorOrStop(ks)
    ensures SessionInvariant(Stopped, ks + [Stop])
  {
    var ks' := ks + [Stop];
    forall i, j | 0 <= i < j < |ks'| && ks'[i] == Start && ks'[j] == Start
      ensures Stop in ks'[i + 1..j]
    {
      assert ks'[i + 1..j] == ks[i + 1..j];
    }
    forall i | 0 <= i < |ks'| && ks'[i] == Start
      ensures Stop in ks'[i + 1..]
    {
      assert ks'[i + 1..][|ks'| - 1 - (i + 1)] == Stop;
    }
  }

  lemma PushStart(ks: seq<DocKind>)
    requires StopBetweenStarts(ks) && DescriptorFramed(ks) && StartThenDescriptorOrStop(ks) && Closed(ks)
    ensures SessionInvariant(Started, ks + [Start])
  {
    var ks' := ks + [Start];
    forall i, j | 0 <= i < j < |ks'| && ks'[i] == Start && ks'[j] == Start
      ensures Stop in ks'[i + 1..j]
    {
      if j == |ks| {
        assert ks'[i + 1..j] == ks[i + 1..];
      } else {
        assert ks'[i + 1..j] == ks[i + 1..j];
      }
    }
  }

  lemma PushEvent(ks: seq<DocKind>, p: Phase)
    requires SessionInvariant(p, ks) && p != Started
    ensures SessionInvariant(p, ks + [Event])
  {
    var ks' := ks + [Event];
    forall i, j | 0 <= i < j < |ks'| && ks'[i] == Start && ks'[j] == Start
      ensures Stop in ks'[i + 1..j]
    {
      assert ks'[i + 1..j] == ks[i + 1..j];
    }
    if p == Stopped {
      forall i | 0 <= i < |ks'| && ks'[i] == Start
        ensures Stop in ks'[i + 1..]
      {
        assert Stop in ks[i + 1..];
        assert ks'[i + 1..] == ks[i + 1..] + [Event];
      }
    }
  }

  lemma PushDescribed(ks: seq<DocKind>)
    requires SessionInvariant(Started, ks)
    ensures SessionInvariant(Described, ks + [Descriptor, Event])
  {
    var ks' := ks + [Descriptor, Event];
    forall i, j | 0 <= i < j < |ks'| && ks'[i] == Start && ks'[j] == Start
      ensures Stop in ks'[i + 1..j]
    {
      assert ks'[i + 1..j] == ks[i + 1..j];
    }
  }

  /** A lifecycle or payload call reaching the node. */
  datatype Call = CallStart(x: Doc, starts: map<nat, Value>) | CallStop(x: Doc) | CallUpdate(v: Value)

  function Apply(a: Arena, n: ToNode, subs: seq<nat>, c: Call): (r: (ToNode, seq<Out>))
    requires forall v | v in n.translation :: v < |a|
    ensures r.0.translation == n.translation
  {
    match c
    case CallStart(x, starts) => EmitStart(a, n, subs, x, starts)
    case CallStop(x) => EmitStop(n, subs, x)
    case CallUpdate(v) => Update(n, v)
  }

  /** A sequence of calls, applied in order; the logs are concatenated. */
  function Run(a: Arena, n: ToNode, subs: seq<nat>, cs: seq<Call>): (r: (ToNode, seq<Out>))
    requires forall v | v in n.translation :: v < |a|
    ensures r.0.translation == n.translation
    decreases |cs|
  {
    if |cs| == 0 then (n, [])
    else
      var (n1, log1) := Apply(a, n, subs, cs[0]);
      var (n2, log2) := Run(a, n1, subs, cs[1..]);
      (n2, log1 + log2)
  }

  /** The machine seen from outside: the phase a call leads to and the
      document types it emits, independently of what the documents hold. */
  function Effect(p: Phase, c: Call): (Phase, seq<DocKind>)
  {
    match c
    case CallStart(_, _) => (Started, if p == Stopped then [Start] else [Stop, Start])
    case CallStop(_) => (Stopped, [Stop])
    case CallUpdate(_) => if p == Started then (Described, [Descriptor, Event]) else (p, [Event])
  }

  /** Each call moves the node as its effect says. */
  lemma ApplyEffect(a: Arena, n: ToNode, subs: seq<nat>, c: Call)
    requires forall v | v in n.translation :: v < |a|
    ensures var (n', log) := Apply(a, n, subs, c);
            (n'.phase, Kinds(log)) == Effect(n.phase, c)
  {
  }

  /** Effects of a sequence of calls, composed. */
  function Effects(p: Phase, cs: seq<Call>): (Phase, seq<DocKind>)
    decreases |cs|
  {
    if |cs| == 0 then (p, [])
    else
      var (p1, ks1) := Effect(p, cs[0]);
      var (p2, ks2) := Effects(p1, cs[1..]);
      (p2, ks1 + ks2)
  }

  /** Running calls on a node has the composed effect. */
  lemma {:induction false} RunEffects(a: Arena, n: ToNode, subs: seq<nat>, cs: seq<Call>)
    requires forall v | v in n.translation :: v < |a|
    ensures var (n', log) := Run(a, n, subs, cs);
            (n'.phase, Kinds(log)) == Effects(n.phase, cs)
    decreases |cs|
  {
    if |cs| > 0 {
      var (n1, log1) := Apply(a, n, subs, cs[0]);
      ApplyEffect(a, n, subs, cs[0]);
      RunEffects(a, n1, subs, cs[1..]);
      var (n2, log2) := Run(a, n1, subs, cs[1..]);
      assert Run(a, n, subs, cs) == (n2, log1 + log2);
      KindsAppend(log1, log2);
    }
  }

  /** Every call keeps the session invariant of the emitted documents. */
  lemma EffectKeepsInvariant(p: Phase, c: Call, ks: seq<DocKind>)
    requires SessionInvariant(p, ks)
    ensures var (p', emitted) := Effect(p, c);
            SessionInvariant(p', ks + emitted)
  {
    match c
    case CallStart(x, starts) =>
      if p == Stopped {
        PushStart(ks);
      } else {
        PushStop(ks);
        PushStart(ks + [Stop]);
        assert ks + [Stop, Start] == ks + [Stop] + [Start];
      }
    case CallStop(x) =>
      PushStop(ks);
    case CallUpdate(v) =>
      if p == Started {
        PushDescribed(ks);
      } else {
        PushEvent(ks, p);
      }
  }

  lemma InvariantOfEqual(p: Phase, ks: seq<DocKind>, ks': seq<DocKind>)
    requires SessionInvariant(p, ks) && ks == ks'
    ensures SessionInvariant(p, ks')
  {
  }

  /** Whatever the calls, the session invariant holds of everything emitted. */
  lemma EffectsKeepInvariant(p: Phase, cs: seq<Call>, ks: seq<DocKind>)
    requires SessionInvariant(p, ks)
    ensures var (p', emitted) := Effects(p, cs);
            SessionInvariant(p', ks + emitted)
  {
    var p', emitted := EffectsInvariant(p, cs, ks);
  }

  /** The induction behind `EffectsKeepInvariant`, naming the composed effect. */
  lemma {:induction false} EffectsInvariant(p: Phase, cs: seq<Call>, ks: seq<DocKind>) returns (p': Phase, emitted: seq<DocKind>)
    requires SessionInvariant(p, ks)
    ensures (p', emitted) == Effects(p, cs)
    ensures SessionInvariant(p', ks + emitted)
    decreases |cs|
  {
    if |cs| == 0 {
      p', emitted := p, [];
      InvariantOfEqual(p, ks, ks + emitted);
    } else {
      var (p1, ks1) := Effect(p, cs[0]);
      EffectKeepsInvariant(p, cs[0], ks);
      var p2, ks2 := EffectsInvariant(p1, cs[1..], ks + ks1);
      p', emitted := p2, ks1 + ks2;
      InvariantOfEqual(p2, ks + ks1 + ks2, ks + emitted);
    }
  }

  /** Session well-formedness of a freshly constructed node's output: a stop
      separates any two starts, every descriptor directly follows a start and
      directly precedes an event, and no session has two descriptors. */
  lemma SessionsWellFormed(a: Arena, n: ToNode, subs: seq<nat>, cs: seq<Call>)
    requires forall v | v in n.translation :: v < |a|
    requires n.phase == Stopped
    ensures var ks := Kinds(Run(a, n, subs, cs).1);
            StopBetweenStarts(ks) && DescriptorFramed(ks) && OneDescriptorPerSession(ks) && StartThenDescriptorOrStop(ks)
    ensures Run(a, n, subs, cs).0.phase == Stopped ==> Closed(Kinds(Run(a, n, subs, cs).1))
  {
    RunEffects(a, n, subs, cs);
    EffectsKeepInvariant(n.phase, cs, []);
    var ks := Kinds(Run(a, n, subs, cs).1);
    assert [] + ks == ks;
    FramedImpliesOneDescriptor(ks);
  }
}

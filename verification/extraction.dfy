/**
 * The extraction node (`SimpleFromEventStream`): it watches a document
 * stream, keeps the session bookkeeping (current start uid, active
 * descriptor uids, lifecycle subscribers) and forwards, for the documents
 * it selects, only the value found at its data address.
 */
module Extraction {
  import opened Documents

  /** The Python exceptions the node can raise while handling a document. */
  datatype Error = KeyError(key: string) | TypeError

  /** One step of a data address: a plain key, or a tuple of keys that are
      picked side by side into a tuple. */
  datatype Component = Key(key: string) | Keys(keys: seq<string>)

  /** The `data_address` argument: a bare string or a tuple of components. */
  datatype Address = Bare(key: string) | Path(components: seq<Component>)

  /** A bare string address is the one-component path made of that key;
      a tuple address is used as it is. */
  function Normalise(a: Address): (r: seq<Component>)
    ensures a.Bare? ==> r == [Key(a.key)]
    ensures a.Path? ==> r == a.components
  {
    match a
    case Bare(k) => [Key(k)]
    case Path(cs) => cs
  }

  /** Python's `sub in s` on two strings. */
  predicate Substring(sub: string, s: string)
  {
    exists i | 0 <= i <= |s| :: sub <= s[i..]
  }

  /** The outcome of walking an address into a value. */
  datatype Lookup = Found(v: Value) | Missing | Raised(e: Error)

  /** A plain key: when the key is in the value, step into it, and
      otherwise stop the lookup silently. On a mapping this is a key lookup;
      on a tuple or a string the membership test succeeds on an element or a
      substring, and subscripting them with a string raises; other values do
      not support the membership test at all. */
  function StepKey(inner: Value, k: string): (r: Lookup)
    ensures r.Found? <==> inner.VMap? && k in inner.fields
    ensures r.Found? ==> r.v == inner.fields[k]
    ensures inner.VMap? ==> !r.Raised?
  {
    match inner
    case VMap(m) => if k in m then Found(m[k]) else Missing
    case VTuple(items) => if VStr(k) in items then Raised(TypeError) else Missing
    case VStr(s) => if Substring(k, s) then Raised(TypeError) else Missing
    case _ => Raised(TypeError)
  }

  /** A tuple component: the tuple of the values at each of the keys,
      taken by direct indexing, so the first missing key raises. */
  function StepKeys(inner: Value, ks: seq<string>): (r: Result<seq<Value>, Error>)
    ensures r.Ok? <==> |ks| == 0 || (inner.VMap? && forall i :: 0 <= i < |ks| ==> ks[i] in inner.fields)
    ensures r.Ok? ==> |r.value| == |ks|
    ensures r.Ok? && inner.VMap? ==> forall i :: 0 <= i < |ks| ==> r.value[i] == inner.fields[ks[i]]
    ensures r.Err? && !inner.VMap? ==> r.error == TypeError
    ensures r.Err? && inner.VMap? ==>
              exists j :: 0 <= j < |ks| && ks[j] !in inner.fields && r.error == KeyError(ks[j]) &&
                          forall i :: 0 <= i < j ==> ks[i] in inner.fields
  {
    if |ks| == 0 then Ok([])
    else if !inner.VMap? then Err(TypeError)
    else if ks[0] !in inner.fields then Err(KeyError(ks[0]))
    else
      match StepKeys(inner, ks[1..])
      case Ok(rest) => Ok([inner.fields[ks[0]]] + rest)
      case Err(e) => Err(e)
  }

  /** Walks every component of a path, in order, into a value. */
  function Resolve(inner: Value, path: seq<Component>): (r: Lookup)
    ensures |path| == 0 ==> r == Found(inner)
    // only a plain key ends a lookup silently
    ensures r.Missing? ==> exists i | 0 <= i < |path| :: path[i].Key?
    // only a key tuple raises a `KeyError`
    ensures r.Raised? && r.e.KeyError? ==> exists i | 0 <= i < |path| :: path[i].Keys?
    // a path ending in a key tuple finds a tuple
    ensures r.Found? && |path| > 0 && path[|path| - 1].Keys? ==> r.v.VTuple?
    decreases |path|
  {
    if |path| == 0 then Found(inner)
    else
      assert forall i | 0 <= i < |path| - 1 :: path[1..][i] == path[i + 1];
      match path[0]
      case Key(k) =>
        (match StepKey(inner, k)
         case Found(w) => Resolve(w, path[1..])
         case other => other)
      case Keys(ks) =>
        (match StepKeys(inner, ks)
         case Ok(t) => Resolve(VTuple(t), path[1..])
         case Err(e) => Raised(e))
  }

  /** Continues a lookup with a further path, keeping a miss or an error. */
  function Then(l: Lookup, q: seq<Component>): Lookup
  {
    match l
    case Found(w) => Resolve(w, q)
    case other => other
  }

  /** Resolving a concatenated path is resolving its halves one after the other. */
  lemma {:induction false} ResolveConcat(v: Value, p: seq<Component>, q: seq<Component>)
    ensures Resolve(v, p + q) == Then(Resolve(v, p), q)
    decreases |p|
  {
    if |p| == 0 {
      assert p + q == q;
    } else {
      assert (p + q)[0] == p[0];
      assert (p + q)[1..] == p[1..] + q;
      match p[0]
      case Key(k) =>
        if StepKey(v, k).Found? {
          ResolveConcat(StepKey(v, k).v, p[1..], q);
        }
      case Keys(ks) =>
        if StepKeys(v, ks).Ok? {
          ResolveConcat(VTuple(StepKeys(v, ks).value), p[1..], q);
        }
    }
  }

  /** A plain key that is absent at some level silently ends the lookup,
      whatever the rest of the path is: nothing is found and nothing is raised. */
  lemma MissingKeyIsSilent(v: Value, p: seq<Component>, m: map<string, Value>, k: string, q: seq<Component>)
    requires Resolve(v, p) == Found(VMap(m))
    requires k !in m
    ensures Resolve(v, p + [Key(k)] + q) == Missing
  {
    ResolveConcat(v, p, [Key(k)] + q);
    assert p + [Key(k)] + q == p + ([Key(k)] + q);
  }

  /** The path made of plain keys only. */
  function Plain(ks: seq<string>): (p: seq<Component>)
    ensures |p| == |ks|
    ensures forall i :: 0 <= i < |ks| ==> p[i] == Key(ks[i])
  {
    seq(|ks|, i requires 0 <= i < |ks| => Key(ks[i]))
  }

  /** A value nested under successive single-key mappings. */
  function Nest(ks: seq<string>, v: Value): Value
    decreases |ks|
  {
    if |ks| == 0 then v else VMap(map[ks[0] := Nest(ks[1..], v)])
  }

  /** Looking up a plain path finds exactly what was nested under it. */
  lemma {:induction false} NestRoundTrip(ks: seq<string>, v: Value)
    ensures Resolve(Nest(ks, v), Plain(ks)) == Found(v)
    decreases |ks|
  {
    if |ks| > 0 {
      assert Plain(ks)[1..] == Plain(ks[1..]);
      NestRoundTrip(ks[1..], v);
    }
  }

  /** Construction parameters of an extraction node that its update reads.
      Whether it is a principle node, and its uid, belong to its dataflow
      node (`Walker.Node`). */
  datatype Config = Config(docType: DocKind, address: Address, eventStreamName: string)

  /** The mutable part of an extraction node. */
  datatype State = State(startUid: Value, descriptorUids: seq<Value>, subs: seq<nat>)

  /** A lifecycle notification sent to a subscribing reconstruction node. */
  datatype Notice = NotifyStart(sub: nat, x: Doc) | NotifyStop(sub: nat, x: Doc)

  /** What one incoming document makes the node emit downstream. */
  datatype Outcome = Emitted(v: Value) | Silent | Failed(e: Error)

  /** The node's state after a document, the notifications it sent and its outcome. */
  datatype Step = Step(state: State, notices: seq<Notice>, out: Outcome)

  /** A freshly constructed node: no session yet, no descriptors, no subscribers. */
  function Init(): State
  {
    State(VNone, [], [])
  }

  /** Whether a descriptor's uid is recorded: a missing name counts as "primary". */
  function Tracks(c: Config, d: Doc): (r: bool)
    ensures c.eventStreamName == ALL ==> r
    ensures "name" in d.body ==> (r <==> c.eventStreamName == ALL || d.body["name"] == VStr(c.eventStreamName))
    ensures "name" !in d.body ==> (r <==> c.eventStreamName == ALL || c.eventStreamName == "primary")
  {
    c.eventStreamName == ALL || VStr(c.eventStreamName) == GetOr(d.body, "name", VStr("primary"))
  }

  /** Whether a descriptor itself is forwarded: a missing name counts as the wildcard. */
  function ForwardsDescriptor(c: Config, d: Doc): (r: bool)
    ensures "name" in d.body ==> (r <==> d.body["name"] == VStr(c.eventStreamName))
    ensures "name" !in d.body ==> (r <==> c.eventStreamName == ALL)
  {
    VStr(c.eventStreamName) == GetOr(d.body, "name", VStr(ALL))
  }

  /** `emit_start(x)` sent to every subscriber, in registration order. */
  function StartNotices(subs: seq<nat>, x: Doc): (ns: seq<Notice>)
    ensures |ns| == |subs|
    ensures forall i :: 0 <= i < |subs| ==> ns[i] == NotifyStart(subs[i], x)
  {
    seq(|subs|, i requires 0 <= i < |subs| => NotifyStart(subs[i], x))
  }

  /** `emit_stop(x)` sent to every subscriber, in registration order. */
  function StopNotices(subs: seq<nat>, x: Doc): (ns: seq<Notice>)
    ensures |ns| == |subs|
    ensures forall i :: 0 <= i < |subs| ==> ns[i] == NotifyStop(subs[i], x)
  {
    seq(|subs|, i requires 0 <= i < |subs| => NotifyStop(subs[i], x))
  }

  /** The lifecycle bookkeeping done for every document, whatever the
      configured document type. */
  function Bookkeeping(c: Config, s: State, d: Doc): Result<(State, seq<Notice>), Error>
  {
    match d.kind
    case Start =>
      if "uid" in d.body then Ok((s.(startUid := d.body["uid"]), StartNotices(s.subs, d)))
      else Err(KeyError("uid"))
    case Descriptor =>
      if !Tracks(c, d) then Ok((s, []))
      else if "uid" in d.body then Ok((s.(descriptorUids := s.descriptorUids + [d.body["uid"]]), []))
      else Err(KeyError("uid"))
    case Stop => Ok((s.(descriptorUids := []), StopNotices(s.subs, d)))
    case Event => Ok((s, []))
  }

  /** The type-specific selection test, for a document of the configured type. */
  predicate Selected(c: Config, s: State, d: Doc)
    requires d.kind == Event ==> "descriptor" in d.body
  {
    match d.kind
    case Descriptor => ForwardsDescriptor(c, d)
    case Event => d.body["descriptor"] in s.descriptorUids
    case _ => true
  }

  /** A document the node forwards the address lookup of: of the configured
      type, accepted by the bookkeeping, and passing its type's test. */
  predicate Forwarded(c: Config, s: State, d: Doc)
  {
    && d.kind == c.docType
    && Bookkeeping(c, s, d).Ok?
    && (d.kind == Event ==> "descriptor" in d.body && d.body["descriptor"] in s.descriptorUids)
    && (d.kind == Descriptor ==> ForwardsDescriptor(c, d))
  }

  /** Turns the address lookup into the node's outcome. */
  function Deliver(l: Lookup): (o: Outcome)
    ensures o.Emitted? <==> l.Found?
    ensures l.Found? ==> o.v == l.v
    ensures o.Failed? <==> l.Raised?
  {
    match l
    case Found(v) => Emitted(v)
    case Missing => Silent
    case Raised(e) => Failed(e)
  }

  /** `SimpleFromEventStream.update`: one document through the node. */
  function Update(c: Config, s: State, d: Doc): (r: Step)
    // the subscriber list is never changed by documents
    ensures r.state.subs == s.subs
    // start: record the session uid and notify every subscriber
    ensures d.kind == Start && "uid" in d.body ==>
              && r.state == s.(startUid := d.body["uid"])
              && |r.notices| == |s.subs|
              && forall i :: 0 <= i < |s.subs| ==> r.notices[i] == NotifyStart(s.subs[i], d)
    ensures d.kind == Start && "uid" !in d.body ==> r == Step(s, [], Failed(KeyError("uid")))
    // descriptor: append its uid exactly when the name filter accepts it
    ensures d.kind == Descriptor && Tracks(c, d) && "uid" in d.body ==>
              r.state == s.(descriptorUids := s.descriptorUids + [d.body["uid"]])
    ensures d.kind == Descriptor && !Tracks(c, d) ==> r.state == s
    ensures d.kind == Descriptor && Tracks(c, d) && "uid" !in d.body ==> r == Step(s, [], Failed(KeyError("uid")))
    // stop: forget the active descriptors and notify every subscriber
    ensures d.kind == Stop ==>
              && r.state == s.(descriptorUids := [])
              && |r.notices| == |s.subs|
              && forall i :: 0 <= i < |s.subs| ==> r.notices[i] == NotifyStop(s.subs[i], d)
    ensures d.kind == Event ==> r.state == s && r.notices == []
    ensures d.kind == Descriptor ==> r.notices == []
    // forwarding: only documents of the configured type that pass the
    // type-specific test, and then exactly the value at the address
    ensures r.out.Emitted? ==>
              && d.kind == c.docType
              && (d.kind == Event ==> "descriptor" in d.body && d.body["descriptor"] in s.descriptorUids)
              && (d.kind == Descriptor ==> ForwardsDescriptor(c, d))
              && Resolve(VMap(d.body), Normalise(c.address)) == Found(r.out.v)
    ensures Forwarded(c, s, d) ==> r.out == Deliver(Resolve(VMap(d.body), Normalise(c.address)))
    // dropped without error: another type, an event of an inactive
    // descriptor, or a descriptor the name test does not forward
    ensures Bookkeeping(c, s, d).Ok? &&
            (|| d.kind != c.docType
             || (d.kind == Event && "descriptor" in d.body && d.body["descriptor"] !in s.descriptorUids)
             || (d.kind == Descriptor && !ForwardsDescriptor(c, d))) ==>
              r.out == Silent
    ensures d.kind == Event && d.kind == c.docType && "descriptor" !in d.body ==>
              r.out == Failed(KeyError("descriptor"))
  {
    match Bookkeeping(c, s, d)
    case Err(e) => Step(s, [], Failed(e))
    case Ok((s1, ns)) =>
      if d.kind != c.docType then Step(s1, ns, Silent)
      else if d.kind == Event && "descriptor" !in d.body then Step(s1, ns, Failed(KeyError("descriptor")))
      else if Selected(c, s1, d) then Step(s1, ns, Deliver(Resolve(VMap(d.body), Normalise(c.address))))
      else Step(s1, ns, Silent)
  }

  /** An empty address forwards the whole body of every forwarded document. */
  lemma EmptyAddressForwardsBody(c: Config, s: State, d: Doc)
    requires c.address == Path([])
    requires Forwarded(c, s, d)
    ensures Update(c, s, d).out == Emitted(VMap(d.body))
  {
  }

  /** A bare string address behaves as the one-key path: the field's value
      when the forwarded document has it, and silence when it does not. */
  lemma BareAddressLooksUpKey(c: Config, s: State, d: Doc, k: string)
    requires c.address == Bare(k)
    requires Forwarded(c, s, d)
    ensures k in d.body ==> Update(c, s, d).out == Emitted(d.body[k])
    ensures k !in d.body ==> Update(c, s, d).out == Silent
  {
    assert Normalise(c.address) == [Key(k)];
    if k in d.body {
      assert Resolve(VMap(d.body), [Key(k)]) == Resolve(d.body[k], []);
    }
  }

  /** With the wildcard filter a descriptor named "primary" is tracked (its
      events will flow) but is not itself forwarded, because forwarding
      compares the wildcard with the declared name. */
  lemma WildcardDescriptorQuirk(c: Config, s: State, uid: Value)
    requires c.eventStreamName == ALL && c.docType == Descriptor
    ensures var d := Doc(Descriptor, map["uid" := uid, "name" := VStr("primary")]);
            var r := Update(c, s, d);
            r.state.descriptorUids == s.descriptorUids + [uid] && r.out == Silent
  {
  }

  /** The two filters disagree on an unnamed descriptor: tracking reads it
      as "primary" and forwarding as the wildcard. So with the filter
      "primary" its uid is tracked, but the descriptor is not forwarded. */
  lemma UnnamedDescriptorQuirk(c: Config, s: State, uid: Value)
    requires c.eventStreamName == "primary" && c.docType == Descriptor
    ensures var d := Doc(Descriptor, map["uid" := uid]);
            var r := Update(c, s, d);
            r.state.descriptorUids == s.descriptorUids + [uid] && r.out == Silent
  {
  }
}

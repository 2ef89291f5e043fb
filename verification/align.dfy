/**
 * The align/merge node (`AlignEventStreams`): documents of N upstreams are
 * zipped per document type, each type having its own buffers; the zipped
 * `(name, doc)` pairs are flattened and merged into one document, later
 * upstreams taking precedence on colliding keys.
 *
 * The zip combinator's own buffering and release is a parameter of the
 * model (`ZipStep`); the node decides which buffers it works on and what a
 * released tuple turns into.
 */
module Align {
  import opened Documents

  /** An upstream argument: a live stream node, or a literal value (a tuple). */
  datatype Upstream = Live(id: nat) | Literal(v: seq<Value>)

  /** Per upstream node, the documents waiting to be zipped. */
  type Buffers = map<nat, seq<Doc>>

  /** Literal upstreams with their position among all upstreams. */
  type Literals = seq<(nat, seq<Value>)>

  /** The node: its upstreams and, per document type, its buffers and literals. */
  datatype AlignNode = AlignNode(
    upstreams: seq<Upstream>,
    trueBuffers: map<DocKind, Buffers>,
    trueLiterals: map<DocKind, Literals>)

  const AllKinds: set<DocKind> := {Start, Descriptor, Event, Stop}

  lemma EveryKind(k: DocKind)
    ensures k in AllKinds
  {
  }

  /** The ids of the live upstreams. */
  function LiveIds(ups: seq<Upstream>): set<nat>
  {
    set i | 0 <= i < |ups| && ups[i].Live? :: ups[i].id
  }

  /** The upstreams that are not streams, each with its position, from
      position `from` onwards. */
  function LiteralsFrom(ups: seq<Upstream>, from: nat): (r: Literals)
    requires from <= |ups|
    ensures forall p: (nat, seq<Value>) :: p in r <==> from <= p.0 < |ups| && ups[p.0] == Literal(p.1)
    ensures forall i, j | 0 <= i < j < |r| :: r[i].0 < r[j].0
    ensures forall i | 0 <= i < |r| :: from <= r[i].0
    decreases |ups| - from
  {
    if from == |ups| then []
    else
      var rest := LiteralsFrom(ups, from + 1);
      if ups[from].Literal? then [(from, ups[from].v)] + rest else rest
  }

  /** Every document type is present in both per-type tables. */
  predicate Valid(n: AlignNode)
  {
    forall k: DocKind :: k in n.trueBuffers && k in n.trueLiterals
  }

  /** `AlignEventStreams.__init__`: for every document type, an empty buffer
      per live upstream and the literals with their original index. */
  function Init(ups: seq<Upstream>): (n: AlignNode)
    ensures Valid(n)
    ensures n.upstreams == ups
    ensures forall k: DocKind :: n.trueBuffers[k].Keys == LiveIds(ups)
    ensures forall k: DocKind, id | id in n.trueBuffers[k] :: n.trueBuffers[k][id] == []
    ensures forall k: DocKind, p: (nat, seq<Value>) :: p in n.trueLiterals[k] <==> p.0 < |ups| && ups[p.0] == Literal(p.1)
    // every type holds the same literal list, in increasing position order
    ensures forall k: DocKind :: n.trueLiterals[k] == LiteralsFrom(ups, 0)
  {
    var empty := map id | id in LiveIds(ups) :: [];
    var lits := LiteralsFrom(ups, 0);
    var n := AlignNode(ups, map k | k in AllKinds :: empty, map k | k in AllKinds :: lits);
    assert forall k: DocKind :: k in AllKinds by {
      forall k: DocKind
        ensures k in AllKinds
      {
        EveryKind(k);
      }
    }
    n
  }

  /** The zip combinator's update on the selected buffers: it returns the
      buffers it leaves behind and, when every source has a document, the
      released tuple (one element per upstream, literals in their place). */
  type ZipStep = (Buffers, Literals, Doc, nat) -> (Buffers, Option<seq<seq<Value>>>)

  /** Why combining a released tuple can fail. */
  datatype EmitError = NoNames | NotMapping

  /** The elements of all the tuples, one tuple after the other. */
  function Flatten(x: seq<seq<Value>>): (r: seq<Value>)
    ensures forall i, j | 0 <= i < |x| && 0 <= j < |x[i]| :: x[i][j] in r
    decreases |x|
  {
    if |x| == 0 then []
    else
      var rest := Flatten(x[1..]);
      assert forall i | 1 <= i < |x| :: x[i] == x[1..][i - 1];
      x[0] + rest
  }

  /** The elements at even positions (a slice with step two). */
  function Evens(s: seq<Value>): (r: seq<Value>)
    ensures |r| == (|s| + 1) / 2
    ensures forall i | 0 <= i < |r| :: r[i] == s[2 * i]
    decreases |s|
  {
    if |s| <= 1 then s else [s[0]] + Evens(s[2..])
  }

  /** The elements at odd positions (a slice from one with step two). */
  function Odds(s: seq<Value>): (r: seq<Value>)
    ensures |r| == |s| / 2
    ensures forall i | 0 <= i < |r| :: r[i] == s[2 * i + 1]
    decreases |s|
  {
    if |s| <= 1 then [] else [s[1]] + Odds(s[2..])
  }

  /** A zipped tuple whose every element is a `(name, doc)` pair. */
  predicate AllPairs(x: seq<seq<Value>>)
  {
    forall i | 0 <= i < |x| :: |x[i]| == 2
  }

  /** Flattening pairs interleaves their names and documents. */
  lemma {:induction false} FlattenPairs(x: seq<seq<Value>>)
    requires AllPairs(x)
    ensures |Flatten(x)| == 2 * |x|
    ensures forall i | 0 <= i < |x| :: Flatten(x)[2 * i] == x[i][0] && Flatten(x)[2 * i + 1] == x[i][1]
    decreases |x|
  {
    if |x| > 0 {
      FlattenPairs(x[1..]);
      var f := Flatten(x);
      assert f == x[0] + Flatten(x[1..]);
      forall i | 0 <= i < |x|
        ensures f[2 * i] == x[i][0] && f[2 * i + 1] == x[i][1]
      {
        if i > 0 {
          assert x[1..][i - 1] == x[i];
          assert f[2 * i] == Flatten(x[1..])[2 * (i - 1)];
          assert f[2 * i + 1] == Flatten(x[1..])[2 * (i - 1) + 1];
        }
      }
    }
  }

  /** The bodies of the documents, when every one of them is a mapping. */
  function Bodies(docs: seq<Value>): (r: Option<seq<Body>>)
    ensures r.Some? <==> forall i | 0 <= i < |docs| :: docs[i].VMap?
    ensures r.Some? ==> |r.value| == |docs| && forall i | 0 <= i < |docs| :: r.value[i] == docs[i].fields
    decreases |docs|
  {
    if |docs| == 0 then Some([])
    else if !docs[0].VMap? then None
    else
      match Bodies(docs[1..])
      case None => None
      case Some(bs) => Some([docs[0].fields] + bs)
  }

  /** Every element of the flattened tuple comes from one of the tuples. */
  lemma {:induction false} FlattenFrom(x: seq<seq<Value>>)
    ensures forall v | v in Flatten(x) :: exists i :: 0 <= i < |x| && v in x[i]
    decreases |x|
  {
    if |x| > 0 {
      FlattenFrom(x[1..]);
      forall v | v in Flatten(x)
        ensures exists i :: 0 <= i < |x| && v in x[i]
      {
        if v !in x[0] {
          var i :| 0 <= i < |x[1..]| && v in x[1..][i];
          assert v in x[i + 1];
        }
      }
    }
  }

  /** Merge of bodies, left to right, a later body overriding an earlier one
      on a shared key. */
  function MergeAll(bs: seq<Body>): (r: Body)
    // no key of any body is lost
    ensures forall i, k | 0 <= i < |bs| && k in bs[i] :: k in r
    // the last body wins outright
    ensures |bs| > 0 ==> forall k | k in bs[|bs| - 1] :: r[k] == bs[|bs| - 1][k]
    decreases |bs|
  {
    if |bs| == 0 then map[]
    else
      assert forall i | 0 <= i < |bs| - 1 :: bs[..|bs| - 1][i] == bs[i];
      MergeAll(bs[..|bs| - 1]) + bs[|bs| - 1]
  }

  /** The merge holds exactly the keys of the bodies, each with the value
      given by the last body that has it. */
  lemma {:induction false} MergeAllLastWins(bs: seq<Body>)
    ensures forall k :: k in MergeAll(bs) <==> exists i :: 0 <= i < |bs| && k in bs[i]
    ensures forall k, i | 0 <= i < |bs| && k in bs[i] && (forall j | i < j < |bs| :: k !in bs[j]) ::
              MergeAll(bs)[k] == bs[i][k]
    decreases |bs|
  {
    if |bs| > 0 {
      var init := bs[..|bs| - 1];
      var last := bs[|bs| - 1];
      MergeAllLastWins(init);
      assert MergeAll(bs) == MergeAll(init) + last;
      forall k
        ensures k in MergeAll(bs) <==> exists i :: 0 <= i < |bs| && k in bs[i]
      {
        if k in MergeAll(init) {
          var i :| 0 <= i < |init| && k in init[i];
          assert k in bs[i];
        }
        if exists i :: 0 <= i < |bs| && k in bs[i] {
          var i :| 0 <= i < |bs| && k in bs[i];
          if i < |init| {
            assert k in init[i];
          }
        }
      }
      forall k, i | 0 <= i < |bs| && k in bs[i] && (forall j | i < j < |bs| :: k !in bs[j])
        ensures MergeAll(bs)[k] == bs[i][k]
      {
        if i < |bs| - 1 {
          assert init[i] == bs[i];
          assert k !in last;
          assert forall j | i < j < |init| :: init[j] == bs[j];
        }
      }
    }
  }

  /** `_emit`: flatten the released tuple, name the result after its first
      name and merge all documents. */
  function EmitZipped(x: seq<seq<Value>>): (r: Result<(Value, Body), EmitError>)
    // no names at all
    ensures r == Err(NoNames) <==> |Flatten(x)| == 0
    // a document (odd position) that is not a mapping
    ensures r == Err(NotMapping) <==>
              |Flatten(x)| > 0 && exists i | 0 <= i < |Flatten(x)| / 2 :: !Flatten(x)[2 * i + 1].VMap?
    // named after the first name, holding the keys of all documents
    ensures r.Ok? ==> r.value.0 == Flatten(x)[0]
    ensures r.Ok? ==> forall k :: k in r.value.1 <==>
              exists i | 0 <= i < |Flatten(x)| / 2 :: k in Flatten(x)[2 * i + 1].fields
  {
    EmitFlat(Flatten(x))
  }

  /** Names at even positions, documents at odd positions of a flattened tuple. */
  function EmitFlat(flat: seq<Value>): (r: Result<(Value, Body), EmitError>)
    ensures r == Err(NoNames) <==> |flat| == 0
    ensures r == Err(NotMapping) <==> |flat| > 0 && exists i | 0 <= i < |flat| / 2 :: !flat[2 * i + 1].VMap?
    ensures r.Ok? ==> r.value.0 == flat[0]
    ensures r.Ok? ==> forall k :: k in r.value.1 <==> exists i | 0 <= i < |flat| / 2 :: k in flat[2 * i + 1].fields
  {
    var names := Evens(flat);
    var docs := Odds(flat);
    if |names| == 0 then Err(NoNames)
    else
      match Bodies(docs)
      case None =>
        assert exists i | 0 <= i < |flat| / 2 :: !flat[2 * i + 1].VMap? by {
          var i :| 0 <= i < |docs| && !docs[i].VMap?;
          assert !flat[2 * i + 1].VMap?;
        }
        Err(NotMapping)
      case Some(bs) =>
        assert forall i | 0 <= i < |flat| / 2 :: flat[2 * i + 1].VMap? by {
          forall i | 0 <= i < |flat| / 2
            ensures flat[2 * i + 1].VMap?
          {
            assert docs[i] == flat[2 * i + 1];
          }
        }
        MergeAllKeys(docs, bs);
        assert forall k :: k in MergeAll(bs) <==> exists i | 0 <= i < |flat| / 2 :: k in flat[2 * i + 1].fields by {
          forall k
            ensures k in MergeAll(bs) <==> exists i | 0 <= i < |flat| / 2 :: k in flat[2 * i + 1].fields
          {
            if k in MergeAll(bs) {
              var i :| 0 <= i < |docs| && k in docs[i].fields;
              assert k in flat[2 * i + 1].fields;
            }
            if exists i | 0 <= i < |flat| / 2 :: k in flat[2 * i + 1].fields {
              var i :| 0 <= i < |flat| / 2 && k in flat[2 * i + 1].fields;
              assert k in docs[i].fields;
            }
          }
        }
        Ok((names[0], MergeAll(bs)))
  }

  /** The keys of the merge of the documents' bodies are the keys of the documents. */
  lemma MergeAllKeys(docs: seq<Value>, bs: seq<Body>)
    requires |bs| == |docs| && forall i | 0 <= i < |docs| :: docs[i].VMap? && bs[i] == docs[i].fields
    ensures forall k :: k in MergeAll(bs) <==> exists i | 0 <= i < |docs| :: k in docs[i].fields
  {
    MergeAllLastWins(bs);
    forall k
      ensures k in MergeAll(bs) <==> exists i | 0 <= i < |docs| :: k in docs[i].fields
    {
      if k in MergeAll(bs) {
        var i :| 0 <= i < |bs| && k in bs[i];
        assert k in docs[i].fields;
      }
      if exists i | 0 <= i < |docs| :: k in docs[i].fields {
        var i :| 0 <= i < |docs| && k in docs[i].fields;
        assert k in bs[i];
      }
    }
  }

  /** For a tuple of `(name, mapping)` pairs, the output carries the first
      pair's name and the merge of the pairs' bodies in upstream order. */
  lemma EmitZippedPairs(x: seq<seq<Value>>)
    requires AllPairs(x) && |x| > 0
    requires forall i | 0 <= i < |x| :: x[i][1].VMap?
    ensures var r := EmitZipped(x);
            && r.Ok? && r.value.0 == x[0][0]
            && r.value.1 == MergeAll(seq(|x|, i requires 0 <= i < |x| => x[i][1].fields))
  {
    FlattenPairs(x);
    var flat := Flatten(x);
    var docs := Odds(flat);
    assert forall i | 0 <= i < |docs| :: docs[i] == x[i][1];
    var bs := Bodies(docs);
    assert bs.Some?;
    assert bs.value == seq(|x|, i requires 0 <= i < |x| => x[i][1].fields);
  }

  /** The merge law on two sources: `{x:1, y:2}` then `{y:3, z:4}` gives
      `{x:1, y:3, z:4}`. */
  lemma MergeOverride()
    ensures MergeAll([map["x" := VInt(1), "y" := VInt(2)], map["y" := VInt(3), "z" := VInt(4)]])
            == map["x" := VInt(1), "y" := VInt(3), "z" := VInt(4)]
  {
    var a := map["x" := VInt(1), "y" := VInt(2)];
    var b := map["y" := VInt(3), "z" := VInt(4)];
    assert [a, b][..1] == [a];
    assert [a][..0] == [];
  }

  /** `AlignEventStreams.update`: select the buffers and literals of the
      incoming document's type, let the zip step work on them, and emit the
      merge of what it releases. */
  function Update(n: AlignNode, d: Doc, who: nat, zip: ZipStep): (r: (AlignNode, Option<Result<(Value, Body), EmitError>>))
    requires Valid(n)
    ensures Valid(r.0)
    ensures r.0.upstreams == n.upstreams && r.0.trueLiterals == n.trueLiterals
    ensures forall k: DocKind | k != d.kind :: r.0.trueBuffers[k] == n.trueBuffers[k]
    ensures var (b, released) := zip(n.trueBuffers[d.kind], n.trueLiterals[d.kind], d, who);
            && r.0.trueBuffers[d.kind] == b
            && (released.None? <==> r.1.None?)
            && (released.Some? ==> r.1 == Some(EmitZipped(released.value)))
  {
    var (b, released) := zip(n.trueBuffers[d.kind], n.trueLiterals[d.kind], d, who);
    var n' := n.(trueBuffers := n.trueBuffers[d.kind := b]);
    match released
    case None => (n', None)
    case Some(x) => (n', Some(EmitZipped(x)))
  }
}

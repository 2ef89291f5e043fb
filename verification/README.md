# shed translation nodes, modelled in Dafny

This project models the translation nodes of `shed/simple.py`. These nodes
take a stream of event-model documents (`start`, `descriptor`, `event`,
`stop`) apart for analysis and wrap the results back into documents
afterwards. The model has four parts, one module each:

- **Extraction** (`SimpleFromEventStream`). A node that keeps session
  bookkeeping and forwards, for the documents it selects, the value at its
  data address:
  - the bookkeeping is the current start uid, the active descriptor uids and
    its lifecycle subscribers;
  - the address is a string, or a tuple of plain keys and key tuples.
- **Walker** (`walk_to_translation`). A recursive walk over the dataflow
  graph that finds the extraction and reconstruction nodes a
  reconstruction node depends on.
- **Reconstruction** (`SimpleToEventStream`). It has three parts:
  - construction: walk, classify the translation and principle nodes,
    subscribe to every principle node;
  - the `stopped` / `started` / `described` state machine that turns
    payloads back into a document session;
  - the provenance fields of the new start document.
- **Align** (`AlignEventStreams`). A zip of several document streams:
  - buffers are kept per document type, and literal upstreams keep their
    position;
  - a released tuple is flattened into names and documents;
  - its documents are merged, and later upstreams win on a shared key.

`Documents` holds the document and value types. `Scenario` connects an
extraction node to a reconstruction node. Its main lemma follows one
acquisition session through both nodes, from the documents that go in to
the new session that comes out.

Documents are `(kind, body)` pairs. A body is a `map<string, Value>`, and a
`Value` is `None`, an integer, a string, a tuple or a mapping. Dataflow nodes
live in an arena and are addressed by index. The index stands for the
node's uid, or its hash, that the source uses as a graph key.

Errors the source raises are explicit outcomes in the model:

- an extraction node's `KeyError` or `TypeError` is the outcome `Failed`;
- a reconstruction node built with no principle node gets the error
  `NoPrincipleNodes`;
- an align node whose released tuple has no names, or holds a document that
  is not a mapping, gets an `EmitError`.

## Model

| member | source | states |
|---|---|---|
| Extraction.Update | shed/simple.py:147-186 | Covers the bookkeeping that runs whatever the configured type is. A start records its uid and notifies every subscriber in order; a missing uid is a `KeyError`. A descriptor is appended exactly when the stream-name filter accepts it, and an unnamed one counts as "primary". A tracked descriptor without a uid raises `KeyError` and changes nothing. A stop clears the descriptors and notifies every subscriber. An event changes nothing. Subscribers never change. A document that passes its selection test forwards exactly the value at the address. A forwarded event without a `descriptor` field raises `KeyError`. Once the bookkeeping succeeds, three kinds of document are dropped silently, without an error: a document of another type, an event whose descriptor is not active, and a descriptor the forwarding filter rejects. |
| Extraction.Normalise | shed/simple.py:138-139 | A bare string address becomes the one-key path, and a path is kept as it is. |
| Extraction.Tracks | shed/simple.py:153-157 | A descriptor is tracked exactly when the filter is the wildcard or equals its name. An unnamed descriptor counts as "primary". |
| Extraction.ForwardsDescriptor | shed/simple.py:164-168 | A named descriptor is forwarded exactly when its name equals the filter. An unnamed one is forwarded exactly when the filter is the wildcard. |
| Extraction.Resolve | shed/simple.py:176-185 | An empty path finds the document itself. Finding nothing needs a plain key somewhere in the path, and a `KeyError` needs a key tuple in it. A path that ends in a key tuple finds a tuple. |
| Extraction.StepKey | shed/simple.py:181-185 | A plain key is found exactly when the value is a mapping holding it, and the result is that key's value. On a mapping, a missing key is silent rather than an error. |
| Extraction.StepKeys | shed/simple.py:179-180 | A key tuple succeeds exactly when it is empty or the value is a mapping holding every key. On success the result has one value per key, in order. Otherwise the error is a `TypeError` for a non-mapping, or a `KeyError` naming the first missing key. |
| Extraction.ResolveConcat | shed/simple.py:176-185 | Resolving an address `p + q` is resolving `p` and then `q` from what was found. A miss or an error in `p` is final. |
| Extraction.MissingKeyIsSilent | shed/simple.py:182-185 | If a plain key is absent at any level of the address, the lookup finds nothing and raises nothing, whatever follows it. |
| Extraction.NestRoundTrip | shed/simple.py:176-186 | Looking up a path of plain keys in a value nested under those keys finds exactly that value. |
| Extraction.EmptyAddressForwardsBody | shed/simple.py:163-176 | Any document that passes its selection test, with an empty address, forwards its whole body. |
| Extraction.BareAddressLooksUpKey | shed/simple.py:138-139 | For any document that passes its selection test, a bare string address acts as the one-key path. It forwards the field when present and nothing when absent. |
| Extraction.WildcardDescriptorQuirk | shed/simple.py:153-168 | With the wildcard filter, a descriptor named "primary" is tracked, so its events flow. It is not itself forwarded, because the forwarding test compares the wildcard sentinel with the descriptor's name literally. |
| Extraction.UnnamedDescriptorQuirk | shed/simple.py:153-168 | The two defaults disagree on a descriptor without a name: tracking reads it as "primary" and forwarding as the wildcard. With the filter "primary", such a descriptor's uid is tracked, but the descriptor is not forwarded. |
| Walker.FirstFreshTo | shed/simple.py:54-59 | The position found is the first downstream that is a reconstruction node not yet in the graph. No earlier downstream is one, and `None` means no downstream is one. |
| Walker.Walk | shed/simple.py:24-67 | A `None` node leaves the graph unchanged. The visited node is always added, and earlier nodes keep their insertion order. No edge is lost. Every new edge follows the dataflow, and every new node is the root or the endpoint of a new edge. Every added node is also joined by an edge to a node added before it. When walked from a node that is not an extraction node, no new edge points at an extraction node. Walked from the root, every non-`None` upstream of the root is in the result. The walk then carries on upstream: every new pass-through node has its own upstreams in the result, unless a reconstruction node downstream of it was not yet in the graph and the walk stopped there. The walk terminates because each recursive call adds an edge. |
| Walker.WalkStep | shed/simple.py:41-67 | An edge to the prior node that already exists stops the walk. An extraction node gets its edge and is not expanded. Otherwise, the first fresh reconstruction node downstream gets an edge and ends the branch. In every other case the edge to the prior node is recorded, and every non-`None` upstream of the node ends up in the graph. Every pass-through node the visit adds is expanded the same way or stopped at a fresh reconstruction node. Every node the visit adds is joined by an edge to a node added before it. |
| Walker.WalkUpstreams | shed/simple.py:64-67 | Every non-`None` upstream of the node ends up in the graph. Every pass-through node added on the way has its own upstreams walked, unless it was stopped at a fresh reconstruction node. Every added node is joined by an edge to a node added before it, so the added nodes hang together with the walked node. The graph stays well formed. All new edges are justified by the dataflow, and none points at an extraction node when this node is not one. |
| Walker.TranslationGraph | shed/simple.py:250-253 | The graph built at construction starts with the node itself and holds every non-`None` upstream of it. Every other pass-through node in it has its upstreams in it too, unless a reconstruction node other than the root sits directly downstream of it and stopped the walk. So the graph reaches upstream through processing nodes up to the extraction nodes. Every node after the first is joined by an edge to an earlier one. Its node ids are distinct, and every edge follows the dataflow. |
| Walker.ComposeExpanded | shed/simple.py:64-67 | The upstream closure of two successive stretches of the walk is the closure of the whole walk. |
| Walker.ComposeAnchored | shed/simple.py:24-67 | If each of two successive stretches of the walk adds only nodes joined to earlier ones, so does the whole walk. |
| Walker.GraphInComponent | shed/simple.py:24-67 | Consider a graph whose edges follow the dataflow and never point at an extraction node, and whose nodes are each joined to an earlier one. It lies within every set that holds its first node and that no such dataflow edge enters or leaves. |
| Reconstruction.TranslationNodes | shed/simple.py:255-262 | The translation nodes are exactly the graph nodes that are extraction or reconstruction nodes, other than the node itself, without repeats. |
| Reconstruction.PrincipleNodes | shed/simple.py:263-268 | The principle nodes are exactly the translation nodes that are principle extraction nodes or reconstruction nodes. |
| Reconstruction.Classify | shed/simple.py:255-270 | Construction fails with `NoPrincipleNodes` if and only if no other graph node is a principle node. Otherwise both node lists have exactly the members above, without repeats. |
| Reconstruction.Register | shed/simple.py:271-272 | Each principle node gets the new node appended to its subscribers, once. Every other node's subscribers are unchanged. |
| Reconstruction.Construct | shed/simple.py:234-272 | A constructed node is `stopped`, has no start document and has the classified node lists, without repeats. Every principle node, and only those, has it as a new last subscriber. It is an error exactly when there is no principle node. The walk graph behind it holds every non-`None` upstream of the node, and the upstreams of every pass-through node the walk did not stop at. Every node after the first is joined by an edge to an earlier one. When the node is not itself an extraction node, the graph stays within the part of the dataflow the node reaches without stepping into an extraction node, so an unrelated pipeline's nodes are never translation or principle nodes. |
| Reconstruction.EmitStop | shed/simple.py:284-289 | The log is exactly one stop document followed by one stop signal per subscriber, in order. The node becomes `stopped` from any state, so a double stop is not prevented. |
| Reconstruction.EmitStart | shed/simple.py:274-282 | When the node was not `stopped`, the log starts with a stop document and a stop signal for every subscriber. Then comes exactly one start document, whose provenance comes from the translation nodes, and a start signal for every subscriber in order. Nothing else is logged. The node ends `started`, with no pending start document. |
| Reconstruction.Update | shed/simple.py:291-299 | A descriptor is emitted if and only if the node was `started`, and the node then becomes `described`. That descriptor comes first and is built from the payload. Exactly one event, carrying the payload, is always emitted last, even when `stopped`. Only documents are logged: no subscriber is called. |
| Reconstruction.ParentUids | shed/simple.py:305-309 | `parent_uids` holds the start uid of every translation node that has one, and nothing else. It never holds `None`. |
| Reconstruction.ParentNodeMap | shed/simple.py:310-314 | The keys of `parent_node_map` are exactly the uids of the translation nodes with a start uid. With unique node uids, each maps to its node's start uid. |
| Reconstruction.ApplyEffect | shed/simple.py:274-299 | Each call moves the node to the phase its abstract effect names and emits exactly the document types that effect lists. A start emits a start, preceded by a stop unless the node was `stopped`. A stop emits a stop. A payload emits a descriptor and an event when `started`, and otherwise only an event. |
| Reconstruction.RunEffects | shed/simple.py:274-299 | A sequence of calls on a node ends in the phase, and emits the document types, of the composed abstract effects. |
| Reconstruction.EffectKeepsInvariant | shed/simple.py:274-299 | Each lifecycle or payload call keeps the session invariant of the emitted document types. The invariant has four parts: a stop lies between any two starts; every descriptor sits between a start and an event; every start is directly followed by a descriptor or a stop; and the state matches the last document. For the last part, every session is closed when the node is `stopped`, the last document is a start when it is `started`, and it is not a start otherwise. |
| Reconstruction.EffectsKeepInvariant | shed/simple.py:274-299 | Any sequence of calls keeps the session invariant. |
| Reconstruction.EffectsInvariant | shed/simple.py:274-299 | The composed effect of any sequence of calls keeps the session invariant, by induction over the calls. |
| Reconstruction.SessionsWellFormed | shed/simple.py:206-210 | Whatever sequence of calls reaches a freshly constructed node, its output has a stop between any two starts. Every start is directly followed by a descriptor or a stop. Every descriptor directly follows a start and directly precedes an event, so there is at most one descriptor per session. When the node ends `stopped`, every session in the output is closed. |
| Align.LiteralsFrom | shed/simple.py:338-345 | The literals are exactly the non-stream upstreams, each paired with its original position, in increasing position order. |
| Align.Init | shed/simple.py:327-345 | Every one of the four document types gets an empty buffer for each live upstream and no other. Every type also gets the same literal list, with original positions, in increasing position order. |
| Align.Update | shed/simple.py:354-358 | Only the incoming document type's buffers are handed to the zip step and replaced by what it leaves. Other types' buffers and all literals are unchanged. A released tuple is emitted as its merge, and nothing is emitted otherwise. |
| Align.FlattenPairs | shed/simple.py:349-351 | Flattening `(name, doc)` pairs gives the names at even positions and the documents at odd positions, in upstream order. |
| Align.Flatten | shed/simple.py:349 | Every element of every inner tuple is in the flattened list. |
| Align.FlattenFrom | shed/simple.py:349 | Every element of the flattened list comes from some inner tuple. |
| Align.Evens | shed/simple.py:350 | `x[::2]` has half the length, rounded up, and holds the even-position elements. |
| Align.Odds | shed/simple.py:351 | `x[1::2]` has half the length, rounded down, and holds the odd-position elements. |
| Align.Bodies | shed/simple.py:352 | The documents can be merged if and only if every one is a mapping. The bodies are then taken in order. |
| Align.MergeAll | shed/simple.py:323-325 | The merge holds every key of every body. On the last body's keys it agrees with the last body. |
| Align.MergeAllKeys | shed/simple.py:352 | The keys of the merge of the documents' bodies are exactly the keys that some document has. |
| Align.MergeAllLastWins | shed/simple.py:323-325 | The merge holds exactly the keys of all bodies. Each key has the value from the last body that has it. |
| Align.EmitFlat | shed/simple.py:348-352 | A flattened tuple fails with `NoNames` exactly when it is empty. It fails with `NotMapping` exactly when a document at an odd position is not a mapping. Otherwise the output is named after the first element, and its keys are exactly the keys of the documents. |
| Align.EmitZipped | shed/simple.py:347-352 | The same, stated for the nested tuple: `NoNames` exactly when the flattened tuple is empty, and `NotMapping` exactly when one of its documents is not a mapping. Otherwise the output is named after the first flattened element, with the union of the documents' keys. |
| Align.EmitZippedPairs | shed/simple.py:347-352 | For a tuple of `(name, mapping)` pairs, the output is named after the first pair and its body is the merge of the pairs' bodies in upstream order. |
| Align.MergeOverride | shed/simple.py:323-325 | Merging `{x:1, y:2}` then `{y:3, z:4}` gives `{x:1, y:3, z:4}`. |
| Scenario.FeedStart | shed/simple.py:149-152 | A start document reaching a `stopped` pipeline records its uid in the extraction node and signals the reconstruction node. That node emits exactly one start document, whose provenance names the extraction node's uid and the new start uid, and becomes `started`. |
| Scenario.FeedStartLog | shed/simple.py:149-152 | A start document reaching a `stopped` pipeline records its uid in the extraction node. The one notification it sends reaches the reconstruction node as a start call, whose log is the pipeline's whole output. |
| Scenario.FeedDescriptor | shed/simple.py:153-157 | A descriptor reaching the pipeline is tracked by the extraction node under the wildcard filter. Nothing is emitted, and the reconstruction node is unchanged. |
| Scenario.FeedEvent | shed/simple.py:164-186 | An event of a tracked descriptor forwards its image to a started reconstruction node. The extraction node is unchanged, and the reconstruction node emits a descriptor first when just started, then one event carrying the image. |
| Scenario.FeedStop | shed/simple.py:158-162 | A stop clears the extraction node's descriptors and stops the reconstruction node, which emits exactly one stop document. |
| Scenario.RunEvents | shed/simple.py:164-186 | A run of events of one tracked descriptor emits a descriptor before the first event when the node is just started, then one event per image, with the images as payloads in order. |
| Scenario.SessionShape | shed/simple.py:147-186 | For any step function with the start, descriptor, event and stop behaviour above, a whole session emits a start, one descriptor when there is an image, one event per image and a stop. |
| Scenario.SessionRoundTrip | shed/simple.py:147-186 | The extraction node feeds a reconstruction node whose only translation and principle node is that extraction node (`ToNodeOf`), as `Connect` constructs it. One acquisition session of a start, a descriptor, events and a stop, re-wrapped through it, becomes one new session. Its start names the original session in its provenance. It has one descriptor when there is at least one image, one event per image with the images in order, and a stop. Both nodes end with a closed session. |
| Scenario.Connect | shed/simple.py:234-272 | Construction on an arena with a source, a principle extraction node and a reconstruction node below it succeeds. It yields exactly the `stopped` node whose only translation and principle node is the extraction node. The extraction node's subscribers become exactly the reconstruction node. |
| Scenario.ThroughReached | shed/simple.py:24-67 | In `ThroughArena` (a source, an extraction node, a processing node and a reconstruction node, in a chain), any graph with the walk's reach and closure from the reconstruction node holds the extraction node. |
| Scenario.ConnectThrough | shed/simple.py:234-272 | Construction through a processing node succeeds. It yields the `stopped` node whose only translation and principle node is the extraction node above the processing node, and it subscribes the reconstruction node to that extraction node alone. |
| Scenario.FirstPipelineApart | shed/simple.py:24-67 | In `TwoPipelines`, no dataflow edge joins the first pipeline to the second. |
| Scenario.FirstGraph | shed/simple.py:24-67 | In `TwoPipelines`, any graph that reaches the upstreams of the first reconstruction node and stays within its part of the dataflow holds exactly the first pipeline's two nodes. |
| Scenario.ConnectFirst | shed/simple.py:234-272 | In `TwoPipelines`, constructing the first reconstruction node subscribes it to its own extraction node only. The other pipeline's extraction node is neither a translation nor a principle node, and its subscribers are unchanged. |
| Scenario.ReWrap | shed/simple.py:147-186 | The pipeline is constructed, not assumed, and one session is run through it. The output is a start whose provenance maps the extraction node's uid to the original start uid, one descriptor when there are images, one event per image with the images in order, and a stop. |

## Left out

- The rapidz stream substrate is not modelled: `emit` dispatch, `move_to_first`, asynchronous operation, and the `szip` buffering and release behind `super().update`. Release is a function parameter of `Align.Update` (`ZipStep`), and emissions are log entries.
- The schema generator `CreateDocs` (`shed.doc_gen`) is not part of this model. A new document records only its type, what it was made from and, for a start document, the provenance fields. Where a reconstruction node's own start uid comes from is also left out.
- `ChainDB` and `_convert_to_dict` merge nested mappings deeply. The model merges flat bodies by right-biased map union, which keeps the last-upstream-wins law on top-level keys.
- networkx, `uuid` and `hash()` are replaced by arena indices. Node uids are inputs, assumed unique where provenance needs it (`UniqueUids`).
- `DTYPE_MAP`, numpy and `time` are left out because they concern numeric data-key inference and timestamps.
- Subscriber notifications are log entries (`NotifyStart` / `NotifyStop`, `SignalStart` / `SignalStop`). They are not followed recursively through chains of subscribers, since the `subs` relation can be cyclic. `Scenario` delivers them one level, from an extraction node to its reconstruction node.
- Walker.Walk: its upstream closure (`PassThroughsExpanded`) is stated for processing nodes, not for reconstruction nodes met while walking upstream. Such a node cannot be told apart in the graph from one added only as the fresh reconstruction node that stopped a branch, which the walk does not expand. Its upper bound is the part of the dataflow the root reaches without stepping into an extraction node, not the exact set of nodes walked. Nodes of that part the walk never visits, such as a processing node's downstreams that are not reconstruction nodes, are not stated absent.
- Walker.WalkStep: in the expanding case, the same two limits as `Walk` apply. The closure covers processing nodes only, and the nodes added are bounded only by being joined to earlier ones.
- Walker.WalkUpstreams: the same two limits as `Walk`. The added nodes are joined to earlier ones, but the model does not say they are exactly the nodes the walk reaches.
- Walker.TranslationGraph: the same two limits as `Walk`. The graph lies within the root's part of the dataflow, but not every node of that part is excluded when the walk does not reach it.
- Reconstruction.Construct: for a node that is not itself an extraction node, the translation and principle nodes are bounded by the part of the dataflow the node reaches without stepping into an extraction node, not by the exact walk. An extraction node reachable only through a processing node's non-reconstruction downstreams is not stated absent.
- Document names outside the four types are not modelled (`DocKind` is closed). A literal upstream of the align node is a tuple of values.
- The tests in `redsky/tests/test_streams.py` exercise `redsky.streams`, which is not part of this model.
- Reconstruction.ParentUids: only membership of `parent_uids` is stated, not its order. The order follows the insertion order of the graph, which the model keeps but does not expose in this contract.
- Reconstruction.ParentNodeMap: the value each key maps to is stated only under `UniqueUids`. Without it, two nodes with the same uid overwrite each other in insertion order.

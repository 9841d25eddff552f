/** The state logic of the force-directed graph renderer (src/d3/graph.js), with the
    SVG scene, the force physics, the zoom and the transitions left out. What stays:
    the node and link objects that render reconciles, the fields of the force
    simulation that the renderer sets, the hover and drag state, and the calls the
    renderer makes into its hosting component. */
module GraphRenderer {
  import opened Js
  import opened DomIds
  import opened KeyedJoin

  /** A node datum as the host hands it to render: its `id` and its other properties
      (credits, ingoing, outgoing, ingoingNeighbor, outgoingNeighbor, ...). */
  datatype NodeData = NodeData(id: string, attrs: map<string, Value>)

  /** A link datum as the host hands it to render: the ids of its two ends. */
  datatype LinkData = LinkData(source: string, target: string)

  /** A node object, shared by the node selection and the simulation. Its `id` never
      changes; every other property is in `attrs`, including x, y, vx, vy once the
      simulation has placed it and fx, fy once it has been pinned. */
  class Node {
    const id: string
    var attrs: map<string, Value>

    constructor (d: NodeData)
      ensures id == d.id && attrs == d.attrs
    {
      id := d.id;
      attrs := d.attrs;
    }
  }

  /** One end of a link: the raw node id, or the node object that the link force
      put in its place. */
  datatype Endpoint = Id(name: string) | Ref(node: Node)

  function EndpointId(e: Endpoint): string {
    match e
    case Id(s) => s
    case Ref(n) => n.id
  }

  /** A link object, shared by the link selection and the simulation's link force. */
  class Link {
    var source: Endpoint
    var target: Endpoint

    /** `Object.assign({}, d)`: a fresh shallow copy of a link datum. */
    constructor (d: LinkData)
      ensures source == Id(d.source) && target == Id(d.target)
    {
      source := Id(d.source);
      target := Id(d.target);
    }
  }

  /** `linkId`: the DOM id of a link line. The link force replaces both ends at once,
      so they are both ids or both node objects. */
  function LinkId(source: Endpoint, target: Endpoint): (r: string)
    requires source.Ref? <==> target.Ref?
    ensures r == LinkIdOf(EndpointId(source), EndpointId(target))
    ensures '(' !in r && ')' !in r
  {
    if source.Ref? then LinkIdOf(source.node.id, target.node.id)
    else LinkIdOf(source.name, target.name)
  }

  // ---------------------------------------------------------------------------
  // Node fill

  /** The neighbourhood category of a node. */
  datatype Hood = NoHood | Both | Ingoing | Outgoing

  /** The hood key of `computeNodeFill`. */
  function HoodKey(attrs: map<string, Value>): (h: Hood)
    ensures h == Both <==> Truthy(Get(attrs, "ingoingNeighbor")) && Truthy(Get(attrs, "outgoingNeighbor"))
    ensures h == Ingoing <==> Truthy(Get(attrs, "ingoingNeighbor")) && !Truthy(Get(attrs, "outgoingNeighbor"))
    ensures h == Outgoing <==> !Truthy(Get(attrs, "ingoingNeighbor")) && Truthy(Get(attrs, "outgoingNeighbor"))
    ensures h == NoHood <==> !Truthy(Get(attrs, "ingoingNeighbor")) && !Truthy(Get(attrs, "outgoingNeighbor"))
  {
    var ingoing := Truthy(Get(attrs, "ingoingNeighbor"));
    var outgoing := Truthy(Get(attrs, "outgoingNeighbor"));
    if ingoing && outgoing then Both
    else if ingoing then Ingoing
    else if outgoing then Outgoing
    else NoHood
  }

  /** Which colour-table entry fills a node: the neighbourhood table's entry for its
      hood key, or the colour map's entry for the value of the chosen parameter. */
  datatype Fill = NeighbourhoodColour(hood: Hood) | ParamColour(key: Value)

  /** The value of property `key` of a node. */
  function Property(id: string, attrs: map<string, Value>, key: string): Value {
    if key == "id" then Str(id) else Get(attrs, key)
  }

  /** `computeNodeFill`. */
  function NodeFill(id: string, attrs: map<string, Value>, param: string): (f: Fill)
    ensures f.NeighbourhoodColour? <==> HoodKey(attrs) != NoHood
    ensures f.NeighbourhoodColour? ==> f.hood == HoodKey(attrs)
    ensures f.ParamColour? ==> f.key == Property(id, attrs, param)
  {
    var hood := HoodKey(attrs);
    if hood != NoHood then NeighbourhoodColour(hood) else ParamColour(Property(id, attrs, param))
  }

  /** A node in a highlighted neighbourhood takes the neighbourhood colour whatever
      the colour parameter; any other node takes the parameter's colour. */
  lemma NeighbourhoodColourOverridesParam(id: string, attrs: map<string, Value>, param: string)
    ensures NodeFill(id, attrs, param).NeighbourhoodColour? <==>
      Truthy(Get(attrs, "ingoingNeighbor")) || Truthy(Get(attrs, "outgoingNeighbor"))
    ensures NodeFill(id, attrs, param).NeighbourhoodColour? ==>
      NodeFill(id, attrs, param) == NodeFill(id, attrs, "") &&
      NodeFill(id, attrs, param).hood != NoHood
  {
  }

  // ---------------------------------------------------------------------------
  // Node lookup by id

  /** `new Map(nodes.map(d => [d.id, d]))`: a later node with the same id wins. */
  function IndexById(nodes: seq<Node>): (m: map<string, Node>)
    ensures forall i :: 0 <= i < |nodes| ==> nodes[i].id in m
    ensures forall k :: k in m ==> m[k].id == k
  {
    if nodes == [] then map[]
    else
      var init := nodes[..|nodes| - 1];
      var last := nodes[|nodes| - 1];
      assert forall i :: 0 <= i < |init| ==> init[i] == nodes[i];
      IndexById(init)[last.id := last]
  }

  /** Every node the index maps to is one of the indexed nodes. */
  lemma {:induction false} IndexByIdMembers(nodes: seq<Node>)
    ensures forall k :: k in IndexById(nodes) ==> IndexById(nodes)[k] in nodes
  {
    if nodes != [] {
      var init := nodes[..|nodes| - 1];
      IndexByIdMembers(init);
      assert forall n :: n in init ==> n in nodes;
    }
  }

  /** The node an id maps to is the last node with that id. */
  lemma {:induction false} IndexByIdLastWins(nodes: seq<Node>, i: nat)
    requires i < |nodes|
    requires forall j :: i < j < |nodes| ==> nodes[j].id != nodes[i].id
    ensures IndexById(nodes)[nodes[i].id] == nodes[i]
  {
    var init := nodes[..|nodes| - 1];
    if i < |nodes| - 1 {
      assert forall j :: i < j < |init| ==> init[j] == nodes[j];
      IndexByIdLastWins(init, i);
    }
  }

  function NodeKeys(nodes: seq<Node>): (ks: seq<string>)
    ensures |ks| == |nodes| && forall i :: 0 <= i < |nodes| ==> ks[i] == nodes[i].id
  {
    seq(|nodes|, i requires 0 <= i < |nodes| => nodes[i].id)
  }

  function DataIds(data: seq<NodeData>): (ks: seq<string>)
    ensures |ks| == |data| && forall i :: 0 <= i < |data| ==> ks[i] == data[i].id
  {
    seq(|data|, i requires 0 <= i < |data| => data[i].id)
  }

  /** The DOM ids of the node circles. */
  function NodeDomIds(nodes: seq<Node>): set<string> {
    set n | n in nodes :: NodeId(n.id)
  }

  /** The DOM ids of the circles that a render with `data` updates rather than
      creates: those of the data whose id some live circle already has. An entering
      circle is a new element, without the outline style of an old one. */
  function UpdatedDomIds(oldIds: seq<string>, data: seq<NodeData>): (ids: set<string>)
    ensures forall d :: d in data && d.id in oldIds ==> NodeId(d.id) in ids
    ensures forall x :: x in ids ==> exists d :: d in data && d.id in oldIds && x == NodeId(d.id)
  {
    set d | d in data && d.id in oldIds :: NodeId(d.id)
  }

  /** The DOM ids of the link lines. */
  function LinkDomIds(data: seq<LinkData>): set<string> {
    set d | d in data :: LinkIdOf(d.source, d.target)
  }

  // ---------------------------------------------------------------------------
  // Link keys, and the finding about them

  /** The key of a link in the join, taken from the ids of its ends whether or not
      the link force has resolved them. */
  function LinkKey(source: Endpoint, target: Endpoint): (k: string)
    ensures source.Id? && target.Id? ==> k == LinkKeyAsWritten(source, target)
  {
    EndpointId(source) + " -> " + EndpointId(target)
  }

  /** Resolving the ends of a link does not change its key. */
  lemma LinkKeySurvivesResolution(nodes: seq<Node>, source: Endpoint, target: Endpoint)
    requires Resolvable(nodes, source) && Resolvable(nodes, target)
    ensures LinkKey(Resolve(nodes, source), Resolve(nodes, target)) == LinkKey(source, target)
  {
  }

  function LinkKeys(ls: seq<Link>): (ks: seq<string>)
    reads ls
    ensures |ks| == |ls| && forall i :: 0 <= i < |ls| ==> ks[i] == LinkKey(ls[i].source, ls[i].target)
  {
    if ls == [] then [] else [LinkKey(ls[0].source, ls[0].target)] + LinkKeys(ls[1..])
  }

  function DataLinkKeys(data: seq<LinkData>): (ks: seq<string>)
    ensures |ks| == |data| && forall i :: 0 <= i < |data| ==> ks[i] == data[i].source + " -> " + data[i].target
  {
    seq(|data|, i requires 0 <= i < |data| => data[i].source + " -> " + data[i].target)
  }

  /** How a template string prints a link end: a resolved end is a plain object
      and prints as "[object Object]". */
  function EndText(e: Endpoint): string {
    match e
    case Id(s) => s
    case Ref(_) => ObjectText
  }

  /** The link key as render writes it: `${d.source} -> ${d.target}`. */
  function LinkKeyAsWritten(source: Endpoint, target: Endpoint): (k: string)
    ensures source.Id? && target.Id? ==> k == source.name + " -> " + target.name
    ensures source.Ref? && target.Ref? ==> k == StaleKey
  {
    EndText(source) + " -> " + EndText(target)
  }

  function LinkKeysAsWritten(ls: seq<Link>): (ks: seq<string>)
    reads ls
    ensures |ks| == |ls| && forall i :: 0 <= i < |ls| ==> ks[i] == LinkKeyAsWritten(ls[i].source, ls[i].target)
  {
    if ls == [] then [] else [LinkKeyAsWritten(ls[0].source, ls[0].target)] + LinkKeysAsWritten(ls[1..])
  }

  /** With the key as written, a render that follows another never matches an old
      line: the old links' ends were resolved by the link force, so every old key is
      "[object Object] -> [object Object]", and no key of a new link whose source id
      does not start with '[' equals it. Every old line exits and every link enters. */
  lemma AsWrittenRerenderReplacesEveryLink(g: Graph, linkData: seq<LinkData>)
    requires g.Valid()
    requires forall d :: d in linkData ==> d.source == "" || d.source[0] != '['
    ensures
      var j := JoinOf(LinkKeysAsWritten(g.links), DataLinkKeys(linkData));
      (forall i :: 0 <= i < |linkData| ==> j.matched[i].None?) &&
      (forall p :: 0 <= p < |g.links| ==> j.exiting[p])
  {
    var oldKeys := LinkKeysAsWritten(g.links);
    var newKeys := DataLinkKeys(linkData);
    ResolvedKeysAreStale(g.links);
    forall i | 0 <= i < |newKeys| ensures newKeys[i] != StaleKey {
      assert linkData[i] in linkData;
      FreshKeyIsNotStale(linkData[i].source, linkData[i].target);
    }
    var j := JoinOf(oldKeys, newKeys);
    forall i | 0 <= i < |newKeys| ensures j.matched[i].None? {
      assert newKeys[i] !in oldKeys;
    }
    forall p | 0 <= p < |oldKeys| ensures j.exiting[p] {
      assert oldKeys[p] !in newKeys;
    }
  }

  lemma ResolvedKeysAreStale(ls: seq<Link>)
    requires forall l :: l in ls ==> l.source.Ref? && l.target.Ref?
    ensures forall p :: 0 <= p < |ls| ==> LinkKeysAsWritten(ls)[p] == StaleKey
  {
    forall p | 0 <= p < |ls| ensures LinkKeysAsWritten(ls)[p] == StaleKey {
      assert ls[p] in ls;
    }
  }

  /** What `String(o)` gives for a plain object. */
  const ObjectText := "[object Object]"

  /** The key every resolved link gets as written. */
  const StaleKey := ObjectText + " -> " + ObjectText

  lemma FreshKeyIsNotStale(source: string, target: string)
    requires source == "" || source[0] != '['
    ensures source + " -> " + target != StaleKey
  {
    var k := source + " -> " + target;
    if source == "" {
      assert k[0] == ' ';
    } else {
      assert k[0] == source[0];
    }
    assert StaleKey[0] == ObjectText[0] == '[';
  }

  /** With the key taken from the ends' ids, rendering the same links again updates
      every line in place: nothing enters and nothing exits. */
  lemma RerenderKeepsEveryLink(g: Graph, linkData: seq<LinkData>)
    requires LinkKeys(g.links) == DataLinkKeys(linkData)
    requires Distinct(DataLinkKeys(linkData))
    ensures
      var j := JoinOf(LinkKeys(g.links), DataLinkKeys(linkData));
      (forall i :: 0 <= i < |linkData| ==> j.matched[i] == Some(i)) &&
      (forall p :: 0 <= p < |g.links| ==> !j.exiting[p])
  {
    var keys := DataLinkKeys(linkData);
    forall i | 0 <= i < |keys| ensures FirstIndex(keys, keys[i]) == i && IsFirst(keys, i) {
      var f := FirstIndex(keys, keys[i]);
      assert !(f < i) && !(i < f);
    }
  }

  // ---------------------------------------------------------------------------
  // Hover highlighting

  datatype Opacity = Low | Default | High

  /** An `ingoing`/`outgoing` list: an array of objects with a string `id`. */
  predicate IsIdList(v: Value) {
    v.Arr? && forall i :: 0 <= i < |v.items| ==>
      v.items[i].Obj? && "id" in v.items[i].props && v.items[i].props["id"].Str?
  }

  function ListIds(v: Value): (ids: seq<string>)
    requires IsIdList(v)
    ensures |ids| == |v.items|
    ensures forall i :: 0 <= i < |ids| ==> ids[i] == v.items[i].props["id"].s
  {
    seq(|v.items|, i requires 0 <= i < |v.items| => v.items[i].props["id"].s)
  }

  /** The nodes a hover on node `id` raises: the node itself and its one-hop neighbours. */
  function HighNodeIds(id: string, ingoing: seq<string>, outgoing: seq<string>): set<string> {
    {NodeId(id)} + (set i | i in ingoing :: NodeId(i)) + (set o | o in outgoing :: NodeId(o))
  }

  /** The links a hover on node `id` raises: i -> id for each ingoing i, id -> o for each outgoing o. */
  function HighLinkIds(id: string, ingoing: seq<string>, outgoing: seq<string>): set<string> {
    (set i | i in ingoing :: LinkIdOf(i, id)) + (set o | o in outgoing :: LinkIdOf(id, o))
  }

  /** `[...ingoing, ...outgoing].map(({ id }) => nodeId(id))`. */
  function NeighbourNodeDomIds(ingoing: seq<string>, outgoing: seq<string>): seq<string> {
    var ids := ingoing + outgoing;
    seq(|ids|, i requires 0 <= i < |ids| => NodeId(ids[i]))
  }

  /** The DOM ids of the links between a node and its neighbours. */
  function NeighbourLinkDomIds(id: string, ingoing: seq<string>, outgoing: seq<string>): seq<string> {
    seq(|ingoing|, i requires 0 <= i < |ingoing| => LinkIdOf(ingoing[i], id)) +
    seq(|outgoing|, i requires 0 <= i < |outgoing| => LinkIdOf(id, outgoing[i]))
  }

  /** Every element of `ids` at the default opacity. */
  function AllDefault(ids: set<string>): (m: map<string, Opacity>)
    ensures m.Keys == ids && forall k :: k in m ==> m[k] == Default
  {
    map k | k in ids :: Default
  }

  function Lowered(m: map<string, Opacity>): map<string, Opacity> {
    map k | k in m :: Low
  }

  function Raised(m: map<string, Opacity>, ks: seq<string>): map<string, Opacity> {
    map k | k in m :: if k in ks then High else m[k]
  }

  function Restored(m: map<string, Opacity>): map<string, Opacity> {
    map k | k in m :: Default
  }

  // ---------------------------------------------------------------------------
  // The simulation

  /** A link end the link force can resolve among `nodes`. */
  predicate Resolvable(nodes: seq<Node>, e: Endpoint) {
    e.Ref? || e.name in IndexById(nodes)
  }

  /** Link `l` runs between the nodes of `ns` whose ids datum `d` names. */
  ghost predicate Joins(l: Link, ns: seq<Node>, d: LinkData)
    reads l
  {
    l.source.Ref? && l.source.node in ns && l.source.node.id == d.source &&
    l.target.Ref? && l.target.node in ns && l.target.node.id == d.target
  }

  /** What the link force makes of a link end: an id becomes the node with that id;
      a node object stays. */
  function Resolve(nodes: seq<Node>, e: Endpoint): (r: Endpoint)
    requires Resolvable(nodes, e)
    ensures r.Ref? && r.node.id == EndpointId(e)
    ensures e.Ref? ==> r.node == e.node
    ensures e.Id? ==> r.node in nodes && r.node == IndexById(nodes)[e.name]
  {
    if e.Ref? then e else IndexByIdMembers(nodes); Ref(IndexById(nodes)[e.name])
  }

  /** The force simulation, reduced to the fields the renderer sets. */
  class Simulation {
    var nodes: seq<Node>
    var links: seq<Link>
    var alpha: real
    var alphaTarget: real

    constructor ()
      ensures nodes == [] && links == [] && alpha == 1.0 && alphaTarget == 0.0
    {
      nodes, links := [], [];
      alpha, alphaTarget := 1.0, 0.0;
    }

    /** `simulation.nodes(ns)`. */
    method SetNodes(ns: seq<Node>)
      modifies this
      ensures nodes == ns && links == old(links)
      ensures alpha == old(alpha) && alphaTarget == old(alphaTarget)
    {
      nodes := ns;
    }

    /** `simulation.force("link").links(ls)`: the link force keeps `ls` and replaces
        every id end by the simulation's node with that id. */
    method SetLinks(ls: seq<Link>)
      requires forall l :: l in ls ==> Resolvable(nodes, l.source) && Resolvable(nodes, l.target)
      modifies this, set l | l in ls
      ensures nodes == old(nodes) && links == ls
      ensures alpha == old(alpha) && alphaTarget == old(alphaTarget)
      ensures forall l :: l in ls ==> l.source == Resolve(nodes, old(l.source)) && l.target == Resolve(nodes, old(l.target))
    {
      var i := 0;
      while i < |ls|
        invariant 0 <= i <= |ls|
        invariant nodes == old(nodes) && links == old(links)
        invariant alpha == old(alpha) && alphaTarget == old(alphaTarget)
        invariant forall l :: l in ls ==>
          (l in ls[..i] ==> l.source == Resolve(nodes, old(l.source)) && l.target == Resolve(nodes, old(l.target))) &&
          (l !in ls[..i] ==> l.source == old(l.source) && l.target == old(l.target))
      {
        var l := ls[i];
        l.source := Resolve(nodes, l.source);
        l.target := Resolve(nodes, l.target);
        assert ls[..i + 1] == ls[..i] + [l];
        i := i + 1;
      }
      assert ls[..i] == ls;
      links := ls;
    }

    /** `simulation.alpha(a)`. */
    method SetAlpha(a: real)
      modifies this
      ensures alpha == a && alphaTarget == old(alphaTarget)
      ensures nodes == old(nodes) && links == old(links)
    {
      alpha := a;
    }

    /** `simulation.alphaTarget(a)`. */
    method SetAlphaTarget(a: real)
      modifies this
      ensures alphaTarget == a && alpha == old(alpha)
      ensures nodes == old(nodes) && links == old(links)
    {
      alphaTarget := a;
    }
  }

  // ---------------------------------------------------------------------------
  // Reconciliation helpers used by render

  predicate DistinctIds(data: seq<NodeData>) {
    forall i, j :: 0 <= i < j < |data| ==> data[i].id != data[j].id
  }

  /** The properties of each node of `ns`. */
  ghost function AttrsOf(ns: seq<Node>): map<Node, map<string, Value>>
    reads ns
  {
    map n | n in ns :: n.attrs
  }

  /** `after` is `data` merged into the nodes of `before`, whose properties were
      `was`: position by position, the node with the datum's id, which is either
      the last node of `before` with that id, its properties overwritten by the
      datum's, or a node holding exactly the datum; a node of `before` whose id no
      datum has keeps its properties. */
  ghost predicate MergedFrom(before: seq<Node>, was: map<Node, map<string, Value>>, after: seq<Node>, data: seq<NodeData>)
    reads before, after
  {
    |after| == |data| &&
    (forall i :: 0 <= i < |data| ==> after[i].id == data[i].id) &&
    (forall i :: 0 <= i < |data| && data[i].id in IndexById(before) ==>
       after[i] == IndexById(before)[data[i].id] && after[i] in was &&
       after[i].attrs == was[after[i]] + data[i].attrs) &&
    (forall i :: 0 <= i < |data| && data[i].id !in IndexById(before) ==> after[i].attrs == data[i].attrs) &&
    (forall n :: n in before && n in was && n !in after ==> n.attrs == was[n])
  }

  /** `nodes.map(d => Object.assign(old.get(d.id) || {}, d))`, with `old` the map
      from id to node of `olds`. */
  method MergeNodes(olds: seq<Node>, data: seq<NodeData>) returns (merged: seq<Node>)
    requires DistinctIds(data)
    modifies set n | n in olds
    ensures MergedFrom(olds, old(AttrsOf(olds)), merged, data)
    ensures forall i :: 0 <= i < |data| && data[i].id !in IndexById(olds) ==> fresh(merged[i])
  {
    var byId := IndexById(olds);
    IndexByIdMembers(olds);
    merged := [];
    var i := 0;
    while i < |data|
      invariant 0 <= i <= |data|
      invariant |merged| == i
      invariant forall j :: 0 <= j < i ==> merged[j].id == data[j].id
      invariant forall j :: 0 <= j < i && data[j].id in byId ==>
        merged[j] == byId[data[j].id] && merged[j].attrs == old(merged[j].attrs) + data[j].attrs
      invariant forall j :: 0 <= j < i && data[j].id !in byId ==> fresh(merged[j]) && merged[j].attrs == data[j].attrs
      invariant forall n :: n in olds && n !in merged ==> n.attrs == old(n.attrs)
    {
      var d := data[i];
      var n: Node;
      if d.id in byId {
        n := byId[d.id];
        n.attrs := n.attrs + d.attrs;
      } else {
        n := new Node(d);
      }
      merged := merged + [n];
      i := i + 1;
    }
  }

  /** `links.map(d => Object.assign({}, d))`. */
  method CopyLinks(data: seq<LinkData>) returns (ls: seq<Link>)
    ensures |ls| == |data|
    ensures forall i :: 0 <= i < |data| ==>
      fresh(ls[i]) && ls[i].source == Id(data[i].source) && ls[i].target == Id(data[i].target)
  {
    ls := [];
    var i := 0;
    while i < |data|
      invariant 0 <= i <= |data| && |ls| == i
      invariant forall j :: 0 <= j < i ==>
        fresh(ls[j]) && ls[j].source == Id(data[j].source) && ls[j].target == Id(data[j].target)
    {
      var l := new Link(data[i]);
      ls := ls + [l];
      i := i + 1;
    }
  }

  // ---------------------------------------------------------------------------
  // The renderer

  /** Calls the renderer makes into its hosting component. */
  datatype HostCall =
    | ShowCourseTooltip(node: string)
    | UpdateCourseTooltipPosition(position: (real, real), client: (real, real))
    | HideCourseTooltip
    | NodeClick(id: string)

  class Graph {
    const simulation: Simulation
    /** The data bound to the live node circles (`this.node.data()`). */
    var nodes: seq<Node>
    /** The data bound to the live link lines (`this.link.data()`). */
    var links: seq<Link>
    var isDragging: bool
    /** The opacity level of each live node circle and link line, by DOM id. */
    var nodeOpacity: map<string, Opacity>
    var linkOpacity: map<string, Opacity>
    /** The node circles drawn with the hover outline, by DOM id. */
    var outlined: set<string>
    /** Every call made into the hosting component, oldest first. */
    var calls: seq<HostCall>

    /** The simulation holds exactly the rendered nodes and links, and the link
        force has resolved the ends of every rendered link. */
    ghost predicate Valid()
      reads this, simulation, links
    {
      simulation.nodes == nodes && simulation.links == links &&
      forall l :: l in links ==> l.source.Ref? && l.target.Ref?
    }

    constructor ()
      ensures Valid() && fresh(simulation)
      ensures nodes == [] && links == [] && !isDragging
      ensures nodeOpacity == map[] && linkOpacity == map[] && outlined == {} && calls == []
      ensures simulation.alpha == 1.0 && simulation.alphaTarget == 0.0
    {
      simulation := new Simulation();
      nodes, links := [], [];
      isDragging := false;
      nodeOpacity, linkOpacity, outlined := map[], map[], {};
      calls := [];
    }

    /** `render(nodes, links)`: reconcile the new data with the live elements, reset
        every opacity and restart the simulation on the merged arrays. Returns the
        node join and the link join (which elements enter, update and exit). */
    method Render(nodeData: seq<NodeData>, linkData: seq<LinkData>) returns (nodeJoin: Join, linkJoin: Join)
      requires Valid()
      requires DistinctIds(nodeData)
      requires forall d :: d in linkData ==> d.source in DataIds(nodeData) && d.target in DataIds(nodeData)
      modifies this, simulation, set n | n in nodes
      ensures Valid()
      // one node per datum, in order: the old node with that id, merged, or a fresh one
      ensures MergedFrom(old(nodes), old(AttrsOf(nodes)), nodes, nodeData)
      ensures forall i :: 0 <= i < |nodeData| && nodeData[i].id !in old(IndexById(nodes)) ==> fresh(nodes[i])
      // one fresh link per datum, in order, its ends resolved to the rendered nodes
      ensures |links| == |linkData|
      ensures forall i :: 0 <= i < |linkData| ==> fresh(links[i]) && Joins(links[i], nodes, linkData[i])
      ensures LinkKeys(links) == DataLinkKeys(linkData)
      // the joins
      ensures nodeJoin == JoinOf(old(NodeKeys(nodes)), DataIds(nodeData))
      ensures linkJoin == JoinOf(old(LinkKeys(links)), DataLinkKeys(linkData))
      // every element at the default opacity; the simulation restarted at full energy
      ensures nodeOpacity == AllDefault(NodeDomIds(nodes))
      ensures linkOpacity == AllDefault(LinkDomIds(linkData))
      ensures simulation.alpha == 1.0 && simulation.alphaTarget == old(simulation.alphaTarget)
      // only a circle that updates can keep its outline
      ensures outlined == old(outlined) * UpdatedDomIds(old(NodeKeys(nodes)), nodeData)
      ensures isDragging == old(isDragging) && calls == old(calls)
    {
      nodeJoin := JoinNodes(nodeData);
      linkJoin := JoinLinksAndRestart(nodeData, linkData);
    }

    /** The node half of render: every datum is merged into the old node with its
        id or into a fresh one, joined to the old circles by id, every circle at the
        default opacity. */
    method JoinNodes(nodeData: seq<NodeData>) returns (nodeJoin: Join)
      requires DistinctIds(nodeData)
      modifies this, set n | n in nodes
      ensures MergedFrom(old(nodes), old(AttrsOf(nodes)), nodes, nodeData)
      ensures NodeKeys(nodes) == DataIds(nodeData)
      ensures forall i :: 0 <= i < |nodeData| && nodeData[i].id !in old(IndexById(nodes)) ==> fresh(nodes[i])
      ensures nodeJoin == JoinOf(old(NodeKeys(nodes)), DataIds(nodeData))
      ensures nodeOpacity == AllDefault(NodeDomIds(nodes))
      ensures outlined == old(outlined) * UpdatedDomIds(old(NodeKeys(nodes)), nodeData)
      ensures links == old(links) && linkOpacity == old(linkOpacity)
      ensures isDragging == old(isDragging) && calls == old(calls)
    {
      nodeJoin := JoinByKey(NodeKeys(nodes), DataIds(nodeData));
      outlined := outlined * UpdatedDomIds(NodeKeys(nodes), nodeData);
      var merged := MergeNodes(nodes, nodeData);
      nodes := merged;
      nodeOpacity := AllDefault(NodeDomIds(merged));
    }

    /** The link half of render and the restart that ends it: the link selection
        takes fresh copies of the link data, joined to the old lines by key, every
        line at the default opacity; then the simulation restarts on the nodes and
        the copies, and its link force resolves their ends. */
    method JoinLinksAndRestart(nodeData: seq<NodeData>, linkData: seq<LinkData>) returns (linkJoin: Join)
      requires NodeKeys(nodes) == DataIds(nodeData)
      requires forall d :: d in linkData ==> d.source in DataIds(nodeData) && d.target in DataIds(nodeData)
      modifies this, simulation
      ensures Valid() && nodes == old(nodes)
      ensures |links| == |linkData|
      ensures forall i :: 0 <= i < |linkData| ==> fresh(links[i]) && Joins(links[i], nodes, linkData[i])
      ensures LinkKeys(links) == DataLinkKeys(linkData)
      ensures linkJoin == JoinOf(old(LinkKeys(links)), DataLinkKeys(linkData))
      ensures linkOpacity == AllDefault(LinkDomIds(linkData))
      ensures simulation.alpha == 1.0 && simulation.alphaTarget == old(simulation.alphaTarget)
      ensures nodeOpacity == old(nodeOpacity)
      ensures isDragging == old(isDragging) && outlined == old(outlined) && calls == old(calls)
    {
      linkJoin := JoinLinks(linkData);
      RestartOnLinks(nodeData, linkData);
    }

    /** The link join of render: fresh copies of the link data replace the bound
        links, joined to the old lines by key, every line at the default opacity. */
    method JoinLinks(linkData: seq<LinkData>) returns (linkJoin: Join)
      modifies this
      ensures |links| == |linkData|
      ensures forall i :: 0 <= i < |linkData| ==>
        fresh(links[i]) && links[i].source == Id(linkData[i].source) && links[i].target == Id(linkData[i].target)
      ensures linkJoin == JoinOf(old(LinkKeys(links)), DataLinkKeys(linkData))
      ensures linkOpacity == AllDefault(LinkDomIds(linkData))
      ensures nodes == old(nodes) && nodeOpacity == old(nodeOpacity)
      ensures isDragging == old(isDragging) && outlined == old(outlined) && calls == old(calls)
    {
      linkJoin := JoinByKey(LinkKeys(links), DataLinkKeys(linkData));
      var copies := CopyLinks(linkData);
      links := copies;
      linkOpacity := AllDefault(LinkDomIds(linkData));
    }

    /** The restart at the end of render, on the rendered nodes and the fresh link
        copies: afterwards each copy runs between the rendered nodes its datum names. */
    method RestartOnLinks(nodeData: seq<NodeData>, linkData: seq<LinkData>)
      requires NodeKeys(nodes) == DataIds(nodeData)
      requires forall d :: d in linkData ==> d.source in DataIds(nodeData) && d.target in DataIds(nodeData)
      requires |links| == |linkData|
      requires forall i :: 0 <= i < |linkData| ==>
        links[i].source == Id(linkData[i].source) && links[i].target == Id(linkData[i].target)
      modifies simulation, set l | l in links
      ensures Valid()
      ensures forall i :: 0 <= i < |linkData| ==> Joins(links[i], nodes, linkData[i])
      ensures LinkKeys(links) == DataLinkKeys(linkData)
      ensures simulation.alpha == 1.0 && simulation.alphaTarget == old(simulation.alphaTarget)
    {
      LinkEndsNamed(nodes, nodeData, linkData);
      CopiesResolvable(nodes, links, linkData);
      RestartSimulation(nodes, links);
      ResolvedCopies(nodes, links, linkData);
    }

    /** `restartSimulation(nodes, links)`. */
    method RestartSimulation(ns: seq<Node>, ls: seq<Link>)
      requires forall l :: l in ls ==> Resolvable(ns, l.source) && Resolvable(ns, l.target)
      modifies simulation, set l | l in ls
      ensures simulation.nodes == ns && simulation.links == ls
      ensures simulation.alpha == 1.0 && simulation.alphaTarget == old(simulation.alphaTarget)
      ensures forall i :: 0 <= i < |ls| ==>
        ls[i].source == Resolve(ns, old(ls[i].source)) && ls[i].target == Resolve(ns, old(ls[i].target))
    {
      simulation.SetNodes(ns);
      simulation.SetLinks(ls);
      simulation.SetAlpha(1.0);
      assert forall i :: 0 <= i < |ls| ==> ls[i] in ls;
    }

    /** `mouseenter(d)`: outside a drag, show the tooltip and, unless the node belongs
        to a highlighted neighbourhood, raise the node, its neighbours and the links
        between them and lower everything else. */
    method MouseEnter(d: Node)
      requires Valid()
      requires !isDragging && HoodKey(d.attrs) == NoHood ==>
        IsIdList(Get(d.attrs, "ingoing")) && IsIdList(Get(d.attrs, "outgoing"))
      modifies this
      ensures Valid() && nodes == old(nodes) && links == old(links) && isDragging == old(isDragging)
      ensures old(isDragging) ==> calls == old(calls)
      ensures !old(isDragging) ==> calls == old(calls) + [ShowCourseTooltip(d.id)]
      ensures old(isDragging) || HoodKey(d.attrs) != NoHood ==>
        nodeOpacity == old(nodeOpacity) && linkOpacity == old(linkOpacity) && outlined == old(outlined)
      ensures !old(isDragging) && HoodKey(d.attrs) == NoHood ==>
        var ingoing := ListIds(Get(d.attrs, "ingoing"));
        var outgoing := ListIds(Get(d.attrs, "outgoing"));
        nodeOpacity.Keys == old(nodeOpacity).Keys &&
        linkOpacity.Keys == old(linkOpacity).Keys &&
        (forall k :: k in nodeOpacity ==>
           nodeOpacity[k] == if k in HighNodeIds(d.id, ingoing, outgoing) then High else Low) &&
        (forall k :: k in linkOpacity ==>
           linkOpacity[k] == if k in HighLinkIds(d.id, ingoing, outgoing) then High else Low) &&
        // `select` outlines the circle only if one with that DOM id is rendered
        outlined == old(outlined) + ({NodeId(d.id)} * NodeDomIds(nodes))
    {
      if !isDragging {
        calls := calls + [ShowCourseTooltip(d.id)];
        if !Truthy(Get(d.attrs, "ingoingNeighbor")) && !Truthy(Get(d.attrs, "outgoingNeighbor")) {
          var ingoing := ListIds(Get(d.attrs, "ingoing"));
          var outgoing := ListIds(Get(d.attrs, "outgoing"));
          nodeOpacity := Lowered(nodeOpacity);
          linkOpacity := Lowered(linkOpacity);
          nodeOpacity := Raised(nodeOpacity, [NodeId(d.id)]);
          outlined := outlined + ({NodeId(d.id)} * NodeDomIds(nodes));
          if |ingoing| > 0 || |outgoing| > 0 {
            nodeOpacity := Raised(nodeOpacity, NeighbourNodeDomIds(ingoing, outgoing));
            linkOpacity := Raised(linkOpacity, NeighbourLinkDomIds(d.id, ingoing, outgoing));
          }
          HighlightSetsMatch(d.id, ingoing, outgoing);
        }
      }
    }

    /** `mousemove()`: outside a drag, forward the pointer position to the tooltip. */
    method MouseMove(position: (real, real), client: (real, real))
      requires Valid()
      modifies this
      ensures Valid() && nodes == old(nodes) && links == old(links) && isDragging == old(isDragging)
      ensures nodeOpacity == old(nodeOpacity) && linkOpacity == old(linkOpacity) && outlined == old(outlined)
      ensures calls == if old(isDragging) then old(calls)
                       else old(calls) + [UpdateCourseTooltipPosition(position, client)]
    {
      if !isDragging {
        calls := calls + [UpdateCourseTooltipPosition(position, client)];
      }
    }

    /** `mouseleave()`: outside a drag, hide the tooltip and put every node and link
        back at the default opacity, without the outline. */
    method MouseLeave()
      requires Valid()
      modifies this
      ensures Valid() && nodes == old(nodes) && links == old(links) && isDragging == old(isDragging)
      ensures old(isDragging) ==>
        calls == old(calls) && nodeOpacity == old(nodeOpacity) &&
        linkOpacity == old(linkOpacity) && outlined == old(outlined)
      ensures !old(isDragging) ==>
        calls == old(calls) + [HideCourseTooltip] && outlined == {} &&
        nodeOpacity.Keys == old(nodeOpacity).Keys && linkOpacity.Keys == old(linkOpacity).Keys &&
        (forall k :: k in nodeOpacity ==> nodeOpacity[k] == Default) &&
        (forall k :: k in linkOpacity ==> linkOpacity[k] == Default)
    {
      if !isDragging {
        calls := calls + [HideCourseTooltip];
        nodeOpacity := Restored(nodeOpacity);
        linkOpacity := Restored(linkOpacity);
        outlined := {};
      }
    }

    /** `dragstarted(d)`: raise the simulation's target energy unless another drag is
        active, hide the tooltip, pin the node where it is and enter the drag. */
    method DragStarted(d: Node, active: bool)
      requires Valid()
      modifies this, simulation, d
      ensures Valid() && nodes == old(nodes) && links == old(links) && isDragging
      ensures d.attrs == old(d.attrs)["fx" := Get(old(d.attrs), "x")]["fy" := Get(old(d.attrs), "y")]
      ensures simulation.alphaTarget == if active then old(simulation.alphaTarget) else 0.3
      ensures simulation.alpha == old(simulation.alpha)
      ensures calls == old(calls) + [HideCourseTooltip]
      ensures nodeOpacity == old(nodeOpacity) && linkOpacity == old(linkOpacity) && outlined == old(outlined)
    {
      if !active {
        simulation.SetAlphaTarget(0.3);
      }
      calls := calls + [HideCourseTooltip];
      d.attrs := d.attrs["fx" := Get(d.attrs, "x")];
      d.attrs := d.attrs["fy" := Get(d.attrs, "y")];
      isDragging := true;
    }

    /** `dragged(d)`: move the pin to the pointer. */
    method Dragged(d: Node, x: real, y: real)
      requires Valid()
      modifies d
      ensures Valid()
      ensures d.attrs == old(d.attrs)["fx" := Num(x)]["fy" := Num(y)]
    {
      d.attrs := d.attrs["fx" := Num(x)]["fy" := Num(y)];
    }

    /** `dragended(d)`: let the simulation settle unless another drag is active,
        release the pin and leave the drag. */
    method DragEnded(d: Node, active: bool)
      requires Valid()
      modifies this, simulation, d
      ensures Valid() && nodes == old(nodes) && links == old(links) && !isDragging
      ensures d.attrs == old(d.attrs)["fx" := Null]["fy" := Null]
      ensures simulation.alphaTarget == if active then old(simulation.alphaTarget) else 0.0
      ensures simulation.alpha == old(simulation.alpha)
      ensures calls == old(calls)
      ensures nodeOpacity == old(nodeOpacity) && linkOpacity == old(linkOpacity) && outlined == old(outlined)
    {
      if !active {
        simulation.SetAlphaTarget(0.0);
      }
      d.attrs := d.attrs["fx" := Null]["fy" := Null];
      isDragging := false;
    }

    /** `click(d)`: tell the host which node was clicked. */
    method Click(d: Node)
      requires Valid()
      modifies this
      ensures Valid() && nodes == old(nodes) && links == old(links) && isDragging == old(isDragging)
      ensures calls == old(calls) + [NodeClick(d.id)]
      ensures nodeOpacity == old(nodeOpacity) && linkOpacity == old(linkOpacity) && outlined == old(outlined)
    {
      calls := calls + [NodeClick(d.id)];
    }
  }

  /** Every end of a link datum names a rendered node. */
  lemma LinkEndsNamed(ns: seq<Node>, nodeData: seq<NodeData>, linkData: seq<LinkData>)
    requires NodeKeys(ns) == DataIds(nodeData)
    requires forall d :: d in linkData ==> d.source in DataIds(nodeData) && d.target in DataIds(nodeData)
    ensures forall d :: d in linkData ==> d.source in IndexById(ns) && d.target in IndexById(ns)
  {
    forall d | d in linkData ensures d.source in IndexById(ns) && d.target in IndexById(ns) {
      var p :| 0 <= p < |nodeData| && DataIds(nodeData)[p] == d.source;
      var q :| 0 <= q < |nodeData| && DataIds(nodeData)[q] == d.target;
      assert NodeKeys(ns)[p] == d.source && NodeKeys(ns)[q] == d.target;
    }
  }

  /** The link force can resolve every end of the copies of such data. */
  lemma CopiesResolvable(ns: seq<Node>, ls: seq<Link>, linkData: seq<LinkData>)
    requires forall d :: d in linkData ==> d.source in IndexById(ns) && d.target in IndexById(ns)
    requires |ls| == |linkData|
    requires forall i :: 0 <= i < |ls| ==> ls[i].source == Id(linkData[i].source) && ls[i].target == Id(linkData[i].target)
    ensures forall l :: l in ls ==> Resolvable(ns, l.source) && Resolvable(ns, l.target)
  {
    forall l | l in ls ensures Resolvable(ns, l.source) && Resolvable(ns, l.target) {
      var i :| 0 <= i < |ls| && ls[i] == l;
      assert linkData[i] in linkData;
    }
  }

  /** Once the link force has resolved the copies, each end is the rendered node
      whose id the datum named, and the copies keep the keys of their data. */
  lemma ResolvedCopies(ns: seq<Node>, ls: seq<Link>, linkData: seq<LinkData>)
    requires |ls| == |linkData|
    requires forall i :: 0 <= i < |ls| ==>
      Resolvable(ns, Id(linkData[i].source)) && ls[i].source == Resolve(ns, Id(linkData[i].source)) &&
      Resolvable(ns, Id(linkData[i].target)) && ls[i].target == Resolve(ns, Id(linkData[i].target))
    ensures forall l :: l in ls ==> l.source.Ref? && l.target.Ref?
    ensures forall i :: 0 <= i < |ls| ==> Joins(ls[i], ns, linkData[i])
    ensures LinkKeys(ls) == DataLinkKeys(linkData)
  {
  }

  /** The DOM ids that mouseenter raises are exactly the hovered node, its
      neighbours and the links between them. */
  lemma HighlightSetsMatch(id: string, ingoing: seq<string>, outgoing: seq<string>)
    ensures forall k :: k in NeighbourNodeDomIds(ingoing, outgoing) || k == NodeId(id) <==>
      k in HighNodeIds(id, ingoing, outgoing)
    ensures forall k :: k in NeighbourLinkDomIds(id, ingoing, outgoing) <==>
      k in HighLinkIds(id, ingoing, outgoing)
  {
    RaisedNodesAreHigh(id, ingoing, outgoing);
    HighNodesAreRaised(id, ingoing, outgoing);
    RaisedLinksAreHigh(id, ingoing, outgoing);
    HighLinksAreRaised(id, ingoing, outgoing);
  }

  lemma RaisedNodesAreHigh(id: string, ingoing: seq<string>, outgoing: seq<string>)
    ensures forall k :: k in NeighbourNodeDomIds(ingoing, outgoing) ==> k in HighNodeIds(id, ingoing, outgoing)
  {
    var raised := NeighbourNodeDomIds(ingoing, outgoing);
    forall k | k in raised ensures k in HighNodeIds(id, ingoing, outgoing) {
      var p :| 0 <= p < |raised| && raised[p] == k;
      if p < |ingoing| {
        assert ingoing[p] in ingoing && k == NodeId(ingoing[p]);
      } else {
        var q := p - |ingoing|;
        assert outgoing[q] in outgoing && k == NodeId(outgoing[q]);
      }
    }
  }

  lemma HighNodesAreRaised(id: string, ingoing: seq<string>, outgoing: seq<string>)
    ensures forall k :: k in HighNodeIds(id, ingoing, outgoing) && k != NodeId(id) ==>
      k in NeighbourNodeDomIds(ingoing, outgoing)
  {
    var raised := NeighbourNodeDomIds(ingoing, outgoing);
    forall i | i in ingoing ensures NodeId(i) in raised {
      var p :| 0 <= p < |ingoing| && ingoing[p] == i;
      assert raised[p] == NodeId(i);
    }
    forall o | o in outgoing ensures NodeId(o) in raised {
      var p :| 0 <= p < |outgoing| && outgoing[p] == o;
      assert raised[|ingoing| + p] == NodeId(o);
    }
  }

  lemma RaisedLinksAreHigh(id: string, ingoing: seq<string>, outgoing: seq<string>)
    ensures forall k :: k in NeighbourLinkDomIds(id, ingoing, outgoing) ==> k in HighLinkIds(id, ingoing, outgoing)
  {
    var raised := NeighbourLinkDomIds(id, ingoing, outgoing);
    forall k | k in raised ensures k in HighLinkIds(id, ingoing, outgoing) {
      var p :| 0 <= p < |raised| && raised[p] == k;
      if p < |ingoing| {
        assert ingoing[p] in ingoing && k == LinkIdOf(ingoing[p], id);
      } else {
        var q := p - |ingoing|;
        assert outgoing[q] in outgoing && k == LinkIdOf(id, outgoing[q]);
      }
    }
  }

  lemma HighLinksAreRaised(id: string, ingoing: seq<string>, outgoing: seq<string>)
    ensures forall k :: k in HighLinkIds(id, ingoing, outgoing) ==> k in NeighbourLinkDomIds(id, ingoing, outgoing)
  {
    var raised := NeighbourLinkDomIds(id, ingoing, outgoing);
    forall i | i in ingoing ensures LinkIdOf(i, id) in raised {
      var p :| 0 <= p < |ingoing| && ingoing[p] == i;
      assert raised[p] == LinkIdOf(i, id);
    }
    forall o | o in outgoing ensures LinkIdOf(id, o) in raised {
      var p :| 0 <= p < |outgoing| && outgoing[p] == o;
      assert raised[|ingoing| + p] == LinkIdOf(id, o);
    }
  }
}

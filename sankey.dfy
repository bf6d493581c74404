/** The Sankey diagram of a contribution result: the choice of the default
    selection, the cutoff guard, and the materialisation of the nodes and
    links of a Sankey graph that an external builder computed. */
module SankeyModel {
  import opened Common

  /** A process and one of its product (or waste) flows. */
  datatype ProcessProduct = ProcessProduct(process: int, flow: int)

  /** A provider entry of a Sankey node: the provider's product and share. */
  datatype Provider = Provider(product: ProcessProduct, share: real)

  /** A node of the Sankey graph the builder returns. */
  datatype SankeyNode = SankeyNode(product: ProcessProduct, share: real, providers: seq<Provider>)

  datatype Impact = Impact(name: Option<string>)
  datatype Flow = Flow(name: Option<string>)
  datatype FlowResult = FlowResult(flow: Option<Flow>)

  /** What a Sankey diagram can be drawn for. */
  datatype Selection = ImpactSelection(impact: Impact) | FlowSelection(flow: FlowResult)

  datatype Result = Result(hasImpactResults: bool, impacts: seq<Impact>, flows: seq<FlowResult>)

  /** Stream.min with a comparator: a left-to-right reduction that keeps the
      element seen first when the comparator does not put the next one
      strictly before it. */
  function MinBy<T>(s: seq<T>, leq: (T, T) -> bool): T
    requires |s| > 0
  {
    if |s| == 1 then s[0]
    else
      var m := MinBy(s[..|s| - 1], leq);
      if leq(m, s[|s| - 1]) then m else s[|s| - 1]
  }

  lemma {:induction false} MinByIsMember<T>(s: seq<T>, leq: (T, T) -> bool)
    requires |s| > 0
    ensures MinBy(s, leq) in s
  {
    if |s| > 1 {
      MinByIsMember(s[..|s| - 1], leq);
    }
  }

  /** The comparator is total and transitive on the elements of s (it may
      be neither elsewhere). */
  ghost predicate PreorderOn<T>(s: seq<T>, leq: (T, T) -> bool) {
    && (forall i, j :: 0 <= i < |s| && 0 <= j < |s| ==> leq(s[i], s[j]) || leq(s[j], s[i]))
    && (forall i, j, k :: 0 <= i < |s| && 0 <= j < |s| && 0 <= k < |s| && leq(s[i], s[j]) && leq(s[j], s[k])
          ==> leq(s[i], s[k]))
  }

  /** The reduction is a minimum when the comparator orders the elements
      of s, whatever it does on other values. */
  lemma {:induction false} MinByIsMinimalOn<T>(s: seq<T>, leq: (T, T) -> bool)
    requires |s| > 0 && PreorderOn(s, leq)
    ensures forall k :: 0 <= k < |s| ==> leq(MinBy(s, leq), s[k])
  {
    var n := |s| - 1;
    if n > 0 {
      var init := s[..n];
      assert PreorderOn(init, leq) by {
        assert forall i :: 0 <= i < n ==> init[i] == s[i];
      }
      MinByIsMinimalOn(init, leq);
      MinByIsMember(init, leq);
      var m := MinBy(init, leq);
      var im :| 0 <= im < n && init[im] == m;
      assert m == s[im];
      forall k | 0 <= k < |s| ensures leq(MinBy(s, leq), s[k]) {
        if k < n {
          assert init[k] == s[k];
          if !leq(m, s[n]) {
            assert leq(s[n], s[im]) && leq(s[im], s[k]);
          }
        }
      }
    }
  }

  /** Under a comparator that is a total preorder the reduction is a minimum. */
  lemma MinByIsMinimal<T(!new)>(s: seq<T>, leq: (T, T) -> bool)
    requires |s| > 0 && TotalPreorder(leq)
    ensures forall x :: x in s ==> leq(MinBy(s, leq), x)
  {
    MinByIsMinimalOn(s, leq);
  }

  /** The impact comparator of getDefaultSelection, over Strings.compare. */
  function ImpactOrder(compare: (Option<string>, Option<string>) -> int): (Impact, Impact) -> bool {
    (a: Impact, b: Impact) => compare(a.name, b.name) <= 0
  }

  /** The flow comparator: entries without a flow count as equal to all. */
  function FlowOrder(compare: (Option<string>, Option<string>) -> int): (FlowResult, FlowResult) -> bool {
    (a: FlowResult, b: FlowResult) =>
      a.flow.None? || b.flow.None? || compare(a.flow.value.name, b.flow.value.name) <= 0
  }

  /** getDefaultSelection: Stream.min over the impacts by name when there
      are impact results, otherwise Stream.min over the flows by flow name.
      DefaultImpactHasLeastName and DefaultFlowHasLeastName state what the
      choice is least among. */
  function DefaultSelection(result: Option<Result>, compare: (Option<string>, Option<string>) -> int)
    : (r: Option<Selection>)
    ensures result.None? ==> r.None?
    ensures r.Some? && r.value.ImpactSelection? ==>
      result.value.hasImpactResults && r.value.impact in result.value.impacts
    ensures r.Some? && r.value.FlowSelection? ==> r.value.flow in result.value.flows
    ensures result.Some? ==> (r.None? <==>
      (!result.value.hasImpactResults || |result.value.impacts| == 0) && |result.value.flows| == 0)
  {
    if result.None? then None
    else if result.value.hasImpactResults && |result.value.impacts| > 0 then
      MinByIsMember(result.value.impacts, ImpactOrder(compare));
      Some(ImpactSelection(MinBy(result.value.impacts, ImpactOrder(compare))))
    else if |result.value.flows| > 0 then
      MinByIsMember(result.value.flows, FlowOrder(compare));
      Some(FlowSelection(MinBy(result.value.flows, FlowOrder(compare))))
    else None
  }

  /** Strings.compare orders names totally and transitively. */
  ghost predicate OrdersTotally(compare: (Option<string>, Option<string>) -> int) {
    && (forall x, y :: compare(x, y) <= 0 || compare(y, x) <= 0)
    && (forall x, y, z :: compare(x, y) <= 0 && compare(y, z) <= 0 ==> compare(x, z) <= 0)
  }

  /** When Strings.compare orders names totally, the default impact has a
      name no greater than that of any impact of the result. */
  lemma DefaultImpactHasLeastName(result: Result, compare: (Option<string>, Option<string>) -> int)
    requires OrdersTotally(compare)
    requires result.hasImpactResults && |result.impacts| > 0
    ensures var r := DefaultSelection(Some(result), compare);
            r.Some? && r.value.ImpactSelection? &&
            forall i :: i in result.impacts ==> compare(r.value.impact.name, i.name) <= 0
  {
    var leq := ImpactOrder(compare);
    assert TotalPreorder(leq) by {
      forall a: Impact, b: Impact ensures leq(a, b) || leq(b, a) {
        assert compare(a.name, b.name) <= 0 || compare(b.name, a.name) <= 0;
      }
      forall a: Impact, b: Impact, c: Impact | leq(a, b) && leq(b, c) ensures leq(a, c) {
        assert compare(a.name, b.name) <= 0 && compare(b.name, c.name) <= 0;
      }
    }
    MinByIsMinimal(result.impacts, leq);
  }

  /** Without usable impact results, and when every flow result has a flow,
      the default flow has a name no greater than that of any flow result
      (the comparator orders those entries; it is not transitive through an
      entry without a flow). */
  lemma DefaultFlowHasLeastName(result: Result, compare: (Option<string>, Option<string>) -> int)
    requires OrdersTotally(compare)
    requires !(result.hasImpactResults && |result.impacts| > 0) && |result.flows| > 0
    requires forall k :: 0 <= k < |result.flows| ==> result.flows[k].flow.Some?
    ensures var r := DefaultSelection(Some(result), compare);
            r.Some? && r.value.FlowSelection? && r.value.flow.flow.Some? &&
            forall k :: 0 <= k < |result.flows| ==>
              compare(r.value.flow.flow.value.name, result.flows[k].flow.value.name) <= 0
  {
    var fs, leq := result.flows, FlowOrder(compare);
    FlowOrderOrdersFlows(fs, compare);
    MinByIsMinimalOn(fs, leq);
    MinByIsMember(fs, leq);
    var m := MinBy(fs, leq);
    assert m.flow.Some?;
    forall k | 0 <= k < |fs| ensures compare(m.flow.value.name, fs[k].flow.value.name) <= 0 {
      assert leq(m, fs[k]);
    }
  }

  /** Among flow results that all have a flow, the flow comparator is a
      total preorder. */
  lemma FlowOrderOrdersFlows(fs: seq<FlowResult>, compare: (Option<string>, Option<string>) -> int)
    requires OrdersTotally(compare)
    requires forall k :: 0 <= k < |fs| ==> fs[k].flow.Some?
    ensures PreorderOn(fs, FlowOrder(compare))
  {
    var leq := FlowOrder(compare);
    forall i, j | 0 <= i < |fs| && 0 <= j < |fs| ensures leq(fs[i], fs[j]) || leq(fs[j], fs[i]) {
      assert compare(fs[i].flow.value.name, fs[j].flow.value.name) <= 0
          || compare(fs[j].flow.value.name, fs[i].flow.value.name) <= 0;
    }
    forall i, j, k | 0 <= i < |fs| && 0 <= j < |fs| && 0 <= k < |fs| && leq(fs[i], fs[j]) && leq(fs[j], fs[k])
      ensures leq(fs[i], fs[k])
    {
      assert compare(fs[i].flow.value.name, fs[j].flow.value.name) <= 0;
      assert compare(fs[j].flow.value.name, fs[k].flow.value.name) <= 0;
    }
  }

  /** update's guard: a selection and a cutoff within [0, 1]. */
  predicate AcceptsUpdate(selection: Option<Selection>, cutoff: real) {
    selection.Some? && 0.0 <= cutoff <= 1.0
  }

  /** The products of the nodes a traversal visits. */
  function ProductsOf(nodes: seq<SankeyNode>): set<ProcessProduct> {
    set k | 0 <= k < |nodes| :: nodes[k].product
  }

  lemma ProductsSnoc(nodes: seq<SankeyNode>, i: int)
    requires 0 <= i < |nodes|
    ensures ProductsOf(nodes[..i + 1]) == ProductsOf(nodes[..i]) + {nodes[i].product}
  {
    assert forall k :: 0 <= k < i ==> nodes[..i + 1][k] == nodes[..i][k];
    assert nodes[..i + 1][i] == nodes[i];
  }

  class ProcessNode {
    const product: ProcessProduct
    const sankeyNode: SankeyNode

    constructor (n: SankeyNode)
      ensures product == n.product && sankeyNode == n
    {
      product := n.product;
      sankeyNode := n;
    }
  }

  /** A connection between two process nodes, carrying its share. */
  datatype Link = Link(source: ProcessNode, target: ProcessNode, share: real)

  /** The link from a provider to a node, when both have created nodes. */
  function PairLink(created: map<ProcessProduct, ProcessNode>, linkShare: (Provider, SankeyNode) -> real,
                    n: SankeyNode, p: Provider): Link
    requires n.product in created && p.product in created
  {
    Link(created[p.product], created[n.product], linkShare(p, n) * p.share)
  }

  function ProviderLinks(ps: seq<Provider>, n: SankeyNode, created: map<ProcessProduct, ProcessNode>,
                         linkShare: (Provider, SankeyNode) -> real): seq<Link>
    requires n.product in created
  {
    if ps == [] then []
    else
      var p := ps[|ps| - 1];
      ProviderLinks(ps[..|ps| - 1], n, created, linkShare)
      + (if p.product in created then [PairLink(created, linkShare, n, p)] else [])
  }

  lemma ProviderLinksSnoc(ps: seq<Provider>, j: int, n: SankeyNode,
      created: map<ProcessProduct, ProcessNode>, linkShare: (Provider, SankeyNode) -> real)
    requires 0 <= j < |ps| && n.product in created
    ensures ProviderLinks(ps[..j + 1], n, created, linkShare) ==
      ProviderLinks(ps[..j], n, created, linkShare)
      + (if ps[j].product in created then [PairLink(created, linkShare, n, ps[j])] else [])
  {
    assert ps[..j + 1][..j] == ps[..j];
    assert ps[..j + 1][j] == ps[j];
  }

  function NodeLinks(n: SankeyNode, created: map<ProcessProduct, ProcessNode>,
                     linkShare: (Provider, SankeyNode) -> real): seq<Link>
  {
    if n.product in created then ProviderLinks(n.providers, n, created, linkShare) else []
  }

  /** The links of a traversal, in the order updateModel creates them. */
  function LinksOf(nodes: seq<SankeyNode>, created: map<ProcessProduct, ProcessNode>,
                   linkShare: (Provider, SankeyNode) -> real): seq<Link>
  {
    if nodes == [] then []
    else LinksOf(nodes[..|nodes| - 1], created, linkShare) + NodeLinks(nodes[|nodes| - 1], created, linkShare)
  }

  lemma {:induction false} ProviderLinksMembers(ps: seq<Provider>, n: SankeyNode,
      created: map<ProcessProduct, ProcessNode>, linkShare: (Provider, SankeyNode) -> real, l: Link)
    requires n.product in created
    ensures l in ProviderLinks(ps, n, created, linkShare) <==>
      exists j :: 0 <= j < |ps| && ps[j].product in created && l == PairLink(created, linkShare, n, ps[j])
  {
    if ps != [] {
      var init := ps[..|ps| - 1];
      ProviderLinksMembers(init, n, created, linkShare, l);
      if exists j :: 0 <= j < |ps| && ps[j].product in created && l == PairLink(created, linkShare, n, ps[j]) {
        var j :| 0 <= j < |ps| && ps[j].product in created && l == PairLink(created, linkShare, n, ps[j]);
        if j < |ps| - 1 {
          assert init[j] == ps[j];
        }
      }
      if l in ProviderLinks(init, n, created, linkShare) {
        var j :| 0 <= j < |init| && init[j].product in created && l == PairLink(created, linkShare, n, init[j]);
        assert ps[j] == init[j];
      }
    }
  }

  /** Provider entry j of traversed node i yields link l. */
  ghost predicate CreatesLink(nodes: seq<SankeyNode>, created: map<ProcessProduct, ProcessNode>,
      linkShare: (Provider, SankeyNode) -> real, i: int, j: int, l: Link)
  {
    && 0 <= i < |nodes| && 0 <= j < |nodes[i].providers|
    && nodes[i].product in created && nodes[i].providers[j].product in created
    && l == PairLink(created, linkShare, nodes[i], nodes[i].providers[j])
  }

  /** A link is created exactly for each provider entry of a traversed node
      whose node and provider both have created nodes; its share is the
      link share times the provider's share. */
  lemma {:induction false} LinksOfMembers(nodes: seq<SankeyNode>, created: map<ProcessProduct, ProcessNode>,
      linkShare: (Provider, SankeyNode) -> real, l: Link)
    ensures l in LinksOf(nodes, created, linkShare) <==>
      exists i, j :: CreatesLink(nodes, created, linkShare, i, j, l)
  {
    if nodes != [] {
      var init := nodes[..|nodes| - 1];
      var last := nodes[|nodes| - 1];
      LinksOfMembers(init, created, linkShare, l);
      if last.product in created {
        ProviderLinksMembers(last.providers, last, created, linkShare, l);
        if l in NodeLinks(last, created, linkShare) {
          var j :| 0 <= j < |last.providers| && last.providers[j].product in created
            && l == PairLink(created, linkShare, last, last.providers[j]);
          assert CreatesLink(nodes, created, linkShare, |nodes| - 1, j, l);
        }
      }
      if exists i, j :: CreatesLink(nodes, created, linkShare, i, j, l) {
        var i, j :| CreatesLink(nodes, created, linkShare, i, j, l);
        if i < |nodes| - 1 {
          assert init[i] == nodes[i];
          assert CreatesLink(init, created, linkShare, i, j, l);
        }
      }
      if l in LinksOf(init, created, linkShare) {
        var i, j :| CreatesLink(init, created, linkShare, i, j, l);
        assert nodes[i] == init[i];
        assert CreatesLink(nodes, created, linkShare, i, j, l);
      }
    }
  }

  /** From position base on, the process nodes wrap the traversed nodes, in order. */
  ghost predicate Wraps(pns: seq<ProcessNode>, base: int, nodes: seq<SankeyNode>) {
    0 <= base && |pns| == base + |nodes| && forall k :: 0 <= k < |nodes| ==> pns[base + k].sankeyNode == nodes[k]
  }

  /** After updateModel for a traversal: the system node holds one process
      node per traversed node, in order; createdNodes maps each traversed
      product to one of them and keeps the older entries of other products;
      createdLinks holds exactly the links between them. */
  ghost predicate Materialised(pns: seq<ProcessNode>, created: map<ProcessProduct, ProcessNode>, links: seq<Link>,
                               nodes: seq<SankeyNode>, before: map<ProcessProduct, ProcessNode>,
                               linkShare: (Provider, SankeyNode) -> real)
  {
    && Wraps(pns, 0, nodes)
    && created.Keys == before.Keys + ProductsOf(nodes)
    && (forall p :: p in before && p !in ProductsOf(nodes) ==> created[p] == before[p])
    && (forall p :: p in ProductsOf(nodes) ==> created[p] in pns && created[p].product == p)
    && links == LinksOf(nodes, created, linkShare)
  }

  /** updateModel run on an empty system node materialises the traversal. */
  lemma MaterialisedFromEmpty(pns: seq<ProcessNode>, created: map<ProcessProduct, ProcessNode>, links: seq<Link>,
                              nodes: seq<SankeyNode>, before: map<ProcessProduct, ProcessNode>,
                              linkShare: (Provider, SankeyNode) -> real)
    requires Wraps(pns, 0, nodes)
    requires created.Keys == before.Keys + ProductsOf(nodes)
    requires forall p :: p in before && p !in ProductsOf(nodes) ==> created[p] == before[p]
    requires forall p :: p in ProductsOf(nodes) ==> created[p] in pns[0..] && created[p].product == p
    requires links == LinksOf(nodes, created, linkShare)
    ensures Materialised(pns, created, links, nodes, before, linkShare)
  {
    assert pns[0..] == pns;
  }

  /** The content of the viewer: the product-system node with its process nodes. */
  class SystemNode {
    const selection: Option<Selection>
    const cutoff: real
    var processNodes: seq<ProcessNode>
    var routed: bool

    constructor (selection: Option<Selection>, cutoff: real)
      ensures this.selection == selection && this.cutoff == cutoff
      ensures processNodes == [] && !routed
    {
      this.selection := selection;
      this.cutoff := cutoff;
      processNodes := [];
      routed := false;
    }
  }

  class SankeyDiagram {
    const result: Option<Result>
    var node: SystemNode?
    var contents: SystemNode?
    var routed: bool
    var createdLinks: seq<Link>
    var createdNodes: map<ProcessProduct, ProcessNode>

    constructor (result: Option<Result>)
      ensures this.result == result && node == null && contents == null
      ensures routed && createdLinks == [] && createdNodes == map[]
    {
      this.result := result;
      node, contents := null, null;
      routed := true;
      createdLinks, createdNodes := [], map[];
    }

    /** switchRouting: flips the routing flag and hands it to the node;
        flipping twice therefore restores it. */
    method SwitchRouting()
      modifies this`routed, node
      ensures routed == !old(routed)
      ensures node == old(node)
      ensures node != null ==> node.routed == routed && node.processNodes == old(node.processNodes)
    {
      routed := !routed;
      if node != null {
        node.routed := routed;
      }
    }

    /** The loop of updateModel that creates the links. */
    method BuildLinks(nodes: seq<SankeyNode>, created: map<ProcessProduct, ProcessNode>,
                      linkShare: (Provider, SankeyNode) -> real)
      returns (links: seq<Link>)
      ensures links == LinksOf(nodes, created, linkShare)
    {
      links := [];
      for i := 0 to |nodes|
        invariant links == LinksOf(nodes[..i], created, linkShare)
      {
        var n := nodes[i];
        assert nodes[..i + 1][..i] == nodes[..i];
        if n.product !in created {
          continue;
        }
        links := AddProviderLinks(links, n, created, linkShare);
      }
      assert nodes[..|nodes|] == nodes;
    }

    /** The inner loop of updateModel over the providers of one node whose
        product has a process node. */
    method AddProviderLinks(start: seq<Link>, n: SankeyNode, created: map<ProcessProduct, ProcessNode>,
                            linkShare: (Provider, SankeyNode) -> real)
      returns (links: seq<Link>)
      requires n.product in created
      ensures links == start + ProviderLinks(n.providers, n, created, linkShare)
    {
      links := start;
      var target := created[n.product];
      for j := 0 to |n.providers|
        invariant links == start + ProviderLinks(n.providers[..j], n, created, linkShare)
      {
        var provider := n.providers[j];
        ProviderLinksSnoc(n.providers, j, n, created, linkShare);
        if provider.product !in created {
          continue;
        }
        var source := created[provider.product];
        var share := linkShare(provider, n) * provider.share;
        assert Link(source, target, share) == PairLink(created, linkShare, n, provider);
        links := links + [Link(source, target, share)];
      }
      assert n.providers[..|n.providers|] == n.providers;
    }

    /** The loop of updateModel that creates one process node per
        traversed Sankey node, registers it under its product (replacing an
        older one) and appends it to the system node. */
    method CreateNodes(nodes: seq<SankeyNode>)
      requires node != null
      modifies this`createdNodes, node`processNodes
      ensures |node.processNodes| == |old(node.processNodes)| + |nodes|
      ensures node.processNodes[..|old(node.processNodes)|] == old(node.processNodes)
      ensures forall k :: |old(node.processNodes)| <= k < |node.processNodes| ==> fresh(node.processNodes[k])
      ensures Wraps(node.processNodes, |old(node.processNodes)|, nodes)
      ensures createdNodes.Keys == old(createdNodes).Keys + ProductsOf(nodes)
      ensures forall p :: p in old(createdNodes) && p !in ProductsOf(nodes) ==>
        createdNodes[p] == old(createdNodes)[p]
      ensures forall p :: p in ProductsOf(nodes) ==>
        createdNodes[p] in node.processNodes[|old(node.processNodes)|..] && createdNodes[p].product == p
    {
      var system := node;
      var base := |system.processNodes|;
      for i := 0 to |nodes|
        invariant |system.processNodes| == base + i
        invariant system.processNodes[..base] == old(system.processNodes)
        invariant forall k :: base <= k < base + i ==> fresh(system.processNodes[k])
        invariant forall k :: base <= k < base + i ==> system.processNodes[k].sankeyNode == nodes[k - base]
        invariant createdNodes.Keys == old(createdNodes).Keys + ProductsOf(nodes[..i])
        invariant forall p :: p in old(createdNodes) && p !in ProductsOf(nodes[..i]) ==>
          createdNodes[p] == old(createdNodes)[p]
        invariant forall p :: p in ProductsOf(nodes[..i]) ==>
          createdNodes[p] in system.processNodes[base..] && createdNodes[p].product == p
      {
        var pn := new ProcessNode(nodes[i]);
        ProductsSnoc(nodes, i);
        createdNodes := createdNodes[nodes[i].product := pn];
        ghost var before := system.processNodes;
        system.processNodes := system.processNodes + [pn];
        assert system.processNodes[base..] == before[base..] + [pn];
        assert forall k :: base <= k < base + i ==> system.processNodes[k] == before[k];
      }
      assert nodes[..|nodes|] == nodes;
    }

    /** updateModel: the process nodes, then the links between them. */
    method UpdateModel(nodes: seq<SankeyNode>, linkShare: (Provider, SankeyNode) -> real)
      requires node != null
      modifies this`createdNodes, this`createdLinks, node`processNodes
      ensures |node.processNodes| == |old(node.processNodes)| + |nodes|
      ensures node.processNodes[..|old(node.processNodes)|] == old(node.processNodes)
      ensures forall k :: |old(node.processNodes)| <= k < |node.processNodes| ==> fresh(node.processNodes[k])
      ensures Wraps(node.processNodes, |old(node.processNodes)|, nodes)
      ensures createdNodes.Keys == old(createdNodes).Keys + ProductsOf(nodes)
      ensures forall p :: p in old(createdNodes) && p !in ProductsOf(nodes) ==>
        createdNodes[p] == old(createdNodes)[p]
      ensures forall p :: p in ProductsOf(nodes) ==>
        createdNodes[p] in node.processNodes[|old(node.processNodes)|..] && createdNodes[p].product == p
      ensures createdLinks == LinksOf(nodes, createdNodes, linkShare)
    {
      CreateNodes(nodes);
      createdLinks := BuildLinks(nodes, createdNodes, linkShare);
    }

    /** The state updateModel leaves for a traversal, as Materialised states it. */
    ghost predicate Shows(nodes: seq<SankeyNode>, before: map<ProcessProduct, ProcessNode>,
                          linkShare: (Provider, SankeyNode) -> real)
      requires node != null
      reads this`node, this`createdNodes, this`createdLinks, node`processNodes
    {
      Materialised(node.processNodes, createdNodes, createdLinks, nodes, before, linkShare)
    }

    /** update: does nothing unless the guard holds; otherwise builds the
        Sankey graph (build stands for the external builder with the
        cutoff as minimum share), shows a new system node for it and
        materialises its nodes and links. */
    method Update(selection: Option<Selection>, cutoff: real,
                  build: (Selection, real) -> seq<SankeyNode>, linkShare: (Provider, SankeyNode) -> real)
      modifies this
      ensures !AcceptsUpdate(selection, cutoff) ==> unchanged(this)
      ensures AcceptsUpdate(selection, cutoff) ==>
        && fresh(node) && contents == node
        && node.selection == selection && node.cutoff == cutoff && node.routed == routed
        && routed == old(routed)
        && Shows(build(selection.value, cutoff), old(createdNodes), linkShare)
        && forall k :: 0 <= k < |node.processNodes| ==> fresh(node.processNodes[k])
    {
      if selection.None? || cutoff < 0.0 || cutoff > 1.0 {
        return;
      }
      var nodes := build(selection.value, cutoff);
      NewSystemNode(selection, cutoff, nodes, linkShare);
      contents := node;
      node.routed := routed;
    }

    /** The part of update's second callback before the viewer is touched:
        a new system node, createdLinks cleared, and updateModel. */
    method NewSystemNode(selection: Option<Selection>, cutoff: real, nodes: seq<SankeyNode>,
                         linkShare: (Provider, SankeyNode) -> real)
      modifies this`node, this`createdLinks, this`createdNodes
      ensures fresh(node) && node.selection == selection && node.cutoff == cutoff
      ensures Shows(nodes, old(createdNodes), linkShare)
      ensures forall k :: 0 <= k < |node.processNodes| ==> fresh(node.processNodes[k])
    {
      node := new SystemNode(selection, cutoff);
      createdLinks := [];
      UpdateModel(nodes, linkShare);
      MaterialisedFromEmpty(node.processNodes, createdNodes, createdLinks, nodes, old(createdNodes), linkShare);
    }

    /** initContent: without a default selection an empty system node with
        cutoff 0.1 is shown; otherwise update runs with cutoff 0.01. */
    method InitContent(compare: (Option<string>, Option<string>) -> int,
                       build: (Selection, real) -> seq<SankeyNode>, linkShare: (Provider, SankeyNode) -> real)
      modifies this
      ensures DefaultSelection(result, compare).None? ==>
        fresh(contents) && contents.selection.None? && contents.cutoff == 0.1 && contents.processNodes == []
        && node == old(node) && createdLinks == old(createdLinks) && createdNodes == old(createdNodes)
        && routed == old(routed)
      ensures DefaultSelection(result, compare).Some? ==>
        && fresh(node) && contents == node && node.selection == DefaultSelection(result, compare)
        && node.cutoff == 0.01 && node.routed == routed && routed == old(routed)
        && Shows(build(DefaultSelection(result, compare).value, 0.01), old(createdNodes), linkShare)
        && forall k :: 0 <= k < |node.processNodes| ==> fresh(node.processNodes[k])
    {
      var s := DefaultSelection(result, compare);
      if s.None? {
        contents := new SystemNode(None, 0.1);
        return;
      }
      Update(s, 0.01, build, linkShare);
    }
  }
}

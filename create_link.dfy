/** The command that connects two exchanges of a product-system graph with
    a process link: which end provides and which consumes depends on
    whether the linked flow is a product or a waste flow. */
module CreateLink {
  import opened Common

  datatype FlowType = ProductFlow | WasteFlow | ElementaryFlow

  /** What the command reads from a graph: the type of each flow it knows
      (Graph.flows) and the entities its editor holds as dirty. */
  datatype Graph = Graph(flowTypes: map<int, FlowType>, dirtyEntities: set<int>)

  /** The descriptor of a graph node: its database id and its model type. */
  datatype Descriptor = Descriptor(id: int, modelType: int)

  datatype Exchange = Exchange(id: int, internalId: int)

  /** One end of a drag: an exchange of a node of a graph. */
  datatype ExchangeItem = ExchangeItem(
    graph: Graph, node: Descriptor, entity: int, exchange: Exchange, connected: bool)

  /** The fields of a process link that the command writes. */
  datatype LinkFields = LinkFields(
    flowId: int, processId: int, exchangeId: int, providerId: int, providerType: int)

  /** A freshly created process link: every id is 0. */
  const NewLinkFields := LinkFields(0, 0, 0, 0, 0)

  /** getGraph: the target's graph, else the source's, else none. */
  function GraphOf(source: Option<ExchangeItem>, target: Option<ExchangeItem>): (g: Option<Graph>)
    ensures g.Some? <==> source.Some? || target.Some?
    ensures target.Some? ==> g == Some(target.value.graph)
    ensures target.None? && source.Some? ==> g == Some(source.value.graph)
  {
    if target.Some? then Some(target.value.graph)
    else if source.Some? then Some(source.value.graph)
    else None
  }

  /** Graph.flows.type: unknown flows have no type. */
  function FlowTypeOf(g: Graph, flowId: int): Option<FlowType> {
    if flowId in g.flowTypes then Some(g.flowTypes[flowId]) else None
  }

  /** The exchange id written to a link: the internal id while the owning
      entity is dirty in the editor, the database id otherwise. */
  function ExchangeIdOf(item: ExchangeItem, g: Graph): int {
    if item.entity in g.dirtyEntities then item.exchange.internalId else item.exchange.id
  }

  /** The part of getProcessLink that reads the target end. */
  function TargetPart(f: LinkFields, t: Option<FlowType>, target: Option<ExchangeItem>, g: Graph,
                      providerTypeOf: int -> int): LinkFields
  {
    if target.None? then f
    else if t == Some(ProductFlow) then
      f.(processId := target.value.node.id, exchangeId := ExchangeIdOf(target.value, g))
    else if t == Some(WasteFlow) then
      f.(providerId := target.value.node.id, providerType := providerTypeOf(target.value.node.modelType))
    else f
  }

  /** The part of getProcessLink that reads the source end. */
  function SourcePart(f: LinkFields, t: Option<FlowType>, source: Option<ExchangeItem>, g: Graph,
                      providerTypeOf: int -> int): LinkFields
  {
    if source.None? then f
    else if t == Some(ProductFlow) then
      f.(providerId := source.value.node.id, providerType := providerTypeOf(source.value.node.modelType))
    else if t == Some(WasteFlow) then
      f.(processId := source.value.node.id, exchangeId := ExchangeIdOf(source.value, g))
    else f
  }

  /** The link fields getProcessLink leaves behind, given the fields the
      reused (or new) link had; providerTypeOf stands for ProviderType.of. */
  function LinkRule(f: LinkFields, flowId: int, source: Option<ExchangeItem>, target: Option<ExchangeItem>,
                    providerTypeOf: int -> int): LinkFields
  {
    var withFlow := f.(flowId := flowId);
    var g := GraphOf(source, target);
    if g.None? then withFlow
    else
      var t := FlowTypeOf(g.value, flowId);
      SourcePart(TargetPart(withFlow, t, target, g.value, providerTypeOf), t, source, g.value, providerTypeOf)
  }

  /** The provider end of a link: the output of a product, the input of a waste. */
  function ProviderEnd(t: FlowType, source: ExchangeItem, target: ExchangeItem): ExchangeItem {
    if t == ProductFlow then source else target
  }

  /** The consuming (or waste-treating) end: the other one. */
  function ConsumerEnd(t: FlowType, source: ExchangeItem, target: ExchangeItem): ExchangeItem {
    if t == ProductFlow then target else source
  }

  /** For a product or waste flow with both ends set, the link joins the
      provider end to the exchange of the consumer end. */
  lemma LinkRoles(f: LinkFields, flowId: int, source: ExchangeItem, target: ExchangeItem,
                  providerTypeOf: int -> int)
    requires FlowTypeOf(target.graph, flowId) in {Some(ProductFlow), Some(WasteFlow)}
    ensures var r := LinkRule(f, flowId, Some(source), Some(target), providerTypeOf);
            var t := FlowTypeOf(target.graph, flowId).value;
            && r.flowId == flowId
            && r.providerId == ProviderEnd(t, source, target).node.id
            && r.providerType == providerTypeOf(ProviderEnd(t, source, target).node.modelType)
            && r.processId == ConsumerEnd(t, source, target).node.id
            && r.exchangeId == ExchangeIdOf(ConsumerEnd(t, source, target), target.graph)
  {
  }

  /** Without a graph, or for a flow that is neither a product nor a waste
      flow, only the flow id is written. */
  lemma OnlyFlowId(f: LinkFields, flowId: int, source: Option<ExchangeItem>, target: Option<ExchangeItem>,
                   providerTypeOf: int -> int)
    requires GraphOf(source, target).None? ||
             FlowTypeOf(GraphOf(source, target).value, flowId) !in {Some(ProductFlow), Some(WasteFlow)}
    ensures LinkRule(f, flowId, source, target, providerTypeOf) == f.(flowId := flowId)
  {
  }

  /** An end that is not set leaves the fields it would write as they were:
      with only the target set, a product link keeps its provider and a
      waste link its process and exchange. */
  lemma MissingSourceKeeps(f: LinkFields, flowId: int, target: ExchangeItem, providerTypeOf: int -> int)
    ensures var r := LinkRule(f, flowId, None, Some(target), providerTypeOf);
            var t := FlowTypeOf(target.graph, flowId);
            && (t == Some(ProductFlow) ==> r.providerId == f.providerId && r.providerType == f.providerType)
            && (t == Some(WasteFlow) ==> r.processId == f.processId && r.exchangeId == f.exchangeId)
  {
  }

  class ProcessLink {
    var flowId: int
    var processId: int
    var exchangeId: int
    var providerId: int
    var providerType: int

    constructor ()
      ensures Fields() == NewLinkFields
    {
      flowId, processId, exchangeId, providerId, providerType := 0, 0, 0, 0, 0;
    }

    function Fields(): LinkFields
      reads this
    {
      LinkFields(flowId, processId, exchangeId, providerId, providerType)
    }
  }

  class CreateLinkCommand {
    const flowId: int
    var source: Option<ExchangeItem>
    var target: Option<ExchangeItem>
    var startedFromSource: bool
    var processLink: ProcessLink?

    constructor (flowId: int)
      ensures this.flowId == flowId && source.None? && target.None?
      ensures !startedFromSource && processLink == null
    {
      this.flowId := flowId;
      source, target := None, None;
      startedFromSource := false;
      processLink := null;
    }

    /** canExecute. */
    predicate CanExecute()
      reads this
      ensures CanExecute() <==> source.Some? && target.Some?
    {
      source.Some? && target.Some?
    }

    /** getProcessLink: reuses the command's link, always writes the flow id
        and then the fields that LinkRule describes. */
    method GetProcessLink(providerTypeOf: int -> int) returns (link: ProcessLink)
      modifies this`processLink, processLink
      ensures link == processLink
      ensures old(processLink) != null ==> link == old(processLink)
      ensures old(processLink) == null ==> fresh(link)
      ensures link.Fields() == LinkRule(
        if old(processLink) != null then old(processLink.Fields()) else NewLinkFields,
        flowId, source, target, providerTypeOf)
    {
      if processLink == null {
        processLink := new ProcessLink();
      }
      link := processLink;
      link.flowId := flowId;
      var graph := GraphOf(source, target);
      if graph.None? {
        return;
      }
      var t := FlowTypeOf(graph.value, flowId);
      if target.Some? {
        var descriptor := target.value.node;
        if t == Some(ProductFlow) {
          link.processId := descriptor.id;
          link.exchangeId := ExchangeIdOf(target.value, graph.value);
        } else if t == Some(WasteFlow) {
          link.providerId := descriptor.id;
          link.providerType := providerTypeOf(descriptor.modelType);
        }
      }
      if source.Some? {
        var descriptor := source.value.node;
        if t == Some(ProductFlow) {
          link.providerId := descriptor.id;
          link.providerType := providerTypeOf(descriptor.modelType);
        } else if t == Some(WasteFlow) {
          link.processId := descriptor.id;
          link.exchangeId := ExchangeIdOf(source.value, graph.value);
        }
      }
    }

    /** completeWith: from a source drag the item becomes the target, even
        none; otherwise none clears the source, an unconnected exchange
        becomes the source and a connected one changes nothing. */
    method CompleteWith(item: Option<ExchangeItem>)
      modifies this`source, this`target
      ensures startedFromSource ==> target == item && source == old(source)
      ensures !startedFromSource ==> target == old(target)
      ensures !startedFromSource && item.None? ==> source.None?
      ensures !startedFromSource && item.Some? && !item.value.connected ==> source == item
      ensures !startedFromSource && item.Some? && item.value.connected ==> source == old(source)
    {
      if startedFromSource {
        target := item;
        return;
      }
      if item.None? {
        source := None;
      } else if !item.value.connected {
        source := item;
      }
    }
  }
}

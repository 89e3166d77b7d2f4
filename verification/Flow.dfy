/** Flow documents: which ones `validate_flow` accepts, and what a folder of accepted flows guarantees. */
module Flow {
  import opened Wrappers
  import opened Text
  import opened Distinct
  import Json

  datatype RouteKind = FollowGraph | ToNode | ToNodes | ReplyToOrigin | EndFlow

  datatype NodeRoute = NodeRoute(route: RouteKind, to: Option<seq<string>>)

  datatype FlowNode = FlowNode(id: string, kind: string, route: Option<NodeRoute>, metadata: Option<Json.Value>)

  datatype FlowDocument = FlowDocument(
    id: string,
    flowType: Option<string>,
    schemaVersion: Option<string>,
    schemaRef: Option<string>,
    schema: Option<Json.Value>,
    nodes: seq<FlowNode>)

  datatype FlowType = Messaging | Events | Worker | DigitalWorker | Unknown

  datatype NodeFault =
    | EmptyId | EmptyKind | DuplicateId | MetadataNotObject | MissingField(field: string)
    | MissingTarget | UnknownTarget(target: string)

  datatype FlowFault =
    | UnknownSchemaVersion(found: string)
    | EmptyFlowId
    | MissingSchema
    | NoNodes
    | BadNode(index: nat, fault: NodeFault)
    | ForbiddenKind(index: nat)
    | NoHandoff
    | NoWorkerId

  // ----- the pure parts of the validator -----

  function SchemaHint(flow: FlowDocument): Option<string> {
    var hint := if flow.schemaVersion.Some? then flow.schemaVersion else flow.schemaRef;
    if hint.None? then None else Some(AsciiLower(Trim(hint.value)))
  }

  predicate KnownSchema(flow: FlowDocument) {
    var hint := SchemaHint(flow);
    hint.None? || hint.value == "1" || hint.value == "v1" || hint.value == "flow.v1"
  }

  function DetectFlowType(flow: FlowDocument): FlowType {
    if flow.flowType.None? then Unknown
    else
      var t := AsciiLower(Trim(flow.flowType.value));
      if t == "messaging" then Messaging
      else if t == "events" then Events
      else if t == "worker" then Worker
      else if t == "digital_worker" || t == "digital-worker" then DigitalWorker
      else Unknown
  }

  predicate StartsWith(s: string, prefix: string) {
    prefix <= s
  }

  /** A member of a JSON object that is a non-blank string. */
  predicate HasText(v: Json.Value, field: string) {
    v.Object? && field in v.fields && v.fields[field].Str? && !Blank(v.fields[field].text)
  }

  predicate IsHandoff(node: FlowNode) {
    node.kind == "worker.handoff" || node.kind == "worker.invoke"
  }

  predicate HasWorkerId(node: FlowNode) {
    node.metadata.Some? && HasText(node.metadata.value, "worker_id")
  }

  function IdList(nodes: seq<FlowNode>): seq<string> {
    seq(|nodes|, i requires 0 <= i < |nodes| => nodes[i].id)
  }

  function NodeIds(nodes: seq<FlowNode>): set<string> {
    Elements(IdList(nodes))
  }

  /** The targets of a route that must exist: the first entry for `to_node`, all of them for `to_nodes`. */
  function CheckedTargets(route: NodeRoute): seq<string> {
    if route.route.ToNode? && route.to.Some? && route.to.value != [] then [route.to.value[0]]
    else if route.route.ToNodes? && route.to.Some? then route.to.value
    else []
  }

  /** `validate_routing` */
  method ValidateRouting(flow: FlowDocument, routing: NodeRoute) returns (fault: Option<NodeFault>)
    ensures fault.None? <==> GoodRoute(NodeIds(flow.nodes), routing)
    ensures fault.Some? ==> RouteFaultHolds(NodeIds(flow.nodes), routing, fault.value)
  {
    var idSet := NodeIds(flow.nodes);
    match routing.route {
      case ToNode =>
        if routing.to.None? || routing.to.value == [] {
          return Some(MissingTarget);
        }
        if routing.to.value[0] !in idSet {
          return Some(UnknownTarget(routing.to.value[0]));
        }
        return None;
      case ToNodes =>
        if routing.to.None? {
          return Some(MissingTarget);
        }
        for i := 0 to |routing.to.value|
          invariant forall j | 0 <= j < i :: routing.to.value[j] in idSet
        {
          if routing.to.value[i] !in idSet {
            return Some(UnknownTarget(routing.to.value[i]));
          }
        }
        return None;
      case _ => return None;
    }
  }

  // ----- which flows are well formed -----

  predicate GoodRoute(ids: set<string>, route: NodeRoute) {
    && (route.route.ToNode? ==> route.to.Some? && route.to.value != [])
    && (route.route.ToNodes? ==> route.to.Some?)
    && (forall target | target in CheckedTargets(route) :: target in ids)
  }

  predicate RouteFaultHolds(ids: set<string>, route: NodeRoute, fault: NodeFault) {
    match fault
    case MissingTarget =>
      (route.route.ToNodes? && route.to.None?) || (route.route.ToNode? && (route.to.None? || route.to.value == []))
    case UnknownTarget(target) =>
      exists i | 0 <= i < |CheckedTargets(route)| ::
        && CheckedTargets(route)[i] == target && target !in ids
        && forall j | 0 <= j < i :: CheckedTargets(route)[j] in ids
    case _ => false
  }

  /** Metadata, where there is any, is an object, and for an `mcp.` node names a tool and an action. */
  predicate GoodMetadata(node: FlowNode) {
    node.metadata.Some? ==>
      && node.metadata.value.Object?
      && (StartsWith(node.kind, "mcp.") ==>
            HasText(node.metadata.value, "tool") && HasText(node.metadata.value, "action"))
  }

  /** What is asked of a node on its own, given the ids of the flow. */
  predicate GoodNode(ids: set<string>, node: FlowNode) {
    && !Blank(node.id) && !Blank(node.kind)
    && GoodMetadata(node)
    && (node.route.Some? ==> GoodRoute(ids, node.route.value))
  }

  predicate GoodType(flow: FlowDocument) {
    match DetectFlowType(flow)
    case Unknown => true
    case Messaging => forall n | n in flow.nodes :: !StartsWith(n.kind, "event.")
    case Events => forall n | n in flow.nodes :: StartsWith(n.kind, "event.")
    case Worker => exists n | n in flow.nodes :: IsHandoff(n)
    case DigitalWorker => (exists n | n in flow.nodes :: IsHandoff(n)) && (exists n | n in flow.nodes :: HasWorkerId(n))
  }

  predicate WellFormed(flow: FlowDocument, requireSchema: bool) {
    && KnownSchema(flow)
    && !Blank(flow.id)
    && (requireSchema ==> flow.schema.Some?)
    && flow.nodes != []
    && AllDifferent(IdList(flow.nodes))
    && (forall n | n in flow.nodes :: GoodNode(NodeIds(flow.nodes), n))
    && GoodType(flow)
  }

  /** The node at `i` passes: good on its own, and its id is new. */
  predicate NodePasses(flow: FlowDocument, i: nat)
    requires i < |flow.nodes|
  {
    && GoodNode(NodeIds(flow.nodes), flow.nodes[i])
    && forall j | 0 <= j < i :: flow.nodes[j].id != flow.nodes[i].id
  }

  /** The node has an id and a kind, and the id is new. */
  predicate Named(flow: FlowDocument, i: nat)
    requires i < |flow.nodes|
  {
    && !Blank(flow.nodes[i].id) && !Blank(flow.nodes[i].kind)
    && forall j | 0 <= j < i :: flow.nodes[j].id != flow.nodes[i].id
  }

  /** The fault that a rejection names is one the node has, and the first in the order of the checks. */
  predicate NodeFaultHolds(flow: FlowDocument, i: nat, fault: NodeFault)
    requires i < |flow.nodes|
  {
    var node := flow.nodes[i];
    match fault
    case EmptyId => Blank(node.id)
    case EmptyKind => !Blank(node.id) && Blank(node.kind)
    case DuplicateId => !Blank(node.id) && !Blank(node.kind) && exists j | 0 <= j < i :: flow.nodes[j].id == node.id
    case MetadataNotObject => Named(flow, i) && node.metadata.Some? && !node.metadata.value.Object?
    case MissingField(field) =>
      && Named(flow, i) && node.metadata.Some? && node.metadata.value.Object? && StartsWith(node.kind, "mcp.")
      && !HasText(node.metadata.value, field)
      && (field == "tool" || (field == "action" && HasText(node.metadata.value, "tool")))
    case _ =>
      && Named(flow, i) && GoodMetadata(node)
      && node.route.Some? && RouteFaultHolds(NodeIds(flow.nodes), node.route.value, fault)
  }

  /** All nodes pass, as they do before the type of the flow is looked at. */
  predicate NodesPass(flow: FlowDocument) {
    flow.nodes != [] && forall i | 0 <= i < |flow.nodes| :: NodePasses(flow, i)
  }

  /** The fault that a rejection names holds, and the checks before it do not fail. */
  predicate FaultHolds(flow: FlowDocument, requireSchema: bool, fault: FlowFault) {
    match fault
    case UnknownSchemaVersion(found) => SchemaHint(flow) == Some(found) && !KnownSchema(flow)
    case EmptyFlowId => KnownSchema(flow) && Blank(flow.id)
    case MissingSchema => KnownSchema(flow) && !Blank(flow.id) && requireSchema && flow.schema.None?
    case NoNodes => HeaderPasses(flow, requireSchema) && flow.nodes == []
    case BadNode(i, nodeFault) =>
      && HeaderPasses(flow, requireSchema) && i < |flow.nodes| && NodeFaultHolds(flow, i, nodeFault)
      && (forall j | 0 <= j < i :: NodePasses(flow, j))
    case _ => HeaderPasses(flow, requireSchema) && NodesPass(flow) && TypeFaultHolds(flow, fault)
  }

  predicate HeaderPasses(flow: FlowDocument, requireSchema: bool) {
    KnownSchema(flow) && !Blank(flow.id) && (requireSchema ==> flow.schema.Some?)
  }

  predicate TypeFaultHolds(flow: FlowDocument, fault: FlowFault) {
    match fault
    case ForbiddenKind(i) =>
      && i < |flow.nodes| && (DetectFlowType(flow).Messaging? || DetectFlowType(flow).Events?)
      && var ofEvents := DetectFlowType(flow).Events?;
         && StartsWith(flow.nodes[i].kind, "event.") != ofEvents
         && forall j | 0 <= j < i :: StartsWith(flow.nodes[j].kind, "event.") == ofEvents
    case NoHandoff =>
      && (DetectFlowType(flow).Worker? || DetectFlowType(flow).DigitalWorker?)
      && forall n | n in flow.nodes :: !IsHandoff(n)
    case NoWorkerId =>
      && DetectFlowType(flow).DigitalWorker? && (exists n | n in flow.nodes :: IsHandoff(n))
      && forall n | n in flow.nodes :: !HasWorkerId(n)
    case _ => false
  }

  // ----- the validator -----

  method ValidateFlowType(flow: FlowDocument) returns (fault: Option<FlowFault>)
    ensures fault.None? <==> GoodType(flow)
    ensures fault.Some? ==> TypeFaultHolds(flow, fault.value)
  {
    match DetectFlowType(flow) {
      case Unknown => return None;
      case Messaging =>
        for i := 0 to |flow.nodes|
          invariant forall j | 0 <= j < i :: !StartsWith(flow.nodes[j].kind, "event.")
        {
          if StartsWith(flow.nodes[i].kind, "event.") {
            return Some(ForbiddenKind(i));
          }
        }
        return None;
      case Events =>
        for i := 0 to |flow.nodes|
          invariant forall j | 0 <= j < i :: StartsWith(flow.nodes[j].kind, "event.")
        {
          if !StartsWith(flow.nodes[i].kind, "event.") {
            return Some(ForbiddenKind(i));
          }
        }
        return None;
      case Worker =>
        if !exists n | n in flow.nodes :: IsHandoff(n) {
          return Some(NoHandoff);
        }
        return None;
      case DigitalWorker =>
        if !exists n | n in flow.nodes :: IsHandoff(n) {
          return Some(NoHandoff);
        }
        if !exists n | n in flow.nodes :: HasWorkerId(n) {
          return Some(NoWorkerId);
        }
        return None;
    }
  }

  lemma PassedIsWellFormed(flow: FlowDocument)
    ensures NodesPass(flow) <==>
              && flow.nodes != [] && AllDifferent(IdList(flow.nodes))
              && forall n | n in flow.nodes :: GoodNode(NodeIds(flow.nodes), n)
  {
    if NodesPass(flow) {
      forall i, j | 0 <= i < j < |flow.nodes| ensures IdList(flow.nodes)[i] != IdList(flow.nodes)[j] {
        assert NodePasses(flow, j);
      }
      forall n | n in flow.nodes ensures GoodNode(NodeIds(flow.nodes), n) {
        var i :| 0 <= i < |flow.nodes| && flow.nodes[i] == n;
        assert NodePasses(flow, i);
      }
    } else if AllDifferent(IdList(flow.nodes)) {
      forall i, j | 0 <= i < j < |flow.nodes| ensures flow.nodes[i].id != flow.nodes[j].id {
        assert IdList(flow.nodes)[i] != IdList(flow.nodes)[j];
      }
    }
  }

  /** The loop over the nodes of a flow. */
  method ValidateNodes(flow: FlowDocument) returns (fault: Option<FlowFault>)
    ensures fault.None? <==> forall i | 0 <= i < |flow.nodes| :: NodePasses(flow, i)
    ensures fault.Some? ==>
              && fault.value.BadNode? && fault.value.index < |flow.nodes|
              && NodeFaultHolds(flow, fault.value.index, fault.value.fault)
              && (forall j | 0 <= j < fault.value.index :: NodePasses(flow, j))
  {
    var seenIds: set<string> := {};
    for i := 0 to |flow.nodes|
      invariant forall id :: id in seenIds <==> exists j | 0 <= j < i :: flow.nodes[j].id == id
      invariant forall j | 0 <= j < i :: NodePasses(flow, j)
    {
      ghost var passes := NodePasses(flow, i);
      var node := flow.nodes[i];
      if Blank(node.id) {
        return Some(BadNode(i, EmptyId));
      }
      if Blank(node.kind) {
        return Some(BadNode(i, EmptyKind));
      }
      if node.id in seenIds {
        return Some(BadNode(i, DuplicateId));
      }
      seenIds := seenIds + {node.id};
      if node.metadata.Some? {
        if !node.metadata.value.Object? {
          return Some(BadNode(i, MetadataNotObject));
        }
        if StartsWith(node.kind, "mcp.") {
          if !HasText(node.metadata.value, "tool") {
            return Some(BadNode(i, MissingField("tool")));
          }
          if !HasText(node.metadata.value, "action") {
            return Some(BadNode(i, MissingField("action")));
          }
        }
      }
      if node.route.Some? {
        var fault := ValidateRouting(flow, node.route.value);
        if fault.Some? {
          return Some(BadNode(i, fault.value));
        }
      }
      assert NodePasses(flow, i);
    }
    return None;
  }

  /**
   Accepts exactly the well-formed flows. A rejection names a fault the flow has, and where it is the fault
   of a node, it is the first node in order that does not pass.
   */
  method ValidateFlow(flow: FlowDocument, requireSchema: bool) returns (r: Result<(), FlowFault>)
    ensures r.Ok? <==> WellFormed(flow, requireSchema)
    ensures r.Err? ==> FaultHolds(flow, requireSchema, r.error)
  {
    PassedIsWellFormed(flow);
    if !KnownSchema(flow) {
      return Err(UnknownSchemaVersion(SchemaHint(flow).value));
    }
    if Blank(flow.id) {
      return Err(EmptyFlowId);
    }
    if requireSchema && flow.schema.None? {
      return Err(MissingSchema);
    }
    if flow.nodes == [] {
      return Err(NoNodes);
    }
    var nodeFault := ValidateNodes(flow);
    if nodeFault.Some? {
      return Err(nodeFault.value);
    }
    var typeFault := ValidateFlowType(flow);
    if typeFault.Some? {
      return Err(typeFault.value);
    }
    return Ok(());
  }

  // ----- order does not matter -----

  lemma IdOfSomeNode(nodes: seq<FlowNode>, id: string)
    ensures id in NodeIds(nodes) <==> exists n | n in nodes :: n.id == id
  {
    if id in IdList(nodes) {
      var i :| 0 <= i < |nodes| && IdList(nodes)[i] == id;
      assert nodes[i] in nodes;
    }
    if n :| n in nodes && n.id == id {
      var i :| 0 <= i < |nodes| && nodes[i] == n;
      assert IdList(nodes)[i] == id;
    }
  }

  lemma SameNodes(nodes: seq<FlowNode>, nodes': seq<FlowNode>)
    requires multiset(nodes) == multiset(nodes')
    ensures |nodes| == |nodes'| && (forall n :: n in nodes <==> n in nodes')
    ensures NodeIds(nodes) == NodeIds(nodes')
  {
    assert |nodes| == |multiset(nodes)| && |nodes'| == |multiset(nodes')|;
    forall n ensures n in nodes <==> n in nodes' {
      assert n in multiset(nodes) <==> n in multiset(nodes');
    }
    forall id ensures id in NodeIds(nodes) <==> id in NodeIds(nodes') {
      IdOfSomeNode(nodes, id);
      IdOfSomeNode(nodes', id);
    }
  }

  lemma SameType(flow: FlowDocument, nodes: seq<FlowNode>)
    requires forall n :: n in nodes <==> n in flow.nodes
    ensures GoodType(flow.(nodes := nodes)) <==> GoodType(flow)
  {
    assert DetectFlowType(flow.(nodes := nodes)) == DetectFlowType(flow);
  }

  /** Acceptance does not depend on the order of the nodes: forward and backward references are alike. */
  lemma AnyOrderOfNodes(flow: FlowDocument, nodes: seq<FlowNode>, requireSchema: bool)
    requires multiset(nodes) == multiset(flow.nodes)
    ensures WellFormed(flow, requireSchema) <==> WellFormed(flow.(nodes := nodes), requireSchema)
  {
    SameNodes(nodes, flow.nodes);
    SameType(flow, nodes);
    ElementsCount(IdList(nodes));
    ElementsCount(IdList(flow.nodes));
    assert SchemaHint(flow.(nodes := nodes)) == SchemaHint(flow);
  }

  /** Every checked target of an accepted flow is the id of exactly one of its nodes. */
  lemma TargetsResolveOnce(flow: FlowDocument, requireSchema: bool, node: FlowNode, target: string)
    requires WellFormed(flow, requireSchema)
    requires node in flow.nodes && node.route.Some? && target in CheckedTargets(node.route.value)
    ensures exists i | 0 <= i < |flow.nodes| ::
              flow.nodes[i].id == target && forall j | 0 <= j < |flow.nodes| && flow.nodes[j].id == target :: j == i
  {
    assert GoodNode(NodeIds(flow.nodes), node);
    var ids := IdList(flow.nodes);
    var i :| 0 <= i < |ids| && ids[i] == target;
    forall j | 0 <= j < |flow.nodes| && flow.nodes[j].id == target ensures j == i {
      assert ids[j] == ids[i];
    }
  }

  // ----- what the texts of a document mean -----

  /** The text that names the schema version: `schema_version` where it is given, else the schema reference. */
  predicate NamesSchema(flow: FlowDocument, text: string) {
    flow.schemaVersion == Some(text) || (flow.schemaVersion.None? && flow.schemaRef == Some(text))
  }

  /** A text that names the schema version must be one of three, up to case and white space around it. */
  lemma SchemaTextDecides(flow: FlowDocument, requireSchema: bool)
    ensures WellFormed(flow, requireSchema) <==>
              && WellFormed(flow.(schemaVersion := None, schemaRef := None), requireSchema)
              && forall text | NamesSchema(flow, text) ::
                   Spells(text, "1") || Spells(text, "v1") || Spells(text, "flow.v1")
  {
    var bare := flow.(schemaVersion := None, schemaRef := None);
    assert KnownSchema(bare) && (GoodType(bare) <==> GoodType(flow));
    var hint := if flow.schemaVersion.Some? then flow.schemaVersion else flow.schemaRef;
    assert forall text :: NamesSchema(flow, text) <==> hint == Some(text);
    if hint.Some? {
      TrimmedLowerMeans(hint.value, "1");
      TrimmedLowerMeans(hint.value, "v1");
      TrimmedLowerMeans(hint.value, "flow.v1");
    }
  }

  /** What a type asks of the nodes, text by text. */
  ghost predicate TypeIsMet(nodes: seq<FlowNode>, text: string) {
    && (Spells(text, "messaging") ==> forall n | n in nodes :: !("event." <= n.kind))
    && (Spells(text, "events") ==> forall n | n in nodes :: "event." <= n.kind)
    && (Spells(text, "worker") || Spells(text, "digital_worker") || Spells(text, "digital-worker") ==>
          exists n | n in nodes :: n.kind in {"worker.handoff", "worker.invoke"})
    && (Spells(text, "digital_worker") || Spells(text, "digital-worker") ==>
          exists n | n in nodes :: n.metadata.Some? && Says(n.metadata.value, "worker_id"))
  }

  /** The object has the field, and it is a string with something other than white space in it. */
  predicate Says(v: Json.Value, field: string) {
    && v.Object? && field in v.fields && v.fields[field].Str?
    && exists c | c in v.fields[field].text :: !IsWhitespace(c)
  }

  lemma HasTextMeans(v: Json.Value, field: string)
    ensures HasText(v, field) <==> Says(v, field)
  {
    if v.Object? && field in v.fields && v.fields[field].Str? {
      var text := v.fields[field].text;
      BlankMeansWhitespace(text);
      if c :| c in text && !IsWhitespace(c) {
        var i :| 0 <= i < |text| && text[i] == c;
        assert !IsWhitespace(text[i]);
      }
    }
  }

  lemma DetectedTypeMeans(flow: FlowDocument)
    requires flow.flowType.Some?
    ensures var text, t := flow.flowType.value, DetectFlowType(flow);
              && (t.Messaging? <==> Spells(text, "messaging")) && (t.Events? <==> Spells(text, "events"))
              && (t.Worker? <==> Spells(text, "worker"))
              && (t.DigitalWorker? <==> Spells(text, "digital_worker") || Spells(text, "digital-worker"))
  {
    var text := flow.flowType.value;
    TrimmedLowerMeans(text, "messaging");
    TrimmedLowerMeans(text, "events");
    TrimmedLowerMeans(text, "worker");
    TrimmedLowerMeans(text, "digital_worker");
    TrimmedLowerMeans(text, "digital-worker");
    assert "messaging" != "events" && "digital_worker" != "digital-worker";
  }

  lemma GoodTypeMeans(flow: FlowDocument)
    ensures GoodType(flow) <==> (flow.flowType.Some? ==> TypeIsMet(flow.nodes, flow.flowType.value))
  {
    forall n: FlowNode | n.metadata.Some?
      ensures HasText(n.metadata.value, "worker_id") <==> Says(n.metadata.value, "worker_id")
    {
      HasTextMeans(n.metadata.value, "worker_id");
    }
    if flow.flowType.Some? {
      DetectedTypeMeans(flow);
    }
  }

  /** A type, in any case and with white space around it, adds its condition; any other text, or none, adds nothing. */
  lemma TypeTextDecides(flow: FlowDocument, requireSchema: bool)
    ensures WellFormed(flow, requireSchema) <==>
              && WellFormed(flow.(flowType := None), requireSchema)
              && (flow.flowType.Some? ==> TypeIsMet(flow.nodes, flow.flowType.value))
  {
    var untyped := flow.(flowType := None);
    assert GoodType(untyped) && (KnownSchema(untyped) <==> KnownSchema(flow));
    GoodTypeMeans(flow);
  }

  /** The id of exactly one node. */
  ghost predicate ResolvesOnce(nodes: seq<FlowNode>, target: string) {
    exists i | 0 <= i < |nodes| ::
      nodes[i].id == target && forall j | 0 <= j < |nodes| && nodes[j].id == target :: j == i
  }

  predicate IsNodeId(nodes: seq<FlowNode>, id: string) {
    exists n | n in nodes :: n.id == id
  }

  /** Where a route leads: `to_node` to its first target, `to_nodes` to all of them; the others lead to no node. */
  predicate RouteLeads(nodes: seq<FlowNode>, route: NodeRoute) {
    match route.route
    case ToNode => route.to.Some? && route.to.value != [] && IsNodeId(nodes, route.to.value[0])
    case ToNodes => route.to.Some? && forall target | target in route.to.value :: IsNodeId(nodes, target)
    case _ => true
  }

  /**
   What is asked of a node: an id and a kind; as metadata, if any, an object, in which an `mcp.` node says a tool and
   an action; and a route that leads to nodes of the flow.
   */
  lemma GoodNodeMeans(nodes: seq<FlowNode>, node: FlowNode)
    ensures GoodNode(NodeIds(nodes), node) <==>
              && !Blank(node.id) && !Blank(node.kind)
              && (node.metadata.Some? ==>
                    && node.metadata.value.Object?
                    && ("mcp." <= node.kind ==>
                          Says(node.metadata.value, "tool") && Says(node.metadata.value, "action")))
              && (node.route.Some? ==> RouteLeads(nodes, node.route.value))
  {
    if node.metadata.Some? {
      HasTextMeans(node.metadata.value, "tool");
      HasTextMeans(node.metadata.value, "action");
    }
    if node.route.Some? {
      GoodRouteMeans(nodes, node.route.value);
    }
  }

  lemma GoodRouteMeans(nodes: seq<FlowNode>, route: NodeRoute)
    ensures GoodRoute(NodeIds(nodes), route) <==> RouteLeads(nodes, route)
  {
    forall id ensures id in NodeIds(nodes) <==> IsNodeId(nodes, id) {
      IdOfSomeNode(nodes, id);
    }
    if route.route.ToNode? && route.to.Some? && route.to.value != [] {
      assert CheckedTargets(route)[0] == route.to.value[0];
    }
  }

  /** A route of an accepted flow leads to nodes, without doubt to which. */
  lemma RoutesResolveOnce(flow: FlowDocument, requireSchema: bool, node: FlowNode, target: string)
    requires WellFormed(flow, requireSchema) && node in flow.nodes && node.route.Some? && node.route.value.to.Some?
    requires var NodeRoute(route, to) := node.route.value;
             (route.ToNode? && [target] <= to.value) || (route.ToNodes? && target in to.value)
    ensures ResolvesOnce(flow.nodes, target)
  {
    var route := node.route.value;
    assert route.route.ToNode? ==> CheckedTargets(route)[0] == target;
    TargetsResolveOnce(flow, requireSchema, node, target);
  }

  // ----- folders -----

  /** An entry of the directory walk: a file has an extension, and a document if it can be read and parsed. */
  datatype WalkEntry = NotAFile | File(extension: string, document: Option<FlowDocument>)

  datatype Options = Options(
    allowedExtensions: seq<string>,
    requireSchema: bool,
    validators: seq<FlowDocument -> bool>)

  datatype FolderFault =
    | PathMissing
    | NotReadable(index: nat)
    | BadFlow(index: nat, fault: FlowFault)
    | ValidatorFailed(index: nat, validator: nat)
    | NoFlows

  predicate Selected(options: Options, entry: WalkEntry) {
    entry.File? && AsciiLower(entry.extension) in options.allowedExtensions
  }

  predicate Passes(options: Options, entry: WalkEntry) {
    && entry.File? && entry.document.Some?
    && WellFormed(entry.document.value, options.requireSchema)
    && forall v | 0 <= v < |options.validators| :: options.validators[v](entry.document.value)
  }

  /** The files with an allowed extension, in walk order. */
  function Selection(options: Options, walk: seq<WalkEntry>): (r: seq<WalkEntry>)
    ensures forall entry | entry in r :: entry.File?
  {
    if walk == [] then []
    else
      var last := walk[|walk| - 1];
      Selection(options, walk[..|walk| - 1]) + if Selected(options, last) then [last] else []
  }

  /** `flows` are the documents of `files`, one by one. */
  predicate DocumentsOf(files: seq<WalkEntry>, flows: seq<FlowDocument>) {
    |flows| == |files| && forall i | 0 <= i < |files| :: files[i].File? && files[i].document == Some(flows[i])
  }

  /** Where the walk stops: at the first selected file that does not pass. */
  predicate StopsAt(options: Options, walk: seq<WalkEntry>, i: nat) {
    && i < |walk| && Selected(options, walk[i]) && !Passes(options, walk[i])
    && forall j | 0 <= j < i && Selected(options, walk[j]) :: Passes(options, walk[j])
  }

  /** What is wrong with the selected file at `i`. */
  predicate FileFaultHolds(options: Options, entry: WalkEntry, i: nat, fault: FolderFault) {
    match fault
    case NotReadable(k) => k == i && entry.File? && entry.document.None?
    case BadFlow(k, flowFault) =>
      && k == i && entry.File? && entry.document.Some?
      && FaultHolds(entry.document.value, options.requireSchema, flowFault)
    case ValidatorFailed(k, v) =>
      && k == i && entry.File? && entry.document.Some?
      && WellFormed(entry.document.value, options.requireSchema)
      && v < |options.validators| && !options.validators[v](entry.document.value)
      && forall u | 0 <= u < v :: options.validators[u](entry.document.value)
    case _ => false
  }

  /** Parses and validates one selected file; `i` is its place in the walk. */
  method CheckFile(options: Options, entry: WalkEntry, i: nat) returns (r: Result<FlowDocument, FolderFault>)
    requires entry.File?
    ensures r.Ok? <==> Passes(options, entry)
    ensures r.Ok? ==> entry.document == Some(r.value)
    ensures r.Err? ==> FileFaultHolds(options, entry, i, r.error)
  {
    if entry.document.None? {
      return Err(NotReadable(i));
    }
    var document := entry.document.value;
    var checked := ValidateFlow(document, options.requireSchema);
    if checked.Err? {
      return Err(BadFlow(i, checked.error));
    }
    for v := 0 to |options.validators|
      invariant forall u | 0 <= u < v :: options.validators[u](document)
    {
      if !options.validators[v](document) {
        return Err(ValidatorFailed(i, v));
      }
    }
    return Ok(document);
  }

  /**
   Succeeds exactly when the path exists, some file is selected and every selected file passes; the report
   then holds their documents in walk order. A failure names the first selected file that does not pass.
   */
  method ValidateFolder(options: Options, pathExists: bool, walk: seq<WalkEntry>)
    returns (r: Result<seq<FlowDocument>, FolderFault>)
    ensures r.Ok? <==>
              && pathExists && Selection(options, walk) != []
              && forall entry | entry in Selection(options, walk) :: Passes(options, entry)
    ensures r.Ok? ==> DocumentsOf(Selection(options, walk), r.value)
    ensures r.Err? ==>
              || (r.error == PathMissing && !pathExists)
              || (r.error == NoFlows && pathExists && Selection(options, walk) == [])
              || (pathExists
                  && exists i: nat | StopsAt(options, walk, i) :: FileFaultHolds(options, walk[i], i, r.error))
  {
    if !pathExists {
      return Err(PathMissing);
    }
    var flows: seq<FlowDocument> := [];
    var anyFiles := false;
    for i := 0 to |walk|
      invariant PassedUpTo(options, walk, i, flows)
      invariant anyFiles <==> flows != []
    {
      SelectionOfNext(options, walk, i);
      if !Selected(options, walk[i]) {
        continue;
      }
      anyFiles := true;
      var checked := CheckFile(options, walk[i], i);
      if checked.Err? {
        SelectedIsSelected(options, walk, i);
        assert StopsAt(options, walk, i);
        return Err(checked.error);
      }
      flows := flows + [checked.value];
    }
    assert walk[..|walk|] == walk;
    if !anyFiles {
      return Err(NoFlows);
    }
    return Ok(flows);
  }

  /** The selected files before `i` pass, and `flows` are their documents. */
  predicate PassedUpTo(options: Options, walk: seq<WalkEntry>, i: nat, flows: seq<FlowDocument>)
    requires i <= |walk|
  {
    && DocumentsOf(Selection(options, walk[..i]), flows)
    && (forall entry | entry in Selection(options, walk[..i]) :: Passes(options, entry))
    && (forall j | 0 <= j < i && Selected(options, walk[j]) :: Passes(options, walk[j]))
  }

  lemma SelectionOfNext(options: Options, walk: seq<WalkEntry>, i: nat)
    requires i < |walk|
    ensures Selection(options, walk[..i + 1])
              == Selection(options, walk[..i]) + if Selected(options, walk[i]) then [walk[i]] else []
  {
    assert walk[..i + 1][..i] == walk[..i];
  }

  /** A file is selected exactly if its extension is, up to case, an allowed one without upper-case letters. */
  lemma SelectedMeans(options: Options, entry: WalkEntry)
    ensures Selected(options, entry) <==>
              entry.File? && exists e | e in options.allowedExtensions ::
                SameLetters(entry.extension, e) && forall i | 0 <= i < |e| :: !('A' <= e[i] <= 'Z')
  {
    if entry.File? {
      forall e ensures e == AsciiLower(entry.extension) <==>
        SameLetters(entry.extension, e) && forall i | 0 <= i < |e| :: !('A' <= e[i] <= 'Z')
      {
        LowerMeans(entry.extension, e);
      }
    }
  }

  /** The files selected have places in the walk, one for each and in walk order; no other file is selected. */
  ghost predicate SelectedAt(options: Options, walk: seq<WalkEntry>, files: seq<WalkEntry>, places: seq<nat>) {
    && |places| == |files|
    && (forall k | 0 <= k < |places| ::
          places[k] < |walk| && files[k] == walk[places[k]] && Selected(options, files[k]))
    && (forall k, l | 0 <= k < l < |places| :: places[k] < places[l])
    && (forall i | 0 <= i < |walk| && Selected(options, walk[i]) :: i in places)
  }

  lemma {:induction false} SelectionKeepsOrder(options: Options, walk: seq<WalkEntry>) returns (places: seq<nat>)
    ensures SelectedAt(options, walk, Selection(options, walk), places)
  {
    if walk == [] {
      places := [];
    } else {
      var n := |walk| - 1;
      var before := SelectionKeepsOrder(options, walk[..n]);
      places := before + if Selected(options, walk[n]) then [n] else [];
      forall i | 0 <= i < |walk| && Selected(options, walk[i]) ensures i in places {
        if i < n {
          assert walk[..n][i] == walk[i] && i in before;
        } else {
          assert places[|before|] == n;
        }
      }
    }
  }

  lemma {:induction false} SelectedIsSelected(options: Options, walk: seq<WalkEntry>, i: nat)
    requires i < |walk| && Selected(options, walk[i])
    ensures walk[i] in Selection(options, walk)
  {
    if i < |walk| - 1 {
      SelectedIsSelected(options, walk[..|walk| - 1], i);
    }
  }

  /** In every flow that a folder report holds, each checked route target is the id of exactly one node. */
  lemma ReportedTargetsResolve(options: Options, walk: seq<WalkEntry>, flows: seq<FlowDocument>,
                               flow: FlowDocument, node: FlowNode, target: string)
    requires forall entry | entry in Selection(options, walk) :: Passes(options, entry)
    requires DocumentsOf(Selection(options, walk), flows) && flow in flows
    requires node in flow.nodes && node.route.Some? && target in CheckedTargets(node.route.value)
    ensures exists i | 0 <= i < |flow.nodes| ::
              flow.nodes[i].id == target && forall j | 0 <= j < |flow.nodes| && flow.nodes[j].id == target :: j == i
  {
    var k :| 0 <= k < |flows| && flows[k] == flow;
    assert Passes(options, Selection(options, walk)[k]);
    TargetsResolveOnce(flow, options.requireSchema, node, target);
  }
}

/**
 * The resource-import subgraph: ImportStateTransformer adds one import node
 * per import target; an import node plans the provider's import call, and
 * after that call it expands into one sub-node per discovered object; each
 * sub-node plans refresh, verification and the write into the state.
 */
module TransformImportState {
  import opened Wrappers
  import opened Addrs
  import opened States
  import opened Eval
  import opened Dedup
  import opened ConflictScan

  /** A request to import the external object id into addr, using providerAddr. */
  datatype ImportTarget = ImportTarget(addr: AbsResourceInstance, id: string, providerAddr: AbsProviderConfig)

  /**
   * A node of the expanded subgraph: it writes one discovered object into
   * the state at its de-duplicated address.
   */
  datatype SubNode = SubNode(targetAddr: AbsResourceInstance, state: InstanceState, resolvedProvider: Option<AbsProviderConfig>)
  {
    /** The module the sub-node belongs to: that of its target address. */
    function Path(): (m: ModuleInstance)
      ensures m == targetAddr.modulePath
    {
      targetAddr.modulePath
    }

    /**
     * The sub-node's plan. An untyped state yields a single error and calls
     * nothing; otherwise provider, refresh (starting from a copy of the
     * discovered state), verification against the requested ID, and the
     * write under the legacy key of the target address, in that order.
     * stateId is the legacy instance key of an address.
     */
    function EvalTree(stateId: AbsResourceInstance -> string): (plan: seq<Step>)
      ensures state.ephemeral.rtype == "" <==> |plan| == 1
      ensures state.ephemeral.rtype == "" ==>
                plan == [ReturnError(MissingType(targetAddr, state.id))]
                && forall k :: 0 <= k < |plan| ==> !Effectful(plan[k])
      ensures state.ephemeral.rtype != "" ==>
                && |plan| == 4
                && (forall k :: 0 <= k < |plan| ==> Effectful(plan[k]))
                && plan[0] == GetProvider(resolvedProvider)
                && plan[1] == Refresh(targetAddr.resource, state)
                && plan[2] == ImportStateVerify(targetAddr.resource, state.id)
                && plan[3] == WriteState(stateId(targetAddr), TypeOf(targetAddr), resolvedProvider)
    {
      if state.ephemeral.rtype == "" then
        [ReturnError(MissingType(targetAddr, state.id))]
      else
        var copy := state;
        [ GetProvider(resolvedProvider),
          Refresh(targetAddr.resource, copy),
          ImportStateVerify(targetAddr.resource, state.id),
          WriteState(stateId(targetAddr), TypeOf(targetAddr), resolvedProvider) ]
    }
  }

  /**
   * The subgraph DynamicExpand returns: the caller's module path, the
   * sub-nodes, and whether the single-root transform has been applied.
   */
  datatype Subgraph = Subgraph(path: ModuleInstance, nodes: seq<SubNode>, singleRoot: bool)

  /** The single-root transform, taken as a step that cannot fail and keeps the nodes. */
  function RootTransform(g: Subgraph): (r: Subgraph)
    ensures r.path == g.path && r.nodes == g.nodes && r.singleRoot
  {
    g.(singleRoot := true)
  }

  /** The sub-node loop of DynamicExpand: node i pairs address i with state i and the parent's provider. */
  method SubNodes(addrs: seq<AbsResourceInstance>, states: seq<InstanceState>, rp: Option<AbsProviderConfig>)
    returns (nodes: seq<SubNode>)
    requires |addrs| == |states|
    ensures |nodes| == |states|
    ensures forall i :: 0 <= i < |states| ==> nodes[i] == SubNode(addrs[i], states[i], rp)
  {
    nodes := [];
    var i := 0;
    while i < |states|
      invariant 0 <= i <= |states| && |nodes| == i
      invariant forall k :: 0 <= k < i ==> nodes[k] == SubNode(addrs[k], states[k], rp)
    {
      nodes := nodes + [SubNode(addrs[i], states[i], rp)];
      i := i + 1;
    }
  }

  /** The import node: one user-requested import, before and after the provider's import call. */
  class ImportNode {
    var addr: AbsResourceInstance
    var id: string
    var providerAddr: AbsProviderConfig
    var resolvedProvider: Option<AbsProviderConfig>
    var states: seq<InstanceState>

    /** The node the transformer creates for a target; the provider is not resolved yet. */
    constructor (target: ImportTarget)
      ensures addr == target.addr && id == target.id && providerAddr == target.providerAddr
      ensures resolvedProvider == None && states == []
    {
      addr := target.addr;
      id := target.id;
      providerAddr := target.providerAddr;
      resolvedProvider := None;
      states := [];
    }

    /** The provider the node asks for: the declared one, never an exact match. */
    function ProvidedBy(): (r: (AbsProviderConfig, bool))
      reads this
      ensures r.0 == providerAddr && !r.1
    {
      (providerAddr, false)
    }

    /** Records the provider chosen by provider resolution; nothing else changes. */
    method SetProvider(p: AbsProviderConfig)
      modifies this`resolvedProvider
      ensures resolvedProvider == Some(p)
    {
      resolvedProvider := Some(p);
    }

    /** The module the node belongs to: that of its address. */
    function Path(): (m: ModuleInstance)
      reads this
      ensures m == addr.modulePath
    {
      addr.modulePath
    }

    /**
     * Plans the import: fetch the resolved provider, then import id. The
     * discovered states are reset first, so the import's output replaces
     * any states of an earlier evaluation.
     */
    method EvalTree() returns (plan: seq<Step>)
      modifies this`states
      ensures states == []
      ensures plan == [GetProvider(resolvedProvider), ImportState(addr, id)]
    {
      states := [];
      plan := [GetProvider(resolvedProvider), ImportState(addr, id)];
    }

    /** The output slot of the ImportState step: the provider's result becomes the node's states. */
    method StoreImported(discovered: seq<InstanceState>)
      modifies this`states
      ensures states == discovered
    {
      states := discovered;
    }

    /**
     * The dynamic expansion. Every candidate address is checked against
     * the existing state through filter; if that produced any error, the
     * expansion fails with all of them; otherwise one sub-node per state,
     * pairing state i with candidate address i and the resolved provider.
     * path is the module path of the evaluation context.
     */
    method DynamicExpand(path: ModuleInstance, filter: Filter) returns (r: Result<Subgraph, seq<Diag>>)
      ensures var diags := ConflictDiags(Candidates(addr, states), filter);
              diags != [] ==> r == Err(diags)
      ensures ConflictDiags(Candidates(addr, states), filter) == [] ==>
                && r.Ok? && r.value.path == path && r.value.singleRoot
                && |r.value.nodes| == |states|
                && forall i :: 0 <= i < |states| ==>
                     r.value.nodes[i] == SubNode(Candidates(addr, states)[i], states[i], resolvedProvider)
    {
      var addrs := CandidateAddrs(addr, states);
      var diags := ScanConflicts(addrs, filter);
      if diags != [] {
        return Err(diags);
      }
      var nodes := SubNodes(addrs, states, resolvedProvider);
      var g := RootTransform(Subgraph(path, nodes, false));
      assert g.nodes == nodes;
      r := Ok(g);
    }
  }

  /**
   * A sub-node built by the expansion writes under the key of its own,
   * type-refined and de-duplicated address, with the type the provider
   * reported; when that type differs from the declared one, this address
   * is not the import node's declared address.
   */
  lemma ExpandedNodeWritesRefinedAddress(base: AbsResourceInstance, states: seq<InstanceState>,
                                         rp: Option<AbsProviderConfig>, stateId: AbsResourceInstance -> string, i: nat)
    requires i < |states| && states[i].ephemeral.rtype != ""
    ensures var target := Candidates(base, states)[i];
            var plan := SubNode(target, states[i], rp).EvalTree(stateId);
            && |plan| == 4
            && plan[3] == WriteState(stateId(target), states[i].ephemeral.rtype, rp)
            && plan[1] == Refresh(target.resource, states[i])
    ensures states[i].ephemeral.rtype != TypeOf(base) ==> Candidates(base, states)[i] != base
  {
    CandidatesIndex(base, states);
    CandidateShape(base, states, i);
  }

  /** A sub-node built from an untyped state plans nothing but its error. */
  lemma ExpandedUntypedNodeOnlyFails(base: AbsResourceInstance, states: seq<InstanceState>,
                                     rp: Option<AbsProviderConfig>, stateId: AbsResourceInstance -> string, i: nat)
    requires i < |states| && states[i].ephemeral.rtype == ""
    ensures var target := Candidates(base, states)[i];
            SubNode(target, states[i], rp).EvalTree(stateId) == [ReturnError(MissingType(target, states[i].id))]
  {
  }

  /** The targets of a successful expansion's sub-nodes are pairwise distinct. */
  lemma ExpandedTargetsDistinct(g: Subgraph, base: AbsResourceInstance, states: seq<InstanceState>, rp: Option<AbsProviderConfig>)
    requires |g.nodes| == |states|
    requires forall i :: 0 <= i < |states| ==> g.nodes[i] == SubNode(Candidates(base, states)[i], states[i], rp)
    ensures forall i, j :: 0 <= i < j < |g.nodes| ==> g.nodes[i].targetAddr != g.nodes[j].targetAddr
  {
    CandidatesPairwiseDistinct(base, states);
  }

  /**
   * Evaluating an import node again resets its states before the import
   * step writes them. So after a first import, a second evaluation whose
   * import step never writes leaves no states behind, and an expansion at
   * that point builds no sub-node from the stale first result.
   */
  method ReevaluationDropsStaleStates(t: ImportTarget, first: seq<InstanceState>, path: ModuleInstance, filter: Filter)
    returns (held: seq<InstanceState>, expanded: Result<Subgraph, seq<Diag>>)
    ensures held == []
    ensures expanded.Ok? && expanded.value.nodes == []
  {
    var n := new ImportNode(t);
    var plan := n.EvalTree();
    n.StoreImported(first);
    plan := n.EvalTree();
    held := n.states;
    expanded := n.DynamicExpand(path, filter);
  }

  /**
   * The two-object import: a node for r.a whose import finds two objects
   * both typed t expands, against a state that holds neither, into two
   * sub-nodes for t.a and t.a-1.
   */
  method ExpandTwoObjects(t: ImportTarget, st1: InstanceState, st2: InstanceState, path: ModuleInstance)
    returns (r: Result<Subgraph, seq<Diag>>)
    requires st1.ephemeral.rtype == st2.ephemeral.rtype != ""
    ensures r.Ok? && |r.value.nodes| == 2
    ensures r.value.nodes[0].targetAddr == WithType(t.addr, st1.ephemeral.rtype)
    ensures r.value.nodes[1].targetAddr == WithNameSuffix(WithType(t.addr, st1.ephemeral.rtype), 1)
  {
    var n := new ImportNode(t);
    n.StoreImported([st1, st2]);
    var empty: Filter := a => Found([]);
    TwoSameTypedStates(t.addr, st1, st2);
    NoDiagsIffAllClear(Candidates(t.addr, [st1, st2]), empty);
    r := n.DynamicExpand(path, empty);
  }

  /** The part of the graph this core touches: the import nodes added to it and its edges. */
  class Graph {
    var vertices: seq<ImportNode>
    var edges: set<(ImportNode, ImportNode)>

    constructor ()
      ensures vertices == [] && edges == {}
    {
      vertices := [];
      edges := {};
    }

    method Add(v: ImportNode)
      modifies this`vertices
      ensures vertices == old(vertices) + [v]
    {
      vertices := vertices + [v];
    }
  }

  /** n is a fresh-from-the-transformer node for target t. */
  ghost predicate CopiesTarget(n: ImportNode, t: ImportTarget)
    reads n
  {
    n.addr == t.addr && n.id == t.id && n.providerAddr == t.providerAddr
    && n.resolvedProvider == None && n.states == []
  }

  class ImportStateTransformer {
    var targets: seq<ImportTarget>

    constructor (targets: seq<ImportTarget>)
      ensures this.targets == targets
    {
      this.targets := targets;
    }

    /**
     * Adds one new import node per target, in target order, and no edge.
     * The Go method's error result is always nil.
     */
    method Transform(g: Graph) returns (err: Option<string>)
      modifies g`vertices
      ensures err == None
      ensures |g.vertices| == |old(g.vertices)| + |targets|
      ensures g.vertices[..|old(g.vertices)|] == old(g.vertices)
      ensures forall k :: 0 <= k < |targets| ==>
                fresh(g.vertices[|old(g.vertices)| + k]) && CopiesTarget(g.vertices[|old(g.vertices)| + k], targets[k])
      ensures g.edges == old(g.edges)
    {
      ghost var start := |g.vertices|;
      var i := 0;
      while i < |targets|
        invariant 0 <= i <= |targets|
        invariant |g.vertices| == start + i
        invariant g.vertices[..start] == old(g.vertices)
        invariant forall k :: start <= k < |g.vertices| ==> fresh(g.vertices[k]) && CopiesTarget(g.vertices[k], targets[k - start])
      {
        var node := new ImportNode(targets[i]);
        g.Add(node);
        i := i + 1;
      }
      return None;
    }
  }
}

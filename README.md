# Resource import subgraph, modelled in Dafny

This project models the part of Terraform that builds the subgraph for
`terraform import`. That is the code in `terraform/transform_import_state.go`:

- `ImportStateTransformer.Transform` adds one import node to the graph for
  each import target.
- The import node (`graphNodeImportState`) plans the provider's import call.
  Once that call has filled in the node's discovered states, `DynamicExpand`
  does three things:
  1. It gives every discovered state a candidate address. The resource type
     is replaced by the state's ephemeral type tag. Repeated addresses are
     told apart by a `-<n>` suffix on the resource name.
  2. It checks every candidate against the existing state and collects every
     conflict.
  3. If there was no conflict, it expands into one sub-node per state.
    Otherwise it fails with all the errors it collected.
- Each sub-node (`graphNodeImportStateSub`) plans four steps: get the
  provider, refresh, verify and write state. If the provider reported no
  type, the plan is a single error step instead.

Modules, one file each:

- `Wrappers`: `Option` and `Result`.
- `Addrs`: addresses, and the two edits the core makes to them. Those edits
  are replacing the type and adding the decimal name suffix.
- `States`: instance states and the results of state lookups.
- `Eval`: the evaluation steps, as data.
- `Dedup`: the address loop, with the de-duplication counter map.
- `ConflictScan`: the conflict scan loop.
- `TransformImportState`: the transformer, the two node kinds, the
  expansion, and the lemmas that connect them.

Some parts of the code work by changing state. These are modelled
imperatively:

- The import node is a class.
  - `SetProvider` may change only `resolvedProvider`.
  - `EvalTree` and the import step's output slot may change only `states`.
- `Transform` is a loop that adds fresh nodes to a graph object.
- The three loops of `DynamicExpand` are methods with loop invariants. Each
  method is proved against a specification function: `CandidateAt`,
  `ConflictDiags`, and the sub-node list.

The sub-node plan, the accessors and the root transform are pure functions.

Collaborators whose code is not part of this model become parameters, as
follows:

- The state lookup (`StateFilter.Filter` over the locked state) becomes a
  function `filter` from an address to a `FilterOutcome`.
- The legacy state key (`NewLegacyResourceInstanceAddress(..).stateId()`)
  becomes a function `stateId`.
- The evaluation context's module path becomes a parameter `path`.

Points of the code's behaviour that the model keeps exactly:

- **Type before de-duplication.** The code overwrites the resource type
  before it de-duplicates (lines 112-124). So two `widget` objects found
  for `r.a` become `widget.a` and `widget.a-1`, not `r.a` and `r.a-1`.
  `Dedup.TwoSameTypedStates` and `ExpandTwoObjects` state this.
- **State copying.** The expansion hands each sub-node the discovered state
  itself (line 167). The copy is made in the sub-node's `EvalTree`
  (line 213). The model's `Refresh` step takes its starting state from
  there.
- **Type check.** The sub-node checks for an empty type while it builds its
  plan (lines 207-210). A missing type yields a plan that holds only the
  error, so not even the provider is requested.
- **Suffix placement.** The suffix always goes on the resource name, and
  the instance key is kept, even for keyed instances (line 122).
  `Addrs.WithNameSuffix` does the same.

## Model

| member | source | states |
|---|---|---|
| `Addrs.WithType` | terraform/transform_import_state.go:112-115 | only the resource type changes, to the given type; module, mode, instance key and name are kept |
| `Addrs.WithNameSuffix` | terraform/transform_import_state.go:120-123 | only the name changes, to the old name followed by `-` and the decimal count |
| `Addrs.Decimal` | terraform/transform_import_state.go:122 | the `%d` rendering is non-empty and all digits, and has one digit exactly for numbers below ten |
| `Addrs.DecimalInjective` | terraform/transform_import_state.go:122 | different counts print differently |
| `Addrs.SuffixInjective` | terraform/transform_import_state.go:122 | two names suffixed from the same name are equal only when the counts are |
| `Dedup.Refine` | terraform/transform_import_state.go:112-115 | the node's address, with the type replaced by the state's ephemeral type when that is non-empty; nothing else changes |
| `Dedup.CandidateShape` | terraform/transform_import_state.go:111-127 | candidate i has the node's module, mode and key; its type is the state's type tag when set and the node's type otherwise; its name is the node's name when no earlier state refined to the same address, and otherwise the name with `-c`, where c counts those earlier states |
| `Dedup.CandidatesIndex` | terraform/transform_import_state.go:110 | there is one candidate per discovered state, in state order |
| `Dedup.FirstOccurrenceKeepsName` | terraform/transform_import_state.go:117-124 | the count before state i is zero exactly when no earlier state refined to the same address, so the first occurrence keeps its name |
| `Dedup.OccurrencesGrow` | terraform/transform_import_state.go:119-124 | a later state with the same refined address sees a strictly larger count |
| `Dedup.SuffixIncreasing` | terraform/transform_import_state.go:117-124 | suffix numbers of states sharing a refined address strictly increase with the index |
| `Dedup.SuffixHasPredecessor` | terraform/transform_import_state.go:117-124 | a count c > 0 before state j has an earlier state with the same refined address whose count was c - 1, so the numbering starts at 1 and has no gaps |
| `Dedup.CandidatesDistinct` | terraform/transform_import_state.go:104-128 | the candidates of two different states differ |
| `Dedup.CandidatesPairwiseDistinct` | terraform/transform_import_state.go:104-128 | the candidate sequence of one expansion has no repeated address |
| `Dedup.TwoSameTypedStates` | terraform/transform_import_state.go:104-128 | two states with the same type tag t get `t.name` and `t.name-1` |
| `Dedup.CounterStep` | terraform/transform_import_state.go:117-124 | one iteration keeps the counter map equal to "occurrences so far minus one" for every key, and computes candidate i |
| `Dedup.CandidateAddrs` | terraform/transform_import_state.go:104-128 | the loop, with a fresh counter map, returns exactly the candidate sequence: one entry per state, entry i being `CandidateAt` of i |
| `ConflictScan.InstanceDiagsEmptyIff` | terraform/transform_import_state.go:144-153 | a successful lookup adds no error exactly when none of its results is an instance state |
| `ConflictScan.DiagsForEmptyIff` | terraform/transform_import_state.go:136-153 | one candidate adds no error exactly when its lookup succeeded and found no instance |
| `ConflictScan.NoDiagsIffAllClear` | terraform/transform_import_state.go:135-155 | the scan's error list is empty exactly when every candidate's lookup is clear |
| `ConflictScan.InstanceDiagsComplete` | terraform/transform_import_state.go:144-153 | every instance state among one lookup's results yields an "already managed" error carrying its ID |
| `ConflictScan.ConflictDiagsComplete` | terraform/transform_import_state.go:135-154 | for every candidate, its lookup failure or each of its instance matches is in the error list, whatever the other candidates produced |
| `ConflictScan.InstanceDiagsSound` | terraform/transform_import_state.go:144-153 | every error from one lookup names that address and matches an instance result with that ID |
| `ConflictScan.ConflictDiagsSound` | terraform/transform_import_state.go:135-154 | every reported error names a candidate and is justified by that candidate's lookup |
| `ConflictScan.InstanceDiagsCount` | terraform/transform_import_state.go:144-153 | one lookup yields as many errors as it has instance results |
| `ConflictScan.ConflictDiagsCount` | terraform/transform_import_state.go:135-154 | the number of errors is the total over all candidates: one per failed lookup plus one per instance found |
| `ConflictScan.TwoOfThreeManaged` | terraform/transform_import_state.go:135-158 | with A and C managed and B absent, the errors are exactly those for A and C, in order |
| `ConflictScan.ScanConflicts` | terraform/transform_import_state.go:130-154 | the nested scan loops return exactly `ConflictDiags` of the candidates |
| `TransformImportState.SubNode.Path` | terraform/transform_import_state.go:200-202 | the module of the target address |
| `TransformImportState.SubNode.EvalTree` | terraform/transform_import_state.go:205-244 | an empty type gives the one error step naming the target and ID, with no step that touches a provider or state; otherwise exactly GetProvider, Refresh(resource, state), Verify(resource, ID), WriteState(key of target, target's type, provider), in that order |
| `TransformImportState.SubNodes` | terraform/transform_import_state.go:164-170 | one sub-node per state, node i pairing address i, state i and the parent's resolved provider |
| `TransformImportState.RootTransform` | terraform/transform_import_state.go:172-176 | cannot fail; keeps path and nodes and marks the graph single-rooted |
| `TransformImportState.ImportNode.constructor` | terraform/transform_import_state.go:18-22 | copies address, ID and provider address from the target; no resolved provider, no states |
| `TransformImportState.ImportNode.ProvidedBy` | terraform/transform_import_state.go:49-56 | the declared provider address, never marked exact |
| `TransformImportState.ImportNode.SetProvider` | terraform/transform_import_state.go:59-61 | sets the resolved provider; its frame allows no other field to change |
| `TransformImportState.ImportNode.Path` | terraform/transform_import_state.go:64-66 | the module of the node's address |
| `TransformImportState.ImportNode.EvalTree` | terraform/transform_import_state.go:69-91 | resets the states to empty and plans [GetProvider(resolved provider), ImportState(address, ID)]; only `states` may change |
| `TransformImportState.ImportNode.StoreImported` | terraform/transform_import_state.go:83-88 | the import step's output replaces the node's states |
| `TransformImportState.ImportNode.DynamicExpand` | terraform/transform_import_state.go:99-180 | a non-empty scan gives exactly those errors and no subgraph; an empty scan gives a single-rooted subgraph on the context path with one sub-node per state, node i pairing candidate i, state i and the resolved provider |
| `TransformImportState.ExpandedNodeWritesRefinedAddress` | terraform/transform_import_state.go:213-242 | the sub-node for a typed state i refreshes candidate i, and writes under that candidate's key using the state's reported type; when that type differs from the declared one, candidate i is not the declared address |
| `TransformImportState.ExpandedUntypedNodeOnlyFails` | terraform/transform_import_state.go:206-210 | the sub-node for an untyped state plans only its error |
| `TransformImportState.ExpandedTargetsDistinct` | terraform/transform_import_state.go:160-170 | the sub-nodes of an expansion have pairwise distinct target addresses |
| `TransformImportState.ReevaluationDropsStaleStates` | terraform/transform_import_state.go:73-88 | after an import, evaluating the node again leaves it with no states until the new import writes, so an expansion at that point builds no sub-node from the first import's result |
| `TransformImportState.ExpandTwoObjects` | terraform/transform_import_state.go:99-180 | two objects of the same type, with no conflicts, expand into two sub-nodes for `t.a` and `t.a-1` |
| `TransformImportState.Graph.Add` | terraform/transform_import_state.go:23 | appends the vertex |
| `TransformImportState.ImportStateTransformer.constructor` | terraform/transform_import_state.go:12-14 | holds the given targets |
| `TransformImportState.ImportStateTransformer.Transform` | terraform/transform_import_state.go:16-26 | never fails; adds exactly one fresh node per target, in target order, each copying its target with nothing resolved; keeps earlier vertices and all edges |

## Left out

- The graph engine is not modelled. `Graph` records only the import nodes
  added to it and an edge set that `Transform` must leave alone. Other
  vertex kinds, and how `Add` stores vertices, are not modelled.
- `RootTransform` does not model the root node and edges that
  `RootTransformer` adds. It only records that the transform was applied.
- The engine does not run the evaluation steps here. `Eval.Step` values
  name each step and its inputs. What `EvalGetProvider`, `EvalImportState`,
  `EvalRefresh`, `EvalImportStateVerify`, `EvalWriteState` and
  `EvalReturnError` do is not part of this model. So are the output slots
  those steps share, apart from the import step's output into the node's
  states (`StoreImported`).
- How `StateFilter.Filter` matches is not modelled: the lookup is the
  parameter `filter`. Non-instance results are modelled as `OtherResult`,
  and the scan ignores them, as the code does.
- How the legacy state key is built is not modelled: it is the parameter
  `stateId`.
- The de-duplication counter is keyed on the address value, not on
  `addr.String()` (line 118). The two keyings agree here. Every refined
  address in one expansion has the node's module, mode, name and key, and
  differs from the others only in its type. So two renderings differ
  exactly when the types differ, and so do the values.
- The read lock around the scan is not modelled. Concurrency is out of
  scope. The scan reads one fixed lookup function, so all candidates see
  the same snapshot.
- `DeepCopy` and pointer aliasing are not modelled. States are values, so
  the sub-node's copy is the state itself.
- `Name()` and the text of error messages are not modelled. Errors are
  tagged values that carry the address and, where the code prints one, the
  ID or the lookup's error text.
- The context's `State()` call is not modelled: the state is visible only
  through `filter`.
- `DynamicExpand` returns every error as one list: `Err(diags)` stands for
  `diags.Err()`. Every error the scan appends has error severity, so "has
  errors" is the same as "non-empty".

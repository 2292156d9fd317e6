/**
 * The evaluation steps the import nodes plan. Only the plan is modelled:
 * each step is data naming the inputs the source passes to it; what a step
 * does when the engine runs it belongs to the provider and the state store.
 */
module Eval {
  import opened Wrappers
  import opened Addrs
  import opened States

  /** The error a sub-node reports when the provider left the type unset. */
  datatype ImportError = MissingType(addr: AbsResourceInstance, id: string)

  datatype Step =
    | GetProvider(provider: Option<AbsProviderConfig>)
    | ImportState(info: AbsResourceInstance, id: string)
    | Refresh(resource: ResourceInstance, from: InstanceState)
    | ImportStateVerify(resource: ResourceInstance, id: string)
    | WriteState(name: string, resourceType: string, provider: Option<AbsProviderConfig>)
    | ReturnError(err: ImportError)

  /** True when the step calls the provider or touches the state store. */
  predicate Effectful(s: Step)
  {
    !s.ReturnError?
  }
}

/**
 * The state values the import core reads: the instance states a provider
 * reports, and the results of querying the existing state for an address.
 */
module States {
  /** Data attached to a state that is never persisted; here only the discovered type. */
  datatype EphemeralState = EphemeralState(rtype: string)

  /** A provider-reported object: its ID, its attributes, and its ephemeral type tag. */
  datatype InstanceState = InstanceState(id: string, attributes: map<string, string>, ephemeral: EphemeralState)

  /**
   * One result of a state query: an instance state, or any other kind of
   * match (a module or a whole resource), named by its rendered address.
   */
  datatype FilterResult = InstanceResult(instance: InstanceState) | OtherResult(address: string)

  /** A state query returns its results, or fails with a message. */
  datatype FilterOutcome = Found(results: seq<FilterResult>) | FilterFailed(err: string)
}

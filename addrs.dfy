/**
 * The parts of Terraform's address package that the import core touches:
 * absolute resource-instance addresses, provider configuration addresses,
 * and the two edits the import core makes to an address (replacing the
 * resource type, and suffixing the resource name with "-<n>").
 */
module Addrs {
  import opened Wrappers

  /** An instance key: none, a count index, or a for_each string key. */
  datatype InstanceKey = NoKey | IntKey(index: int) | StringKey(s: string)

  /** One step of a module instance path: a module call name and its key. */
  datatype ModuleInstanceStep = ModuleInstanceStep(name: string, key: InstanceKey)

  /** The path from the root module; the root module is the empty path. */
  type ModuleInstance = seq<ModuleInstanceStep>

  datatype ResourceMode = ManagedResourceMode | DataResourceMode

  datatype Resource = Resource(mode: ResourceMode, rtype: string, name: string)

  datatype ResourceInstance = ResourceInstance(resource: Resource, key: InstanceKey)

  datatype AbsResourceInstance = AbsResourceInstance(modulePath: ModuleInstance, resource: ResourceInstance)

  datatype AbsProviderConfig = AbsProviderConfig(modulePath: ModuleInstance, providerType: string, alias: string)

  /** The resource name of an address. */
  function NameOf(a: AbsResourceInstance): string
  {
    a.resource.resource.name
  }

  /** The resource type of an address. */
  function TypeOf(a: AbsResourceInstance): string
  {
    a.resource.resource.rtype
  }

  /** True when a and b agree on everything but the resource type and name. */
  predicate SameOutsideTypeAndName(a: AbsResourceInstance, b: AbsResourceInstance)
  {
    && a.modulePath == b.modulePath
    && a.resource.key == b.resource.key
    && a.resource.resource.mode == b.resource.resource.mode
  }

  /** The address with its resource type overwritten by t. */
  function WithType(a: AbsResourceInstance, t: string): (r: AbsResourceInstance)
    ensures SameOutsideTypeAndName(a, r)
    ensures TypeOf(r) == t && NameOf(r) == NameOf(a)
  {
    a.(resource := a.resource.(resource := a.resource.resource.(rtype := t)))
  }

  /** The address with "-<k>" appended to its resource name, k in decimal. */
  function WithNameSuffix(a: AbsResourceInstance, k: nat): (r: AbsResourceInstance)
    ensures SameOutsideTypeAndName(a, r)
    ensures TypeOf(r) == TypeOf(a)
    ensures NameOf(r) == NameOf(a) + "-" + Decimal(k)
  {
    a.(resource := a.resource.(resource := a.resource.resource.(name := NameOf(a) + "-" + Decimal(k))))
  }

  /** The character of a decimal digit. */
  function DigitChar(d: nat): (c: char)
    requires d < 10
    ensures '0' <= c <= '9'
    ensures c as int - '0' as int == d
  {
    (('0' as int) + d) as char
  }

  /** The decimal rendering of n, without sign or leading zeros (as "%d" prints it). */
  function Decimal(n: nat): (s: string)
    ensures n < 10 <==> |s| == 1
    ensures |s| >= 1
    ensures forall k :: 0 <= k < |s| ==> '0' <= s[k] <= '9'
    decreases n
  {
    if n < 10 then [DigitChar(n)] else Decimal(n / 10) + [DigitChar(n % 10)]
  }

  /** Two numbers print alike only if they are equal. */
  lemma {:induction false} DecimalInjective(a: nat, b: nat)
    requires Decimal(a) == Decimal(b)
    ensures a == b
    decreases a
  {
    if a >= 10 && b >= 10 {
      var sa, sb := Decimal(a), Decimal(b);
      assert sa[|sa| - 1] == DigitChar(a % 10);
      assert sb[|sb| - 1] == DigitChar(b % 10);
      assert sa[..|sa| - 1] == Decimal(a / 10);
      assert sb[..|sb| - 1] == Decimal(b / 10);
      DecimalInjective(a / 10, b / 10);
    }
  }

  /** Two names suffixed from the same name agree only if the numbers do. */
  lemma SuffixInjective(name: string, a: nat, b: nat)
    requires name + "-" + Decimal(a) == name + "-" + Decimal(b)
    ensures a == b
  {
    var p := name + "-";
    assert Decimal(a) == (p + Decimal(a))[|p|..];
    assert Decimal(b) == (p + Decimal(b))[|p|..];
    DecimalInjective(a, b);
  }
}

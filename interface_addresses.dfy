/**
 * The interface-address abstraction and the validator that compares the
 * addresses the agent configured with the addresses the system reports
 * (`platform/net/ip`).
 */
module InterfaceAddresses {
  import opened Common

  /**
   * An interface address. `Simple` carries its IP (the static addresses
   * the agent configured, and what the system provider reports);
   * `Resolving` looks the IP up on the live interface when asked (DHCP
   * addresses, unknown until the lease).
   */
  datatype InterfaceAddress = Simple(interfaceName: string, ip: string) | Resolving(interfaceName: string)

  /**
   * The IP an address reports, as the validator reads it: it drops the
   * error of `GetIP`, so a failed lookup reads as the empty string.
   * `resolve` is the live lookup of the IP resolver.
   */
  function IpOf(a: InterfaceAddress, resolve: string -> Option<string>): string
  {
    match a
    case Simple(_, ip) => ip
    case Resolving(name) => match resolve(name) case Some(ip) => ip case None => ""
  }

  datatype ValidationError =
    | ProviderFailed                                            // "Getting network interface addresses"
    | NoSuchInterface(name: string)                              // "no interface configured with that name"
    | IpMismatch(name: string, expected: string, actual: string) // "expected: '%s', actual: '%s'"

  /** `findInterfaceByName`: the first system entry with the given name. */
  function FindInterfaceByName(name: string, ifaces: seq<InterfaceAddress>): (r: Option<InterfaceAddress>)
    ensures r.None? <==> forall i :: 0 <= i < |ifaces| ==> ifaces[i].interfaceName != name
    ensures r.Some? ==> r.value in ifaces && r.value.interfaceName == name
  {
    if ifaces == [] then None
    else if ifaces[0].interfaceName == name then Some(ifaces[0])
    else FindInterfaceByName(name, ifaces[1..])
  }

  /** The entry found is the first one with that name. */
  lemma {:induction false} FindInterfaceByNameFirst(name: string, ifaces: seq<InterfaceAddress>) returns (i: nat)
    requires FindInterfaceByName(name, ifaces).Some?
    ensures FirstNamed(ifaces, name, i) && ifaces[i] == FindInterfaceByName(name, ifaces).value
  {
    if ifaces[0].interfaceName == name {
      i := 0;
    } else {
      var k := FindInterfaceByNameFirst(name, ifaces[1..]);
      i := k + 1;
      assert ifaces[i] == ifaces[1..][k];
      forall j | 0 <= j < i ensures ifaces[j].interfaceName != name {
        if j > 0 { assert ifaces[j] == ifaces[1..][j - 1]; }
      }
    }
  }

  /** Position `i` holds the first entry of `ifaces` named `name`. */
  predicate FirstNamed(ifaces: seq<InterfaceAddress>, name: string, i: nat)
  {
    i < |ifaces| && ifaces[i].interfaceName == name
    && forall j :: 0 <= j < i ==> ifaces[j].interfaceName != name
  }

  /** The verdict on one desired address against the system list. */
  function Check(system: seq<InterfaceAddress>, desired: InterfaceAddress, resolve: string -> Option<string>): Outcome<ValidationError>
  {
    var name := desired.interfaceName;
    match FindInterfaceByName(name, system)
    case None => Fail(NoSuchInterface(name))
    case Some(iface) =>
      var expected := IpOf(desired, resolve);
      var actual := IpOf(iface, resolve);
      if expected != actual then Fail(IpMismatch(name, expected, actual)) else Pass
  }

  /** The loop of `Validate`: desired addresses in order, stopping at the first failure. */
  function ValidateAll(system: seq<InterfaceAddress>, desired: seq<InterfaceAddress>, resolve: string -> Option<string>): Outcome<ValidationError>
  {
    if desired == [] then Pass
    else if Check(system, desired[0], resolve).Fail? then Check(system, desired[0], resolve)
    else ValidateAll(system, desired[1..], resolve)
  }

  /**
   * `Validate`. `provided` is what the system address provider returned
   * (`None` when it failed).
   */
  function Validate(provided: Option<seq<InterfaceAddress>>, desired: seq<InterfaceAddress>, resolve: string -> Option<string>): (r: Outcome<ValidationError>)
    ensures provided.None? ==> r == Fail(ProviderFailed)
    ensures provided.Some? && desired == [] ==> r == Pass
  {
    match provided
    case None => Fail(ProviderFailed)
    case Some(system) => ValidateAll(system, desired, resolve)
  }

  /** The validation succeeds iff every desired address has a system entry
      of the same name whose IP (the first such entry's) is equal. */
  lemma {:induction false} ValidateAllPassIff(system: seq<InterfaceAddress>, desired: seq<InterfaceAddress>, resolve: string -> Option<string>)
    ensures ValidateAll(system, desired, resolve) == Pass
        <==> forall i :: 0 <= i < |desired| ==> Check(system, desired[i], resolve) == Pass
  {
    if desired != [] {
      ValidateAllPassIff(system, desired[1..], resolve);
      if ValidateAll(system, desired, resolve) == Pass {
        forall i | 0 <= i < |desired| ensures Check(system, desired[i], resolve) == Pass {
          if i > 0 { assert desired[i] == desired[1..][i - 1]; }
        }
      }
    }
  }

  /** A failure names the first failing desired address, in list order, and
      every address before it passed. */
  lemma {:induction false} ValidateAllFirstFailure(system: seq<InterfaceAddress>, desired: seq<InterfaceAddress>, resolve: string -> Option<string>)
    requires ValidateAll(system, desired, resolve).Fail?
    ensures exists i :: (0 <= i < |desired|
      && ValidateAll(system, desired, resolve) == Check(system, desired[i], resolve)
      && forall j :: 0 <= j < i ==> Check(system, desired[j], resolve) == Pass)
  {
    if Check(system, desired[0], resolve).Fail? {
      assert ValidateAll(system, desired, resolve) == Check(system, desired[0], resolve);
    } else {
      ValidateAllFirstFailure(system, desired[1..], resolve);
      var i :| 0 <= i < |desired| - 1
        && ValidateAll(system, desired[1..], resolve) == Check(system, desired[1..][i], resolve)
        && forall j :: 0 <= j < i ==> Check(system, desired[1..][j], resolve) == Pass;
      forall j | 0 <= j < i + 1 ensures Check(system, desired[j], resolve) == Pass {
        if j > 0 { assert desired[j] == desired[1..][j - 1]; }
      }
      assert desired[i + 1] == desired[1..][i];
    }
  }

  /** The error conditions of one address: an unknown name yields an error
      naming it; a different IP yields an error carrying both values. */
  lemma CheckErrors(system: seq<InterfaceAddress>, desired: InterfaceAddress, resolve: string -> Option<string>)
    ensures (forall k :: 0 <= k < |system| ==> system[k].interfaceName != desired.interfaceName)
        ==> Check(system, desired, resolve) == Fail(NoSuchInterface(desired.interfaceName))
    ensures forall i: nat :: (FirstNamed(system, desired.interfaceName, i) && IpOf(system[i], resolve) != IpOf(desired, resolve)
        ==> Check(system, desired, resolve) == Fail(IpMismatch(desired.interfaceName, IpOf(desired, resolve), IpOf(system[i], resolve))))
  {
    forall i: nat | FirstNamed(system, desired.interfaceName, i)
      ensures FindInterfaceByName(desired.interfaceName, system) == Some(system[i])
    {
      FirstNamedUnique(system, desired.interfaceName, i);
    }
  }

  lemma FirstNamedUnique(ifaces: seq<InterfaceAddress>, name: string, i: nat)
    requires FirstNamed(ifaces, name, i)
    ensures FindInterfaceByName(name, ifaces) == Some(ifaces[i])
  {
    var k := FindInterfaceByNameFirst(name, ifaces);
    assert k == i;
  }

  /** Only the first system entry of a name is compared: a matching IP on a
      later entry of the same interface does not rescue a mismatch. */
  lemma LaterEntriesIgnored(system: seq<InterfaceAddress>, desired: InterfaceAddress, resolve: string -> Option<string>, i: nat, j: nat)
    requires FirstNamed(system, desired.interfaceName, i)
    requires i < j < |system| && system[j].interfaceName == desired.interfaceName
    requires IpOf(system[j], resolve) == IpOf(desired, resolve) != IpOf(system[i], resolve)
    ensures Check(system, desired, resolve).Fail?
  {
    FirstNamedUnique(system, desired.interfaceName, i);
  }
}

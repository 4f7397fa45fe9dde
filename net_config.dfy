/**
 * The desired network state the agent receives, and the interface records
 * the interface builder turns it into (`platform/net`).
 *
 * The settings package that defines `Network` and its helpers
 * (`IsVIP`, `IsPreconfigured`, `DefaultNetworkFor`, `HasInterfaceAlias`)
 * is not part of this model; those helpers are written here from their
 * documented behaviour.
 */
module NetworkConfig {
  import opened Common
  import opened Text
  import StableSort

  datatype NetworkType = StaticNet | DynamicNet | VipNet

  /**
   * One network of the desired state. `defaults` lists the categories
   * (`"dns"`, `"gateway"`) this network is the default for; `alias` is
   * the interface alias of the network, `""` when it has none.
   */
  datatype Network = Network(
    netType: NetworkType, ip: string, netmask: string, gateway: string,
    dns: seq<string>, defaults: seq<string>, mac: string,
    preconfigured: bool, alias: string)

  /** An entry of the name-to-network map, in the map's iteration order. */
  datatype NamedNetwork = NamedNetwork(name: string, settings: Network)

  /** A static route added after an interface comes up. */
  datatype Route = Route(destination: string, netmask: string, gateway: string)

  /**
   * A static interface. `prefixLength` is what `NetmaskOrLen` reports for
   * an IPv6 netmask (the mask parsing itself is not part of this model).
   */
  datatype StaticConfig = StaticConfig(
    name: string, address: string, netmask: string, prefixLength: string,
    network: string, broadcast: string, isDefaultForGateway: bool,
    mac: string, gateway: string, postUpRoutes: seq<Route>, isVersion6: bool)

  /** A DHCP interface. */
  datatype DhcpConfig = DhcpConfig(name: string, postUpRoutes: seq<Route>, isVersion6: bool)

  // ---------------------------------------------------------------------
  // The settings helpers
  // ---------------------------------------------------------------------

  predicate IsVip(n: Network) { n.netType == VipNet }

  /** `IsPreconfigured`: every network is marked preconfigured. */
  predicate IsPreconfigured(networks: seq<NamedNetwork>)
  {
    forall i :: 0 <= i < |networks| ==> networks[i].settings.preconfigured
  }

  /** `HasInterfaceAlias`: some network carries an interface alias. */
  predicate HasInterfaceAlias(networks: seq<NamedNetwork>)
  {
    exists i :: 0 <= i < |networks| && networks[i].settings.alias != ""
  }

  /** The first network, in iteration order, that is the default for `category`. */
  function FirstDefaultFor(networks: seq<NamedNetwork>, category: string): (r: Option<Network>)
    ensures r.Some? ==> exists i :: 0 <= i < |networks| && networks[i].settings == r.value && category in r.value.defaults
    ensures r.None? ==> forall i :: 0 <= i < |networks| ==> category !in networks[i].settings.defaults
  {
    if networks == [] then None
    else if category in networks[0].settings.defaults then Some(networks[0].settings)
    else
      var r := FirstDefaultFor(networks[1..], category);
      assert r.Some? ==> exists i :: 0 <= i < |networks| && networks[i].settings == r.value && category in r.value.defaults by {
        if r.Some? {
          var i :| 0 <= i < |networks| - 1 && networks[1..][i].settings == r.value && category in r.value.defaults;
          assert networks[i + 1] == networks[1..][i];
        }
      }
      assert r.None? ==> forall i :: 0 <= i < |networks| ==> category !in networks[i].settings.defaults by {
        if r.None? {
          forall i | 0 <= i < |networks| ensures category !in networks[i].settings.defaults {
            if i > 0 { assert networks[i] == networks[1..][i - 1]; }
          }
        }
      }
      r
  }

  /**
   * `DefaultNetworkFor(category)`: the only network when there is exactly
   * one, otherwise the first that is the default for `category`.
   */
  function DefaultNetworkFor(networks: seq<NamedNetwork>, category: string): Option<Network>
  {
    if |networks| == 1 then Some(networks[0].settings) else FirstDefaultFor(networks, category)
  }

  /** The DNS servers of the default DNS network, in declared order; none
      when there is no such network. */
  function DnsServers(networks: seq<NamedNetwork>): seq<string>
  {
    match DefaultNetworkFor(networks, "dns")
    case Some(n) => n.dns
    case None => []
  }

  // ---------------------------------------------------------------------
  // ComputeNetworkConfig's VIP filter
  // ---------------------------------------------------------------------

  /** The networks that are not VIPs, in order. */
  function NonVip(networks: seq<NamedNetwork>): (r: seq<NamedNetwork>)
    ensures |r| <= |networks|
  {
    if networks == [] then []
    else (if IsVip(networks[0].settings) then [] else [networks[0]]) + NonVip(networks[1..])
  }

  /** A network is handed to the interface builder exactly when it is in
      the input and is not a VIP. */
  lemma {:induction false} NonVipIff(networks: seq<NamedNetwork>, n: NamedNetwork)
    ensures n in NonVip(networks) <==> n in networks && !IsVip(n.settings)
  {
    if networks != [] {
      NonVipIff(networks[1..], n);
      assert networks == [networks[0]] + networks[1..];
    }
  }

  lemma {:induction false} NonVipAppend(a: seq<NamedNetwork>, b: seq<NamedNetwork>)
    ensures NonVip(a + b) == NonVip(a) + NonVip(b)
  {
    if a == [] {
      assert a + b == b;
    } else {
      assert (a + b)[0] == a[0] && (a + b)[1..] == a[1..] + b;
      NonVipAppend(a[1..], b);
    }
  }

  /** Removing a VIP network from the input changes nothing the builder sees. */
  lemma VipIgnored(a: seq<NamedNetwork>, v: NamedNetwork, b: seq<NamedNetwork>)
    requires IsVip(v.settings)
    ensures NonVip(a + [v] + b) == NonVip(a + b)
  {
    NonVipAppend(a + [v], b);
    NonVipAppend(a, [v]);
    NonVipAppend(a, b);
    assert NonVip([v]) == [] + NonVip([]);
  }

  // ---------------------------------------------------------------------
  // Interface records
  // ---------------------------------------------------------------------

  /** `StaticInterfaceConfigurations.HasVersion6`. */
  predicate StaticHasVersion6(cs: seq<StaticConfig>) { exists i :: 0 <= i < |cs| && cs[i].isVersion6 }

  /** `DHCPInterfaceConfigurations.HasVersion6`. */
  predicate DhcpHasVersion6(cs: seq<DhcpConfig>) { exists i :: 0 <= i < |cs| && cs[i].isVersion6 }

  function StaticName(c: StaticConfig): string { c.name }

  function DhcpName(c: DhcpConfig): string { c.name }

  /** The order `sort.Stable` puts the static records in: by interface name. */
  function SortStatic(cs: seq<StaticConfig>): (r: seq<StaticConfig>)
    ensures multiset(r) == multiset(cs) && StableSort.SortedBy(r, StaticName)
  {
    StableSort.SortPermutes(cs, StaticName);
    StableSort.SortSorted(cs, StaticName);
    StableSort.Sort(cs, StaticName)
  }

  /** The order `sort.Stable` puts the DHCP records in: by interface name. */
  function SortDhcp(cs: seq<DhcpConfig>): (r: seq<DhcpConfig>)
    ensures multiset(r) == multiset(cs) && StableSort.SortedBy(r, DhcpName)
  {
    StableSort.SortPermutes(cs, DhcpName);
    StableSort.SortSorted(cs, DhcpName);
    StableSort.Sort(cs, DhcpName)
  }

  /** The interface names of the records, in order; `name` is `DhcpName` or `StaticName`. */
  function Names<T>(cs: seq<T>, name: T -> string): (r: seq<string>)
    ensures |r| == |cs| && forall i :: 0 <= i < |cs| ==> r[i] == name(cs[i])
  {
    seq(|cs|, i requires 0 <= i < |cs| => name(cs[i]))
  }
}

/**
 * What the network manager reads about the host's interfaces and what it
 * derives from its interface records: the MAC-to-name map of the physical
 * devices under `/sys/class/net`, the interface names handed to
 * `ifdown`/`ifup`, the addresses handed to validation and broadcast, and
 * the filter that skips virtual `:<digits>` aliases.
 */
module NetInterfaces {
  import opened Common
  import opened Text
  import opened Host
  import opened InterfaceAddresses
  import opened NetworkConfig

  datatype DetectError = ListingDevices | ReadingMac(cause: FsError)

  // ---------------------------------------------------------------------
  // detectMacAddresses
  // ---------------------------------------------------------------------

  /** `path.Base` of a device path: the text after its last `/`. */
  function PathBase(p: string): string
  {
    if p == [] || p[|p| - 1] == '/' then [] else PathBase(p[..|p| - 1]) + [p[|p| - 1]]
  }

  /** The base name is the suffix of the path after its last `/`: it holds
      no `/`, and it is the whole path or follows a `/`. */
  lemma {:induction false} PathBaseIsLastSegment(p: string)
    ensures Free(PathBase(p), '/')
    ensures |PathBase(p)| <= |p| && PathBase(p) == p[|p| - |PathBase(p)|..]
    ensures |PathBase(p)| < |p| ==> p[|p| - |PathBase(p)| - 1] == '/'
  {
    if p != [] && p[|p| - 1] != '/' {
      var q := p[..|p| - 1];
      var c := p[|p| - 1];
      PathBaseIsLastSegment(q);
      var r := PathBase(q);
      var b := PathBase(p);
      assert b == r + [c];
      forall i | 0 <= i < |b| ensures b[i] != '/' {
        if i < |r| { assert b[i] == r[i]; }
      }
      assert p == q + [c];
      assert p[|p| - |b|..] == q[|q| - |r|..] + [c];
      if |b| < |p| { assert p[|p| - |b| - 1] == q[|q| - |r| - 1]; }
    }
  }

  /** A physical device has a `device` entry. */
  predicate Physical(s: HostState, p: string)
  {
    FileExists(s, p + "/device")
  }

  /** The device's MAC address: its `address` file without surrounding newlines. */
  function MacOf(m: Machine, s: HostState, p: string): Result<string, FsError>
  {
    match ReadFile(m, s, p + "/address")
    case Err(e) => Err(e)
    case Ok(text) => Ok(Trim(text, '\n'))
  }

  /** Device `p` is physical and reports `mac`. */
  predicate HasMac(m: Machine, s: HostState, p: string, mac: string)
  {
    Physical(s, p) && MacOf(m, s, p) == Ok(mac)
  }

  /** One turn of the loop: a physical device adds its MAC, mapped to the
      device's base name; one whose address cannot be read stops the loop. */
  function AddDevice(m: Machine, s: HostState, macs: map<string, string>, p: string): Result<map<string, string>, DetectError>
  {
    if !Physical(s, p) then Ok(macs)
    else match MacOf(m, s, p)
      case Err(e) => Err(ReadingMac(e))
      case Ok(mac) => Ok(macs[mac := PathBase(p)])
  }

  lemma AddDeviceErr(m: Machine, s: HostState, macs: map<string, string>, p: string)
    ensures AddDevice(m, s, macs, p).Err? <==> Physical(s, p) && MacOf(m, s, p).Err?
  {
  }

  lemma AddDeviceKeys(m: Machine, s: HostState, macs: map<string, string>, p: string, mac: string)
    requires AddDevice(m, s, macs, p).Ok?
    ensures mac in AddDevice(m, s, macs, p).value <==> mac in macs || HasMac(m, s, p, mac)
    ensures HasMac(m, s, p, mac) ==> AddDevice(m, s, macs, p).value[mac] == PathBase(p)
    ensures mac in macs && !HasMac(m, s, p, mac) ==> AddDevice(m, s, macs, p).value[mac] == macs[mac]
  {
  }

  /** The map the loop has built after the devices `paths`, in order;
      a later device with the same MAC replaces an earlier one. */
  function MacsOver(m: Machine, s: HostState, paths: seq<string>): Result<map<string, string>, DetectError>
  {
    if paths == [] then Ok(map[])
    else
      match MacsOver(m, s, paths[..|paths| - 1])
      case Err(e) => Err(e)
      case Ok(macs) => AddDevice(m, s, macs, paths[|paths| - 1])
  }

  /** `detectMacAddresses`. */
  function DetectMacs(m: Machine, s: HostState): Result<map<string, string>, DetectError>
  {
    match m.netDevices
    case None => Err(ListingDevices)
    case Some(paths) => MacsOver(m, s, paths)
  }

  /** Once a device's address cannot be read, the loop stops with that error. */
  lemma {:induction false} MacsOverErrPersists(m: Machine, s: HostState, paths: seq<string>, k: nat)
    requires k <= |paths| && MacsOver(m, s, paths[..k]).Err?
    ensures MacsOver(m, s, paths) == MacsOver(m, s, paths[..k])
    decreases |paths| - k
  {
    if k < |paths| {
      var front := paths[..|paths| - 1];
      assert front[..k] == paths[..k];
      MacsOverErrPersists(m, s, front, k);
    } else {
      assert paths[..k] == paths;
    }
  }

  /** Every key of the map is the MAC of some physical device (returned as `i`). */
  lemma {:induction false} MacsOverKeySource(m: Machine, s: HostState, paths: seq<string>, mac: string) returns (i: nat)
    requires MacsOver(m, s, paths).Ok? && mac in MacsOver(m, s, paths).value
    ensures i < |paths| && HasMac(m, s, paths[i], mac)
  {
    var front := paths[..|paths| - 1];
    var p := paths[|paths| - 1];
    var acc := MacsOver(m, s, front);
    assert acc.Ok? && MacsOver(m, s, paths) == AddDevice(m, s, acc.value, p);
    AddDeviceKeys(m, s, acc.value, p, mac);
    if HasMac(m, s, p, mac) {
      i := |paths| - 1;
    } else {
      i := MacsOverKeySource(m, s, front, mac);
      assert front[i] == paths[i];
    }
  }

  /** Every MAC a physical device reports is a key of the map. */
  lemma {:induction false} MacsOverHasKey(m: Machine, s: HostState, paths: seq<string>, mac: string, i: nat)
    requires MacsOver(m, s, paths).Ok?
    requires i < |paths| && HasMac(m, s, paths[i], mac)
    ensures mac in MacsOver(m, s, paths).value
  {
    var front := paths[..|paths| - 1];
    var p := paths[|paths| - 1];
    var acc := MacsOver(m, s, front);
    assert acc.Ok? && MacsOver(m, s, paths) == AddDevice(m, s, acc.value, p);
    AddDeviceKeys(m, s, acc.value, p, mac);
    if i < |paths| - 1 {
      assert front[i] == paths[i];
      MacsOverHasKey(m, s, front, mac, i);
    }
  }

  /** Each MAC maps to the base name of the last physical device reporting it. */
  lemma {:induction false} MacsOverLastWins(m: Machine, s: HostState, paths: seq<string>, mac: string, i: nat)
    requires MacsOver(m, s, paths).Ok?
    requires i < |paths| && HasMac(m, s, paths[i], mac)
    requires forall j :: i < j < |paths| ==> !HasMac(m, s, paths[j], mac)
    ensures mac in MacsOver(m, s, paths).value && MacsOver(m, s, paths).value[mac] == PathBase(paths[i])
  {
    var front := paths[..|paths| - 1];
    var p := paths[|paths| - 1];
    var acc := MacsOver(m, s, front);
    assert acc.Ok? && MacsOver(m, s, paths) == AddDevice(m, s, acc.value, p);
    AddDeviceKeys(m, s, acc.value, p, mac);
    if i < |paths| - 1 {
      assert front[i] == paths[i];
      forall j | i < j < |front| ensures !HasMac(m, s, front[j], mac) {
        assert front[j] == paths[j];
      }
      MacsOverLastWins(m, s, front, mac, i);
    }
  }

  /** A device whose address cannot be read. */
  predicate MacUnreadable(m: Machine, s: HostState, p: string)
  {
    Physical(s, p) && MacOf(m, s, p).Err?
  }

  /** Detection fails exactly when some physical device's address cannot be read. */
  lemma {:induction false} MacsOverErrIff(m: Machine, s: HostState, paths: seq<string>)
    ensures MacsOver(m, s, paths).Err? <==> exists i :: 0 <= i < |paths| && MacUnreadable(m, s, paths[i])
  {
    if paths != [] {
      var front := paths[..|paths| - 1];
      var p := paths[|paths| - 1];
      MacsOverErrIff(m, s, front);
      var acc := MacsOver(m, s, front);
      if acc.Ok? {
        assert MacsOver(m, s, paths) == AddDevice(m, s, acc.value, p);
        AddDeviceErr(m, s, acc.value, p);
      }
      if exists i :: 0 <= i < |front| && MacUnreadable(m, s, front[i]) {
        var i :| 0 <= i < |front| && MacUnreadable(m, s, front[i]);
        assert paths[i] == front[i];
      }
      if exists i :: 0 <= i < |paths| && MacUnreadable(m, s, paths[i]) {
        var i :| 0 <= i < |paths| && MacUnreadable(m, s, paths[i]);
        if i < |front| {
          assert front[i] == paths[i];
        }
      }
    }
  }

  /** Detection reads files and links only: the log does not matter. */
  lemma {:induction false} MacsOverIgnoresLog(m: Machine, s: HostState, t: seq<Event>, paths: seq<string>)
    ensures MacsOver(m, s.(trace := t), paths) == MacsOver(m, s, paths)
  {
    if paths != [] {
      var front := paths[..|paths| - 1];
      MacsOverIgnoresLog(m, s, t, front);
      var acc := MacsOver(m, s, front);
      if acc.Ok? {
        AddDeviceIgnoresLog(m, s, t, acc.value, paths[|paths| - 1]);
      }
    }
  }

  lemma AddDeviceIgnoresLog(m: Machine, s: HostState, t: seq<Event>, macs: map<string, string>, p: string)
    ensures AddDevice(m, s.(trace := t), macs, p) == AddDevice(m, s, macs, p)
  {
    var s' := s.(trace := t);
    assert s'.files == s.files && s'.links == s.links;
    assert Physical(s', p) == Physical(s, p);
    assert MacOf(m, s', p) == MacOf(m, s, p);
  }

  lemma DetectIgnoresLog(m: Machine, s: HostState, t: seq<Event>)
    ensures DetectMacs(m, s.(trace := t)) == DetectMacs(m, s)
  {
    if m.netDevices.Some? {
      MacsOverIgnoresLog(m, s, t, m.netDevices.value);
    }
  }

  /**
   * The values of the map in the order the loop visits its keys. Go leaves
   * the order of a map loop unspecified, so `keys` is a parameter.
   */
  function ValuesInOrder(macs: map<string, string>, keys: seq<string>): (r: seq<string>)
    ensures forall n :: n in r ==> n in macs.Values
  {
    if keys == [] then []
    else (if keys[0] in macs then [macs[keys[0]]] else []) + ValuesInOrder(macs, keys[1..])
  }

  /** When the visit covers every key, every interface of the map is visited. */
  lemma {:induction false} ValuesInOrderComplete(macs: map<string, string>, keys: seq<string>)
    requires forall k :: k in macs ==> k in keys
    ensures forall n :: n in macs.Values ==> n in ValuesInOrder(macs, keys)
  {
    forall n | n in macs.Values ensures n in ValuesInOrder(macs, keys) {
      var k :| k in macs && macs[k] == n;
      ValuesInOrderHas(macs, keys, k);
    }
  }

  lemma {:induction false} ValuesInOrderHas(macs: map<string, string>, keys: seq<string>, k: string)
    requires k in macs && k in keys
    ensures macs[k] in ValuesInOrder(macs, keys)
  {
    if keys[0] != k {
      ValuesInOrderHas(macs, keys[1..], k);
    }
  }

  // ---------------------------------------------------------------------
  // ifaceNames, ifaceAddresses, and the alias filter
  // ---------------------------------------------------------------------

  /** `ifaceNames`: the DHCP interface names, then the static ones, in record order. */
  function IfaceNamesOf(dhcp: seq<DhcpConfig>, statics: seq<StaticConfig>): (r: seq<string>)
    ensures |r| == |dhcp| + |statics|
    ensures forall i :: 0 <= i < |dhcp| ==> r[i] == dhcp[i].name
    ensures forall i :: 0 <= i < |statics| ==> r[|dhcp| + i] == statics[i].name
  {
    Names(dhcp, DhcpName) + Names(statics, StaticName)
  }

  /** The static half of `ifaceAddresses`: each static interface with its configured IP. */
  function StaticAddresses(statics: seq<StaticConfig>): (r: seq<InterfaceAddress>)
    ensures |r| == |statics|
    ensures forall i :: 0 <= i < |statics| ==> r[i] == Simple(statics[i].name, statics[i].address)
  {
    seq(|statics|, i requires 0 <= i < |statics| => Simple(statics[i].name, statics[i].address))
  }

  /** The dynamic half: each DHCP interface, resolving its IP on demand. */
  function DynamicAddresses(dhcp: seq<DhcpConfig>): (r: seq<InterfaceAddress>)
    ensures |r| == |dhcp|
    ensures forall i :: 0 <= i < |dhcp| ==> r[i] == Resolving(dhcp[i].name)
  {
    seq(|dhcp|, i requires 0 <= i < |dhcp| => Resolving(dhcp[i].name))
  }

  /** A virtual alias: the name matches `:\d+`. */
  predicate IsVirtual(a: InterfaceAddress)
  {
    HasColonDigits(a.interfaceName)
  }

  /** The addresses that are not virtual aliases, in their order. */
  function WithoutVirtual(addrs: seq<InterfaceAddress>): (r: seq<InterfaceAddress>)
    ensures |r| <= |addrs|
  {
    if addrs == [] then []
    else (if IsVirtual(addrs[0]) then [] else [addrs[0]]) + WithoutVirtual(addrs[1..])
  }

  /** An address is kept exactly when it is in the input and its name has
      no colon followed by a digit. */
  lemma {:induction false} WithoutVirtualIff(addrs: seq<InterfaceAddress>, a: InterfaceAddress)
    ensures a in WithoutVirtual(addrs) <==>
      a in addrs && !exists i :: 0 <= i < |a.interfaceName| - 1 && a.interfaceName[i] == ':' && IsDigit(a.interfaceName[i + 1])
  {
    HasColonDigitsIff(a.interfaceName);
    if addrs != [] {
      WithoutVirtualIff(addrs[1..], a);
      assert addrs == [addrs[0]] + addrs[1..];
    }
  }

  /** The filter keeps the relative order: it distributes over concatenation. */
  lemma {:induction false} WithoutVirtualAppend(a: seq<InterfaceAddress>, b: seq<InterfaceAddress>)
    ensures WithoutVirtual(a + b) == WithoutVirtual(a) + WithoutVirtual(b)
  {
    if a == [] {
      assert a + b == b;
    } else {
      assert (a + b)[0] == a[0] && (a + b)[1..] == a[1..] + b;
      WithoutVirtualAppend(a[1..], b);
    }
  }

  /** Input with no virtual alias passes through unchanged. */
  lemma {:induction false} WithoutVirtualNoop(addrs: seq<InterfaceAddress>)
    requires forall i :: 0 <= i < |addrs| ==> !IsVirtual(addrs[i])
    ensures WithoutVirtual(addrs) == addrs
  {
    if addrs != [] {
      WithoutVirtualNoop(addrs[1..]);
      assert addrs == [addrs[0]] + addrs[1..];
    }
  }

  // ---------------------------------------------------------------------
  // GetConfiguredNetworkInterfaces
  // ---------------------------------------------------------------------

  /** The regular expression `[uU]nknown interface`, unanchored. */
  predicate MentionsUnknownInterface(stderr: string)
  {
    Contains(stderr, "unknown interface") || Contains(stderr, "Unknown interface")
  }

  function ProbeCommand(name: string): Command { Command("ifup", ["--no-act", name]) }

  /** One `ifup --no-act` per name, in order; the names kept are those whose
      probe does not report an unknown interface. */
  function ProbeRun(m: Machine, s: HostState, names: seq<string>): (HostState, seq<string>)
    decreases |names|
  {
    if names == [] then (s, [])
    else
      var (s1, kept) := ProbeRun(m, s, names[..|names| - 1]);
      var n := names[|names| - 1];
      var (s2, r) := RunStep(m, s1, ProbeCommand(n));
      (s2, if MentionsUnknownInterface(r.stderr) then kept else kept + [n])
  }

  function Probes(names: seq<string>): (r: seq<Event>)
    ensures |r| == |names| && forall i :: 0 <= i < |names| ==> r[i] == Ran(ProbeCommand(names[i]))
  {
    seq(|names|, i requires 0 <= i < |names| => Ran(ProbeCommand(names[i])))
  }

  /**
   * Probing changes only the log, by one probe per name in order, and
   * keeps a subsequence of the names: each kept name is one of them, and
   * every name whose probe answered without an unknown-interface error.
   */
  lemma ProbeRunShape(m: Machine, s: HostState, names: seq<string>)
    ensures ProbeRun(m, s, names).0 == s.(trace := s.trace + Probes(names))
    ensures |ProbeRun(m, s, names).1| <= |names|
    ensures forall n :: n in ProbeRun(m, s, names).1 ==> n in names
    ensures forall i :: 0 <= i < |names| ==>
      (!MentionsUnknownInterface(m.respond(s.trace + Probes(names[..i]), ProbeCommand(names[i])).stderr)
       ==> names[i] in ProbeRun(m, s, names).1)
    ensures forall n :: n in ProbeRun(m, s, names).1 ==>
      exists i :: 0 <= i < |names| && names[i] == n
        && !MentionsUnknownInterface(m.respond(s.trace + Probes(names[..i]), ProbeCommand(names[i])).stderr)
  {
    ProbeRunLog(m, s, names);
    ProbeRunKeepsNames(m, s, names);
    ProbeRunKeepsAnswered(m, s, names);
    ProbeRunKeepsOnlyAnswered(m, s, names);
  }

  lemma {:induction false} ProbeRunLog(m: Machine, s: HostState, names: seq<string>)
    ensures ProbeRun(m, s, names).0 == s.(trace := s.trace + Probes(names))
    decreases |names|
  {
    if names == [] {
      assert s.trace + Probes(names) == s.trace;
    } else {
      var front := names[..|names| - 1];
      var n := names[|names| - 1];
      ProbeRunLog(m, s, front);
      var s1 := ProbeRun(m, s, front).0;
      assert ProbeRun(m, s, names).0 == s1.(trace := s1.trace + [Ran(ProbeCommand(n))]);
      assert Probes(names) == Probes(front) + [Ran(ProbeCommand(n))];
    }
  }

  lemma {:induction false} ProbeRunKeepsNames(m: Machine, s: HostState, names: seq<string>)
    ensures |ProbeRun(m, s, names).1| <= |names|
    ensures forall n :: n in ProbeRun(m, s, names).1 ==> n in names
    decreases |names|
  {
    if names != [] {
      var front := names[..|names| - 1];
      ProbeRunKeepsNames(m, s, front);
      var kf := ProbeRun(m, s, front).1;
      var kept := ProbeRun(m, s, names).1;
      assert kept == kf || kept == kf + [names[|names| - 1]];
      forall n | n in kept ensures n in names {
        if n in kf {
          var j :| 0 <= j < |front| && front[j] == n;
          assert names[j] == n;
        }
      }
    }
  }

  lemma {:induction false} ProbeRunKeepsAnswered(m: Machine, s: HostState, names: seq<string>)
    ensures forall i :: 0 <= i < |names| ==>
      (!MentionsUnknownInterface(m.respond(s.trace + Probes(names[..i]), ProbeCommand(names[i])).stderr)
       ==> names[i] in ProbeRun(m, s, names).1)
    decreases |names|
  {
    if names != [] {
      var front := names[..|names| - 1];
      var n := names[|names| - 1];
      ProbeRunKeepsAnswered(m, s, front);
      ProbeRunLog(m, s, front);
      var (s1, kf) := ProbeRun(m, s, front);
      var r := m.respond(s1.trace, ProbeCommand(n));
      var kept := if MentionsUnknownInterface(r.stderr) then kf else kf + [n];
      assert ProbeRun(m, s, names).1 == kept;
      forall i | 0 <= i < |names| && !MentionsUnknownInterface(m.respond(s.trace + Probes(names[..i]), ProbeCommand(names[i])).stderr)
        ensures names[i] in kept
      {
        if i < |front| {
          assert names[..i] == front[..i] && names[i] == front[i];
        } else {
          assert names[..i] == front;
        }
      }
    }
  }

  /** Every kept name is one whose probe, at its turn, answered without an unknown-interface error. */
  lemma {:induction false} ProbeRunKeepsOnlyAnswered(m: Machine, s: HostState, names: seq<string>)
    ensures forall n :: n in ProbeRun(m, s, names).1 ==>
      exists i :: 0 <= i < |names| && names[i] == n
        && !MentionsUnknownInterface(m.respond(s.trace + Probes(names[..i]), ProbeCommand(names[i])).stderr)
    decreases |names|
  {
    if names != [] {
      var front := names[..|names| - 1];
      var last := names[|names| - 1];
      ProbeRunKeepsOnlyAnswered(m, s, front);
      ProbeRunLog(m, s, front);
      var (s1, kf) := ProbeRun(m, s, front);
      var r := m.respond(s1.trace, ProbeCommand(last));
      var kept := if MentionsUnknownInterface(r.stderr) then kf else kf + [last];
      assert ProbeRun(m, s, names).1 == kept;
      forall n | n in kept
        ensures exists i :: (0 <= i < |names| && names[i] == n
                  && !MentionsUnknownInterface(m.respond(s.trace + Probes(names[..i]), ProbeCommand(names[i])).stderr))
      {
        if n in kf {
          var i :| 0 <= i < |front| && front[i] == n
            && !MentionsUnknownInterface(m.respond(s.trace + Probes(front[..i]), ProbeCommand(front[i])).stderr);
          assert names[..i] == front[..i] && names[i] == front[i];
        } else {
          assert n == last && names[..|front|] == front;
        }
      }
    }
  }
}

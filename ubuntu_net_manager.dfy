/**
 * `UbuntuNetManager` (platform/net): one pass of network reconciliation on
 * an Ubuntu host. It writes the resolver configuration, computes the
 * interface records of the non-VIP networks, dry-runs the writes of
 * `/etc/network/interfaces` and `/etc/dhcp/dhclient.conf` to learn whether
 * anything changed, and only then tears the interfaces down, writes the
 * files and brings them back up; it finishes by validating the static
 * addresses and the DNS servers and broadcasting the addresses.
 *
 * The pass is specified by pure functions over `HostState` (`SetupRun` and
 * the functions it is made of); the methods of `UbuntuNetManager` are
 * proved to compute exactly those functions, and the properties of the
 * pass are lemmas about the functions.
 */
module UbuntuNet {
  import opened Common
  import opened Text
  import opened Host
  import opened InterfaceAddresses
  import opened NetworkConfig
  import opened NetTemplates
  import opened NetInterfaces
  import StableSort

  const InterfacesPath := "/etc/network/interfaces"
  const DhclientPath := "/etc/dhcp/dhclient.conf"
  const ResolvBasePath := "/etc/resolvconf/resolv.conf.d/base"
  const ResolvConfPath := "/etc/resolv.conf"
  const RunResolvConfPath := "/run/resolvconf/resolv.conf"

  const PkillDhclient := Command("pkill", ["dhclient"])
  const ResolvconfUpdate := Command("resolvconf", ["-u"])

  function ResolvconfDelete(name: string): Command { Command("resolvconf", ["-d", name + ".dhclient"]) }
  function Ifdown(names: seq<string>): Command { Command("ifdown", ["--force"] + names) }
  function Ifup(names: seq<string>): Command { Command("ifup", ["--force"] + names) }

  /**
   * The collaborators whose code is not part of this model, as the fixed
   * functions of one pass: the interface builder (`None` when it fails),
   * the kernel IPv6 switch, the system address provider of the validator,
   * the IP resolver of DHCP interfaces, the DNS validator, and the order in
   * which Go happens to visit the keys of the MAC map.
   */
  datatype Collaborators = Collaborators(
    createConfigs: (seq<NamedNetwork>, map<string, string>) -> Option<(seq<StaticConfig>, seq<DhcpConfig>)>,
    enableIPv6: seq<Event> -> bool,
    systemAddresses: seq<Event> -> Option<seq<InterfaceAddress>>,
    resolve: string -> Option<string>,
    dnsValid: (seq<Event>, seq<string>) -> bool,
    macOrder: map<string, string> -> seq<string>)

  datatype NetEnv = NetEnv(m: Machine, co: Collaborators)

  datatype ResolvError =
    | WritingBase(cause: FsError)
    | ReadingLink(cause: FsError)
    | CopyingResolvConf(cause: FsError)
    | Linking(cause: FsError)
    | UpdatingResolvconf

  datatype WriteError = WritingInterfaces(cause: FsError) | WritingDhcp(cause: FsError)

  datatype ComputeError = GettingInterfaces(detectError: DetectError) | CreatingConfigs

  datatype NetError =
    | Resolv(resolvError: ResolvError)
    | Computing(computeError: ComputeError)
    | EnablingIPv6
    | DeterminingChange(dryRunError: WriteError)
    | Cleanup(detectError: DetectError)
    | UpdatingConfigs(writeError: WriteError)
    | ValidatingStatic(validationError: ValidationError)
    | ValidatingDns

  /** What `ComputeNetworkConfig` returns. */
  datatype Computed = Computed(statics: seq<StaticConfig>, dhcp: seq<DhcpConfig>, dns: seq<string>)

  /** The records after `writeNetworkInterfaces` has sorted them in place. */
  function Sorted(c: Computed): Computed
  {
    Computed(SortStatic(c.statics), SortDhcp(c.dhcp), c.dns)
  }

  // ---------------------------------------------------------------------
  // writeResolvConf
  // ---------------------------------------------------------------------

  /** The base file: written from the DNS servers when there are some,
      otherwise copied from a `/etc/resolv.conf` that is not yet a link. */
  function ResolvPrepareStep(m: Machine, s: HostState, dns: seq<string>): (HostState, Outcome<ResolvError>)
  {
    if |dns| > 0 then
      var (s1, w) := WriteFileStep(m, s, ResolvBasePath, ResolvConfFile(dns));
      (s1, if w.Fail? then Fail(WritingBase(w.error)) else Pass)
    else
      match ReadAndFollowLink(s, ResolvConfPath)
      case Err(e) => (s, Fail(ReadingLink(e)))
      case Ok(target) =>
        if target != ResolvConfPath then (s, Pass)
        else
          var (s1, c) := CopyFileStep(m, s, ResolvConfPath, ResolvBasePath);
          (s1, if c.Fail? then Fail(CopyingResolvConf(c.error)) else Pass)
  }

  /** `writeResolvConf`: prepare the base, link `/etc/resolv.conf` to the
      resolvconf output, and run `resolvconf -u`. */
  function ResolvConfRun(m: Machine, s: HostState, networks: seq<NamedNetwork>): (HostState, Outcome<ResolvError>)
  {
    var (s1, prepared) := ResolvPrepareStep(m, s, DnsServers(networks));
    if prepared.Fail? then (s1, prepared)
    else
      var (s2, linked) := SymlinkStep(m, s1, RunResolvConfPath, ResolvConfPath);
      if linked.Fail? then (s2, Fail(Linking(linked.error)))
      else
        var (s3, out) := RunStep(m, s2, ResolvconfUpdate);
        (s3, if out.failed then Fail(UpdatingResolvconf) else Pass)
  }

  // ---------------------------------------------------------------------
  // ComputeNetworkConfig
  // ---------------------------------------------------------------------

  /** `buildInterfaces`: detect the MAC map, then hand it to the builder. */
  function BuildRun(e: NetEnv, s: HostState, networks: seq<NamedNetwork>): Result<(seq<StaticConfig>, seq<DhcpConfig>), ComputeError>
  {
    match DetectMacs(e.m, s)
    case Err(d) => Err(GettingInterfaces(d))
    case Ok(macs) =>
      match e.co.createConfigs(networks, macs)
      case None => Err(CreatingConfigs)
      case Some(configs) => Ok(configs)
  }

  /** `ComputeNetworkConfig`: build over the non-VIP networks; the DNS
      servers are those of their default DNS network. */
  function ComputeRun(e: NetEnv, s: HostState, networks: seq<NamedNetwork>): Result<Computed, ComputeError>
  {
    var nonVip := NonVip(networks);
    match BuildRun(e, s, nonVip)
    case Err(ce) => Err(ce)
    case Ok((statics, dhcp)) => Ok(Computed(statics, dhcp, DnsServers(nonVip)))
  }

  // ---------------------------------------------------------------------
  // writeNetConfigs
  // ---------------------------------------------------------------------

  /** `writeNetworkInterfaces`: the records are sorted by name before rendering. */
  function InterfacesStep(m: Machine, s: HostState, dhcp: seq<DhcpConfig>, statics: seq<StaticConfig>, dns: seq<string>, dryRun: bool): (HostState, Result<bool, FsError>)
  {
    ConvergeStep(m, s, InterfacesPath, InterfacesFile(SortDhcp(dhcp), SortStatic(statics), dns), dryRun)
  }

  /** `writeDHCPConfiguration`. */
  function DhcpStep(m: Machine, s: HostState, dns: seq<string>, dryRun: bool): (HostState, Result<bool, FsError>)
  {
    ConvergeStep(m, s, DhclientPath, DhclientFile(dns), dryRun)
  }

  /** The interfaces file a pass renders: the records sorted by name. */
  function InterfacesText(dhcp: seq<DhcpConfig>, statics: seq<StaticConfig>, dns: seq<string>): string
  {
    InterfacesFile(SortDhcp(dhcp), SortStatic(statics), dns)
  }

  /** The DHCP file a pass renders, when there are DHCP interfaces. */
  function DhcpText(dhcp: seq<DhcpConfig>, dns: seq<string>): Option<string>
  {
    if |dhcp| > 0 then Some(DhclientFile(dns)) else None
  }

  /** Converge the interfaces file to `text`, then the DHCP file to
      `dhcpText` when there is one; changed when either changed. */
  function WriteFilesRun(m: Machine, s: HostState, text: string, dhcpText: Option<string>, dryRun: bool): (HostState, Result<bool, WriteError>)
  {
    var (s1, ic) := ConvergeStep(m, s, InterfacesPath, text, dryRun);
    if ic.Err? then (s1, Err(WritingInterfaces(ic.error)))
    else match dhcpText
      case None => (s1, Ok(ic.value))
      case Some(d) =>
        var (s2, dc) := ConvergeStep(m, s1, DhclientPath, d, dryRun);
        if dc.Err? then (s2, Err(WritingDhcp(dc.error)))
        else (s2, Ok(ic.value || dc.value))
  }

  /** `writeNetConfigs`: the interfaces file, then the DHCP file when there
      are DHCP interfaces. */
  function WriteNetConfigsRun(m: Machine, s: HostState, dhcp: seq<DhcpConfig>, statics: seq<StaticConfig>, dns: seq<string>, dryRun: bool): (HostState, Result<bool, WriteError>)
  {
    WriteFilesRun(m, s, InterfacesText(dhcp, statics, dns), DhcpText(dhcp, dns), dryRun)
  }

  // ---------------------------------------------------------------------
  // removeDhcpDNSConfiguration, stop/startNetworkingInterfaces
  // ---------------------------------------------------------------------

  /** One `resolvconf -d <name>.dhclient` per interface name, in order. */
  function Deletes(names: seq<string>): (r: seq<Event>)
    ensures |r| == |names| && forall i :: 0 <= i < |names| ==> r[i] == Ran(ResolvconfDelete(names[i]))
  {
    seq(|names|, i requires 0 <= i < |names| => Ran(ResolvconfDelete(names[i])))
  }

  /** The interface names in the order the MAC map is visited. */
  function VisitedNames(e: NetEnv, macs: map<string, string>): seq<string>
  {
    ValuesInOrder(macs, e.co.macOrder(macs))
  }

  /** `removeDhcpDNSConfiguration`: `pkill dhclient` (its failure ignored),
      then drop the resolvconf record of every detected interface. */
  function RemoveDhcpDnsRun(e: NetEnv, s: HostState): (HostState, Outcome<DetectError>)
  {
    var (s1, _) := RunStep(e.m, s, PkillDhclient);
    match DetectMacs(e.m, s1)
    case Err(d) => (s1, Fail(d))
    case Ok(macs) => (s1.(trace := s1.trace + Deletes(VisitedNames(e, macs))), Pass)
  }

  /** `stopNetworkingInterfaces`: one `ifdown --force`; its failure is ignored. */
  function StopStep(m: Machine, s: HostState, dhcp: seq<DhcpConfig>, statics: seq<StaticConfig>): HostState
  {
    RunStep(m, s, Ifdown(IfaceNamesOf(dhcp, statics))).0
  }

  /** `startNetworkingInterfaces`: one `ifup --force`; its failure is ignored. */
  function StartStep(m: Machine, s: HostState, dhcp: seq<DhcpConfig>, statics: seq<StaticConfig>): HostState
  {
    RunStep(m, s, Ifup(IfaceNamesOf(dhcp, statics))).0
  }

  // ---------------------------------------------------------------------
  // SetupNetworking
  // ---------------------------------------------------------------------

  /** The kernel IPv6 switch, called only when a static interface is IPv6. */
  function EnableStep(e: NetEnv, s: HostState, statics: seq<StaticConfig>): (HostState, bool)
  {
    if StaticHasVersion6(statics) then (RecordStep(s, EnabledIPv6), e.co.enableIPv6(s.trace))
    else (s, true)
  }

  /**
   * The middle of `SetupNetworking`: a dry run of the writes; on a change,
   * the DHCP cleanup, `ifdown`, the real writes and `ifup`. The real
   * writes see the records already sorted by the dry run.
   */
  function ConvergeRun(e: NetEnv, s: HostState, c: Computed): (HostState, Outcome<NetError>)
  {
    var (s1, dry) := WriteNetConfigsRun(e.m, s, c.dhcp, c.statics, c.dns, true);
    if dry.Err? then (s1, Fail(DeterminingChange(dry.error)))
    else if !dry.value then (s1, Pass)
    else ApplyRun(e, s1, Sorted(c))
  }

  /** The changes, once the dry run has reported one: cleanup, `ifdown`,
      the real writes, `ifup`. */
  function ApplyRun(e: NetEnv, s: HostState, c: Computed): (HostState, Outcome<NetError>)
  {
    var (s1, cleaned) := RemoveDhcpDnsRun(e, s);
    if cleaned.Fail? then (s1, Fail(Cleanup(cleaned.error)))
    else
      var s2 := StopStep(e.m, s1, c.dhcp, c.statics);
      var (s3, wrote) := WriteNetConfigsRun(e.m, s2, c.dhcp, c.statics, c.dns, false);
      if wrote.Err? then (s3, Fail(UpdatingConfigs(wrote.error)))
      else (StartStep(e.m, s3, c.dhcp, c.statics), Pass)
  }

  /** The static addresses handed to validation: those not on a virtual alias. */
  function ValidatedAddresses(c: Computed): seq<InterfaceAddress>
  {
    WithoutVirtual(StaticAddresses(c.statics))
  }

  /** The end of `SetupNetworking`: validate, then broadcast. */
  function FinishRun(e: NetEnv, s: HostState, c: Computed): (HostState, Outcome<NetError>)
  {
    var kept := ValidatedAddresses(c);
    match Validate(e.co.systemAddresses(s.trace), kept, e.co.resolve)
    case Fail(v) => (s, Fail(ValidatingStatic(v)))
    case Pass =>
      if !e.co.dnsValid(s.trace, c.dns) then (s, Fail(ValidatingDns))
      else (RecordStep(s, Broadcast(kept + DynamicAddresses(c.dhcp))), Pass)
  }

  /** With an interface alias the resolver configuration is written first and
      its outcome ignored. */
  function AliasStep(e: NetEnv, s: HostState, networks: seq<NamedNetwork>): HostState
  {
    if HasInterfaceAlias(networks) then ResolvConfRun(e.m, s, networks).0 else s
  }

  /** `SetupNetworking`. */
  function SetupRun(e: NetEnv, s: HostState, networks: seq<NamedNetwork>): (HostState, Outcome<NetError>)
  {
    if IsPreconfigured(networks) then
      var (s1, r) := ResolvConfRun(e.m, s, networks);
      (s1, if r.Fail? then Fail(Resolv(r.error)) else Pass)
    else
      var s1 := AliasStep(e, s, networks);
      match ComputeRun(e, s1, networks)
      case Err(ce) => (s1, Fail(Computing(ce)))
      case Ok(c) =>
        var (s2, enabled) := EnableStep(e, s1, c.statics);
        if !enabled then (s2, Fail(EnablingIPv6))
        else ConvergeFinishRun(e, s2, c)
  }

  /** `SetupNetworking` once IPv6 is enabled where needed: converge the
      files and interfaces, then validate and broadcast. */
  function ConvergeFinishRun(e: NetEnv, s: HostState, c: Computed): (HostState, Outcome<NetError>)
  {
    var (s1, converged) := ConvergeRun(e, s, c);
    if converged.Fail? then (s1, converged)
    else FinishRun(e, s1, Sorted(c))
  }

  // ---------------------------------------------------------------------
  // GetConfiguredNetworkInterfaces
  // ---------------------------------------------------------------------

  /** `GetConfiguredNetworkInterfaces`: probe each detected interface with
      `ifup --no-act` and keep those not reported unknown. */
  function ConfiguredRun(e: NetEnv, s: HostState): (HostState, Result<seq<string>, DetectError>)
  {
    match DetectMacs(e.m, s)
    case Err(d) => (s, Err(d))
    case Ok(macs) =>
      var (s1, kept) := ProbeRun(e.m, s, VisitedNames(e, macs));
      (s1, Ok(kept))
  }

  // ---------------------------------------------------------------------
  // writeNetConfigs: dry run and real run
  // ---------------------------------------------------------------------

  /** A real write that succeeded leaves the file holding `content`, and
      nothing else changed. */
  lemma ConvergeFiles(m: Machine, s: HostState, path: string, content: string)
    requires ConvergeStep(m, s, path, content, false).1.Ok?
    ensures ConvergeStep(m, s, path, content, false).0.files == s.files[path := content]
    ensures ConvergeStep(m, s, path, content, false).0.links == s.links
  {
    if !WouldChange(s, path, content) {
      assert s.files[path := content] == s.files;
    }
  }

  /** A real write to a writable path succeeds and logs a write exactly
      when the contents differ. */
  lemma ConvergeLog(m: Machine, s: HostState, path: string, content: string)
    requires path !in m.unwritable
    ensures ConvergeStep(m, s, path, content, false).1 == Ok(WouldChange(s, path, content))
    ensures ConvergeStep(m, s, path, content, false).0.trace == s.trace + WriteIfDifferent(s.files, path, content)
    ensures ConvergeStep(m, s, path, content, false).0.files == s.files[path := content]
  {
    ConvergeFiles(m, s, path, content);
  }

  /** The two configuration files are different files. */
  lemma PathsDistinct()
    ensures InterfacesPath != DhclientPath
  {
    assert InterfacesPath[5] == 'n' && DhclientPath[5] == 'd';
  }

  /**
   * A dry run leaves the host as it was and reports a change exactly when
   * the interfaces file differs from the rendering, or there are DHCP
   * interfaces and the DHCP file differs from its rendering.
   */
  lemma DryRunReportsChange(m: Machine, s: HostState, dhcp: seq<DhcpConfig>, statics: seq<StaticConfig>, dns: seq<string>)
    requires InterfacesPath !in m.unreadable && DhclientPath !in m.unreadable
    ensures WriteNetConfigsRun(m, s, dhcp, statics, dns, true)
         == (s, Ok(WouldChange(s, InterfacesPath, InterfacesText(dhcp, statics, dns))
                   || (|dhcp| > 0 && WouldChange(s, DhclientPath, DhclientFile(dns)))))
  {
  }

  /** Whatever it reports, a dry run changes nothing. */
  lemma DryRunKeepsHost(m: Machine, s: HostState, dhcp: seq<DhcpConfig>, statics: seq<StaticConfig>, dns: seq<string>)
    ensures WriteNetConfigsRun(m, s, dhcp, statics, dns, true).0 == s
  {
    DryWriteKeepsHost(m, s, InterfacesText(dhcp, statics, dns), DhcpText(dhcp, dns));
  }

  /** A dry run of the writes leaves the host as it was, whatever the texts. */
  lemma DryWriteKeepsHost(m: Machine, s: HostState, text: string, dhcpText: Option<string>)
    ensures WriteFilesRun(m, s, text, dhcpText, true).0 == s
  {
  }

  /** The write a real run logs for one file: none when it already holds `content`. */
  function WriteIfDifferent(files: map<string, string>, path: string, content: string): seq<Event>
  {
    if path !in files || files[path] != content then [Wrote(path, content)] else []
  }

  /** The writes a real run logs: each file whose contents differ from its
      rendering, the DHCP file only when it is rendered. */
  function RealWrites(files: map<string, string>, text: string, dhcpText: Option<string>): seq<Event>
  {
    WriteIfDifferent(files, InterfacesPath, text)
    + (match dhcpText case None => [] case Some(d) => WriteIfDifferent(files, DhclientPath, d))
  }

  /** A real run on writable paths succeeds and logs exactly `RealWrites`. */
  lemma RealRunLog(m: Machine, s: HostState, text: string, dhcpText: Option<string>)
    requires InterfacesPath !in m.unwritable && DhclientPath !in m.unwritable
    ensures WriteFilesRun(m, s, text, dhcpText, false).1.Ok?
    ensures WriteFilesRun(m, s, text, dhcpText, false).0.trace == s.trace + RealWrites(s.files, text, dhcpText)
  {
    PathsDistinct();
    var s1 := ConvergeStep(m, s, InterfacesPath, text, false).0;
    ConvergeLog(m, s, InterfacesPath, text);
    var w1 := WriteIfDifferent(s.files, InterfacesPath, text);
    if dhcpText.Some? {
      var d := dhcpText.value;
      ConvergeLog(m, s1, DhclientPath, d);
      var w2 := WriteIfDifferent(s.files, DhclientPath, d);
      assert WriteIfDifferent(s1.files, DhclientPath, d) == w2;
      assert s.trace + w1 + w2 == s.trace + (w1 + w2);
    } else {
      assert w1 + [] == w1;
    }
  }

  /**
   * After a real run that succeeded, the interfaces file holds its
   * rendering, the DHCP file holds its rendering when there is one, and
   * no other file and no link has changed.
   */
  lemma RealRunFiles(m: Machine, s: HostState, text: string, dhcpText: Option<string>)
    requires WriteFilesRun(m, s, text, dhcpText, false).1.Ok?
    ensures var s' := WriteFilesRun(m, s, text, dhcpText, false).0;
      s'.links == s.links
      && s'.files == (match dhcpText
                      case Some(d) => s.files[InterfacesPath := text][DhclientPath := d]
                      case None => s.files[InterfacesPath := text])
  {
    var s1 := ConvergeStep(m, s, InterfacesPath, text, false).0;
    ConvergeFiles(m, s, InterfacesPath, text);
    if dhcpText.Some? {
      ConvergeFiles(m, s1, DhclientPath, dhcpText.value);
    }
  }

  /** Sorting the records again before rendering changes nothing. */
  lemma InterfacesTextSorted(c: Computed)
    ensures InterfacesText(Sorted(c).dhcp, Sorted(c).statics, c.dns) == InterfacesText(c.dhcp, c.statics, c.dns)
  {
    StableSort.SortIdempotent(c.dhcp, DhcpName);
    StableSort.SortIdempotent(c.statics, StaticName);
  }

  /** Sorting the records again before rendering the DHCP file changes nothing either. */
  lemma DhcpTextSorted(c: Computed)
    ensures DhcpText(Sorted(c).dhcp, c.dns) == DhcpText(c.dhcp, c.dns)
  {
    assert |Sorted(c).dhcp| == |c.dhcp|;
  }

  // ---------------------------------------------------------------------
  // The change-gated sequence
  // ---------------------------------------------------------------------

  /** The interface names of `ifdown` and `ifup`: DHCP first, then static, sorted by name. */
  function PassNames(c: Computed): seq<string>
  {
    IfaceNamesOf(SortDhcp(c.dhcp), SortStatic(c.statics))
  }

  /** When the dry run reports no change, nothing happens at all. */
  lemma ConvergeQuiet(e: NetEnv, s: HostState, c: Computed)
    requires WriteNetConfigsRun(e.m, s, c.dhcp, c.statics, c.dns, true).1 == Ok(false)
    ensures ConvergeRun(e, s, c) == (s, Pass)
  {
    DryRunKeepsHost(e.m, s, c.dhcp, c.statics, c.dns);
  }

  /** Before the real writes, the changes leave the files alone and log
      the cleanup and `ifdown`. */
  lemma ApplyPrefix(e: NetEnv, s: HostState, c: Computed, macs: map<string, string>)
    requires DetectMacs(e.m, s) == Ok(macs)
    ensures RemoveDhcpDnsRun(e, s).1 == Pass
    ensures var s2 := StopStep(e.m, RemoveDhcpDnsRun(e, s).0, c.dhcp, c.statics);
      s2.files == s.files && s2.links == s.links
      && s2.trace == s.trace + [Ran(PkillDhclient)] + Deletes(VisitedNames(e, macs)) + [Ran(Ifdown(IfaceNamesOf(c.dhcp, c.statics)))]
  {
    var s1 := s.(trace := s.trace + [Ran(PkillDhclient)]);
    DetectIgnoresLog(e.m, s, s1.trace);
  }

  /**
   * When the detection succeeds and the files are writable, the changes
   * log, in this order: `pkill dhclient`, one `resolvconf -d` per detected
   * interface, `ifdown --force` of every interface, the writes of the
   * files that differ, and `ifup --force` of the same interfaces.
   */
  lemma ApplyOrder(e: NetEnv, s: HostState, c: Computed, macs: map<string, string>)
    requires DetectMacs(e.m, s) == Ok(macs)
    requires InterfacesPath !in e.m.unwritable && DhclientPath !in e.m.unwritable
    ensures ApplyRun(e, s, c).1 == Pass
    ensures ApplyRun(e, s, c).0.trace
         == s.trace + [Ran(PkillDhclient)] + Deletes(VisitedNames(e, macs))
            + [Ran(Ifdown(IfaceNamesOf(c.dhcp, c.statics)))]
            + RealWrites(s.files, InterfacesText(c.dhcp, c.statics, c.dns), DhcpText(c.dhcp, c.dns))
            + [Ran(Ifup(IfaceNamesOf(c.dhcp, c.statics)))]
  {
    ApplyPrefix(e, s, c, macs);
    var s2 := StopStep(e.m, RemoveDhcpDnsRun(e, s).0, c.dhcp, c.statics);
    RealRunLog(e.m, s2, InterfacesText(c.dhcp, c.statics, c.dns), DhcpText(c.dhcp, c.dns));
  }

  /**
   * The whole change-gated sequence: when the dry run reports a change,
   * the detection succeeds and the files are writable, the pass logs the
   * cleanup, `ifdown`, the writes and `ifup`, in that order, with the
   * interfaces sorted by name.
   */
  lemma ConvergeOrder(e: NetEnv, s: HostState, c: Computed, macs: map<string, string>)
    requires WriteNetConfigsRun(e.m, s, c.dhcp, c.statics, c.dns, true).1 == Ok(true)
    requires DetectMacs(e.m, s) == Ok(macs)
    requires InterfacesPath !in e.m.unwritable && DhclientPath !in e.m.unwritable
    ensures ConvergeRun(e, s, c).1 == Pass
    ensures ConvergeRun(e, s, c).0.trace
         == s.trace + [Ran(PkillDhclient)] + Deletes(VisitedNames(e, macs))
            + [Ran(Ifdown(PassNames(c)))]
            + RealWrites(s.files, InterfacesText(c.dhcp, c.statics, c.dns), DhcpText(c.dhcp, c.dns))
            + [Ran(Ifup(PassNames(c)))]
  {
    DryRunKeepsHost(e.m, s, c.dhcp, c.statics, c.dns);
    assert ConvergeRun(e, s, c) == ApplyRun(e, s, Sorted(c));
    ApplyOrder(e, s, Sorted(c), macs);
    InterfacesTextSorted(c);
    DhcpTextSorted(c);
  }

  /** A dry-run failure returns before anything happens. */
  lemma ConvergeDryRunError(e: NetEnv, s: HostState, c: Computed)
    requires ConvergeRun(e, s, c).1.Fail? && ConvergeRun(e, s, c).1.error.DeterminingChange?
    ensures ConvergeRun(e, s, c).0 == s
  {
    DryRunKeepsHost(e.m, s, c.dhcp, c.statics, c.dns);
  }

  /** A detection failure during the cleanup returns after `pkill dhclient`
      alone, before `ifdown`. */
  lemma ConvergeCleanupError(e: NetEnv, s: HostState, c: Computed)
    requires ConvergeRun(e, s, c).1.Fail? && ConvergeRun(e, s, c).1.error.Cleanup?
    ensures ConvergeRun(e, s, c).0 == s.(trace := s.trace + [Ran(PkillDhclient)])
  {
    DryRunKeepsHost(e.m, s, c.dhcp, c.statics, c.dns);
    assert ConvergeRun(e, s, c) == ApplyRun(e, s, Sorted(c));
  }

  /** The files a successful change leaves: each holds its rendering. */
  lemma ApplyFiles(e: NetEnv, s: HostState, c: Computed)
    requires ApplyRun(e, s, c).1 == Pass
    ensures var files := ApplyRun(e, s, c).0.files;
      InterfacesPath in files && files[InterfacesPath] == InterfacesText(c.dhcp, c.statics, c.dns)
      && (|c.dhcp| > 0 ==> DhclientPath in files && files[DhclientPath] == DhclientFile(c.dns))
  {
    var s2 := StopStep(e.m, RemoveDhcpDnsRun(e, s).0, c.dhcp, c.statics);
    RealRunFiles(e.m, s2, InterfacesText(c.dhcp, c.statics, c.dns), DhcpText(c.dhcp, c.dns));
  }

  /** A pass that succeeded leaves nothing to do: the next pass over the same
      records reports no change and does nothing. */
  lemma ConvergeTwiceQuiet(e: NetEnv, s: HostState, c: Computed)
    requires InterfacesPath !in e.m.unreadable && DhclientPath !in e.m.unreadable
    requires ConvergeRun(e, s, c).1 == Pass
    ensures ConvergeRun(e, ConvergeRun(e, s, c).0, c) == (ConvergeRun(e, s, c).0, Pass)
  {
    DryRunKeepsHost(e.m, s, c.dhcp, c.statics, c.dns);
    var s' := ConvergeRun(e, s, c).0;
    if WriteNetConfigsRun(e.m, s, c.dhcp, c.statics, c.dns, true).1 == Ok(true) {
      assert ConvergeRun(e, s, c) == ApplyRun(e, s, Sorted(c));
      ApplyFiles(e, s, Sorted(c));
      InterfacesTextSorted(c);
      assert |Sorted(c).dhcp| == |c.dhcp|;
    }
    DryRunReportsChange(e.m, s', c.dhcp, c.statics, c.dns);
  }

  /** `ifdown` and `ifup` name exactly the interfaces the written file
      declares `auto`, after `lo`, in the same order. */
  lemma InterfaceCommandsMatchFile(dhcp: seq<DhcpConfig>, statics: seq<StaticConfig>, dns: seq<string>)
    ensures AutoNames(InterfacesLines(dhcp, statics, dns)) == ["lo"] + IfaceNamesOf(dhcp, statics)
  {
    InterfacesAutoNames(dhcp, statics, dns);
    assert ["lo"] + Names(dhcp, DhcpName) + Names(statics, StaticName) == ["lo"] + (Names(dhcp, DhcpName) + Names(statics, StaticName));
  }

  // ---------------------------------------------------------------------
  // What a pass may touch
  // ---------------------------------------------------------------------

  /** An effect on the interfaces: `ifdown`, `ifup`, or a write of one of
      the two interface configuration files. */
  predicate Disruptive(ev: Event)
  {
    (ev.Ran? && (ev.cmd.name == "ifdown" || ev.cmd.name == "ifup"))
    || (ev.Wrote? && (ev.path == InterfacesPath || ev.path == DhclientPath))
  }

  predicate Undisruptive(ev: Event) { !Disruptive(ev) }

  /** A disruptive effect, or a step of the DHCP cleanup. */
  predicate Touching(ev: Event)
  {
    Disruptive(ev) || ev == Ran(PkillDhclient)
    || (ev.Ran? && ev.cmd.name == "resolvconf" && |ev.cmd.args| > 0 && ev.cmd.args[0] == "-d")
  }

  predicate Calm(ev: Event) { !Touching(ev) }

  /** An effect of `writeResolvConf`. */
  predicate ResolverEffect(ev: Event)
  {
    ev == Ran(ResolvconfUpdate) || ev == Linked(RunResolvConfPath, ResolvConfPath)
    || ev == Copied(ResolvConfPath, ResolvBasePath) || (ev.Wrote? && ev.path == ResolvBasePath)
  }

  /** The log of `s'` extends that of `s` by effects that all satisfy `P`. */
  predicate Only(s: HostState, s': HostState, P: Event -> bool)
  {
    |s.trace| <= |s'.trace| && s'.trace[..|s.trace|] == s.trace
    && forall i :: |s.trace| <= i < |s'.trace| ==> P(s'.trace[i])
  }

  lemma OnlyAppend(s: HostState, s': HostState, es: seq<Event>, P: Event -> bool)
    requires s'.trace == s.trace + es
    requires forall i :: 0 <= i < |es| ==> P(es[i])
    ensures Only(s, s', P)
  {
    assert s'.trace[..|s.trace|] == s.trace;
    forall i | |s.trace| <= i < |s'.trace| ensures P(s'.trace[i]) {
      assert s'.trace[i] == es[i - |s.trace|];
    }
  }

  lemma OnlyRefl(s: HostState, P: Event -> bool)
    ensures Only(s, s, P)
  {
    assert s.trace[..|s.trace|] == s.trace;
  }

  lemma OnlyTrans(s1: HostState, s2: HostState, s3: HostState, P: Event -> bool)
    requires Only(s1, s2, P) && Only(s2, s3, P)
    ensures Only(s1, s3, P)
  {
    assert s3.trace[..|s1.trace|] == s3.trace[..|s2.trace|][..|s1.trace|];
    forall i | |s1.trace| <= i < |s3.trace| ensures P(s3.trace[i]) {
      if i < |s2.trace| {
        assert s3.trace[i] == s3.trace[..|s2.trace|][i];
      }
    }
  }

  lemma ResolverIsCalm(s: HostState, s': HostState)
    requires Only(s, s', ResolverEffect)
    ensures Only(s, s', Calm)
  {
    forall i | |s.trace| <= i < |s'.trace| ensures Calm(s'.trace[i]) {
      var ev := s'.trace[i];
      assert ResolverEffect(ev);
      if ev == Ran(ResolvconfUpdate) {
        assert ev.cmd.args[0] == "-u";
        assert "-u" != "-d" by { assert "-u"[1] != "-d"[1]; }
      }
    }
  }

  lemma CalmIsUndisruptive(s: HostState, s': HostState)
    requires Only(s, s', Calm)
    ensures Only(s, s', Undisruptive)
  {
    forall i | |s.trace| <= i < |s'.trace| ensures Undisruptive(s'.trace[i]) {
      assert Calm(s'.trace[i]);
    }
  }

  lemma ResolvPrepareOnly(m: Machine, s: HostState, dns: seq<string>)
    ensures Only(s, ResolvPrepareStep(m, s, dns).0, ResolverEffect)
  {
    var s1 := ResolvPrepareStep(m, s, dns).0;
    if s1.trace == s.trace {
      OnlyAppend(s, s1, [], ResolverEffect);
    } else if |dns| > 0 {
      OnlyAppend(s, s1, [Wrote(ResolvBasePath, ResolvConfFile(dns))], ResolverEffect);
    } else {
      OnlyAppend(s, s1, [Copied(ResolvConfPath, ResolvBasePath)], ResolverEffect);
    }
  }

  /** `writeResolvConf` logs only its own effects: the base file, the copy,
      the link and `resolvconf -u`. */
  lemma ResolvConfOnly(m: Machine, s: HostState, networks: seq<NamedNetwork>)
    ensures Only(s, ResolvConfRun(m, s, networks).0, ResolverEffect)
  {
    var (s1, prepared) := ResolvPrepareStep(m, s, DnsServers(networks));
    ResolvPrepareOnly(m, s, DnsServers(networks));
    if prepared.Pass? {
      var (s2, linked) := SymlinkStep(m, s1, RunResolvConfPath, ResolvConfPath);
      if linked.Fail? {
        OnlyAppend(s1, s2, [], ResolverEffect);
      } else {
        OnlyAppend(s1, s2, [Linked(RunResolvConfPath, ResolvConfPath)], ResolverEffect);
        var s3 := RunStep(m, s2, ResolvconfUpdate).0;
        OnlyAppend(s2, s3, [Ran(ResolvconfUpdate)], ResolverEffect);
        OnlyTrans(s1, s2, s3, ResolverEffect);
      }
      OnlyTrans(s, s1, ResolvConfRun(m, s, networks).0, ResolverEffect);
    }
  }

  // ---------------------------------------------------------------------
  // SetupNetworking
  // ---------------------------------------------------------------------

  /** Pre-configured networks: only the resolver configuration is written,
      and the pass succeeds exactly when that succeeds. */
  lemma PreconfiguredOnlyResolver(e: NetEnv, s: HostState, networks: seq<NamedNetwork>)
    requires IsPreconfigured(networks)
    ensures Only(s, SetupRun(e, s, networks).0, ResolverEffect)
    ensures SetupRun(e, s, networks).1 == Pass <==> ResolvConfRun(e.m, s, networks).1 == Pass
  {
    ResolvConfOnly(e.m, s, networks);
  }

  /** Whether the pass reaches a dry run that reports a change. */
  predicate ChangeReported(e: NetEnv, s: HostState, networks: seq<NamedNetwork>)
  {
    !IsPreconfigured(networks)
    && var s1 := AliasStep(e, s, networks);
    ComputeRun(e, s1, networks).Ok?
    && var c := ComputeRun(e, s1, networks).value;
    EnableStep(e, s1, c.statics).1
    && WriteNetConfigsRun(e.m, EnableStep(e, s1, c.statics).0, c.dhcp, c.statics, c.dns, true).1 == Ok(true)
  }

  lemma AliasCalm(e: NetEnv, s: HostState, networks: seq<NamedNetwork>)
    ensures Only(s, AliasStep(e, s, networks), Calm)
  {
    if HasInterfaceAlias(networks) {
      ResolvConfOnly(e.m, s, networks);
      ResolverIsCalm(s, AliasStep(e, s, networks));
    } else {
      OnlyAppend(s, s, [], Calm);
    }
  }

  lemma EnableCalm(e: NetEnv, s: HostState, statics: seq<StaticConfig>)
    ensures Only(s, EnableStep(e, s, statics).0, Calm)
  {
    if StaticHasVersion6(statics) {
      OnlyAppend(s, EnableStep(e, s, statics).0, [EnabledIPv6], Calm);
    } else {
      OnlyAppend(s, s, [], Calm);
    }
  }

  lemma FinishCalm(e: NetEnv, s: HostState, c: Computed)
    ensures Only(s, FinishRun(e, s, c).0, Calm)
  {
    var s' := FinishRun(e, s, c).0;
    if s' == s {
      OnlyAppend(s, s, [], Calm);
    } else {
      OnlyAppend(s, s', [Broadcast(ValidatedAddresses(c) + DynamicAddresses(c.dhcp))], Calm);
    }
  }

  /**
   * Unless a dry run reports a change, the pass runs no `pkill`, no
   * `resolvconf -d`, no `ifdown` or `ifup`, and writes neither interface
   * configuration file.
   */
  lemma SetupCalmWithoutChange(e: NetEnv, s: HostState, networks: seq<NamedNetwork>)
    requires !ChangeReported(e, s, networks)
    ensures Only(s, SetupRun(e, s, networks).0, Calm)
  {
    if IsPreconfigured(networks) {
      ResolvConfOnly(e.m, s, networks);
      ResolverIsCalm(s, ResolvConfRun(e.m, s, networks).0);
    } else {
      var s1 := AliasStep(e, s, networks);
      AliasCalm(e, s, networks);
      if ComputeRun(e, s1, networks).Ok? {
        var c := ComputeRun(e, s1, networks).value;
        var (s2, enabled) := EnableStep(e, s1, c.statics);
        EnableCalm(e, s1, c.statics);
        OnlyTrans(s, s1, s2, Calm);
        if enabled {
          assert SetupRun(e, s, networks) == ConvergeFinishRun(e, s2, c);
          QuietTailCalm(e, s2, c);
          OnlyTrans(s, s2, SetupRun(e, s, networks).0, Calm);
        }
      }
    }
  }

  /** Without a reported change, the rest of the pass is calm. */
  lemma QuietTailCalm(e: NetEnv, s: HostState, c: Computed)
    requires WriteNetConfigsRun(e.m, s, c.dhcp, c.statics, c.dns, true).1 != Ok(true)
    ensures Only(s, ConvergeFinishRun(e, s, c).0, Calm)
  {
    var dry := WriteNetConfigsRun(e.m, s, c.dhcp, c.statics, c.dns, true).1;
    if dry.Err? {
      DryErrorTailCalm(e, s, c);
    } else {
      assert !dry.value;
      NoChangeTailCalm(e, s, c);
    }
  }

  /** A failed dry run ends the pass with the host as it was. */
  lemma DryErrorTailCalm(e: NetEnv, s: HostState, c: Computed)
    requires WriteNetConfigsRun(e.m, s, c.dhcp, c.statics, c.dns, true).1.Err?
    ensures Only(s, ConvergeFinishRun(e, s, c).0, Calm)
  {
    DryRunKeepsHost(e.m, s, c.dhcp, c.statics, c.dns);
    assert ConvergeRun(e, s, c).1.Fail?;
    assert ConvergeFinishRun(e, s, c).0 == s;
    OnlyRefl(s, Calm);
  }

  /** A dry run reporting no change goes straight to the validation and
      the broadcast, from the host as it was. */
  lemma NoChangeTailCalm(e: NetEnv, s: HostState, c: Computed)
    requires WriteNetConfigsRun(e.m, s, c.dhcp, c.statics, c.dns, true).1.Ok?
    requires !WriteNetConfigsRun(e.m, s, c.dhcp, c.statics, c.dns, true).1.value
    ensures Only(s, ConvergeFinishRun(e, s, c).0, Calm)
  {
    ConvergeQuiet(e, s, c);
    assert ConvergeFinishRun(e, s, c).0 == FinishRun(e, s, Sorted(c)).0;
    FinishCalm(e, s, Sorted(c));
  }

  /**
   * A failure to compute the configuration, to enable IPv6, to run the dry
   * run, or to detect the interfaces during the cleanup returns before
   * any `ifdown`, `ifup` or write of an interface configuration file.
   */
  lemma SetupEarlyErrorsUndisruptive(e: NetEnv, s: HostState, networks: seq<NamedNetwork>)
    requires SetupRun(e, s, networks).1.Fail?
    requires var err := SetupRun(e, s, networks).1.error;
      err.Computing? || err.EnablingIPv6? || err.DeterminingChange? || err.Cleanup?
    ensures Only(s, SetupRun(e, s, networks).0, Undisruptive)
  {
    if !ChangeReported(e, s, networks) {
      SetupCalmWithoutChange(e, s, networks);
      CalmIsUndisruptive(s, SetupRun(e, s, networks).0);
    } else {
      var s1 := AliasStep(e, s, networks);
      var c := ComputeRun(e, s1, networks).value;
      var s2 := EnableStep(e, s1, c.statics).0;
      assert SetupRun(e, s, networks) == ConvergeFinishRun(e, s2, c);
      AliasCalm(e, s, networks);
      EnableCalm(e, s1, c.statics);
      OnlyTrans(s, s1, s2, Calm);
      CalmIsUndisruptive(s, s2);
      ChangedEarlyErrorsUndisruptive(e, s, s2, c);
    }
  }

  /** The part of the above after a dry run that reported a change. */
  lemma ChangedEarlyErrorsUndisruptive(e: NetEnv, s: HostState, s2: HostState, c: Computed)
    requires Only(s, s2, Undisruptive)
    requires WriteNetConfigsRun(e.m, s2, c.dhcp, c.statics, c.dns, true).1 == Ok(true)
    requires var r := ConvergeFinishRun(e, s2, c).1;
      r.Fail? && (r.error.Computing? || r.error.EnablingIPv6? || r.error.DeterminingChange? || r.error.Cleanup?)
    ensures Only(s, ConvergeFinishRun(e, s2, c).0, Undisruptive)
  {
    ChangedEarlyErrorIsCleanup(e, s2, c);
    PkillUndisruptive(s, s2, ConvergeFinishRun(e, s2, c).0);
  }

  /** A `pkill` after undisruptive effects keeps the log undisruptive. */
  lemma PkillUndisruptive(s: HostState, s2: HostState, s3: HostState)
    requires Only(s, s2, Undisruptive)
    requires s3 == s2.(trace := s2.trace + [Ran(PkillDhclient)])
    ensures Only(s, s3, Undisruptive)
  {
    OnlyAppend(s2, s3, [Ran(PkillDhclient)], Undisruptive);
    OnlyTrans(s, s2, s3, Undisruptive);
  }

  /** After a dry run that reports a change, the only early failure is the
      cleanup's, which leaves just the `pkill` behind. */
  lemma ChangedEarlyErrorIsCleanup(e: NetEnv, s: HostState, c: Computed)
    requires WriteNetConfigsRun(e.m, s, c.dhcp, c.statics, c.dns, true).1 == Ok(true)
    requires var r := ConvergeFinishRun(e, s, c).1;
      r.Fail? && (r.error.Computing? || r.error.EnablingIPv6? || r.error.DeterminingChange? || r.error.Cleanup?)
    ensures ConvergeFinishRun(e, s, c).0 == s.(trace := s.trace + [Ran(PkillDhclient)])
  {
    var (s1, converged) := ConvergeRun(e, s, c);
    FinishErrorKinds(e, s1, Sorted(c));
    assert converged.Fail?;
    assert ConvergeFinishRun(e, s, c) == ConvergeRun(e, s, c);
    ConvergeErrorKinds(e, s, c);
    ConvergeCleanupError(e, s, c);
  }

  /** The errors the middle of the pass can report. */
  lemma ConvergeErrorKinds(e: NetEnv, s: HostState, c: Computed)
    requires ConvergeRun(e, s, c).1.Fail?
    ensures var err := ConvergeRun(e, s, c).1.error;
      (err.DeterminingChange? && WriteNetConfigsRun(e.m, s, c.dhcp, c.statics, c.dns, true).1.Err?)
      || err.Cleanup? || err.UpdatingConfigs?
  {
    var (s1, dry) := WriteNetConfigsRun(e.m, s, c.dhcp, c.statics, c.dns, true);
    if dry.Ok? {
      var a := ApplyRun(e, s1, Sorted(c)).1;
      assert a.Fail? ==> a.error.Cleanup? || a.error.UpdatingConfigs?;
    }
  }

  /** The errors the end of the pass can report. */
  lemma FinishErrorKinds(e: NetEnv, s: HostState, c: Computed)
    ensures var r := FinishRun(e, s, c).1;
      r.Fail? ==> r.error.ValidatingStatic? || r.error.ValidatingDns?
  {
  }

  /**
   * A successful pass ends by broadcasting the non-virtual static addresses
   * followed by the DHCP interfaces, after both validations passed on the
   * records sorted by name.
   */
  lemma SetupBroadcastsLast(e: NetEnv, s: HostState, networks: seq<NamedNetwork>)
    requires !IsPreconfigured(networks) && SetupRun(e, s, networks).1 == Pass
    ensures ComputeRun(e, AliasStep(e, s, networks), networks).Ok?
    ensures var c := Sorted(ComputeRun(e, AliasStep(e, s, networks), networks).value);
      var t := SetupRun(e, s, networks).0.trace;
      |t| > 0 && t[|t| - 1] == Broadcast(ValidatedAddresses(c) + DynamicAddresses(c.dhcp))
      && e.co.dnsValid(t[..|t| - 1], c.dns)
      && Validate(e.co.systemAddresses(t[..|t| - 1]), ValidatedAddresses(c), e.co.resolve) == Pass
  {
    var s1 := AliasStep(e, s, networks);
    var c := ComputeRun(e, s1, networks).value;
    var s2 := EnableStep(e, s1, c.statics).0;
    var s3 := ConvergeRun(e, s2, c).0;
    assert SetupRun(e, s, networks) == FinishRun(e, s3, Sorted(c));
    FinishBroadcasts(e, s3, Sorted(c));
  }

  /** A successful finish logs one broadcast, after both validations passed. */
  lemma FinishBroadcasts(e: NetEnv, s: HostState, c: Computed)
    requires FinishRun(e, s, c).1 == Pass
    ensures FinishRun(e, s, c).0.trace == s.trace + [Broadcast(ValidatedAddresses(c) + DynamicAddresses(c.dhcp))]
    ensures e.co.dnsValid(s.trace, c.dns)
    ensures Validate(e.co.systemAddresses(s.trace), ValidatedAddresses(c), e.co.resolve) == Pass
  {
  }

  /** No address handed to validation and broadcast is a virtual alias, and
      each is the address of a static record. */
  lemma ValidatedAddressesNonVirtual(c: Computed, a: InterfaceAddress)
    requires a in ValidatedAddresses(c)
    ensures !IsVirtual(a)
    ensures exists i :: 0 <= i < |c.statics| && a == Simple(c.statics[i].name, c.statics[i].address)
  {
    WithoutVirtualIff(StaticAddresses(c.statics), a);
    HasColonDigitsIff(a.interfaceName);
    var i :| 0 <= i < |StaticAddresses(c.statics)| && StaticAddresses(c.statics)[i] == a;
  }

  // ---------------------------------------------------------------------
  // writeResolvConf
  // ---------------------------------------------------------------------

  /**
   * After a successful `writeResolvConf`, `/etc/resolv.conf` is a link to
   * the resolvconf output and the last effect is `resolvconf -u`; the base
   * file holds the rendered servers when there are some, and otherwise a
   * copy of a plain `/etc/resolv.conf`, or is left alone when
   * `/etc/resolv.conf` already links elsewhere.
   */
  lemma ResolvConfOutcome(m: Machine, s: HostState, networks: seq<NamedNetwork>)
    requires ResolvConfRun(m, s, networks).1 == Pass
    ensures var s' := ResolvConfRun(m, s, networks).0;
      var dns := DnsServers(networks);
      s'.links == s.links[ResolvConfPath := RunResolvConfPath]
      && ResolvConfPath !in s'.files
      && |s'.trace| > 0 && s'.trace[|s'.trace| - 1] == Ran(ResolvconfUpdate)
      && (|dns| > 0 ==> ResolvBasePath in s'.files && s'.files[ResolvBasePath] == ResolvConfFile(dns))
      && (|dns| == 0 && ResolvConfPath !in s.links && ResolvConfPath in s.files ==>
            ResolvBasePath in s'.files && s'.files[ResolvBasePath] == s.files[ResolvConfPath])
      && (|dns| == 0 && ResolvConfPath in s.links && s.links[ResolvConfPath] != ResolvConfPath ==>
            s'.files == s.files - {ResolvConfPath})
  {
    assert ResolvBasePath != ResolvConfPath by { assert |ResolvBasePath| != |ResolvConfPath|; }
  }

  /** The base file written from the servers reads back as the servers, in
      order, when no server contains a newline. */
  lemma ResolvConfBaseReadsBack(m: Machine, s: HostState, networks: seq<NamedNetwork>)
    requires ResolvConfRun(m, s, networks).1 == Pass
    requires |DnsServers(networks)| > 0
    requires forall i :: 0 <= i < |DnsServers(networks)| ==> Free(DnsServers(networks)[i], '\n')
    ensures ResolvBasePath in ResolvConfRun(m, s, networks).0.files
    ensures ParseNameservers(Split(ResolvConfRun(m, s, networks).0.files[ResolvBasePath], '\n')) == DnsServers(networks)
  {
    ResolvConfOutcome(m, s, networks);
    ResolvConfRoundTrip(DnsServers(networks));
  }

  // ---------------------------------------------------------------------
  // ComputeNetworkConfig
  // ---------------------------------------------------------------------

  /** A VIP network changes nothing: the computation with it and without it agree. */
  lemma ComputeIgnoresVip(e: NetEnv, s: HostState, a: seq<NamedNetwork>, v: NamedNetwork, b: seq<NamedNetwork>)
    requires IsVip(v.settings)
    ensures ComputeRun(e, s, a + [v] + b) == ComputeRun(e, s, a + b)
  {
    VipIgnored(a, v, b);
  }

  /** The builder is handed exactly the non-VIP networks and the detected MAC map. */
  lemma ComputeSeesNonVip(e: NetEnv, s: HostState, networks: seq<NamedNetwork>, n: NamedNetwork)
    requires ComputeRun(e, s, networks).Ok?
    ensures DetectMacs(e.m, s).Ok?
    ensures e.co.createConfigs(NonVip(networks), DetectMacs(e.m, s).value)
         == Some((ComputeRun(e, s, networks).value.statics, ComputeRun(e, s, networks).value.dhcp))
    ensures n in NonVip(networks) <==> n in networks && !IsVip(n.settings)
  {
    NonVipIff(networks, n);
  }

  // ---------------------------------------------------------------------
  // GetConfiguredNetworkInterfaces
  // ---------------------------------------------------------------------

  /**
   * A detection failure returns before any probe. Otherwise every detected
   * interface is probed once, in visit order, and the result lists exactly
   * the detected interfaces whose probe did not report them unknown.
   */
  lemma ConfiguredShape(e: NetEnv, s: HostState)
    ensures ConfiguredRun(e, s).1.Err? <==> DetectMacs(e.m, s).Err?
    ensures ConfiguredRun(e, s).1.Err? ==> ConfiguredRun(e, s).0 == s
    ensures ConfiguredRun(e, s).1.Ok? ==>
      var names := VisitedNames(e, DetectMacs(e.m, s).value);
      ConfiguredRun(e, s).0 == s.(trace := s.trace + Probes(names))
      && (forall n :: n in ConfiguredRun(e, s).1.value ==> n in DetectMacs(e.m, s).value.Values)
      && (forall i :: 0 <= i < |names| ==>
            (!MentionsUnknownInterface(e.m.respond(s.trace + Probes(names[..i]), ProbeCommand(names[i])).stderr)
             ==> names[i] in ConfiguredRun(e, s).1.value))
      && (forall n :: n in ConfiguredRun(e, s).1.value ==>
            exists i :: 0 <= i < |names| && names[i] == n
              && !MentionsUnknownInterface(e.m.respond(s.trace + Probes(names[..i]), ProbeCommand(names[i])).stderr))
  {
    if DetectMacs(e.m, s).Ok? {
      ProbeRunShape(e.m, s, VisitedNames(e, DetectMacs(e.m, s).value));
    }
  }

  /** When the visit order covers the map, every detected interface is probed. */
  lemma ConfiguredProbesAll(e: NetEnv, s: HostState, macs: map<string, string>, n: string)
    requires DetectMacs(e.m, s) == Ok(macs)
    requires forall k :: k in macs ==> k in e.co.macOrder(macs)
    requires n in macs.Values
    ensures Ran(ProbeCommand(n)) in ConfiguredRun(e, s).0.trace
  {
    var names := VisitedNames(e, macs);
    ValuesInOrderComplete(macs, e.co.macOrder(macs));
    var i :| 0 <= i < |names| && names[i] == n;
    assert ConfiguredRun(e, s).0 == ProbeRun(e.m, s, names).0;
    ProbeRunShape(e.m, s, names);
    var t := s.trace + Probes(names);
    assert t[|s.trace| + i] == Probes(names)[i] == Ran(ProbeCommand(n));
    assert Ran(ProbeCommand(n)) in t;
  }

  /**
   * The cleanup deletes the resolvconf record of a name only when the name
   * belongs to a detected interface, and a detection failure deletes none.
   */
  lemma CleanupDeletesOnlyDetected(e: NetEnv, s: HostState, n: string)
    requires Ran(ResolvconfDelete(n)) in RemoveDhcpDnsRun(e, s).0.trace
    requires Ran(ResolvconfDelete(n)) !in s.trace
    ensures DetectMacs(e.m, RunStep(e.m, s, PkillDhclient).0).Ok?
    ensures n in DetectMacs(e.m, RunStep(e.m, s, PkillDhclient).0).value.Values
  {
    var s1 := RunStep(e.m, s, PkillDhclient).0;
    assert ResolvconfDelete(n) != PkillDhclient;
    assert Ran(ResolvconfDelete(n)) !in s1.trace;
    var t := RemoveDhcpDnsRun(e, s).0.trace;
    assert DetectMacs(e.m, s1).Ok?;
    var names := VisitedNames(e, DetectMacs(e.m, s1).value);
    assert t == s1.trace + Deletes(names);
    var k :| 0 <= k < |t| && t[k] == Ran(ResolvconfDelete(n));
    assert k >= |s1.trace|;
    var j := k - |s1.trace|;
    assert Deletes(names)[j] == Ran(ResolvconfDelete(names[j]));
    assert ResolvconfDelete(names[j]).args[1] == ResolvconfDelete(n).args[1];
    assert names[j] + ".dhclient" == n + ".dhclient";
    assert names[j] == (names[j] + ".dhclient")[..|names[j]|];
    assert n == (n + ".dhclient")[..|n|];
    assert names[j] in names;
  }

  /** When the visit order covers the map, the record of every detected interface is deleted. */
  lemma CleanupDeletesEvery(e: NetEnv, s: HostState, macs: map<string, string>, n: string)
    requires DetectMacs(e.m, RunStep(e.m, s, PkillDhclient).0) == Ok(macs)
    requires forall k :: k in macs ==> k in e.co.macOrder(macs)
    requires n in macs.Values
    ensures Ran(ResolvconfDelete(n)) in RemoveDhcpDnsRun(e, s).0.trace
  {
    var names := VisitedNames(e, macs);
    ValuesInOrderComplete(macs, e.co.macOrder(macs));
    var i :| 0 <= i < |names| && names[i] == n;
    var s1 := RunStep(e.m, s, PkillDhclient).0;
    var t := s1.trace + Deletes(names);
    assert RemoveDhcpDnsRun(e, s).0.trace == t;
    assert t[|s1.trace| + i] == Deletes(names)[i] == Ran(ResolvconfDelete(n));
  }

  // ---------------------------------------------------------------------
  // The manager
  // ---------------------------------------------------------------------

  /** Sorting the sorted records again changes nothing. */
  lemma SortedTwice(c: Computed)
    ensures Sorted(Sorted(c)) == Sorted(c)
  {
    StableSort.SortIdempotent(c.dhcp, DhcpName);
    StableSort.SortIdempotent(c.statics, StaticName);
  }

  class UbuntuNetManager {
    const host: Host
    const co: Collaborators

    function Environment(): NetEnv
    {
      NetEnv(host.machine, co)
    }

    constructor (host: Host, co: Collaborators)
      ensures this.host == host && this.co == co
    {
      this.host := host;
      this.co := co;
    }

    /** `detectMacAddresses`. */
    method DetectMacAddresses() returns (r: Result<map<string, string>, DetectError>)
      ensures r == DetectMacs(host.machine, host.State())
    {
      var listing := host.machine.netDevices;
      if listing.None? {
        return Err(ListingDevices);
      }
      var paths := listing.value;
      var addresses: map<string, string> := map[];
      var i := 0;
      while i < |paths|
        invariant 0 <= i <= |paths|
        invariant MacsOver(host.machine, host.State(), paths[..i]) == Ok(addresses)
      {
        var p := paths[i];
        assert paths[..i + 1][..i] == paths[..i] && paths[..i + 1][i] == p;
        var physical := host.Exists(p + "/device");
        if physical {
          var text := host.ReadFileString(p + "/address");
          if text.Err? {
            MacsOverErrPersists(host.machine, host.State(), paths, i + 1);
            return Err(ReadingMac(text.error));
          }
          addresses := addresses[Trim(text.value, '\n') := PathBase(p)];
        }
        i := i + 1;
      }
      assert paths[..i] == paths;
      return Ok(addresses);
    }

    /** `buildInterfaces`. */
    method BuildInterfaces(networks: seq<NamedNetwork>) returns (r: Result<(seq<StaticConfig>, seq<DhcpConfig>), ComputeError>)
      ensures r == BuildRun(Environment(), host.State(), networks)
    {
      var macs := DetectMacAddresses();
      if macs.Err? {
        return Err(GettingInterfaces(macs.error));
      }
      var configs := co.createConfigs(networks, macs.value);
      if configs.None? {
        return Err(CreatingConfigs);
      }
      return Ok(configs.value);
    }

    /** `ComputeNetworkConfig`. */
    method ComputeNetworkConfig(networks: seq<NamedNetwork>) returns (r: Result<Computed, ComputeError>)
      ensures r == ComputeRun(Environment(), host.State(), networks)
    {
      var nonVip: seq<NamedNetwork> := [];
      for i := 0 to |networks|
        invariant nonVip == NonVip(networks[..i])
      {
        var n := networks[i];
        NonVipAppend(networks[..i], [n]);
        assert networks[..i + 1] == networks[..i] + [n];
        assert NonVip([n]) == (if IsVip(n.settings) then [] else [n]) + NonVip([]);
        if !IsVip(n.settings) {
          nonVip := nonVip + [n];
        }
      }
      assert networks[..|networks|] == networks;
      var built := BuildInterfaces(nonVip);
      if built.Err? {
        return Err(built.error);
      }
      return Ok(Computed(built.value.0, built.value.1, DnsServers(nonVip)));
    }

    /** `ifaceNames`. */
    method IfaceNames(dhcp: seq<DhcpConfig>, statics: seq<StaticConfig>) returns (names: seq<string>)
      ensures names == IfaceNamesOf(dhcp, statics)
    {
      names := [];
      for i := 0 to |dhcp|
        invariant |names| == i && forall j :: 0 <= j < i ==> names[j] == dhcp[j].name
      {
        names := names + [dhcp[i].name];
      }
      for i := 0 to |statics|
        invariant |names| == |dhcp| + i
        invariant forall j :: 0 <= j < |dhcp| ==> names[j] == dhcp[j].name
        invariant forall j :: 0 <= j < i ==> names[|dhcp| + j] == statics[j].name
      {
        names := names + [statics[i].name];
      }
      ghost var expected := IfaceNamesOf(dhcp, statics);
      forall j | 0 <= j < |names| ensures names[j] == expected[j] {
        if j >= |dhcp| {
          assert names[|dhcp| + (j - |dhcp|)] == statics[j - |dhcp|].name;
        }
      }
    }

    /** `ifaceAddresses`. */
    method IfaceAddresses(statics: seq<StaticConfig>, dhcp: seq<DhcpConfig>) returns (staticAddresses: seq<InterfaceAddress>, dynamicAddresses: seq<InterfaceAddress>)
      ensures staticAddresses == StaticAddresses(statics)
      ensures dynamicAddresses == DynamicAddresses(dhcp)
    {
      staticAddresses := [];
      for i := 0 to |statics|
        invariant |staticAddresses| == i
        invariant forall j :: 0 <= j < i ==> staticAddresses[j] == Simple(statics[j].name, statics[j].address)
      {
        staticAddresses := staticAddresses + [Simple(statics[i].name, statics[i].address)];
      }
      dynamicAddresses := [];
      for i := 0 to |dhcp|
        invariant |dynamicAddresses| == i
        invariant forall j :: 0 <= j < i ==> dynamicAddresses[j] == Resolving(dhcp[j].name)
      {
        dynamicAddresses := dynamicAddresses + [Resolving(dhcp[i].name)];
      }
    }

    /** The loop of `SetupNetworking` that skips virtual aliases. */
    method FilterVirtual(addresses: seq<InterfaceAddress>) returns (kept: seq<InterfaceAddress>)
      ensures kept == WithoutVirtual(addresses)
    {
      kept := [];
      for i := 0 to |addresses|
        invariant kept == WithoutVirtual(addresses[..i])
      {
        var a := addresses[i];
        WithoutVirtualAppend(addresses[..i], [a]);
        assert addresses[..i + 1] == addresses[..i] + [a];
        assert WithoutVirtual([a]) == (if IsVirtual(a) then [] else [a]) + WithoutVirtual([]);
        if !HasColonDigits(a.interfaceName) {
          kept := kept + [a];
        }
      }
      assert addresses[..|addresses|] == addresses;
    }

    /** `writeResolvConf`. */
    method WriteResolvConf(networks: seq<NamedNetwork>) returns (r: Outcome<ResolvError>)
      modifies host
      ensures (host.State(), r) == ResolvConfRun(host.machine, old(host.State()), networks)
    {
      var dns := DnsServers(networks);
      if |dns| > 0 {
        var written := host.WriteFile(ResolvBasePath, ResolvConfFile(dns));
        if written.Fail? {
          return Fail(WritingBase(written.error));
        }
      } else {
        var target := host.FollowLink(ResolvConfPath);
        if target.Err? {
          return Fail(ReadingLink(target.error));
        }
        if target.value == ResolvConfPath {
          var copied := host.CopyFile(ResolvConfPath, ResolvBasePath);
          if copied.Fail? {
            return Fail(CopyingResolvConf(copied.error));
          }
        }
      }
      assert (host.State(), Pass) == ResolvPrepareStep(host.machine, old(host.State()), dns);
      var linked := host.Symlink(RunResolvConfPath, ResolvConfPath);
      if linked.Fail? {
        return Fail(Linking(linked.error));
      }
      var out := host.RunCommand(ResolvconfUpdate);
      r := if out.failed then Fail(UpdatingResolvconf) else Pass;
    }

    /** `writeNetworkInterfaces`; the sorted records are handed back because
        the sort reorders the caller's slices. */
    method WriteNetworkInterfaces(dhcp: seq<DhcpConfig>, statics: seq<StaticConfig>, dns: seq<string>, dryRun: bool)
      returns (r: Result<bool, FsError>, sortedDhcp: seq<DhcpConfig>, sortedStatics: seq<StaticConfig>)
      modifies host
      ensures sortedDhcp == SortDhcp(dhcp) && sortedStatics == SortStatic(statics)
      ensures (host.State(), r) == InterfacesStep(host.machine, old(host.State()), dhcp, statics, dns, dryRun)
    {
      sortedDhcp := SortDhcp(dhcp);
      sortedStatics := SortStatic(statics);
      r := host.ConvergeFileContents(InterfacesPath, InterfacesFile(sortedDhcp, sortedStatics, dns), dryRun);
    }

    /** `writeDHCPConfiguration`. */
    method WriteDhcpConfiguration(dns: seq<string>, dryRun: bool) returns (r: Result<bool, FsError>)
      modifies host
      ensures (host.State(), r) == DhcpStep(host.machine, old(host.State()), dns, dryRun)
    {
      r := host.ConvergeFileContents(DhclientPath, DhclientFile(dns), dryRun);
    }

    /** `writeNetConfigs`. */
    method WriteNetConfigs(dhcp: seq<DhcpConfig>, statics: seq<StaticConfig>, dns: seq<string>, dryRun: bool)
      returns (r: Result<bool, WriteError>, sortedDhcp: seq<DhcpConfig>, sortedStatics: seq<StaticConfig>)
      modifies host
      ensures sortedDhcp == SortDhcp(dhcp) && sortedStatics == SortStatic(statics)
      ensures (host.State(), r) == WriteNetConfigsRun(host.machine, old(host.State()), dhcp, statics, dns, dryRun)
    {
      var interfacesChanged;
      interfacesChanged, sortedDhcp, sortedStatics := WriteNetworkInterfaces(dhcp, statics, dns, dryRun);
      if interfacesChanged.Err? {
        return Err(WritingInterfaces(interfacesChanged.error)), sortedDhcp, sortedStatics;
      }
      var dhcpChanged := false;
      if |dhcp| > 0 {
        var written := WriteDhcpConfiguration(dns, dryRun);
        if written.Err? {
          return Err(WritingDhcp(written.error)), sortedDhcp, sortedStatics;
        }
        dhcpChanged := written.value;
      }
      r := Ok(interfacesChanged.value || dhcpChanged);
    }

    /** `removeDhcpDNSConfiguration`. */
    method RemoveDhcpDnsConfiguration() returns (r: Outcome<DetectError>)
      modifies host
      ensures (host.State(), r) == RemoveDhcpDnsRun(Environment(), old(host.State()))
    {
      var killed := host.RunCommand(PkillDhclient);
      var macs := DetectMacAddresses();
      if macs.Err? {
        return Fail(macs.error);
      }
      var names := ValuesInOrder(macs.value, co.macOrder(macs.value));
      ghost var s1 := host.State();
      for i := 0 to |names|
        invariant host.State() == s1.(trace := s1.trace + Deletes(names[..i]))
      {
        var deleted := host.RunCommand(ResolvconfDelete(names[i]));
        assert Deletes(names[..i + 1]) == Deletes(names[..i]) + [Ran(ResolvconfDelete(names[i]))];
      }
      assert names[..|names|] == names;
      return Pass;
    }

    /** `stopNetworkingInterfaces`. */
    method StopNetworkingInterfaces(dhcp: seq<DhcpConfig>, statics: seq<StaticConfig>)
      modifies host
      ensures host.State() == StopStep(host.machine, old(host.State()), dhcp, statics)
    {
      var names := IfaceNames(dhcp, statics);
      var out := host.RunCommand(Ifdown(names));
    }

    /** `startNetworkingInterfaces`. */
    method StartNetworkingInterfaces(dhcp: seq<DhcpConfig>, statics: seq<StaticConfig>)
      modifies host
      ensures host.State() == StartStep(host.machine, old(host.State()), dhcp, statics)
    {
      var names := IfaceNames(dhcp, statics);
      var out := host.RunCommand(Ifup(names));
    }

    /** The kernel IPv6 switch. */
    method EnableKernelIPv6() returns (ok: bool)
      modifies host
      ensures ok == co.enableIPv6(old(host.trace))
      ensures host.State() == RecordStep(old(host.State()), EnabledIPv6)
    {
      ok := co.enableIPv6(host.trace);
      host.Record(EnabledIPv6);
    }

    /** `SetupNetworking`. */
    method SetupNetworking(networks: seq<NamedNetwork>) returns (r: Outcome<NetError>)
      modifies host
      ensures (host.State(), r) == SetupRun(Environment(), old(host.State()), networks)
    {
      if IsPreconfigured(networks) {
        var resolved := WriteResolvConf(networks);
        return if resolved.Fail? then Fail(Resolv(resolved.error)) else Pass;
      }
      if HasInterfaceAlias(networks) {
        var ignored := WriteResolvConf(networks);
      }
      ghost var s1 := host.State();
      assert s1 == AliasStep(Environment(), old(host.State()), networks);
      var computed := ComputeNetworkConfig(networks);
      if computed.Err? {
        return Fail(Computing(computed.error));
      }
      var c := computed.value;
      var statics, dhcp, dns := c.statics, c.dhcp, c.dns;
      if StaticHasVersion6(statics) {
        var enabled := EnableKernelIPv6();
        if !enabled {
          return Fail(EnablingIPv6);
        }
      }
      ghost var s2 := host.State();
      assert (s2, true) == EnableStep(Environment(), s1, c.statics);
      var converged, sorted := ConvergeNetConfigs(c);
      if converged.Fail? {
        return converged;
      }
      ghost var s3 := host.State();
      assert (s3, Pass) == ConvergeRun(Environment(), s2, c);
      r := ValidateAndBroadcast(sorted);
    }

    /**
     * The middle of `SetupNetworking`: the dry run, and on a change the
     * cleanup, `ifdown`, the real writes and `ifup`. Returns the records
     * as the writes left them, sorted by name.
     */
    method ConvergeNetConfigs(c: Computed) returns (r: Outcome<NetError>, sorted: Computed)
      modifies host
      ensures (host.State(), r) == ConvergeRun(Environment(), old(host.State()), c)
      ensures sorted == Sorted(c)
    {
      var statics, dhcp, dns := c.statics, c.dhcp, c.dns;
      var changed;
      changed, dhcp, statics := WriteNetConfigs(dhcp, statics, dns, true);
      sorted := Computed(statics, dhcp, dns);
      if changed.Err? {
        return Fail(DeterminingChange(changed.error)), sorted;
      }
      if !changed.value {
        return Pass, sorted;
      }
      var cleaned := RemoveDhcpDnsConfiguration();
      if cleaned.Fail? {
        return Fail(Cleanup(cleaned.error)), sorted;
      }
      StopNetworkingInterfaces(dhcp, statics);
      var wrote;
      wrote, dhcp, statics := WriteNetConfigs(dhcp, statics, dns, false);
      SortedTwice(c);
      if wrote.Err? {
        return Fail(UpdatingConfigs(wrote.error)), sorted;
      }
      StartNetworkingInterfaces(dhcp, statics);
      r := Pass;
    }

    /** The end of `SetupNetworking`: validate the static addresses and the
        DNS servers, then broadcast the addresses. */
    method ValidateAndBroadcast(c: Computed) returns (r: Outcome<NetError>)
      modifies host
      ensures (host.State(), r) == FinishRun(Environment(), old(host.State()), c)
    {
      var staticAddresses, dynamicAddresses := IfaceAddresses(c.statics, c.dhcp);
      var kept := FilterVirtual(staticAddresses);
      var valid := Validate(co.systemAddresses(host.trace), kept, co.resolve);
      if valid.Fail? {
        return Fail(ValidatingStatic(valid.error));
      }
      if !co.dnsValid(host.trace, c.dns) {
        return Fail(ValidatingDns);
      }
      host.Record(Broadcast(kept + dynamicAddresses));
      return Pass;
    }

    /** `GetConfiguredNetworkInterfaces`. */
    method GetConfiguredNetworkInterfaces() returns (r: Result<seq<string>, DetectError>)
      modifies host
      ensures (host.State(), r) == ConfiguredRun(Environment(), old(host.State()))
    {
      var macs := DetectMacAddresses();
      if macs.Err? {
        return Err(macs.error);
      }
      var names := ValuesInOrder(macs.value, co.macOrder(macs.value));
      assert names == VisitedNames(Environment(), macs.value);
      var interfaces := ProbeInterfaces(names);
      return Ok(interfaces);
    }

    /** The loop of `GetConfiguredNetworkInterfaces`: one `ifup --no-act`
        per interface, keeping those not reported unknown. */
    method ProbeInterfaces(names: seq<string>) returns (interfaces: seq<string>)
      modifies host
      ensures (host.State(), interfaces) == ProbeRun(host.machine, old(host.State()), names)
    {
      interfaces := [];
      for i := 0 to |names|
        invariant (host.State(), interfaces) == ProbeRun(host.machine, old(host.State()), names[..i])
      {
        var out := host.RunCommand(ProbeCommand(names[i]));
        assert names[..i + 1][..i] == names[..i] && names[..i + 1][i] == names[i];
        if !MentionsUnknownInterface(out.stderr) {
          interfaces := interfaces + [names[i]];
        }
      }
      assert names[..|names|] == names;
    }
  }
}

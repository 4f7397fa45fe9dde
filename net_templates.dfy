/**
 * The three files the network manager generates: `/etc/network/interfaces`,
 * `/etc/dhcp/dhclient.conf` and the resolver base file. Each template is
 * line-oriented, so each file is written here as the list of lines its
 * template produces, joined by newlines; the properties of the files are
 * stated on those lines.
 */
module NetTemplates {
  import opened Text
  import opened NetworkConfig

  const GeneratedHeader := "# Generated by bosh-agent"

  // ---------------------------------------------------------------------
  // /etc/network/interfaces
  // ---------------------------------------------------------------------

  /** `{{ .Version6 }}`: `6` for an IPv6 interface. */
  function Version6(c: StaticConfig): string { if c.isVersion6 then "6" else "" }

  /** `NetmaskOrLen`: the prefix length for IPv6, the netmask otherwise. */
  function NetmaskOrLen(c: StaticConfig): string { if c.isVersion6 then c.prefixLength else c.netmask }

  /** One `post-up route` line per route, after `indent`. */
  function RouteLines(rs: seq<Route>, indent: string): (ls: seq<string>)
    ensures |ls| == |rs|
    ensures forall i :: 0 <= i < |rs| ==>
      (ls[i] == indent + "post-up route add -net " + rs[i].destination + " netmask " + rs[i].netmask + " gw " + rs[i].gateway)
  {
    seq(|rs|, i requires 0 <= i < |rs| =>
      indent + "post-up route add -net " + rs[i].destination + " netmask " + rs[i].netmask + " gw " + rs[i].gateway)
  }

  /** A DHCP stanza: a blank line before it, its `auto` and `iface` lines, its routes. */
  function DhcpLines(c: DhcpConfig): seq<string>
  {
    ["", "auto " + c.name, "iface " + c.name + " inet dhcp"] + RouteLines(c.postUpRoutes, "")
  }

  /** A static stanza: `network` only for IPv4; `broadcast` (IPv4 only) and
      `gateway` only on the default gateway interface. */
  function StaticLines(c: StaticConfig): seq<string>
  {
    ["", "auto " + c.name] + StaticSettings(c) + RouteLines(c.postUpRoutes, "    ")
  }

  /** The `iface` line of a static stanza and its indented settings. */
  function StaticSettings(c: StaticConfig): seq<string>
  {
    ["iface " + c.name + " inet" + Version6(c) + " static", "    address " + c.address]
    + (if !c.isVersion6 then ["    network " + c.network] else [])
    + ["    netmask " + NetmaskOrLen(c)]
    + (if c.isDefaultForGateway
       then (if !c.isVersion6 then ["    broadcast " + c.broadcast] else []) + ["    gateway " + c.gateway]
       else [])
  }

  function AllDhcpLines(cs: seq<DhcpConfig>): seq<string>
  {
    if cs == [] then [] else DhcpLines(cs[0]) + AllDhcpLines(cs[1..])
  }

  function AllStaticLines(cs: seq<StaticConfig>): seq<string>
  {
    if cs == [] then [] else StaticLines(cs[0]) + AllStaticLines(cs[1..])
  }

  /** `networkInterfaceConfig.HasVersion6`. */
  predicate HasVersion6(dhcp: seq<DhcpConfig>, statics: seq<StaticConfig>)
  {
    StaticHasVersion6(statics) || DhcpHasVersion6(dhcp)
  }

  /** The `dns-nameservers` line: each server after a space. */
  function NameserversLine(dns: seq<string>): string
  {
    "dns-nameservers" + Prefixed(dns, " ")
  }

  /** What follows the stanzas: the end of the last line, then `accept_ra 1`
      for IPv6 and the DNS servers when there are any. */
  function TailLines(dhcp: seq<DhcpConfig>, statics: seq<StaticConfig>, dns: seq<string>): seq<string>
  {
    [""]
    + (if HasVersion6(dhcp, statics) then ["accept_ra 1"] else [])
    + (if dns != [] then [NameserversLine(dns)] else [])
  }

  /**
   * The lines of `/etc/network/interfaces` for records in the order given:
   * the header and the loopback stanza, every DHCP stanza, every static
   * stanza, then the tail.
   */
  function InterfacesLines(dhcp: seq<DhcpConfig>, statics: seq<StaticConfig>, dns: seq<string>): seq<string>
  {
    [GeneratedHeader, "auto lo", "iface lo inet loopback"]
    + AllDhcpLines(dhcp) + AllStaticLines(statics) + TailLines(dhcp, statics, dns)
  }

  function InterfacesFile(dhcp: seq<DhcpConfig>, statics: seq<StaticConfig>, dns: seq<string>): string
  {
    Join(InterfacesLines(dhcp, statics, dns), "\n")
  }

  /** The interface names of the `auto` lines, in order. */
  function AutoNames(lines: seq<string>): seq<string>
  {
    if lines == [] then []
    else (if HasPrefix(lines[0], "auto ") then [lines[0][5..]] else []) + AutoNames(lines[1..])
  }

  lemma {:induction false} AutoNamesAppend(a: seq<string>, b: seq<string>)
    ensures AutoNames(a + b) == AutoNames(a) + AutoNames(b)
  {
    if a == [] {
      assert a + b == b;
    } else {
      assert (a + b)[0] == a[0] && (a + b)[1..] == a[1..] + b;
      AutoNamesAppend(a[1..], b);
    }
  }

  lemma {:induction false} AutoNamesNone(lines: seq<string>)
    requires forall i :: 0 <= i < |lines| ==> !HasPrefix(lines[i], "auto ")
    ensures AutoNames(lines) == []
  {
    if lines != [] {
      AutoNamesNone(lines[1..]);
    }
  }

  lemma AutoLine(name: string)
    ensures AutoNames(["auto " + name]) == [name]
  {
    assert ("auto " + name)[..5] == "auto ";
    assert ("auto " + name)[5..] == name;
  }

  /** A line that is not an `auto` line because its first character is not `a`. */
  lemma NotAuto(l: string)
    requires |l| > 0 && l[0] != 'a'
    ensures !HasPrefix(l, "auto ")
  {
    assert "auto "[0] == 'a';
  }

  lemma RouteLinesNotAuto(rs: seq<Route>, indent: string)
    requires indent == "" || indent == "    "
    ensures AutoNames(RouteLines(rs, indent)) == []
  {
    var ls := RouteLines(rs, indent);
    forall i | 0 <= i < |ls| ensures !HasPrefix(ls[i], "auto ") {
      assert ls[i][0] == (indent + "p")[0];
      NotAuto(ls[i]);
    }
    AutoNamesNone(ls);
  }

  lemma DhcpAutoNames(c: DhcpConfig)
    ensures AutoNames(DhcpLines(c)) == [c.name]
  {
    var l := "iface " + c.name + " inet dhcp";
    var routes := RouteLines(c.postUpRoutes, "");
    AutoNamesAppend(["", "auto " + c.name, l], routes);
    AutoNamesAppend([""], ["auto " + c.name, l]);
    AutoNamesAppend(["auto " + c.name], [l]);
    assert l[0] == 'i';
    NotAuto(l);
    AutoLine(c.name);
    RouteLinesNotAuto(c.postUpRoutes, "");
  }

  lemma StaticAutoNames(c: StaticConfig)
    ensures AutoNames(StaticLines(c)) == [c.name]
  {
    var settings := StaticSettings(c);
    var routes := RouteLines(c.postUpRoutes, "    ");
    assert StaticLines(c) == ["", "auto " + c.name] + settings + routes;
    StaticSettingsNotAuto(c);
    AutoNamesNone(settings);
    AutoNamesAppend(["", "auto " + c.name] + settings, routes);
    AutoNamesAppend(["", "auto " + c.name], settings);
    AutoNamesAppend([""], ["auto " + c.name]);
    AutoLine(c.name);
    RouteLinesNotAuto(c.postUpRoutes, "    ");
  }

  /** Every setting line starts with `i` or a space, so none is an `auto` line. */
  lemma StaticSettingsNotAuto(c: StaticConfig)
    ensures forall i :: 0 <= i < |StaticSettings(c)| ==> !HasPrefix(StaticSettings(c)[i], "auto ")
  {
    var ls := StaticSettings(c);
    forall i | 0 <= i < |ls| ensures !HasPrefix(ls[i], "auto ") {
      assert ls[i][0] == 'i' || ls[i][0] == ' ';
      NotAuto(ls[i]);
    }
  }

  lemma {:induction false} AllDhcpAutoNames(cs: seq<DhcpConfig>)
    ensures AutoNames(AllDhcpLines(cs)) == Names(cs, DhcpName)
  {
    if cs != [] {
      AllDhcpAutoNames(cs[1..]);
      DhcpAutoNames(cs[0]);
      AutoNamesAppend(DhcpLines(cs[0]), AllDhcpLines(cs[1..]));
      assert Names(cs, DhcpName) == [cs[0].name] + Names(cs[1..], DhcpName);
    }
  }

  lemma {:induction false} AllStaticAutoNames(cs: seq<StaticConfig>)
    ensures AutoNames(AllStaticLines(cs)) == Names(cs, StaticName)
  {
    if cs != [] {
      AllStaticAutoNames(cs[1..]);
      StaticAutoNames(cs[0]);
      AutoNamesAppend(StaticLines(cs[0]), AllStaticLines(cs[1..]));
      assert Names(cs, StaticName) == [cs[0].name] + Names(cs[1..], StaticName);
    }
  }

  lemma HeadAutoNames()
    ensures AutoNames([GeneratedHeader, "auto lo", "iface lo inet loopback"]) == ["lo"]
  {
    AutoNamesAppend([GeneratedHeader], ["auto lo", "iface lo inet loopback"]);
    AutoNamesAppend(["auto lo"], ["iface lo inet loopback"]);
    AutoLine("lo");
    NotAuto(GeneratedHeader);
    NotAuto("iface lo inet loopback");
    assert [GeneratedHeader][1..] == [];
    assert ["iface lo inet loopback"][1..] == [];
  }

  lemma TailAutoNames(dhcp: seq<DhcpConfig>, statics: seq<StaticConfig>, dns: seq<string>)
    ensures AutoNames(TailLines(dhcp, statics, dns)) == []
  {
    var t := TailLines(dhcp, statics, dns);
    forall i | 0 <= i < |t| ensures !HasPrefix(t[i], "auto ") {
      if t[i] == "accept_ra 1" {
        assert t[i][1] != "auto "[1];
      } else if t[i] != "" {
        assert t[i] == NameserversLine(dns);
        NotAuto(t[i]);
      }
    }
    AutoNamesNone(t);
  }

  /**
   * The file brings up `lo`, then every DHCP interface, then every static
   * interface, each once and in the order of its records.
   */
  lemma InterfacesAutoNames(dhcp: seq<DhcpConfig>, statics: seq<StaticConfig>, dns: seq<string>)
    ensures AutoNames(InterfacesLines(dhcp, statics, dns)) == ["lo"] + Names(dhcp, DhcpName) + Names(statics, StaticName)
  {
    var head := [GeneratedHeader, "auto lo", "iface lo inet loopback"];
    var d := AllDhcpLines(dhcp);
    var st := AllStaticLines(statics);
    var t := TailLines(dhcp, statics, dns);
    assert InterfacesLines(dhcp, statics, dns) == head + d + st + t;
    AutoNamesAppend(head + d + st, t);
    AutoNamesAppend(head + d, st);
    AutoNamesAppend(head, d);
    AllDhcpAutoNames(dhcp);
    AllStaticAutoNames(statics);
    HeadAutoNames();
    TailAutoNames(dhcp, statics, dns);
  }

  /** A line a stanza can hold: blank, `auto`, or starting with `i`, `p` or a space. */
  predicate StanzaLine(l: string)
  {
    l == "" || l[0] == 'i' || l[0] == 'p' || l[0] == ' ' || HasPrefix(l, "auto ")
  }

  lemma DhcpStanzaLines(c: DhcpConfig)
    ensures forall l :: l in DhcpLines(c) ==> StanzaLine(l)
  {
    assert ("auto " + c.name)[..5] == "auto ";
    forall l | l in RouteLines(c.postUpRoutes, "") ensures StanzaLine(l) {
      var i :| 0 <= i < |c.postUpRoutes| && RouteLines(c.postUpRoutes, "")[i] == l;
    }
  }

  lemma StaticStanzaLines(c: StaticConfig)
    ensures forall l :: l in StaticLines(c) ==> StanzaLine(l)
  {
    assert ("auto " + c.name)[..5] == "auto ";
    forall l | l in RouteLines(c.postUpRoutes, "    ") ensures StanzaLine(l) {
      var i :| 0 <= i < |c.postUpRoutes| && RouteLines(c.postUpRoutes, "    ")[i] == l;
    }
  }

  lemma {:induction false} AllStanzaLines(dhcp: seq<DhcpConfig>, statics: seq<StaticConfig>)
    ensures forall l :: l in AllDhcpLines(dhcp) + AllStaticLines(statics) ==> StanzaLine(l)
    decreases |dhcp| + |statics|
  {
    if dhcp != [] {
      AllStanzaLines(dhcp[1..], statics);
      DhcpStanzaLines(dhcp[0]);
    } else if statics != [] {
      AllStanzaLines(dhcp, statics[1..]);
      StaticStanzaLines(statics[0]);
      assert AllDhcpLines(dhcp) == [];
    }
  }

  /** `accept_ra 1` is in the file exactly when some interface is IPv6. */
  lemma AcceptRaIff(dhcp: seq<DhcpConfig>, statics: seq<StaticConfig>, dns: seq<string>)
    ensures "accept_ra 1" in InterfacesLines(dhcp, statics, dns) <==> HasVersion6(dhcp, statics)
  {
    var head := [GeneratedHeader, "auto lo", "iface lo inet loopback"];
    var body := AllDhcpLines(dhcp) + AllStaticLines(statics);
    var tail := TailLines(dhcp, statics, dns);
    assert InterfacesLines(dhcp, statics, dns) == head + body + tail;
    assert "accept_ra 1" !in head by {
      assert |"accept_ra 1"| == 11;
    }
    assert "accept_ra 1" !in body by {
      AllStanzaLines(dhcp, statics);
      assert !StanzaLine("accept_ra 1") by { assert "accept_ra 1"[1] == 'c'; }
    }
    AcceptRaInTail(dhcp, statics, dns);
  }

  lemma AcceptRaInTail(dhcp: seq<DhcpConfig>, statics: seq<StaticConfig>, dns: seq<string>)
    ensures "accept_ra 1" in TailLines(dhcp, statics, dns) <==> HasVersion6(dhcp, statics)
  {
    if dns != [] {
      assert NameserversLine(dns) != "accept_ra 1" by { assert NameserversLine(dns)[0] == 'd'; }
    }
  }

  /** A line that does not start with `d` does not start with `dns-nameservers`. */
  lemma NotNameservers(l: string)
    requires l == "" || l[0] != 'd'
    ensures !HasPrefix(l, "dns-nameservers")
  {
    if l != "" {
      assert "dns-nameservers"[0] == 'd';
    }
  }

  /**
   * The DNS servers appear, in order, on the last line when there are any;
   * with none, no line starts with `dns-nameservers`.
   */
  lemma NameserversLast(dhcp: seq<DhcpConfig>, statics: seq<StaticConfig>, dns: seq<string>)
    ensures dns != [] ==> InterfacesLines(dhcp, statics, dns)[|InterfacesLines(dhcp, statics, dns)| - 1] == NameserversLine(dns)
    ensures dns == [] ==> forall l :: l in InterfacesLines(dhcp, statics, dns) ==> !HasPrefix(l, "dns-nameservers")
  {
    if dns == [] {
      var head := [GeneratedHeader, "auto lo", "iface lo inet loopback"];
      var body := AllDhcpLines(dhcp) + AllStaticLines(statics);
      var tail := TailLines(dhcp, statics, dns);
      assert InterfacesLines(dhcp, statics, dns) == head + body + tail;
      HeadNotNameservers();
      BodyNotNameservers(dhcp, statics);
      TailNotNameservers(dhcp, statics);
    }
  }

  lemma HeadNotNameservers()
    ensures forall l :: l in [GeneratedHeader, "auto lo", "iface lo inet loopback"] ==> !HasPrefix(l, "dns-nameservers")
  {
    NotNameservers(GeneratedHeader);
    NotNameservers("auto lo");
    NotNameservers("iface lo inet loopback");
  }

  lemma BodyNotNameservers(dhcp: seq<DhcpConfig>, statics: seq<StaticConfig>)
    ensures forall l :: l in AllDhcpLines(dhcp) + AllStaticLines(statics) ==> !HasPrefix(l, "dns-nameservers")
  {
    AllStanzaLines(dhcp, statics);
    forall l | l in AllDhcpLines(dhcp) + AllStaticLines(statics) ensures !HasPrefix(l, "dns-nameservers") {
      assert StanzaLine(l);
      if l != "" && HasPrefix(l, "auto ") {
        assert l[0] == "auto "[0];
      }
      NotNameservers(l);
    }
  }

  lemma TailNotNameservers(dhcp: seq<DhcpConfig>, statics: seq<StaticConfig>)
    ensures forall l :: l in TailLines(dhcp, statics, []) ==> !HasPrefix(l, "dns-nameservers")
  {
    assert TailLines(dhcp, statics, []) == [""] || TailLines(dhcp, statics, []) == ["", "accept_ra 1"];
    NotNameservers("");
    NotNameservers("accept_ra 1");
  }

  // ---------------------------------------------------------------------
  // /etc/dhcp/dhclient.conf
  // ---------------------------------------------------------------------

  /** The fixed part of the DHCP client configuration. */
  const DhclientPreamble: seq<string> := [
    GeneratedHeader,
    "",
    "option rfc3442-classless-static-routes code 121 = array of unsigned integer 8;",
    "",
    "send host-name \"<hostname>\";",
    "",
    "request subnet-mask, broadcast-address, time-offset, routers,",
    "\tdomain-name, domain-name-servers, domain-search, host-name,",
    "\tnetbios-name-servers, netbios-scope, interface-mtu,",
    "\trfc3442-classless-static-routes, ntp-servers;"
  ]

  /** The servers as one comma-separated list, in the order given. */
  function DnsList(dns: seq<string>): string { Join(dns, ", ") }

  /** The `prepend` line is written only when the list is not empty text. */
  function DhclientLines(dns: seq<string>): seq<string>
  {
    DhclientPreamble + [""]
    + (if DnsList(dns) != "" then ["prepend domain-name-servers " + DnsList(dns) + ";"] else [])
    + [""]
  }

  function DhclientFile(dns: seq<string>): string
  {
    Join(DhclientLines(dns), "\n")
  }

  /** The list is empty text exactly when there is no server, or one empty one. */
  lemma DnsListEmptyIff(dns: seq<string>)
    ensures DnsList(dns) == "" <==> dns == [] || dns == [""]
  {
    if |dns| >= 2 {
      assert |Join(dns, ", ")| >= 2;
    }
  }

  /**
   * The DHCP client prepends the servers, all on one line in the given
   * order, unless there are none or the only one is empty text.
   */
  lemma DhclientPrepends(dns: seq<string>)
    ensures (dns == [] || dns == [""]) ==> DhclientLines(dns) == DhclientPreamble + ["", ""]
    ensures !(dns == [] || dns == [""]) ==>
      DhclientLines(dns) == DhclientPreamble + ["", "prepend domain-name-servers " + Join(dns, ", ") + ";", ""]
  {
    DnsListEmptyIff(dns);
  }

  // ---------------------------------------------------------------------
  // /etc/resolvconf/resolv.conf.d/base
  // ---------------------------------------------------------------------

  function NameserverLines(dns: seq<string>): (ls: seq<string>)
    ensures |ls| == |dns| && forall i :: 0 <= i < |dns| ==> ls[i] == "nameserver " + dns[i]
  {
    seq(|dns|, i requires 0 <= i < |dns| => "nameserver " + dns[i])
  }

  /** The header, one `nameserver` line per server in order, and a final newline. */
  function ResolvConfLines(dns: seq<string>): seq<string>
  {
    [GeneratedHeader] + NameserverLines(dns) + [""]
  }

  function ResolvConfFile(dns: seq<string>): string
  {
    Join(ResolvConfLines(dns), "\n")
  }

  /** The servers a resolver reads back: the rest of every `nameserver ` line. */
  function ParseNameservers(lines: seq<string>): seq<string>
  {
    if lines == [] then []
    else (if HasPrefix(lines[0], "nameserver ") then [lines[0][11..]] else []) + ParseNameservers(lines[1..])
  }

  lemma {:induction false} ParseNameserversAppend(a: seq<string>, b: seq<string>)
    ensures ParseNameservers(a + b) == ParseNameservers(a) + ParseNameservers(b)
  {
    if a == [] {
      assert a + b == b;
    } else {
      assert (a + b)[0] == a[0] && (a + b)[1..] == a[1..] + b;
      ParseNameserversAppend(a[1..], b);
    }
  }

  lemma {:induction false} ParseNameserverLines(dns: seq<string>)
    ensures ParseNameservers(NameserverLines(dns)) == dns
  {
    if dns != [] {
      var ls := NameserverLines(dns);
      ParseNameserverLines(dns[1..]);
      assert ls[1..] == NameserverLines(dns[1..]);
      assert ls[0][..11] == "nameserver " && ls[0][11..] == dns[0];
      assert dns == [dns[0]] + dns[1..];
    }
  }

  /**
   * Reading the written file back line by line gives the servers, in
   * order, provided no server contains a newline.
   */
  lemma ResolvConfRoundTrip(dns: seq<string>)
    requires forall i :: 0 <= i < |dns| ==> Free(dns[i], '\n')
    ensures ParseNameservers(Split(ResolvConfFile(dns), '\n')) == dns
  {
    var lines := ResolvConfLines(dns);
    forall i | 0 <= i < |lines| ensures Free(lines[i], '\n') {
      if i == 0 {
        assert Free(GeneratedHeader, '\n');
      } else if i <= |dns| {
        assert lines[i] == "nameserver " + dns[i - 1];
        FreeAppend("nameserver ", dns[i - 1], '\n');
      }
    }
    SplitJoin(lines, '\n');
    assert "\n" == ['\n'];
    ParseNameserversAppend([GeneratedHeader] + NameserverLines(dns), [""]);
    ParseNameserversAppend([GeneratedHeader], NameserverLines(dns));
    ParseNameserverLines(dns);
    assert !HasPrefix(GeneratedHeader, "nameserver ") by { assert GeneratedHeader[0] == '#'; }
  }
}

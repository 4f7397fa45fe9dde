# bosh-agent network and ephemeral-disk core, modelled in Dafny

This project models two jobs of the BOSH agent on an Ubuntu stemcell.

- **Network setup.** `UbuntuNetManager.SetupNetworking` is the main routine. It takes the desired networks of the deployment and computes the interface records (VIP networks excluded). It then asks a dry run of `writeNetConfigs` whether `/etc/network/interfaces` or `/etc/dhcp/dhclient.conf` would change. Only when something would change does it clean up dhclient state: it kills `dhclient` and runs `resolvconf -d` for every interface found by MAC detection (one name per distinct MAC address, the last device with that address winning). After the cleanup it takes the interfaces down. It then converges `/etc/network/interfaces` and, when there are DHCP interfaces, `/etc/dhcp/dhclient.conf`; each file is written only when its contents differ. Then it brings the interfaces up again. Last, it validates the static addresses (virtual `eth0:N` aliases skipped) and the DNS servers, and broadcasts the addresses. When every network is preconfigured, only the resolver configuration is written.
- **Ephemeral disk.** `EphemeralDevicePartitioner.Partition` reads the agent id from the settings file and names partitions after it. It leaves a device alone when its partition table already matches and is named for this agent. Otherwise it erases every partition path reported by `blkid` (`wipefs -a`, retried), removes every table entry (`parted rm`, retried), and asks the parted driver to create the new table.
- **Address validator.** This is the component the network manager calls to compare the addresses the kernel reports with the desired ones.
- **Partition type.** This covers the partition type constants and the partition's `String` rendering.

## How the model works

- **The host.** The machine is a `Host` object: files, symlinks and an append-only log of effects (commands run, files written, copied or linked, interfaces probed, addresses broadcast).
- **The outside world.** What the outside world answers is fixed by a `Machine` value. The answer to a command is a function of the log so far and the command, and a set of paths cannot be read or written.
- **Methods and functions.** Every Go operation that changes the host is a method of `UbuntuNetManager` or `EphemeralDevicePartitioner`. The Go functions that only compute a value (`Validate`, `findInterfaceByName`, `Partition.String`) are functions of their modules. A method's contract ties the new host state and the result to a pure function of the old state (`SetupRun`, `ConvergeRun`, `RemovePartitionsRun`, `PartitionRun`, …). The properties are lemmas about those functions.
- **Collaborators.** Code that is not part of this model is passed in as fixed functions:
  - the interface configuration builder;
  - the kernel IPv6 switch;
  - the system address provider and the IP resolver;
  - the DNS validator;
  - the parted driver (`Parted`);
  - JSON decoding of the settings file;
  - the order in which Go visits the keys of the MAC map.

Modules:

| module | content |
|---|---|
| `Common` | `Option`, `Result` and `Outcome` (pass or fail with an error) |
| `Host` | the effect log and the file system of the machine |
| `Text` | decimal rendering, join/split, trim, Go string order, the `:\d+` scan |
| `StableSort` | `sort.Stable` by a string key, as insertion sort |
| `RetryStrategy` | the bounded retry of one command, and of a list of commands |
| `PartitionTypes` | the partition types and `Partition.String` |
| `EphemeralPartitioner` | the parted driver interface, the `devicePath[0-9]+` scan and `EphemeralDevicePartitioner` |
| `InterfaceAddresses` | the interface address validator |
| `NetworkConfig` | desired networks, interface records and the settings helpers |
| `NetInterfaces` | MAC detection, interface names, address lists, the virtual-interface filter, probes and the `[uU]nknown interface` scan |
| `NetTemplates` | the text of the interfaces, dhclient and resolv.conf files |
| `UbuntuNet` | `UbuntuNetManager` and the properties of a networking pass |

## Model

| member | source | states |
|---|---|---|
| UbuntuNet.UbuntuNetManager.constructor | platform/net/ubuntu_net_manager.go:33-55 | the manager works on the given host with the given collaborators |
| UbuntuNet.UbuntuNetManager.SetupNetworking | platform/net/ubuntu_net_manager.go:99-171 | the new host state and the outcome are those of the reference pass `SetupRun`: preconfigured short cut, alias resolver write, compute, IPv6 switch, dry run, change block, validation, broadcast |
| UbuntuNet.UbuntuNetManager.ConvergeNetConfigs | platform/net/ubuntu_net_manager.go:122-141 | the dry run, then (only on a change) cleanup, ifdown, real write and ifup, as `ConvergeRun`; the records come back sorted by interface name, as the in-place sort leaves them |
| UbuntuNet.UbuntuNetManager.ValidateAndBroadcast | platform/net/ubuntu_net_manager.go:143-168 | validates the non-virtual static addresses, then the DNS servers, then logs the broadcast, as `FinishRun` |
| UbuntuNet.UbuntuNetManager.ComputeNetworkConfig | platform/net/ubuntu_net_manager.go:73-90 | the result is `ComputeRun`: MAC detection, the builder on the non-VIP networks, the DNS servers of the default DNS network |
| UbuntuNet.UbuntuNetManager.BuildInterfaces | platform/net/ubuntu_net_manager.go:247-263 | the builder gets the detected MAC map; a detection error or a builder failure is reported as such |
| UbuntuNet.UbuntuNetManager.DetectMacAddresses | platform/net/ubuntu_net_manager.go:396-422 | the loop over `/sys/class/net` entries computes `DetectMacs` |
| UbuntuNet.UbuntuNetManager.IfaceNames | platform/net/ubuntu_net_manager.go:424-433 | the two loops give the DHCP names, then the static names, in record order |
| UbuntuNet.UbuntuNetManager.IfaceAddresses | platform/net/ubuntu_net_manager.go:265-276 | one simple address (name, IP) per static record and one resolving address per DHCP record, in order |
| UbuntuNet.UbuntuNetManager.FilterVirtual | platform/net/ubuntu_net_manager.go:146-157 | the loop keeps exactly the addresses `WithoutVirtual` keeps, in order |
| UbuntuNet.UbuntuNetManager.WriteResolvConf | platform/net/ubuntu_net_manager.go:435-492 | the resolver update has the effects and outcome of `ResolvConfRun` |
| UbuntuNet.UbuntuNetManager.WriteNetworkInterfaces | platform/net/ubuntu_net_manager.go:342-373 | sorts both record lists by name (a stable permutation) and converges `/etc/network/interfaces` to the rendered template, dry or real |
| UbuntuNet.UbuntuNetManager.WriteDhcpConfiguration | platform/net/ubuntu_net_manager.go:309-329 | converges `/etc/dhcp/dhclient.conf` to the rendered dhclient template, dry or real |
| UbuntuNet.UbuntuNetManager.WriteNetConfigs | platform/net/ubuntu_net_manager.go:173-194 | interfaces file first; the DHCP file only when there are DHCP records; changed is the disjunction; the first error stops |
| UbuntuNet.UbuntuNetManager.RemoveDhcpDnsConfiguration | platform/net/ubuntu_net_manager.go:220-245 | `pkill dhclient`, then MAC detection, then `resolvconf -d <name>.dhclient` per visited interface, as `RemoveDhcpDnsRun`; see `CleanupDeletesEvery` and `CleanupDeletesOnlyDetected` |
| UbuntuNet.UbuntuNetManager.StopNetworkingInterfaces | platform/net/ubuntu_net_manager.go:287-296 | logs `ifdown --force` with the DHCP then static names; a failure is ignored |
| UbuntuNet.UbuntuNetManager.StartNetworkingInterfaces | platform/net/ubuntu_net_manager.go:298-307 | logs `ifup --force` with the DHCP then static names; a failure is ignored |
| UbuntuNet.UbuntuNetManager.EnableKernelIPv6 | platform/net/ubuntu_net_manager.go:115-120 | records the switch and returns the collaborator's answer |
| UbuntuNet.UbuntuNetManager.GetConfiguredNetworkInterfaces | platform/net/ubuntu_net_manager.go:196-218 | MAC detection, then one probe per detected interface, as `ConfiguredRun` |
| UbuntuNet.UbuntuNetManager.ProbeInterfaces | platform/net/ubuntu_net_manager.go:204-215 | one `ifup --no-act` per name; the names kept are those whose probe does not report an unknown interface |
| UbuntuNet.PreconfiguredOnlyResolver | platform/net/ubuntu_net_manager.go:100-103 | with every network preconfigured the pass has only resolver effects, and it passes exactly when writing the resolver configuration passes |
| UbuntuNet.SetupCalmWithoutChange | platform/net/ubuntu_net_manager.go:122-141 | when the dry run reports no change, the pass runs no pkill, resolvconf -d, ifdown or ifup and writes neither network file |
| UbuntuNet.QuietTailCalm | platform/net/ubuntu_net_manager.go:122-168 | everything after the computation is calm (as above) unless the dry run reports a change |
| UbuntuNet.DryErrorTailCalm | platform/net/ubuntu_net_manager.go:122-125 | a dry-run error ends the pass with the host unchanged |
| UbuntuNet.NoChangeTailCalm | platform/net/ubuntu_net_manager.go:127-168 | with no change reported, the change block is skipped and only validation and broadcast follow |
| UbuntuNet.ConvergeQuiet | platform/net/ubuntu_net_manager.go:122-141 | no change reported: the convergence passes and leaves the host as it was |
| UbuntuNet.ConvergeOrder | platform/net/ubuntu_net_manager.go:122-141 | on a change with writable files the log grows by exactly pkill, the resolvconf -d deletions, ifdown, the file writes, ifup, in that order |
| UbuntuNet.ApplyOrder | platform/net/ubuntu_net_manager.go:127-141 | the change block alone, on a successful detection, logs cleanup, ifdown, writes and ifup in that order and passes |
| UbuntuNet.ApplyPrefix | platform/net/ubuntu_net_manager.go:128-133 | cleanup and ifdown leave the files alone and log pkill, one resolvconf -d per visited interface, then ifdown |
| UbuntuNet.ApplyFiles | platform/net/ubuntu_net_manager.go:135-138 | after the change block the interfaces file holds the rendered template, and so does the DHCP file when there are DHCP records |
| UbuntuNet.ConvergeDryRunError | platform/net/ubuntu_net_manager.go:122-125 | a failing dry run returns before anything happens |
| UbuntuNet.ConvergeCleanupError | platform/net/ubuntu_net_manager.go:128-131 | a detection failure in the cleanup returns after pkill alone, before ifdown and before any write |
| UbuntuNet.ConvergeErrorKinds | platform/net/ubuntu_net_manager.go:122-138 | a convergence fails only in the dry run, the cleanup or the real write |
| UbuntuNet.ConvergeTwiceQuiet | platform/net/ubuntu_net_manager.go:122-141 | convergence is idempotent: right after a successful pass, a second one changes nothing |
| UbuntuNet.SetupEarlyErrorsUndisruptive | platform/net/ubuntu_net_manager.go:110-131 | a pass that fails while computing, enabling IPv6, in the dry run or in the cleanup has run no ifdown or ifup and written no network file |
| UbuntuNet.ChangedEarlyErrorsUndisruptive | platform/net/ubuntu_net_manager.go:127-131 | the same when the failure comes after a reported change |
| UbuntuNet.ChangedEarlyErrorIsCleanup | platform/net/ubuntu_net_manager.go:128-131 | after a reported change an early failure is the cleanup's, and only pkill was logged |
| UbuntuNet.FinishErrorKinds | platform/net/ubuntu_net_manager.go:158-166 | after the change block the pass fails only in static or DNS validation |
| UbuntuNet.FinishBroadcasts | platform/net/ubuntu_net_manager.go:158-168 | a passing tail validated the addresses and the DNS servers and logs exactly one broadcast of the non-virtual static then dynamic addresses |
| UbuntuNet.SetupBroadcastsLast | platform/net/ubuntu_net_manager.go:143-170 | a passing non-preconfigured pass ends with the broadcast, after the address and DNS validation passed on the state just before it |
| UbuntuNet.FinishCalm | platform/net/ubuntu_net_manager.go:143-168 | validation and broadcast do not touch interfaces or files |
| UbuntuNet.AliasCalm | platform/net/ubuntu_net_manager.go:106-108 | the extra resolver write for aliased networks is calm |
| UbuntuNet.EnableCalm | platform/net/ubuntu_net_manager.go:115-120 | the kernel IPv6 switch is calm |
| UbuntuNet.ResolverIsCalm | platform/net/ubuntu_net_manager.go:435-492 | a resolver effect is never a pkill, resolvconf -d, ifdown, ifup or write of a network file |
| UbuntuNet.ResolvPrepareOnly | platform/net/ubuntu_net_manager.go:438-479 | preparing the base file has only resolver effects: a write of the base file or a copy of the old resolv.conf |
| UbuntuNet.ResolvConfOnly | platform/net/ubuntu_net_manager.go:435-492 | `writeResolvConf` has only resolver effects |
| UbuntuNet.ResolvConfOutcome | platform/net/ubuntu_net_manager.go:458-491 | on success resolv.conf is a link to the run-time file and `resolvconf -u` ran last; the base file holds the rendered servers when there are servers, otherwise a copy of a plain old resolv.conf; when resolv.conf already was a link elsewhere no file is written |
| UbuntuNet.ResolvConfBaseReadsBack | platform/net/ubuntu_net_manager.go:438-462 | the servers read back from the written base file are the DNS servers, in order |
| UbuntuNet.DryRunReportsChange | platform/net/ubuntu_net_manager.go:184-193 | the dry run changes nothing and reports changed = interfaces file differs, or there are DHCP records and the DHCP file differs |
| UbuntuNet.DryRunKeepsHost | platform/net/ubuntu_net_manager.go:122-125 | the dry run never changes the host, whatever it reports |
| UbuntuNet.DryWriteKeepsHost | platform/net/ubuntu_net_manager.go:173-194 | a dry write of any rendering leaves the host as it was |
| UbuntuNet.RealRunLog | platform/net/ubuntu_net_manager.go:173-194 | with writable paths the real write passes and logs a write only for a file whose contents differ, the DHCP file only when it is rendered |
| UbuntuNet.RealRunFiles | platform/net/ubuntu_net_manager.go:173-194 | after a successful real write the files hold the renderings and links are untouched |
| UbuntuNet.ConvergeFiles | platform/net/ubuntu_net_manager.go:367 | a successful real convergence leaves the file holding the content |
| UbuntuNet.ConvergeLog | platform/net/ubuntu_net_manager.go:367 | converging a writable file passes, reports whether it differed and logs a write only then |
| UbuntuNet.InterfacesTextSorted | platform/net/ubuntu_net_manager.go:348-349 | the rendering, which sorts the records by name first, gives the same text from the records sorted by name as from the records handed in, so sorting them again, as the real write after the dry run does, changes nothing |
| UbuntuNet.DhcpTextSorted | platform/net/ubuntu_net_manager.go:186-187 | rendering the dhclient file from the sorted DHCP records gives the same text as from the records handed in |
| UbuntuNet.SortedTwice | platform/net/ubuntu_net_manager.go:348-349 | sorting the already sorted records, as the real write after the dry run does, changes nothing |
| UbuntuNet.InterfaceCommandsMatchFile | platform/net/ubuntu_net_manager.go:287-307 | the interfaces passed to ifdown and ifup are exactly those the written file brings up with `auto`, after `lo` |
| UbuntuNet.ValidatedAddressesNonVirtual | platform/net/ubuntu_net_manager.go:143-158 | every address validated is a static record's (name, IP) and is not a virtual alias |
| UbuntuNet.ComputeIgnoresVip | platform/net/ubuntu_net_manager.go:73-90 | adding a VIP network anywhere to the input leaves the computed configuration unchanged |
| UbuntuNet.ComputeSeesNonVip | platform/net/ubuntu_net_manager.go:73-89 | a successful computation is the builder's answer on the detected MACs and exactly the non-VIP networks |
| UbuntuNet.ConfiguredShape | platform/net/ubuntu_net_manager.go:196-218 | fails exactly when MAC detection fails, with the host unchanged; otherwise logs one probe per visited interface and returns exactly the visited interfaces whose probe did not report an unknown interface |
| UbuntuNet.ConfiguredProbesAll | platform/net/ubuntu_net_manager.go:204-205 | every detected interface is probed |
| UbuntuNet.CleanupDeletesEvery | platform/net/ubuntu_net_manager.go:234-242 | when MAC detection succeeds and the visit covers the map, the resolvconf record of every detected interface is deleted |
| UbuntuNet.CleanupDeletesOnlyDetected | platform/net/ubuntu_net_manager.go:227-242 | a resolvconf record is deleted only when MAC detection succeeded and the name is a detected interface's |
| NetworkConfig.FirstDefaultFor | platform/net/ubuntu_net_manager.go:87-88 | the network found is in the input and is a default for the category; there is none only when no network is |
| NetworkConfig.NonVipIff | platform/net/ubuntu_net_manager.go:74-80 | a network reaches the builder exactly when it is in the input and is not a VIP |
| NetworkConfig.NonVipAppend | platform/net/ubuntu_net_manager.go:74-80 | the VIP filter works entry by entry, so it keeps the input order |
| NetworkConfig.VipIgnored | platform/net/ubuntu_net_manager.go:74-82 | removing a VIP from the input changes nothing the builder sees |
| NetworkConfig.SortStatic | platform/net/ubuntu_net_manager.go:349 | the static records are a permutation of the input, ordered by interface name |
| NetworkConfig.SortDhcp | platform/net/ubuntu_net_manager.go:348 | the DHCP records are a permutation of the input, ordered by interface name |
| StableSort.SortSorted | platform/net/ubuntu_net_manager.go:348-349 | the sort orders the records by key |
| StableSort.SortPermutes | platform/net/ubuntu_net_manager.go:348-349 | the sort is a permutation |
| StableSort.SortStable | platform/net/ubuntu_net_manager.go:348-349 | records with the same key keep their relative order |
| StableSort.SortOfSorted | platform/net/ubuntu_net_manager.go:348-349 | already ordered records are left as they are |
| StableSort.SortIdempotent | platform/net/ubuntu_net_manager.go:348-349 | sorting twice is sorting once |
| Text.LessIrreflexive | platform/net/ubuntu_net_manager.go:348-349 | no name sorts before itself in Go string order |
| Text.LessTransitive | platform/net/ubuntu_net_manager.go:348-349 | Go string order is transitive |
| Text.LessTotal | platform/net/ubuntu_net_manager.go:348-349 | two different names are always ordered one way or the other |
| Text.Trim | platform/net/ubuntu_net_manager.go:414 | what was read is the trimmed MAC between a run of newlines before it and a run after it, and the trimmed MAC neither starts nor ends with a newline |
| Text.TrimNoop | platform/net/ubuntu_net_manager.go:414 | a MAC without surrounding newlines is left alone |
| Text.HasColonDigitsIff | platform/net/ubuntu_net_manager.go:147-152 | the `:\d+` scan matches exactly when a colon is followed by a digit |
| Text.ContainsIff | platform/net/ubuntu_net_manager.go:210-212 | the substring scan finds the text exactly when it occurs |
| Text.NatToDecimal | platform/disk/partitioner_interface.go:33 | `%d` of a size is a non-empty digit string without a leading zero |
| Text.DecimalRoundTrip | platform/disk/partitioner_interface.go:33 | reading back a rendered size gives the size |
| Text.NatToDecimalInjective | platform/disk/partitioner_interface.go:33 | different sizes render differently |
| Text.IntToDecimal | platform/disk/ephemeral_device_partitioner.go:146 | `strconv.Itoa` gives a non-empty text starting with `-` exactly for negatives |
| Text.SplitJoin | platform/net/ubuntu_net_manager.go:438-440 | lines joined by newlines split back into the same lines |
| NetInterfaces.PathBaseIsLastSegment | platform/net/ubuntu_net_manager.go:416 | the interface name is the last `/`-free segment of the entry path |
| NetInterfaces.AddDeviceErr | platform/net/ubuntu_net_manager.go:405-412 | one entry fails exactly when it has a `device` child and its address cannot be read |
| NetInterfaces.AddDeviceKeys | platform/net/ubuntu_net_manager.go:405-418 | one entry adds exactly its trimmed MAC, mapped to its base name, and leaves other MACs alone |
| NetInterfaces.MacsOverErrPersists | platform/net/ubuntu_net_manager.go:409-412 | after the first read failure the loop returns that error |
| NetInterfaces.MacsOverErrIff | platform/net/ubuntu_net_manager.go:405-412 | detection fails exactly when some entry with a `device` child has an unreadable address |
| NetInterfaces.MacsOverKeySource | platform/net/ubuntu_net_manager.go:404-419 | every key of the map is the trimmed MAC of an entry with a `device` child |
| NetInterfaces.MacsOverHasKey | platform/net/ubuntu_net_manager.go:404-419 | every entry with a `device` child contributes its MAC |
| NetInterfaces.MacsOverLastWins | platform/net/ubuntu_net_manager.go:417 | a MAC reported by several entries maps to the base name of the last one |
| NetInterfaces.MacsOverIgnoresLog | platform/net/ubuntu_net_manager.go:396-422 | detection reads only the file system, never the command log |
| NetInterfaces.DetectIgnoresLog | platform/net/ubuntu_net_manager.go:224-232 | the `pkill` before detection does not change what detection finds |
| NetInterfaces.ValuesInOrder | platform/net/ubuntu_net_manager.go:234 | every interface visited is a value of the MAC map |
| NetInterfaces.ValuesInOrderComplete | platform/net/ubuntu_net_manager.go:234 | when the visit covers every key, every detected interface is visited |
| NetInterfaces.ValuesInOrderHas | platform/net/ubuntu_net_manager.go:234 | a visited key's interface is in the visit |
| NetInterfaces.IfaceNamesOf | platform/net/ubuntu_net_manager.go:424-433 | the DHCP names first, then the static names, each in record order, and nothing else |
| NetInterfaces.StaticAddresses | platform/net/ubuntu_net_manager.go:267-269 | one simple address with the record's name and IP per static record, in order |
| NetInterfaces.DynamicAddresses | platform/net/ubuntu_net_manager.go:270-273 | one resolving address with the record's name per DHCP record, in order |
| NetInterfaces.WithoutVirtualIff | platform/net/ubuntu_net_manager.go:146-157 | an address is validated exactly when it was given and its name has no colon followed by a digit |
| NetInterfaces.WithoutVirtualAppend | platform/net/ubuntu_net_manager.go:151-157 | the filter works address by address, so it keeps the order |
| NetInterfaces.WithoutVirtualNoop | platform/net/ubuntu_net_manager.go:146-157 | without aliases the filter keeps every address |
| NetInterfaces.ProbeRunShape | platform/net/ubuntu_net_manager.go:204-215 | one probe per name, in order; a name is returned exactly when its probe does not report an unknown interface |
| NetInterfaces.ProbeRunLog | platform/net/ubuntu_net_manager.go:205-208 | the probes are logged in name order and nothing else is |
| NetInterfaces.ProbeRunKeepsNames | platform/net/ubuntu_net_manager.go:204-215 | the names returned are among those probed |
| NetInterfaces.ProbeRunKeepsAnswered | platform/net/ubuntu_net_manager.go:210-214 | a name whose probe does not report an unknown interface is returned |
| NetInterfaces.ProbeRunKeepsOnlyAnswered | platform/net/ubuntu_net_manager.go:210-214 | a name is returned only when its probe, at its turn, did not report an unknown interface |
| NetTemplates.InterfacesAutoNames | platform/net/ubuntu_net_manager.go:376-392 | the interfaces file brings up `lo`, then every DHCP interface, then every static one, each once, in record order |
| NetTemplates.DhcpAutoNames | platform/net/ubuntu_net_manager.go:379-382 | a DHCP stanza brings up exactly its interface |
| NetTemplates.StaticAutoNames | platform/net/ubuntu_net_manager.go:383-391 | a static stanza brings up exactly its interface |
| NetTemplates.AllDhcpAutoNames | platform/net/ubuntu_net_manager.go:379-382 | the DHCP stanzas bring up the DHCP interfaces in order |
| NetTemplates.AllStaticAutoNames | platform/net/ubuntu_net_manager.go:383-391 | the static stanzas bring up the static interfaces in order |
| NetTemplates.HeadAutoNames | platform/net/ubuntu_net_manager.go:376-378 | the header brings up only `lo` |
| NetTemplates.TailAutoNames | platform/net/ubuntu_net_manager.go:392-394 | the tail brings up nothing |
| NetTemplates.StaticSettingsNotAuto | platform/net/ubuntu_net_manager.go:385-391 | no address, netmask, gateway or route line of a static stanza reads as an `auto` line |
| NetTemplates.RouteLines | platform/net/ubuntu_net_manager.go:381-382 | one `post-up route add` line per route, with its destination, netmask and gateway, in order |
| NetTemplates.DhcpStanzaLines | platform/net/ubuntu_net_manager.go:379-382 | every line of a DHCP stanza is blank, an `auto`/`iface` line or an unindented `post-up` route line |
| NetTemplates.StaticStanzaLines | platform/net/ubuntu_net_manager.go:383-391 | the same for a static stanza |
| NetTemplates.AllStanzaLines | platform/net/ubuntu_net_manager.go:379-391 | the same for every stanza |
| NetTemplates.AcceptRaIff | platform/net/ubuntu_net_manager.go:392-393 | the file has `accept_ra 1` exactly when some DHCP or static interface is IPv6 |
| NetTemplates.AcceptRaInTail | platform/net/ubuntu_net_manager.go:392-393 | the `accept_ra 1` line is in the tail exactly when some interface is IPv6 |
| NetTemplates.NameserversLast | platform/net/ubuntu_net_manager.go:393-394 | with DNS servers, the last line lists them in order; without, no line is a `dns-nameservers` line |
| NetTemplates.HeadNotNameservers | platform/net/ubuntu_net_manager.go:376-378 | the header has no `dns-nameservers` line |
| NetTemplates.BodyNotNameservers | platform/net/ubuntu_net_manager.go:379-391 | no stanza has a `dns-nameservers` line |
| NetTemplates.TailNotNameservers | platform/net/ubuntu_net_manager.go:392-394 | without servers the tail has no `dns-nameservers` line |
| NetTemplates.DnsListEmptyIff | platform/net/ubuntu_net_manager.go:315 | the joined server list is empty text exactly when there are no servers or a single empty one |
| NetTemplates.DhclientPrepends | platform/net/ubuntu_net_manager.go:59-71 | the dhclient file is the fixed preamble plus one `prepend domain-name-servers` line with all servers, comma separated in order, exactly when that list is not empty text |
| NetTemplates.NameserverLines | platform/net/ubuntu_net_manager.go:438-440 | one `nameserver` line per server, in order |
| NetTemplates.ParseNameserverLines | platform/net/ubuntu_net_manager.go:438-440 | reading the `nameserver` lines back gives the servers |
| NetTemplates.ResolvConfRoundTrip | platform/net/ubuntu_net_manager.go:438-440 | reading the rendered resolv.conf back gives the servers in order |
| InterfaceAddresses.FindInterfaceByName | platform/net/ip/interface_addresses_validator.go:54-62 | not found exactly when no entry has the name; otherwise an entry with that name |
| InterfaceAddresses.FindInterfaceByNameFirst | platform/net/ip/interface_addresses_validator.go:55-59 | the entry found is the first with that name |
| InterfaceAddresses.FirstNamedUnique | platform/net/ip/interface_addresses_validator.go:54-62 | the first entry with the name is the one found |
| InterfaceAddresses.Validate | platform/net/ip/interface_addresses_validator.go:21-52 | a provider failure is reported as such; with nothing desired the validation passes |
| InterfaceAddresses.ValidateAllPassIff | platform/net/ip/interface_addresses_validator.go:38-51 | the validation passes exactly when every desired address passes its check |
| InterfaceAddresses.ValidateAllFirstFailure | platform/net/ip/interface_addresses_validator.go:38-49 | a failure is the check error of some desired address, and every earlier one passed |
| InterfaceAddresses.CheckErrors | platform/net/ip/interface_addresses_validator.go:39-48 | an unknown name fails with that name; an IP differing from the first entry of the name fails with the name, the desired and the actual IP |
| InterfaceAddresses.LaterEntriesIgnored | platform/net/ip/interface_addresses_validator.go:40-48 | only the first entry with a name is compared, even if a later one has the desired IP |
| PartitionTypes.TypeNameRoundTrip | platform/disk/partitioner_interface.go:7-13 | every type is recovered from its name, so the five names are distinct |
| PartitionTypes.TypeFromNameExact | platform/disk/partitioner_interface.go:7-13 | exactly the five names `swap`, `linux`, `empty`, `unknown`, `gpt` denote a type |
| PartitionTypes.SizeFieldRoundTrip | platform/disk/partitioner_interface.go:33 | the size field of the rendering reads back as the size |
| PartitionTypes.PartitionStringRoundTrip | platform/disk/partitioner_interface.go:32-34 | the rendering `[Type: …, SizeInBytes: …]` is unambiguous: it reads back as the partition |
| RetryStrategy.CommandAttempt | platform/disk/ephemeral_device_partitioner.go:118-130 | a failing command asks for a retry with an error; a succeeding one stops without an error |
| RetryStrategy.TryRunShape | platform/disk/ephemeral_device_partitioner.go:132-137 | the command runs between 1 and the maximum number of times, every run but the last failed, and the retry gives up only after the maximum |
| RetryStrategy.AlwaysFailingExhausts | platform/disk/ephemeral_device_partitioner.go:132-137 | a command that always fails runs exactly the maximum number of times and the retry fails |
| RetryStrategy.Try | platform/disk/ephemeral_device_partitioner.go:132-133 | the retry loop has the effects and result of `TryRun` |
| RetryStrategy.TryEachStopsAtFailure | platform/disk/ephemeral_device_partitioner.go:117-138 | once a command's retries are exhausted, no later command runs |
| RetryStrategy.TryEachShape | platform/disk/ephemeral_device_partitioner.go:117-138 | the commands run in order, and each command that got its turn ran at least once; all succeed exactly when every command got its turn |
| RetryStrategy.ExpandRunsEach | platform/disk/ephemeral_device_partitioner.go:141-163 | when every command got its turn, each of them ran |
| EphemeralPartitioner.PartedPartitioner.constructor | platform/disk/partitioner_interface.go:25-30 | the driver starts without a name prefix |
| EphemeralPartitioner.PartedPartitioner.SetPartitionNamePrefix | platform/disk/partitioner_interface.go:29 | the prefix becomes the agent id and the change is logged |
| EphemeralPartitioner.PartedPartitioner.GetPartitions | platform/disk/partitioner_interface.go:28 | the table and size are the driver's answer, and the read is logged |
| EphemeralPartitioner.PartedPartitioner.Partition | platform/disk/partitioner_interface.go:21 | the creation is logged with the current prefix; the result is the driver's answer |
| EphemeralPartitioner.PartedPartitioner.GetDeviceSizeInBytes | platform/disk/partitioner_interface.go:22 | the size is the driver's answer and nothing changes |
| EphemeralPartitioner.EphemeralDevicePartitioner.constructor | platform/disk/ephemeral_device_partitioner.go:33-52 | the partitioner keeps the driver, the settings path, the decoder and the retry bound |
| EphemeralPartitioner.EphemeralDevicePartitioner.Partition | platform/disk/ephemeral_device_partitioner.go:54-78 | the new host log, driver prefix and outcome are those of `PartitionRun` |
| EphemeralPartitioner.EphemeralDevicePartitioner.GetDeviceSizeInBytes | platform/disk/ephemeral_device_partitioner.go:80-82 | delegates to the driver |
| EphemeralPartitioner.EphemeralDevicePartitioner.GetAgentId | platform/disk/ephemeral_device_partitioner.go:84-98 | an unreadable settings file and undecodable JSON are errors; otherwise the decoded agent id |
| EphemeralPartitioner.EphemeralDevicePartitioner.RemovePartitions | platform/disk/ephemeral_device_partitioner.go:110-165 | the two retry loops have the effects and outcome of `RemovePartitionsRun` |
| EphemeralPartitioner.EphemeralDevicePartitioner.TryAll | platform/disk/ephemeral_device_partitioner.go:117-138 | each command in turn under the bounded retry, stopping at the first exhausted one |
| EphemeralPartitioner.EphemeralDevicePartitioner.GetPartitionPaths | platform/disk/ephemeral_device_partitioner.go:167-182 | runs `blkid`; a failure is an error, otherwise the `FindAll` matches in its output (see `FindAllSpans`) |
| EphemeralPartitioner.NamesMatchIff | platform/disk/ephemeral_device_partitioner.go:100-108 | the names match exactly when some existing partition's name starts with the agent id |
| EphemeralPartitioner.NamesMatchEmpty | platform/disk/ephemeral_device_partitioner.go:100-108 | an empty table never matches |
| EphemeralPartitioner.FindAll | platform/disk/ephemeral_device_partitioner.go:173-175 | every match is the device path followed by one or more digits |
| EphemeralPartitioner.FindAllSpans | platform/disk/ephemeral_device_partitioner.go:173-175 | the matches lie in the output in order without overlap, each followed by no digit, and every position where the device path is followed by a digit lies inside one of them |
| EphemeralPartitioner.FindAllEmptyIff | platform/disk/ephemeral_device_partitioner.go:173-181 | no match is found exactly when the pattern matches at no position of the output |
| EphemeralPartitioner.WipeCommands | platform/disk/ephemeral_device_partitioner.go:117-123 | one `wipefs -a <path>` per partition path, in order |
| EphemeralPartitioner.RemoveCommands | platform/disk/ephemeral_device_partitioner.go:141-147 | one `parted <device> rm <index>` per existing partition, in order |
| EphemeralPartitioner.ErasingFailedShape | platform/disk/ephemeral_device_partitioner.go:133-137 | an exhausted wipe ends the removal with an erasing error and no removal |
| EphemeralPartitioner.ErasedShape | platform/disk/ephemeral_device_partitioner.go:117-163 | after every wipe passed, the removals run in order and the removal passes exactly when every one did |
| EphemeralPartitioner.WipeAndRemoveShape | platform/disk/ephemeral_device_partitioner.go:117-164 | the log is the wipes then the removals, and the outcome names the loop that gave up |
| EphemeralPartitioner.RemovePartitionsShape | platform/disk/ephemeral_device_partitioner.go:110-165 | `blkid` first; on its failure nothing else; otherwise the two loops as above |
| EphemeralPartitioner.LoopsLogFacts | platform/disk/ephemeral_device_partitioner.go:117-163 | the two loops only run commands, no wipe follows a removal, and a failed wipe loop removes nothing |
| EphemeralPartitioner.RemovalLogFacts | platform/disk/ephemeral_device_partitioner.go:110-165 | the removal's log starts with `blkid`, only runs commands and never wipes after a removal |
| EphemeralPartitioner.RemovalLogRemovesEvery | platform/disk/ephemeral_device_partitioner.go:141-163 | when every removal got its turn, every existing index was removed |
| EphemeralPartitioner.WipesPrecedeRemovals | platform/disk/ephemeral_device_partitioner.go:110-165 | every removal starts with `blkid`, and no `wipefs` runs after a `parted rm` |
| EphemeralPartitioner.ErasingFailureRemovesNothing | platform/disk/ephemeral_device_partitioner.go:133-137 | an erasing failure runs no `parted rm` |
| EphemeralPartitioner.RemovalOnlyRuns | platform/disk/ephemeral_device_partitioner.go:110-165 | the removal only appends command runs to the log |
| EphemeralPartitioner.RemovalRemovesEvery | platform/disk/ephemeral_device_partitioner.go:141-164 | a successful removal ran `parted rm` for every existing partition |
| EphemeralPartitioner.SettingsFailureIsInert | platform/disk/ephemeral_device_partitioner.go:55-58 | without an agent id nothing happens and the error is reported |
| EphemeralPartitioner.PrefixSetBeforeTableRead | platform/disk/ephemeral_device_partitioner.go:55-65 | the prefix becomes the agent id and is set before the table is read, before anything else |
| EphemeralPartitioner.ConvergedDeviceIsLeftAlone | platform/disk/ephemeral_device_partitioner.go:67-70 | a table that matches and is named for this agent is left alone: nothing is wiped, removed or created |
| EphemeralPartitioner.CreateOnlyAfterRemoval | platform/disk/ephemeral_device_partitioner.go:72-77 | a failed removal is reported and nothing is created; after a successful one the creation comes last and the outcome is the driver's |
| EphemeralPartitioner.RepartitionRemovesEveryExisting | platform/disk/ephemeral_device_partitioner.go:67-77 | repartitioning that passes removed every existing partition before it created the new table |
| EphemeralPartitioner.FailedRemovalCreatesNothing | platform/disk/ephemeral_device_partitioner.go:54-77 | every failure other than the driver's own creation failure creates nothing |

## Left out

- Goroutine of `broadcastIps` and `errCh`: the broadcast is a single `Broadcast` event in the log, logged at the point where the goroutine is started; its completion signal on the channel is not modelled.
- `SetupIPv6`, the kernel IPv6 internals and the `InterfaceConfigurationCreator`, DNS validator, IP resolver and address provider are not part of this model; they are fixed collaborator functions of one pass.
- Go's template, regexp and sort engines are not part of this model: the three templates are written out as line lists, the three regular expressions (`:\d+`, `[uU]nknown interface`, `devicePath[0-9]+`) as scanners, and `sort.Stable` as a stable insertion sort by interface name.
- Template execution errors, logging, and the text of wrapped error messages are left out; errors are datatypes that name the step that failed.
- Retry delays and the clock: the retry is attempt-bounded only (no sleeping, no time source).
- UbuntuNet.UbuntuNetManager.constructor: takes the modelled host and the collaborators instead of the Go dependencies (file system, command runner, clock, logger, kernel IPv6, validators, broadcaster).
- EphemeralPartitioner.EphemeralDevicePartitioner.constructor: takes the driver, the settings path, the JSON decoder and the retry bound instead of the Go dependencies; the device utility is unused by the core and left out.
- EphemeralPartitioner.EphemeralDevicePartitioner.GetAgentId: JSON decoding is a collaborator function, not a JSON parser.
- EphemeralPartitioner.PartedPartitioner: the parted driver is not part of this model; its table reads, matching, creation and size queries are fixed answers of a `Parted` value.
- NetInterfaces.PathBase: `path.Join(p, "device")` is `p + "/device"` and `path.Base` is the last `/`-separated segment; the special cases of `path.Base` (trailing slashes, empty path) cannot arise for glob results and are not modelled.
- Host.Host.FollowLink: `ReadAndFollowLink` follows one level of symlink only.
- NetworkConfig.DefaultNetworkFor: the settings helpers (`IsPreconfigured`, `DefaultNetworkFor`, `HasInterfaceAlias`, `IsVIP`) are defined from their documented behaviour; the settings package is not part of this model.
- UbuntuNet.ComputeIgnoresVip: `boshsettings.Networks` is a Go map, which Go ranges over in an unspecified order that may change from one range to the next. The model fixes that order once, as the sequence of named networks, and uses it for the VIP filter (platform/net/ubuntu_net_manager.go:75) and for the DNS default in `ComputeNetworkConfig` (:87). When several networks are the default for "dns", the model always takes the first in that sequence, while Go may pick any of them; the lemma holds for the model's fixed choice, not for every choice Go may make.
- UbuntuNet.ResolvConfOutcome: `writeResolvConf` picks the DNS default again (platform/net/ubuntu_net_manager.go:445) by its own range over the map; the model takes the same first network in sequence order, while Go may pick a different one from the one chosen in `ComputeNetworkConfig` within the same pass.
- InterfaceAddresses.Validate: an error from `GetIP` reads as the empty IP (the Go code discards it); the wrapped error returned with a nil cause is taken to be non-nil, as the validator's callers rely on.
- UbuntuNet.UbuntuNetManager.GetConfiguredNetworkInterfaces: Go's map iteration order is a collaborator function (`macOrder`); the properties about probing every interface rely on that order visiting every key.
- UbuntuNet.UbuntuNetManager.RemoveDhcpDnsConfiguration: the interfaces are visited in the `macOrder` order; that every detected interface is deleted relies on that order visiting every key, and that each is deleted once is not modelled.
- EphemeralPartitioner.FindAll: Go compiles `devicePath + "[0-9]+"` as a regular expression without escaping the device path, while the model matches the device path as literal text; a path holding regular-expression characters such as `.` or `+` would match differently, and one that does not compile would panic.
- UbuntuNet.UbuntuNetManager.WriteNetworkInterfaces: the in-place `sort.Stable` of the caller's slices is modelled by returning the sorted records, which the caller then uses, as Go's aliasing of the slices does.
- The static interface's IPv6 prefix length is a field of the record; the netmask parsing behind `NetmaskOrLen` is not part of this model.
- The dhclient `prepend` line is written exactly when the `, `-joined server list is not empty text: no servers, or a single empty server, omit it.
- Integer width: partition sizes are `uint64` (a bounded subtype); partition indexes are unbounded integers rendered by `strconv.Itoa`.

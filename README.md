# as65342-netbox inventory core in Dafny

This project models the in-memory part of the as65342-netbox configuration generator.
The real program does three things:
- It fetches devices, virtual machines, prefixes, configuration contexts and tenants from a NetBox inventory.
- It normalises those records into managed devices and derived gateways.
- It turns the normalised data into DNS zones, an Icinga2 monitoring configuration, an Ansible inventory and host/group variables, a Rundeck node list and a backup host list.

The project models the normalisation and the data each generator renders, not the network, templates or files.

Modules, following the Go packages:

- `Results`: `Option` and `Result`, for Go's `(value, err)` pairs.
- `GoStrings`: the parts of Go's `strings` and `fmt` packages the code uses.
  - `strings.Replace` with `-1`, `HasSuffix`, `Split(s, sep)[0]`.
  - `%d` and `%02x`.
  - Piecewise concatenation.
- `GoNet`: the parts of Go's `net` package the code uses.
  - Addresses as 4- or 16-byte sequences, and networks as an address plus a prefix length.
  - `IPNet.Contains`, the `IP[i]++` byte wrap-around, and IPv4 dotted-decimal text.
  - `net.ParseCIDR` and IPv6 text are the two fields of a `NetLib` value that every operation receives. Their types carry what the code relies on: a parsed network is the address masked to its prefix, and the IPv6 text of an address without an IPv4 form contains `:`.
  - `IP.String` prints dotted decimal for 4-byte addresses and for IPv4-mapped 16-byte ones (`::ffff:a.b.c.d`), as Go's `To4` test does.
- `Models`: the records of `lib/common/models.go`. Configuration data is a tagged `Value`.
- `Utils`: the allow-lists, `ToDnsZoneName` and `ToFqdn` of `lib/common/utils.go`.
- `Dedup`: the first-seen `is_listed` de-duplication used for gateways, platforms and sites.
- `Netbox`: the client of `lib/netboxclient/netboxclient.go`.
  - The class `NetboxClient` holds the five cached result lists.
  - `PrewarmCaches` fills them, reporting the first failing request.
  - The listing methods only read the cached lists, and they are proved against specification functions (`PrefixList`, `HostsFrom`, `GatewayList`, `ContextsOf`, `TenantsOf`).
  - `GetPrefixList` ignores its tenant argument, as the code does.
- `Rdns`, `Icinga2`, `Ansible`, `Rundeck`, `Backup`: the generators of `lib/generator`.
  - Each is a method over the client whose result is either the source's error message or the data the template would render.
  - Each is proved equal to a specification function, with lemmas about that function.

The client fetches all five collections eagerly when built (`PrewarmCaches`, called from `NewNetboxClient`); the listing methods have no `modifies` clause, so nothing fetches again.

The IPv6 reverse-zone name takes all 16 nibbles of bytes 0 to 7. For `2001:db8::/64` that is 16 one-character labels (`Utils.ZoneName6`).

## Model

| member | source | states |
|---|---|---|
| Utils.Listed | lib/common/utils.go:16-23 | the early-return scan returns true exactly when the value is in the allow-list |
| Utils.IsAllowedTenant | lib/common/utils.go:16-23 | true iff the tenant is "as65342" |
| Utils.IsAllowedStatus | lib/common/utils.go:25-32 | true iff the status label is "Active" |
| Utils.IsAllowedPlatform | lib/common/utils.go:34-41 | true iff the platform is "centos" or "openbsd" |
| Utils.ReverseLabels | lib/common/utils.go:66-72 | the dotted reversal of n characters has length 2n-1 (0 for the empty string) |
| Utils.ReverseLabelsAt | lib/common/utils.go:66-72 | position 2k holds the k-th character from the end, odd positions hold '.' |
| Utils.ReverseLabelsOf | lib/common/utils.go:66-72 | the prepend-with-dot loop builds exactly ReverseLabels of the nibble string |
| Utils.ToDnsZoneName | lib/common/utils.go:61-79 | the loop-built name equals the zone name of the network |
| Utils.ZoneName6 | lib/common/utils.go:64-73 | an IPv6 zone name is 31 characters of 16 reversed one-nibble labels of bytes 0-7, then ".ip6.arpa" |
| Utils.ZoneName4Injective | lib/common/utils.go:74-76 | two IPv4 networks with the same zone name agree on their first three bytes |
| Utils.ZoneNameExample4 | lib/common/utils.go:74-76 | 10.0.1.0/24 has the zone "1.0.10.in-addr.arpa" |
| Utils.ToFqdn | lib/common/utils.go:81-86 | the result ends in '.', is the name itself if it already did, and otherwise is the name plus one '.' |
| Utils.ToFqdnIdempotent | lib/common/utils.go:81-86 | applying ToFqdn twice equals applying it once |
| GoStrings.BeforeFirst | lib/generator/rundeck.go:47 | `Split(s, sep)[0]` is a prefix of s without sep, and either all of s or followed by sep |
| GoStrings.Decimal | lib/common/utils.go:75 | `%d` text is one or more digits, a single digit exactly below 10 |
| GoStrings.ReplaceCharAt | lib/netboxclient/netboxclient.go:148 | replacing one character by another keeps the length and changes exactly the matching positions |
| GoStrings.ReplaceNoMatchPrefix | lib/generator/rdns.go:193 | removing `pat` from `x + pat`, where x has no first character of pat, leaves x |
| GoNet.MappedFormAgrees | lib/generator/rdns.go:89-91 | a 4-byte address and its IPv4-mapped form print alike, have the same `To4`, and lie in the same networks |
| GoNet.Ipv6NetExcludesIpv4 | lib/generator/rdns.go:89 | an address with an IPv4 form is never inside a 16-byte network without one, as `IPNet.Contains` compares the normalised lengths |
| GoNet.MappedContainment | lib/generator/rdns.go:89 | `::ffff:10.0.1.5` lies in 10.0.1.0/24 and not in ::/64 |
| GoNet.ColonIffIpv6 | lib/generator/rdns.go:91 | the text of an address contains ':' exactly when it is a 16-byte address that is not IPv4-mapped; 4-byte and IPv4-mapped addresses print dotted |
| GoNet.MappedExample | lib/generator/rdns.go:91 | `::ffff:10.0.1.5` is IPv4-mapped and prints as "10.0.1.5", without ':' |
| GoNet.Network64NotMapped | lib/netboxclient/netboxclient.go:289-294 | the network of a 16-byte address under a prefix of at most 64 bits has byte 10 zero, so it is not IPv4-mapped |
| GoNet.HexBytesAt | lib/common/utils.go:65 | character k of the `%02x` text is the high or low nibble of byte k/2 |
| GoNet.LastByteCleared4 | lib/netboxclient/netboxclient.go:258-264 | a parsed IPv4 network of prefix at most 24 has last byte 0 |
| GoNet.LastByteCleared6 | lib/netboxclient/netboxclient.go:289-295 | a parsed IPv6 network of prefix at most 64 has last byte 0 |
| Dedup.IsListed | lib/netboxclient/netboxclient.go:270-275 | the flag loop is true exactly when some listed element has the key |
| Dedup.FirstSeenDistinct | lib/netboxclient/netboxclient.go:270-279 | no two kept elements share a key |
| Dedup.FirstSeenCovers | lib/netboxclient/netboxclient.go:270-279 | every key of the input is kept |
| Dedup.FirstSeenKeepsFirst | lib/netboxclient/netboxclient.go:270-279 | every kept element is the first occurrence of its key |
| Dedup.FirstSeenKeepsAllFirsts | lib/netboxclient/netboxclient.go:270-279 | every first occurrence is kept |
| Dedup.FirstSeenPrefix | lib/netboxclient/netboxclient.go:270-279 | de-duplicating a prefix of the input gives a prefix of the result |
| Dedup.FirstSeenValues | lib/generator/icinga2.go:176-188 | de-duplicated values: no duplicates, exactly the input's values, each at its first occurrence |
| Dedup.FirstSeenConstant | lib/generator/icinga2.go:190-202 | a non-empty list of one repeated value de-duplicates to that value alone |
| Netbox.FirstFetchError | lib/netboxclient/netboxclient.go:44-86 | no error exactly when all five requests succeed, else the first failure with its API label |
| Netbox.NetboxClient.constructor | lib/netboxclient/netboxclient.go:30-34 | a new client has five empty cached lists |
| Netbox.NetboxClient.PrewarmCaches | lib/netboxclient/netboxclient.go:44-86 | the error is the first failing request's; every list before it holds its fetched results, the failing one is left empty (nil) and the ones after it are unchanged; on success all five lists are the fetched results |
| Netbox.NewNetboxClient | lib/netboxclient/netboxclient.go:29-42 | a client exactly when every request succeeds, no client otherwise; the error is "client.PrewarmCaches: " plus the failure and a newline |
| Netbox.PrefixListSizes | lib/netboxclient/netboxclient.go:99-107 | every listed prefix is an IPv4 /24 or an IPv6 /64 |
| Netbox.PrefixListMembers | lib/netboxclient/netboxclient.go:88-113 | a network is listed iff it is the parsed network of an allowed-tenant prefix of standard size |
| Netbox.PrefixListAppend | lib/netboxclient/netboxclient.go:89-110 | the listing keeps payload order |
| Netbox.NetboxClient.GetPrefixList | lib/netboxclient/netboxclient.go:88-113 | the loop returns PrefixList of the cached prefixes and a nil error |
| Netbox.AdmittedOfProperties | lib/netboxclient/netboxclient.go:117-133 | a record is admitted iff its tenant, status and present platform are all allowed |
| Netbox.AdmittedOfAppend | lib/netboxclient/netboxclient.go:115-223 | admitted devices come first, then admitted virtual machines, each in payload order |
| Netbox.HostsFromSpec | lib/netboxclient/netboxclient.go:115-223 | the listing succeeds iff every admitted record is readable and its addresses parse; on success it has one device per admitted record, pointwise in order |
| Netbox.ThreeRecordScenario | lib/netboxclient/netboxclient.go:117-133 | of an admitted record, another tenant's record and a platform-less record, only the first is listed |
| Netbox.ToDeviceFields | lib/netboxclient/netboxclient.go:134-164 | conversion fails iff an address it reaches does not parse (the primary one, then the IPv4 one, then the IPv6 one); otherwise tenant "as65342", platform centos or openbsd, empty site, name, tags, config and networks copied, and the IPv4 token made from the IPv4 network |
| Netbox.HostListFields | lib/netboxclient/netboxclient.go:134-140 | every listed device has tenant "as65342", platform centos or openbsd, and an empty site |
| Netbox.HostsErrPersists | lib/netboxclient/netboxclient.go:142-145 | once a prefix of the payload fails, the whole payload is readable whatever follows, and its listing fails with the same error |
| Netbox.ErrorStopsReading | lib/netboxclient/netboxclient.go:150-153 | an admitted record whose IPv4 address does not parse ends the listing with that error, whatever its IPv6 field and the next record hold |
| Netbox.Admit | lib/netboxclient/netboxclient.go:118-132 | the four early `continue` checks admit exactly the admitted records |
| Netbox.AddHost | lib/netboxclient/netboxclient.go:118-166 | one loop step skips, appends the converted device, or returns the parse error |
| Netbox.CollectHosts | lib/netboxclient/netboxclient.go:117-167 | the loop over one result list continues the listing of the lists before it |
| Netbox.NetboxClient.GetHostList | lib/netboxclient/netboxclient.go:115-223 | the result is HostsFrom of devices followed by virtual machines |
| Netbox.PrintableNet4IsDashed | lib/netboxclient/netboxclient.go:154-156 | the IPv4 network token is the dotted address with every '.' made '-' |
| Netbox.Dashed4Injective | lib/netboxclient/netboxclient.go:154-156 | distinct IPv4 addresses have distinct dashed texts |
| Netbox.PrintableNet4Distinct | lib/netboxclient/netboxclient.go:154-156 | distinct IPv4 network addresses get distinct printable tokens, so devices on distinct IPv4 networks do |
| Netbox.Gateway4Address | lib/netboxclient/netboxclient.go:258-266 | the IPv4 gateway is the network with last byte 1, printed dotted and dashed, on network text address "/" prefix, with the record's tenant |
| Netbox.Gateway4Printable24 | lib/netboxclient/netboxclient.go:267-268 | for a /24 the printable network is the dashed network address |
| Netbox.Gateway4Example | lib/netboxclient/netboxclient.go:258-268 | 10.0.1.0/24 gives gateway "10.0.1.1", "10-0-1-1", network "10.0.1.0/24", "10-0-1-0" |
| Netbox.Gateway6Address | lib/netboxclient/netboxclient.go:289-299 | the IPv6 gateway is the text of the network with last byte 1, contains ':' (such a network is never IPv4-mapped), with the record's tenant |
| Netbox.GatewayListDistinct | lib/netboxclient/netboxclient.go:249-381 | no two gateways share an address, every candidate address is present, and each kept gateway is the first candidate with its address |
| Netbox.CandidatesErrPersists | lib/netboxclient/netboxclient.go:253-256 | once a prefix of the payload fails, the whole payload is readable whatever follows, and gateway derivation fails with the same error |
| Netbox.GatewayErrorStopsReading | lib/netboxclient/netboxclient.go:252-256 | a record whose IPv4 address does not parse ends gateway derivation with that error, whatever the next record holds |
| Netbox.AppendIfNew | lib/netboxclient/netboxclient.go:270-279 | the is_listed scan and append extends the first-seen list by one candidate |
| Netbox.AddGateway4 | lib/netboxclient/netboxclient.go:252-281 | the IPv4 branch adds its candidate first-seen, or returns the parse error |
| Netbox.AddGateway6 | lib/netboxclient/netboxclient.go:283-312 | the IPv6 branch adds its candidate first-seen, or returns the parse error |
| Netbox.AddEntryGateways | lib/netboxclient/netboxclient.go:251-312 | one record adds its IPv4 then IPv6 candidates, or returns the first parse error |
| Netbox.CollectGateways | lib/netboxclient/netboxclient.go:250-313 | the loop over one result list continues the gateway list of the lists before it |
| Netbox.NetboxClient.ListGateways | lib/netboxclient/netboxclient.go:249-381 | the result is GatewayList of devices followed by virtual machines |
| Netbox.ContextsOf | lib/netboxclient/netboxclient.go:225-235 | the contexts keep length, order, name and data |
| Netbox.TenantsOf | lib/netboxclient/netboxclient.go:237-247 | the tenants keep length, order, name and slug |
| Netbox.NetboxClient.ListConfigContexts | lib/netboxclient/netboxclient.go:225-235 | returns ContextsOf the cache and a nil error |
| Netbox.NetboxClient.ListTenants | lib/netboxclient/netboxclient.go:237-247 | returns TenantsOf the cache and a nil error |
| Rdns.PtrLabel4 | lib/generator/rdns.go:101-103 | the PTR label of a 4-byte or IPv4-mapped address is the decimal of its last byte, without a '.' |
| Rdns.PtrLabel6 | lib/generator/rdns.go:91-100 | the PTR label of a 16-byte address that is not IPv4-mapped is 31 characters, the 16 nibbles of bytes 8-15 reversed and dot-separated |
| Rdns.PtrName | lib/generator/rdns.go:90-103 | the loop-built name equals PtrLabel |
| Rdns.ReverseZonesShape | lib/generator/rdns.go:81-114 | one zone per prefix in order, named by its zone name, holding the PTR records of the addresses the prefix contains under `IPNet.Contains` |
| Rdns.PtrRecordsSpec | lib/generator/rdns.go:88-110 | a record is in a zone iff it is the PTR record of an address the prefix contains under `IPNet.Contains`, which compares IPv4-mapped addresses by their IPv4 bytes; all have type PTR and a value ending in '.' |
| Rdns.PtrRecordsSingle | lib/generator/rdns.go:89-109 | one address yields its PTR record exactly when the prefix contains it |
| Rdns.MappedReverseZones | lib/generator/rdns.go:81-114 | `::ffff:10.0.1.5` has its PTR record "5" in the zone of 10.0.1.0/24 and none in the zone of ::/64 |
| Rdns.MappedZoneRecords | lib/generator/rdns.go:89-109 | `::ffff:10.0.1.5` gives the PTR record "5" under 10.0.1.0/24 and no record under ::/64 |
| Rdns.PtrRecordsAppend | lib/generator/rdns.go:88-111 | records keep address-list order |
| Rdns.BuildReverseZones | lib/generator/rdns.go:81-114 | the nested loops build exactly ReverseZones |
| Rdns.ReverseDNS | lib/generator/rdns.go:70-114 | the zones are ReverseZones of the client's prefix list and the given addresses |
| Rdns.StaticZonesOnlyNamed | lib/generator/rdns.go:165-166 | without a "dns_zones" context there are no configured zones |
| Rdns.StaticZonesAppend | lib/generator/rdns.go:165-187 | configured zones keep context order |
| Rdns.CollectStaticZones | lib/generator/rdns.go:164-187 | the nested loops build exactly StaticZones |
| Rdns.HostRecordType | lib/generator/rdns.go:194-203 | AAAA iff the value contains ':' iff the address has 16 bytes and is not IPv4-mapped; A iff it has 4 bytes or is IPv4-mapped |
| Rdns.MappedAddressRecords | lib/generator/rdns.go:91-203 | `::ffff:10.0.1.5` gets the PTR label "5" and an A record with value "10.0.1.5" |
| Rdns.HostRecordsSpec | lib/generator/rdns.go:191-206 | a host record is added iff the address's DNS name ends in the zone name |
| Rdns.HostRecordName | lib/generator/rdns.go:193 | the record name of host.zone under zone is host |
| Rdns.ForwardZonesShape | lib/generator/rdns.go:189-209 | each zone keeps its name, with its configured records first, then the host records |
| Rdns.ZoneWithHosts | lib/generator/rdns.go:189-206 | the address loop for one zone gives its static records followed by its host records |
| Rdns.AddHostRecords | lib/generator/rdns.go:189-209 | the nested loops build exactly ForwardZones |
| Rdns.ForwardDNS | lib/generator/rdns.go:153-209 | the zones are ForwardZones of the configured zones of the client's contexts |
| Icinga2.SplitGateways | lib/generator/icinga2.go:156-164 | the loop returns the IPv4 and IPv6 filters of the gateways |
| Icinga2.SplitPartition | lib/generator/icinga2.go:156-164 | the two lists partition the gateways as a multiset, split by ':' in the address |
| Icinga2.SplitAppend | lib/generator/icinga2.go:158-164 | both lists keep input order |
| Icinga2.DistinctNames | lib/generator/icinga2.go:176-188 | the is_listed loop returns the first-seen de-duplication |
| Icinga2.PlatformsSpec | lib/generator/icinga2.go:176-188 | the platform list has no duplicates and holds exactly the devices' platforms |
| Icinga2.SitesSpec | lib/generator/icinga2.go:190-202 | the site list has no duplicates and holds exactly the devices' sites |
| Icinga2.ListedHostSites | lib/generator/icinga2.go:190-202 | for listed hosts the site list is empty or the empty site alone |
| Icinga2.Icinga2Errors | lib/generator/icinga2.go:151-174 | success iff both the gateway and host listings succeed; a gateway error comes first, labelled "ListGateways: ", and then the hosts need not be readable |
| Icinga2.GatewayErrorBeforeHosts | lib/generator/icinga2.go:151-154 | a record the host listing could not read still yields the "ListGateways: " error when its IPv4 address does not parse |
| Icinga2.Icinga2Config | lib/generator/icinga2.go:150-216 | the parameters equal Icinga2Spec of the client's lists |
| Ansible.FilterEntries | lib/generator/ansible.go:59-66 | the nested loop returns exactly Entries |
| Ansible.EntriesMembers | lib/generator/ansible.go:59-66 | an entry is kept iff it is a host on centos or openbsd |
| Ansible.EntriesAppend | lib/generator/ansible.go:59-66 | the filter keeps host order |
| Ansible.EntriesKeepAll | lib/generator/ansible.go:59-66 | hosts all on allowed platforms are kept unchanged |
| Ansible.ListedHostsAreEntries | lib/generator/ansible.go:51-66 | for listed hosts the re-filter is the identity |
| Ansible.GroupBySpec | lib/generator/ansible.go:75-83 | a key is present iff some entry has it, and lists exactly the entries with that key, in order |
| Ansible.GroupByExactlyOnce | lib/generator/ansible.go:75-78 | each entry is listed under its own key and under no other |
| Ansible.GroupInto | lib/generator/ansible.go:75-83 | the append loop builds exactly GroupBy |
| Ansible.AddTagsLookup | lib/generator/ansible.go:70-72 | one entry is appended under a tag once per occurrence of the tag |
| Ansible.AddTagsKeys | lib/generator/ansible.go:70-72 | the keys after one entry are the old keys and its tags |
| Ansible.TagGroupsSpec | lib/generator/ansible.go:68-73 | under each tag every entry appears once per occurrence in its tags, in entry order; a tag is a key iff some entry carries it |
| Ansible.GroupTags | lib/generator/ansible.go:68-73 | the nested loops build exactly TagGroups |
| Ansible.AnsibleInventory | lib/generator/ansible.go:53-95 | the parameters equal InventorySpec, or the host listing's error labelled "client.GetHostListFor: " |
| Ansible.HostVarsSpec | lib/generator/ansible.go:180-186 | the six keys hold the device's facts, the key set grows by exactly them, other keys keep their values |
| Ansible.HostVarsIdempotent | lib/generator/ansible.go:180-186 | storing the same facts twice changes nothing further |
| Ansible.HostConfig.constructor | lib/generator/ansible.go:180 | the wrapper holds the device's configuration map |
| Ansible.HostConfig.SetHostVars | lib/generator/ansible.go:181-186 | the in-place update leaves WithHostVars of the old map |
| Ansible.JsonNameInjective | lib/generator/ansible.go:177 | two names give the same ".json" file name iff they are equal |
| Ansible.GroupVarsFiles | lib/generator/ansible.go:131-145 | one file per context, named name ".json", with its data |
| Ansible.GroupVarsDistinct | lib/generator/ansible.go:131-133 | contexts with distinct names give distinct file names |
| Ansible.AnsibleGroupVars | lib/generator/ansible.go:120-153 | the files are GroupVarsFiles of the client's contexts |
| Ansible.HostVarsFiles | lib/generator/ansible.go:176-198 | one file per entry, named name ".json", holding its configuration with the six facts stored |
| Ansible.WriteHostVars | lib/generator/ansible.go:176-198 | the loop builds exactly HostVarsFiles |
| Ansible.AnsibleHostVars | lib/generator/ansible.go:156-186 | the files equal HostVarsResult, or the host listing's error |
| Rundeck.Login | lib/generator/rundeck.go:34-45 | username "core" iff coreos, else "rundeck"; family "bsd" iff openbsd, else "linux" |
| Rundeck.HostKeyOfFqdn | lib/generator/rundeck.go:47 | host.domain and a dotless host are both keyed by host |
| Rundeck.BlockNewlines | lib/generator/rundeck.go:47-51 | a block is exactly five lines |
| Rundeck.RundeckFileAppend | lib/generator/rundeck.go:33-54 | one block per host, in host order |
| Rundeck.RundeckFileNewlines | lib/generator/rundeck.go:33-54 | the file has five lines per host |
| Rundeck.ListedHostLogins | lib/generator/rundeck.go:34-45 | every listed host logs in as "rundeck", with family "bsd" iff it runs openbsd |
| Rundeck.BlockOf | lib/generator/rundeck.go:34-51 | the `+=` chain builds exactly Block |
| Rundeck.WriteBlocks | lib/generator/rundeck.go:33-54 | the loop builds exactly RundeckFile |
| Rundeck.RundeckHosts | lib/generator/rundeck.go:11-54 | the content is RundeckFile of the host list, or "GetHostList: " and the error |
| Backup.BackupFileAppend | lib/generator/backup.go:32-35 | lines keep host order; no hosts give an empty file |
| Backup.BackupLineInjective | lib/generator/backup.go:33 | a line determines name, platform and site when they hold no separator |
| Backup.BackupLineName | lib/generator/backup.go:33 | the first comma-separated field is the host name |
| Backup.BackupFileNewlines | lib/generator/backup.go:32-35 | one line per host |
| Backup.ListedBackupLines | lib/generator/backup.go:33 | a listed host's line is name "," platform ",\n" |
| Backup.WriteLines | lib/generator/backup.go:32-35 | the loop builds exactly BackupFile |
| Backup.BackupHosts | lib/generator/backup.go:10-35 | the content is BackupFile of the host list, or "GetHostList: " and the error |

## Left out

- Network access: the HTTP requests behind `PrewarmCaches` and their token header (`lib/common/common.go`) are outside the model. Each request is a given `Fetch` value that either holds the result list or failed with a message.
- The generated API client types: only the record fields that are read are modelled.
- `GetIpAddressList` is called by the DNS generators but is not part of this model. Its address list is an input of `Rdns.ReverseDNS` and `Rdns.ForwardDNS`. So their "GetIpAddressList: " error branches (lib/generator/rdns.go:76-79, 159-162) are not modelled either, although that listing can fail.
- Template rendering, `json.Marshal`, `CreateDirIfNotExists`, file creation, the write-then-rename step and the printed messages are I/O. The generators return the data a template would render.
- The command-line programs under `cmd/` and `NewGenerator` with its `user.Current` lookup.
- GoNet.NetLib: `net.ParseCIDR` and IPv6 `IP.String` are given functions. This has three consequences:
  - IPv6 facts hold only up to their text form.
  - IPv6 network tokens are not shown distinct.
  - The `2001:db8::/64` gateway text is not computed concretely.
- GoNet.NetLib: a parsed IPv4 CIDR has a 4-byte host address. Go keeps that address in its 16-byte IPv4-mapped form. The two forms print alike, have the same `To4()` bytes and lie in the same networks (`GoNet.MappedFormAgrees`), so the choice changes no modelled text, record or zone. The Ansible host variables hold the address value itself; `json.Marshal` renders it through `IP.String`, which agrees for both forms.
- JSON numbers in configuration data are modelled as `real`.
- Netbox.NetboxClient.GetPrefixList: requires every allowed-tenant prefix to parse. On a parse failure the code prints a message and then dereferences a nil network.
- Netbox.NetboxClient.GetHostList: requires `HostsReadable`. Every admitted record the listing reaches before its first error must carry the addresses it dereferences without a nil check: the primary one; the IPv4 one once the primary one parsed; the IPv6 one once that parsed too. Records after the first error are not read and are not constrained.
- Netbox.NetboxClient.ListGateways: requires `GatewaysReadable`. In every record reached before the first error whose IPv4 step succeeded, a present IPv6 address that parses must give a 16-byte network; otherwise `IP[15]++` indexes out of range. Records after the first error are not constrained.
- Netbox.RawHost: the string fields the code dereferences without a nil check are plain strings, so a missing one is not modelled; in Go it crashes rather than being skipped. They are:
  - the tenant slug (`*entry.Tenant.Slug`, netboxclient.go:118, 171, 251, 316), read before any check;
  - the status label (`*entry.Status.Label`, netboxclient.go:122, 175);
  - the platform slug (`*entry.Platform.Slug`, netboxclient.go:130, 183), after only a nil check of the platform;
  - a virtual machine's name (`*entry.Name`, netboxclient.go:188).
  - the address text of a present primary IPv4 or IPv6 object in `ListGateways` (`*entry.PrimaryIp4.Address`, `*entry.PrimaryIp6.Address`, netboxclient.go:253, 284, 318, 349), after only a nil check of the object. `None` stands for a missing object, so a present object is assumed to carry its address text.
- Netbox.RawPrefix: the tenant slug (`*entry.Tenant.Slug`, netboxclient.go:90) is a plain string, for the same reason.
- Netbox.RawConfigContext, Netbox.RawTenant: the context name (netboxclient.go:228) and the tenant name and slug (netboxclient.go:239-240) are plain strings, for the same reason.
- Rdns.ForwardDNS: requires the "dns_zones" contexts to have the expected shape. The code's type assertions panic on anything else.
- Rdns.ForwardDNS: the "ListConfigContexts: " error branch is not modelled, because the context listing always returns a nil error.
- Rdns.ReverseDNS: the "GetPrefixList: " error branch is not modelled, because that listing always returns a nil error.
- Ansible.AnsibleHostVars: requires each entry's configuration to be an object. The code's type assertion panics otherwise.
- Ansible.HostConfig.SetHostVars: in Go, `hostConfig` is the same map as the device's configuration and the client's cached payload, so the update is visible through them. The model copies the map into a fresh `HostConfig`, and that aliasing is not captured.
- Ansible.AnsibleGroupVars: its error branch (labelled "client.GetHostListFor: ") is not modelled, because the context listing always returns a nil error.
- Icinga2.Icinga2Config: the "ListTenants: " error branch is not modelled, because the tenant listing always returns a nil error.

/**
 * Zone construction of the DNS generators (lib/generator/rdns.go): reverse zones with
 * PTR records per prefix, and forward zones that extend statically configured zones
 * with A/AAAA host records. Rendering and file output are not modelled.
 */
module Rdns {
  import opened Results
  import opened GoStrings
  import opened GoNet
  import opened Models
  import opened Utils
  import opened Netbox

  datatype Record = Record(name: string, rtype: string, value: string)

  datatype Zone = Zone(name: string, records: seq<Record>)

  // ---------------------------------------------------------------------------
  // Reverse zones.

  /**
   * The owner name of an address inside its reverse zone: when the address text has a
   * ':', the 16 nibbles of bytes 8-15, reversed and dot-separated; otherwise (4-byte and
   * IPv4-mapped addresses) the last IPv4 octet.
   */
  function PtrLabel(lib: NetLib, addr: Addr): string {
    ColonIffIpv6(lib, addr);
    if ':' in IPString(lib, addr) then ReverseLabels(HexBytes(addr[8..16])) else Decimal(To4(addr)[3])
  }

  /** The label of an address with an IPv4 form is its decimal last byte, without a '.'. */
  lemma PtrLabel4(lib: NetLib, addr: Addr)
    requires |addr| == 4 || V4Mapped(addr)
    ensures PtrLabel(lib, addr) == Decimal(addr[|addr| - 1])
    ensures '.' !in PtrLabel(lib, addr)
  {
    ColonIffIpv6(lib, addr);
    DecimalHasNo(addr[|addr| - 1], '.');
  }

  /** IPv6 label `k` (counting from the left) is nibble `15 - k` of bytes 8-15. */
  lemma PtrLabel6(lib: NetLib, addr: Addr)
    requires |addr| == 16 && !V4Mapped(addr)
    ensures |PtrLabel(lib, addr)| == 31
    ensures forall k :: 0 <= k < 16 ==>
              var j := 15 - k; var b := addr[8 + j / 2];
              PtrLabel(lib, addr)[2 * k] == HexDigit(if j % 2 == 0 then b / 16 else b % 16)
    ensures forall k :: 0 <= k < 15 ==> PtrLabel(lib, addr)[2 * k + 1] == '.'
  {
    ColonIffIpv6(lib, addr);
    var tmp := HexBytes(addr[8..16]);
    ReverseLabelsAt(tmp);
    forall k | 0 <= k < 16
      ensures var j := 15 - k; var b := addr[8 + j / 2];
              PtrLabel(lib, addr)[2 * k] == HexDigit(if j % 2 == 0 then b / 16 else b % 16)
    {
      HexBytesAt(addr[8..16], 15 - k);
    }
  }

  /** The owner-name loop of the reverse generator: prepend each nibble with a '.'. */
  method PtrName(lib: NetLib, addr: Addr) returns (name: string)
    ensures name == PtrLabel(lib, addr)
  {
    ColonIffIpv6(lib, addr);
    if ':' in IPString(lib, addr) {
      var tmp := HexBytes(addr[8..16]);
      name := ReverseLabelsOf(tmp);
    } else {
      name := Decimal(To4(addr)[3]);
    }
  }

  function PtrRecord(lib: NetLib, ip: IpAddress): Record {
    Record(PtrLabel(lib, ip.address), "PTR", ToFqdn(ip.dns))
  }

  /** The images under `f` of the elements of `xs` that `keep` admits, in order. */
  function KeepMap<T, U>(xs: seq<T>, keep: T -> bool, f: T -> U): seq<U>
    decreases |xs|
  {
    if xs == [] then []
    else
      var prev := KeepMap(xs[..|xs| - 1], keep, f);
      var x := xs[|xs| - 1];
      if keep(x) then prev + [f(x)] else prev
  }

  /** An image is kept exactly when some admitted element maps to it. */
  lemma {:induction false} KeepMapMembers<T, U>(xs: seq<T>, keep: T -> bool, f: T -> U)
    ensures forall u :: u in KeepMap(xs, keep, f) <==> exists i :: 0 <= i < |xs| && keep(xs[i]) && u == f(xs[i])
    decreases |xs|
  {
    if xs != [] {
      var init := xs[..|xs| - 1];
      KeepMapMembers(init, keep, f);
      assert forall i :: 0 <= i < |init| ==> init[i] == xs[i];
    }
  }

  lemma KeepMapSingle<T, U>(x: T, keep: T -> bool, f: T -> U)
    ensures KeepMap([x], keep, f) == if keep(x) then [f(x)] else []
  {
    assert [x][..0] == [];
  }

  /** Kept images follow the order of the elements. */
  lemma {:induction false} KeepMapAppend<T, U>(a: seq<T>, b: seq<T>, keep: T -> bool, f: T -> U)
    ensures KeepMap(a + b, keep, f) == KeepMap(a, keep, f) + KeepMap(b, keep, f)
    decreases |b|
  {
    if b == [] {
      assert a + b == a;
    } else {
      assert (a + b)[..|a + b| - 1] == a + b[..|b| - 1];
      KeepMapAppend(a, b[..|b| - 1], keep, f);
    }
  }

  /** The PTR records of the addresses a prefix contains, in address-list order. */
  function PtrRecords(lib: NetLib, prefix: IPNet, ips: seq<IpAddress>): seq<Record> {
    KeepMap(ips, (ip: IpAddress) => NetContains(prefix, ip.address), (ip: IpAddress) => PtrRecord(lib, ip))
  }

  /** One zone per prefix, in prefix order. */
  function ReverseZones(lib: NetLib, prefixes: seq<IPNet>, ips: seq<IpAddress>): seq<Zone>
    decreases |prefixes|
  {
    if prefixes == [] then []
    else
      var p := prefixes[|prefixes| - 1];
      ReverseZones(lib, prefixes[..|prefixes| - 1], ips) + [Zone(ZoneName(p), PtrRecords(lib, p, ips))]
  }

  /** Zone `i` belongs to prefix `i`: named by its reverse zone name, holding its records. */
  lemma {:induction false} ReverseZonesShape(lib: NetLib, prefixes: seq<IPNet>, ips: seq<IpAddress>)
    ensures |ReverseZones(lib, prefixes, ips)| == |prefixes|
    ensures forall i :: 0 <= i < |prefixes| ==>
              ReverseZones(lib, prefixes, ips)[i] == Zone(ZoneName(prefixes[i]), PtrRecords(lib, prefixes[i], ips))
    decreases |prefixes|
  {
    if prefixes != [] {
      ReverseZonesShape(lib, prefixes[..|prefixes| - 1], ips);
    }
  }

  /**
   * A prefix's records are exactly those of the addresses it contains; every record is a
   * PTR whose value is a fully qualified name.
   */
  lemma PtrRecordsSpec(lib: NetLib, prefix: IPNet, ips: seq<IpAddress>)
    ensures forall r :: r in PtrRecords(lib, prefix, ips) <==>
              exists i :: 0 <= i < |ips| && NetContains(prefix, ips[i].address) && r == PtrRecord(lib, ips[i])
    ensures forall r :: r in PtrRecords(lib, prefix, ips) ==> r.rtype == "PTR" && HasSuffix(r.value, ".")
  {
    KeepMapMembers(ips, (ip: IpAddress) => NetContains(prefix, ip.address), (ip: IpAddress) => PtrRecord(lib, ip));
  }

  /**
   * `::ffff:10.0.1.5` gets its PTR record `5` in the zone of `10.0.1.0/24`, and none in
   * the zone of `::/64`.
   */
  lemma MappedReverseZones(lib: NetLib, ip: IpAddress, p4: IPNet, p6: IPNet)
    requires ip.address == [0, 0, 0, 0, 0, 0, 0, 0, 0, 0, 255, 255, 10, 0, 1, 5]
    requires p4 == IPNet([10, 0, 1, 0], 24)
    requires p6 == IPNet([0, 0, 0, 0, 0, 0, 0, 0, 0, 0, 0, 0, 0, 0, 0, 0], 64)
    ensures ReverseZones(lib, [p4, p6], [ip]) ==
              [Zone(ZoneName(p4), [Record("5", "PTR", ToFqdn(ip.dns))]), Zone(ZoneName(p6), [])]
  {
    MappedZoneRecords(lib, ip, p4, p6);
    ReverseZonesShape(lib, [p4, p6], [ip]);
  }

  lemma MappedZoneRecords(lib: NetLib, ip: IpAddress, p4: IPNet, p6: IPNet)
    requires ip.address == [0, 0, 0, 0, 0, 0, 0, 0, 0, 0, 255, 255, 10, 0, 1, 5]
    requires p4 == IPNet([10, 0, 1, 0], 24)
    requires p6 == IPNet([0, 0, 0, 0, 0, 0, 0, 0, 0, 0, 0, 0, 0, 0, 0, 0], 64)
    ensures PtrRecords(lib, p4, [ip]) == [Record("5", "PTR", ToFqdn(ip.dns))]
    ensures PtrRecords(lib, p6, [ip]) == []
  {
    MappedContainment();
    MappedPtrRecord(lib, ip);
    PtrRecordsSingle(lib, p4, ip);
    PtrRecordsSingle(lib, p6, ip);
  }

  lemma MappedPtrRecord(lib: NetLib, ip: IpAddress)
    requires ip.address == [0, 0, 0, 0, 0, 0, 0, 0, 0, 0, 255, 255, 10, 0, 1, 5]
    ensures PtrRecord(lib, ip) == Record("5", "PTR", ToFqdn(ip.dns))
  {
    MappedExample(lib);
    PtrLabel4(lib, ip.address);
    assert Decimal(5) == [DigitChar(5)];
  }

  /** A single address has its PTR record in a zone exactly when the prefix contains it. */
  lemma PtrRecordsSingle(lib: NetLib, prefix: IPNet, ip: IpAddress)
    ensures PtrRecords(lib, prefix, [ip]) == if NetContains(prefix, ip.address) then [PtrRecord(lib, ip)] else []
  {
    KeepMapSingle(ip, (ip: IpAddress) => NetContains(prefix, ip.address), (ip: IpAddress) => PtrRecord(lib, ip));
  }

  /** Records keep address-list order: the records of `a + b` are those of `a`, then of `b`. */
  lemma PtrRecordsAppend(lib: NetLib, prefix: IPNet, a: seq<IpAddress>, b: seq<IpAddress>)
    ensures PtrRecords(lib, prefix, a + b) == PtrRecords(lib, prefix, a) + PtrRecords(lib, prefix, b)
  {
    KeepMapAppend(a, b, (ip: IpAddress) => NetContains(prefix, ip.address), (ip: IpAddress) => PtrRecord(lib, ip));
  }

  /** The nested prefix-by-address loop of the reverse generator. */
  method BuildReverseZones(lib: NetLib, allPrefixes: seq<IPNet>, allIpAddresses: seq<IpAddress>)
    returns (allZones: seq<Zone>)
    ensures allZones == ReverseZones(lib, allPrefixes, allIpAddresses)
  {
    allZones := [];
    for i := 0 to |allPrefixes|
      invariant allZones == ReverseZones(lib, allPrefixes[..i], allIpAddresses)
    {
      var prefix := allPrefixes[i];
      var zoneName := ToDnsZoneName(prefix);
      var records: seq<Record> := [];
      for j := 0 to |allIpAddresses|
        invariant records == PtrRecords(lib, prefix, allIpAddresses[..j])
      {
        var ipAddress := allIpAddresses[j];
        assert allIpAddresses[..j + 1][..j] == allIpAddresses[..j];
        if NetContains(prefix, ipAddress.address) {
          var name := PtrName(lib, ipAddress.address);
          records := records + [Record(name, "PTR", ToFqdn(ipAddress.dns))];
        }
      }
      assert allIpAddresses[..|allIpAddresses|] == allIpAddresses;
      assert allPrefixes[..i + 1][..i] == allPrefixes[..i];
      allZones := allZones + [Zone(zoneName, records)];
    }
    assert allPrefixes[..|allPrefixes|] == allPrefixes;
  }

  /** The reverse generator's zones: one per listed prefix of the client. */
  method ReverseDNS(client: NetboxClient, lib: NetLib, allIpAddresses: seq<IpAddress>)
    returns (allZones: seq<Zone>)
    requires PrefixesParse(lib, client.prefixes)
    ensures allZones == ReverseZones(lib, PrefixList(lib, client.prefixes), allIpAddresses)
  {
    var allPrefixes, _ := client.GetPrefixList(lib, "as65342");
    allZones := BuildReverseZones(lib, allPrefixes, allIpAddresses);
  }

  // ---------------------------------------------------------------------------
  // Statically configured zones.

  function FieldText(fields: map<string, Value>, key: string): Option<string> {
    if key in fields && fields[key].Text? then Some(fields[key].s) else None
  }

  /** A configured record: an object with string `name`, `type` and `value`. */
  function RecordOf(v: Value): Option<Record> {
    if !v.Object? then None
    else
      var name, rtype, value := FieldText(v.fields, "name"), FieldText(v.fields, "type"),
                                FieldText(v.fields, "value");
      if name.Some? && rtype.Some? && value.Some? then Some(Record(name.value, rtype.value, value.value))
      else None
  }

  function RecordsOf(items: seq<Value>): Option<seq<Record>>
    decreases |items|
  {
    if items == [] then Some([])
    else
      var prev := RecordsOf(items[..|items| - 1]);
      var r := RecordOf(items[|items| - 1]);
      if prev.Some? && r.Some? then Some(prev.value + [r.value]) else None
  }

  /** A configured zone: an object with a string `name` and a list of `records`. */
  function ZoneOf(v: Value): Option<Zone> {
    if !v.Object? then None
    else
      var name := FieldText(v.fields, "name");
      if name.None? || "records" !in v.fields || !v.fields["records"].List? then None
      else
        var records := RecordsOf(v.fields["records"].items);
        if records.None? then None else Some(Zone(name.value, records.value))
  }

  function ZonesOfItems(items: seq<Value>): Option<seq<Zone>>
    decreases |items|
  {
    if items == [] then Some([])
    else
      var prev := ZonesOfItems(items[..|items| - 1]);
      var z := ZoneOf(items[|items| - 1]);
      if prev.Some? && z.Some? then Some(prev.value + [z.value]) else None
  }

  /** The zones of a `dns_zones` config context: its `dns_zones` list. */
  function ZonesOf(config: Value): Option<seq<Zone>> {
    if config.Object? && "dns_zones" in config.fields && config.fields["dns_zones"].List? then
      ZonesOfItems(config.fields["dns_zones"].items)
    else None
  }

  /** Every config context named `dns_zones` has the expected shape (else the generator panics). */
  predicate ZonesDecode(contexts: seq<ConfigContext>) {
    forall i :: 0 <= i < |contexts| && contexts[i].name == "dns_zones" ==> ZonesOf(contexts[i].config).Some?
  }

  /** The configured zones of the `dns_zones` contexts, in context then configuration order. */
  function StaticZones(contexts: seq<ConfigContext>): seq<Zone>
    requires ZonesDecode(contexts)
    decreases |contexts|
  {
    if contexts == [] then []
    else
      var init, c := contexts[..|contexts| - 1], contexts[|contexts| - 1];
      assert ZonesDecode(init) by {
        forall i | 0 <= i < |init| ensures init[i] == contexts[i] { }
      }
      StaticZones(init) + (if c.name == "dns_zones" then ZonesOf(c.config).value else [])
  }

  /** Contexts with another name contribute nothing. */
  lemma {:induction false} StaticZonesOnlyNamed(contexts: seq<ConfigContext>)
    requires forall i :: 0 <= i < |contexts| ==> contexts[i].name != "dns_zones"
    ensures ZonesDecode(contexts) && StaticZones(contexts) == []
    decreases |contexts|
  {
    if contexts != [] {
      var init := contexts[..|contexts| - 1];
      assert forall i :: 0 <= i < |init| ==> init[i] == contexts[i];
      StaticZonesOnlyNamed(init);
    }
  }

  /** Every part of a decodable context list is decodable. */
  lemma ZonesDecodeParts(a: seq<ConfigContext>, b: seq<ConfigContext>)
    requires ZonesDecode(a + b)
    ensures ZonesDecode(a) && ZonesDecode(b)
  {
    forall i | 0 <= i < |a| ensures a[i] == (a + b)[i] { }
    forall i | 0 <= i < |b| ensures b[i] == (a + b)[|a| + i] { }
  }

  /** Appending one context adds its configured zones at the end. */
  lemma StaticZonesSnoc(u: seq<ConfigContext>, c: ConfigContext)
    requires ZonesDecode(u + [c])
    ensures ZonesDecode(u) && (c.name == "dns_zones" ==> ZonesOf(c.config).Some?)
    ensures StaticZones(u + [c]) == StaticZones(u) + if c.name == "dns_zones" then ZonesOf(c.config).value else []
  {
    var t := u + [c];
    ZonesDecodeParts(u, [c]);
    assert t[..|t| - 1] == u;
    assert t[|t| - 1] == c;
  }

  /** Zones keep context order: the zones of `a + b` are those of `a`, then of `b`. */
  lemma {:induction false} StaticZonesAppend(a: seq<ConfigContext>, b: seq<ConfigContext>)
    requires ZonesDecode(a + b)
    ensures ZonesDecode(a) && ZonesDecode(b)
    ensures StaticZones(a + b) == StaticZones(a) + StaticZones(b)
    decreases |b|
  {
    ZonesDecodeParts(a, b);
    if b == [] {
      assert a + b == a;
    } else {
      var b', c := b[..|b| - 1], b[|b| - 1];
      assert a + b == (a + b') + [c];
      assert b == b' + [c];
      StaticZonesSnoc(a + b', c);
      StaticZonesSnoc(b', c);
      StaticZonesAppend(a, b');
    }
  }

  /** The context-by-zone loop that collects the configured zones. */
  method CollectStaticZones(allConfigContexts: seq<ConfigContext>) returns (allZonesNoHosts: seq<Zone>)
    requires ZonesDecode(allConfigContexts)
    ensures allZonesNoHosts == StaticZones(allConfigContexts)
  {
    allZonesNoHosts := [];
    for i := 0 to |allConfigContexts|
      invariant ZonesDecode(allConfigContexts[..i])
      invariant allZonesNoHosts == StaticZones(allConfigContexts[..i])
    {
      var context := allConfigContexts[i];
      ghost var before := allZonesNoHosts;
      assert allConfigContexts[..i + 1][..i] == allConfigContexts[..i];
      assert ZonesDecode(allConfigContexts[..i + 1]) by {
        forall k | 0 <= k <= i ensures allConfigContexts[..i + 1][k] == allConfigContexts[k] { }
      }
      if context.name == "dns_zones" {
        var zones := ZonesOf(context.config).value;
        for j := 0 to |zones|
          invariant allZonesNoHosts == before + zones[..j]
        {
          allZonesNoHosts := allZonesNoHosts + [zones[j]];
          assert zones[..j + 1] == zones[..j] + [zones[j]];
        }
        assert zones[..|zones|] == zones;
      }
    }
    assert allConfigContexts[..|allConfigContexts|] == allConfigContexts;
  }

  // ---------------------------------------------------------------------------
  // Forward zones.

  /** The record type for an address text: AAAA when it contains ':', A otherwise. */
  function AddressRecordType(value: string): string {
    if ':' in value then "AAAA" else "A"
  }

  /** The A or AAAA record of an address under a zone: its name with `.zone` removed. */
  function HostRecord(lib: NetLib, zoneName: string, ip: IpAddress): Record {
    var value := IPString(lib, ip.address);
    Record(ReplaceAll(ip.dns, "." + zoneName, ""), AddressRecordType(value), value)
  }

  /** The host records of a zone: addresses whose DNS name ends in the zone name, in order. */
  function HostRecords(lib: NetLib, zoneName: string, ips: seq<IpAddress>): seq<Record> {
    KeepMap(ips, (ip: IpAddress) => HasSuffix(ip.dns, zoneName), (ip: IpAddress) => HostRecord(lib, zoneName, ip))
  }

  /** One more address adds at most its own host record, at the end. */
  lemma HostRecordsStep(lib: NetLib, zoneName: string, ips: seq<IpAddress>, j: nat)
    requires j < |ips|
    ensures HostRecords(lib, zoneName, ips[..j + 1]) ==
            HostRecords(lib, zoneName, ips[..j])
              + if HasSuffix(ips[j].dns, zoneName) then [HostRecord(lib, zoneName, ips[j])] else []
  {
    assert ips[..j + 1][..j] == ips[..j];
    assert ips[..j + 1][j] == ips[j];
  }

  /** A configured zone with its host records appended after its static records. */
  function ForwardZone(lib: NetLib, zone: Zone, ips: seq<IpAddress>): Zone {
    Zone(zone.name, zone.records + HostRecords(lib, zone.name, ips))
  }

  function ForwardZones(lib: NetLib, zones: seq<Zone>, ips: seq<IpAddress>): seq<Zone>
    decreases |zones|
  {
    if zones == [] then []
    else ForwardZones(lib, zones[..|zones| - 1], ips) + [ForwardZone(lib, zones[|zones| - 1], ips)]
  }

  /**
   * A host record is AAAA exactly when its value contains ':', that is for a 16-byte
   * address that is not IPv4-mapped; 4-byte and IPv4-mapped addresses get A.
   */
  lemma HostRecordType(lib: NetLib, zoneName: string, ip: IpAddress)
    ensures HostRecord(lib, zoneName, ip).rtype == "AAAA" <==> ':' in HostRecord(lib, zoneName, ip).value
    ensures HostRecord(lib, zoneName, ip).rtype == "AAAA" <==> |ip.address| == 16 && !V4Mapped(ip.address)
    ensures HostRecord(lib, zoneName, ip).rtype == "A" <==> |ip.address| == 4 || V4Mapped(ip.address)
    ensures HostRecord(lib, zoneName, ip).value == IPString(lib, ip.address)
  {
    ColonIffIpv6(lib, ip.address);
  }

  /** `::ffff:10.0.1.5` gets the PTR label `5` and an A record with value `10.0.1.5`. */
  lemma MappedAddressRecords(lib: NetLib, zoneName: string, ip: IpAddress)
    requires ip.address == [0, 0, 0, 0, 0, 0, 0, 0, 0, 0, 255, 255, 10, 0, 1, 5]
    ensures PtrLabel(lib, ip.address) == "5"
    ensures HostRecord(lib, zoneName, ip).rtype == "A"
    ensures HostRecord(lib, zoneName, ip).value == "10.0.1.5"
  {
    MappedExample(lib);
    PtrLabel4(lib, ip.address);
    HostRecordType(lib, zoneName, ip);
  }

  /** An address gets a record in a zone exactly when its DNS name ends in the zone name. */
  lemma HostRecordsSpec(lib: NetLib, zoneName: string, ips: seq<IpAddress>)
    ensures forall r :: r in HostRecords(lib, zoneName, ips) <==>
              exists i :: 0 <= i < |ips| && HasSuffix(ips[i].dns, zoneName) && r == HostRecord(lib, zoneName, ips[i])
  {
    KeepMapMembers(ips, (ip: IpAddress) => HasSuffix(ip.dns, zoneName), (ip: IpAddress) => HostRecord(lib, zoneName, ip));
  }

  /** The record name of `host.example.org` under `example.org` is `host`. */
  lemma HostRecordName(lib: NetLib, host: string, zoneName: string, ip: IpAddress)
    requires ip.dns == host + "." + zoneName && '.' !in host
    ensures HostRecord(lib, zoneName, ip).name == host
  {
    var pat := "." + zoneName;
    assert host + "." + zoneName == host + pat;
    ReplaceNoMatchPrefix(host, pat);
  }

  /** Zone `i` keeps configured zone `i`'s name, and its static records come first, in order. */
  lemma {:induction false} ForwardZonesShape(lib: NetLib, zones: seq<Zone>, ips: seq<IpAddress>)
    ensures |ForwardZones(lib, zones, ips)| == |zones|
    ensures forall i :: 0 <= i < |zones| ==>
              && ForwardZones(lib, zones, ips)[i].name == zones[i].name
              && ForwardZones(lib, zones, ips)[i].records == zones[i].records + HostRecords(lib, zones[i].name, ips)
    decreases |zones|
  {
    if zones != [] {
      ForwardZonesShape(lib, zones[..|zones| - 1], ips);
    }
  }

  /** The address loop for one zone: its static records, then a record per matching address. */
  method ZoneWithHosts(lib: NetLib, zone: Zone, allIpAddresses: seq<IpAddress>) returns (records: seq<Record>)
    ensures records == ForwardZone(lib, zone, allIpAddresses).records
  {
    records := zone.records;
    for j := 0 to |allIpAddresses|
      invariant records == zone.records + HostRecords(lib, zone.name, allIpAddresses[..j])
    {
      var ip := allIpAddresses[j];
      HostRecordsStep(lib, zone.name, allIpAddresses, j);
      if HasSuffix(ip.dns, zone.name) {
        var hostName := ReplaceAll(ip.dns, "." + zone.name, "");
        var value := IPString(lib, ip.address);
        var rtype := AddressRecordType(value);
        records := records + [Record(hostName, rtype, value)];
      }
    }
    assert allIpAddresses[..|allIpAddresses|] == allIpAddresses;
  }

  /** The zone-by-address loop that appends host records to each configured zone. */
  method AddHostRecords(lib: NetLib, allZonesNoHosts: seq<Zone>, allIpAddresses: seq<IpAddress>)
    returns (allZones: seq<Zone>)
    ensures allZones == ForwardZones(lib, allZonesNoHosts, allIpAddresses)
  {
    allZones := [];
    for i := 0 to |allZonesNoHosts|
      invariant allZones == ForwardZones(lib, allZonesNoHosts[..i], allIpAddresses)
    {
      var zone := allZonesNoHosts[i];
      var records := ZoneWithHosts(lib, zone, allIpAddresses);
      assert allZonesNoHosts[..i + 1][..i] == allZonesNoHosts[..i];
      allZones := allZones + [Zone(zone.name, records)];
    }
    assert allZonesNoHosts[..|allZonesNoHosts|] == allZonesNoHosts;
  }

  /** The forward generator's zones: the configured zones, each extended with host records. */
  method ForwardDNS(client: NetboxClient, lib: NetLib, allIpAddresses: seq<IpAddress>)
    returns (allZones: seq<Zone>)
    requires ZonesDecode(ContextsOf(client.configContexts))
    ensures allZones == ForwardZones(lib, StaticZones(ContextsOf(client.configContexts)), allIpAddresses)
  {
    var allConfigContexts, _ := client.ListConfigContexts();
    var allZonesNoHosts := CollectStaticZones(allConfigContexts);
    allZones := AddHostRecords(lib, allZonesNoHosts, allIpAddresses);
  }
}

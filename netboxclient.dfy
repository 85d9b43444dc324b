/**
 * The inventory client (lib/netboxclient/netboxclient.go): five result lists fetched
 * once at construction, and the listing methods that filter and normalise them.
 */
module Netbox {
  import opened Results
  import opened GoStrings
  import opened GoNet
  import opened Models
  import opened Utils
  import opened Dedup

  // ---------------------------------------------------------------------------
  // Raw payload records: only the fields the client reads.

  datatype RawPrefix = RawPrefix(prefix: string, tenantSlug: string)

  /** A result of the device list or of the virtual-machine list. */
  datatype RawHost = RawHost(
    name: string,
    tenantSlug: string,
    statusLabel: string,
    platformSlug: Option<string>,
    primaryIp: Option<string>,
    primaryIp4: Option<string>,
    primaryIp6: Option<string>,
    tags: seq<string>,
    configContext: Value)

  datatype RawConfigContext = RawConfigContext(name: string, data: Value)

  datatype RawTenant = RawTenant(name: string, slug: string)

  /** The outcome of one list request to the inventory API. */
  datatype Fetch<T> = Fetched(results: seq<T>) | FetchFailed(reason: string)

  /** The outcomes of the five list requests, in the order they are issued. */
  datatype Payloads = Payloads(
    prefixes: Fetch<RawPrefix>,
    devices: Fetch<RawHost>,
    virtualMachines: Fetch<RawHost>,
    configContexts: Fetch<RawConfigContext>,
    tenants: Fetch<RawTenant>)

  predicate AllFetched(p: Payloads) {
    p.prefixes.Fetched? && p.devices.Fetched? && p.virtualMachines.Fetched?
    && p.configContexts.Fetched? && p.tenants.Fetched?
  }

  /** What one request leaves in its cache: the results, or nothing (nil) when it failed. */
  function Cached<T>(f: Fetch<T>): seq<T> {
    if f.Fetched? then f.results else []
  }

  /** The error of the first failing request, labelled with the API call that failed. */
  function FirstFetchError(p: Payloads): (err: Option<string>)
    ensures err.None? <==> AllFetched(p)
  {
    if p.prefixes.FetchFailed? then Some("IPAM.IPAMPrefixesList: " + p.prefixes.reason)
    else if p.devices.FetchFailed? then Some("Dcim.DcimDevicesList: " + p.devices.reason)
    else if p.virtualMachines.FetchFailed? then
      Some("Virtualization.VirtualizationVirtualMachinesList: " + p.virtualMachines.reason)
    else if p.configContexts.FetchFailed? then
      Some("Extras.ExtrasConfigContextList: " + p.configContexts.reason)
    else if p.tenants.FetchFailed? then Some("Tenancy.TenancyTenantsList: " + p.tenants.reason)
    else None
  }

  /** The error text `fmt.Errorf("net.ParseCIDR: %v", err)` gives for an unparsable CIDR. */
  function CidrError(s: string): string {
    "net.ParseCIDR: invalid CIDR address: " + s
  }

  /** A prefix of the second list, after the whole first list, is a prefix of the concatenation. */
  lemma PrefixOfAppend<T>(a: seq<T>, b: seq<T>, j: nat)
    requires j <= |b|
    ensures a + b[..j] == (a + b)[..|a| + j]
  {
    forall k | 0 <= k < |a| + j ensures (a + b[..j])[k] == (a + b)[..|a| + j][k] { }
  }

  // ---------------------------------------------------------------------------
  // Prefix listing.

  /** The site-standard network sizes: /64 for a 16-byte network, /24 otherwise. */
  predicate StandardSize(n: IPNet) {
    if |n.ip| == 16 then n.prefixLen == 64 else n.prefixLen == 24
  }

  /** The prefixes of the allowed tenant parse (otherwise the listing dereferences nil). */
  predicate PrefixesParse(lib: NetLib, s: seq<RawPrefix>) {
    forall i :: 0 <= i < |s| && TenantAllowed(s[i].tenantSlug) ==> lib.parseCIDR(s[i].prefix).Some?
  }

  /** A prefix that the listing keeps. */
  predicate KeptPrefix(lib: NetLib, e: RawPrefix) {
    TenantAllowed(e.tenantSlug) && lib.parseCIDR(e.prefix).Some?
    && StandardSize(lib.parseCIDR(e.prefix).value.network)
  }

  /** The networks of the kept prefixes, in payload order. */
  function PrefixList(lib: NetLib, s: seq<RawPrefix>): seq<IPNet>
    decreases |s|
  {
    if s == [] then []
    else
      var prev := PrefixList(lib, s[..|s| - 1]);
      var e := s[|s| - 1];
      if KeptPrefix(lib, e) then prev + [lib.parseCIDR(e.prefix).value.network] else prev
  }

  /** Every listed network has the standard size of its family. */
  lemma {:induction false} PrefixListSizes(lib: NetLib, s: seq<RawPrefix>)
    ensures forall n :: n in PrefixList(lib, s) ==>
              (|n.ip| == 16 && n.prefixLen == 64) || (|n.ip| == 4 && n.prefixLen == 24)
    decreases |s|
  {
    if s != [] {
      PrefixListSizes(lib, s[..|s| - 1]);
    }
  }

  /** A network is listed exactly when some kept prefix parses to it. */
  lemma {:induction false} PrefixListMembers(lib: NetLib, s: seq<RawPrefix>)
    ensures forall n :: n in PrefixList(lib, s) <==>
              exists i :: 0 <= i < |s| && KeptPrefix(lib, s[i]) && lib.parseCIDR(s[i].prefix).value.network == n
    decreases |s|
  {
    if s != [] {
      var init := s[..|s| - 1];
      PrefixListMembers(lib, init);
      assert forall i :: 0 <= i < |init| ==> init[i] == s[i];
    }
  }

  /** Listing distributes over concatenation of payloads: the payload order is kept. */
  lemma {:induction false} PrefixListAppend(lib: NetLib, a: seq<RawPrefix>, b: seq<RawPrefix>)
    ensures PrefixList(lib, a + b) == PrefixList(lib, a) + PrefixList(lib, b)
    decreases |b|
  {
    if b == [] {
      assert a + b == a;
    } else {
      assert (a + b)[..|a + b| - 1] == a + b[..|b| - 1];
      PrefixListAppend(lib, a, b[..|b| - 1]);
    }
  }

  // ---------------------------------------------------------------------------
  // Host listing.

  /** The tenant, status and platform allow-lists, with a missing platform dropped. */
  predicate Admitted(r: RawHost) {
    TenantAllowed(r.tenantSlug) && StatusAllowed(r.statusLabel)
    && r.platformSlug.Some? && PlatformAllowed(r.platformSlug.value)
  }

  predicate AddressesPresent(r: RawHost) {
    r.primaryIp.Some? && r.primaryIp4.Some? && r.primaryIp6.Some?
  }

  /**
   * The primary addresses of an admitted record that the listing dereferences unchecked:
   * the first always, the IPv4 one once the first has parsed, the IPv6 one once that has too.
   */
  predicate DeviceReadable(lib: NetLib, r: RawHost) {
    && r.primaryIp.Some?
    && (lib.parseCIDR(r.primaryIp.value).Some? ==>
          && r.primaryIp4.Some?
          && (lib.parseCIDR(r.primaryIp4.value).Some? ==> r.primaryIp6.Some?))
  }

  /**
   * The listing of `s` dereferences no missing address: every admitted record it reaches
   * while no error has occurred is readable. Records after the first error are not read.
   */
  predicate HostsReadable(lib: NetLib, s: seq<RawHost>)
    decreases |s|, 0
  {
    s == [] ||
    (&& HostsReadable(lib, s[..|s| - 1])
     && (HostsFrom(lib, s[..|s| - 1]).Ok? && Admitted(s[|s| - 1]) ==> DeviceReadable(lib, s[|s| - 1])))
  }

  /** The naming-safe token of an IPv4 (or generic) network: "/24" dropped, '.' to '-'. */
  function PrintableNet(text: string): string {
    ReplaceAll(ReplaceAll(text, "/24", ""), ".", "-")
  }

  /** The naming-safe token of an IPv6 network: "::" dropped, ':' to '-'. */
  function PrintableNet6(text: string): string {
    ReplaceAll(ReplaceAll(text, "::", ""), ":", "-")
  }

  /** The device built from an admitted record and its three parsed primary addresses. */
  function MakeDevice(lib: NetLib, r: RawHost, c: ParsedCidr, c4: ParsedCidr, c6: ParsedCidr): ManagedDevice
    requires r.platformSlug.Some?
  {
    ManagedDevice(
      name := r.name,
      primaryIP := c.ip,
      primaryNet := c.network,
      printablePrimaryNet := PrintableNet(IPString(lib, c.network.ip)),
      primaryIP4 := c4.ip,
      primaryNet4 := c4.network,
      printablePrimaryNet4 := PrintableNet(IPString(lib, c4.network.ip)),
      primaryIP6 := c6.ip,
      primaryNet6 := c6.network,
      printablePrimaryNet6 := PrintableNet6(IPString(lib, c6.network.ip)),
      platform := r.platformSlug.value,
      site := "",
      tenant := r.tenantSlug,
      tags := r.tags,
      config := r.configContext)
  }

  /** One admitted record as a managed device, or the first CIDR that does not parse. */
  function ToDevice(lib: NetLib, r: RawHost): Result<ManagedDevice>
    requires Admitted(r) && DeviceReadable(lib, r)
  {
    var p := lib.parseCIDR(r.primaryIp.value);
    if p.None? then Err(CidrError(r.primaryIp.value))
    else
      var p4 := lib.parseCIDR(r.primaryIp4.value);
      if p4.None? then Err(CidrError(r.primaryIp4.value))
      else
        var p6 := lib.parseCIDR(r.primaryIp6.value);
        if p6.None? then Err(CidrError(r.primaryIp6.value))
        else Ok(MakeDevice(lib, r, p.value, p4.value, p6.value))
  }

  /** The listing so far extended by one record: skipped, added, or the listing's error. */
  function HostStep(lib: NetLib, prev: Result<seq<ManagedDevice>>, r: RawHost): Result<seq<ManagedDevice>>
    requires prev.Ok? && Admitted(r) ==> DeviceReadable(lib, r)
  {
    if prev.Err? || !Admitted(r) then prev
    else
      var d := ToDevice(lib, r);
      if d.Err? then Err(d.error) else Ok(prev.value + [d.value])
  }

  /** The devices of the admitted records, in order, or the first parse error. */
  function HostsFrom(lib: NetLib, s: seq<RawHost>): Result<seq<ManagedDevice>>
    requires HostsReadable(lib, s)
    decreases |s|, 1
  {
    if s == [] then Ok([])
    else HostStep(lib, HostsFrom(lib, s[..|s| - 1]), s[|s| - 1])
  }

  /** The admitted records, in order. */
  function AdmittedOf(s: seq<RawHost>): seq<RawHost>
    decreases |s|
  {
    if s == [] then []
    else if Admitted(s[|s| - 1]) then AdmittedOf(s[..|s| - 1]) + [s[|s| - 1]]
    else AdmittedOf(s[..|s| - 1])
  }

  lemma {:induction false} AdmittedOfProperties(s: seq<RawHost>)
    ensures forall r :: r in AdmittedOf(s) <==> r in s && Admitted(r)
    decreases |s|
  {
    if s != [] {
      AdmittedOfProperties(s[..|s| - 1]);
      assert s == s[..|s| - 1] + [s[|s| - 1]];
    }
  }

  /** Admission keeps order: admitted devices come first, then admitted virtual machines. */
  lemma {:induction false} AdmittedOfAppend(a: seq<RawHost>, b: seq<RawHost>)
    ensures AdmittedOf(a + b) == AdmittedOf(a) + AdmittedOf(b)
    decreases |b|
  {
    if b == [] {
      assert a + b == a;
    } else {
      assert (a + b)[..|a + b| - 1] == a + b[..|b| - 1];
      AdmittedOfAppend(a, b[..|b| - 1]);
    }
  }

  /**
   * On success the listing is the admitted records, one device each, in order; it fails
   * exactly when some admitted record has a primary address that does not parse.
   */
  lemma {:induction false} HostsFromSpec(lib: NetLib, s: seq<RawHost>)
    requires HostsReadable(lib, s)
    ensures forall r :: r in AdmittedOf(s) ==> Admitted(r)
    ensures HostsFrom(lib, s).Ok? <==>
              forall r :: r in AdmittedOf(s) ==> DeviceReadable(lib, r) && ToDevice(lib, r).Ok?
    ensures HostsFrom(lib, s).Ok? ==>
              |HostsFrom(lib, s).value| == |AdmittedOf(s)|
              && forall k :: 0 <= k < |AdmittedOf(s)| ==> ToDevice(lib, AdmittedOf(s)[k]) == Ok(HostsFrom(lib, s).value[k])
    decreases |s|
  {
    AdmittedOfProperties(s);
    if s != [] {
      var init := s[..|s| - 1];
      HostsFromSpec(lib, init);
      AdmittedOfProperties(init);
    }
  }

  /**
   * Of an admitted record, a record of another tenant and a record without a platform,
   * only the first is listed.
   */
  lemma ThreeRecordScenario(lib: NetLib, good: RawHost, otherTenant: RawHost, noPlatform: RawHost)
    requires Admitted(good) && AddressesPresent(good)
    requires lib.parseCIDR(good.primaryIp.value).Some? && lib.parseCIDR(good.primaryIp4.value).Some?
    requires lib.parseCIDR(good.primaryIp6.value).Some?
    requires otherTenant.tenantSlug != "as65342" && noPlatform.platformSlug.None?
    ensures HostsReadable(lib, [good, otherTenant, noPlatform])
    ensures HostsFrom(lib, [good, otherTenant, noPlatform]) == Ok([ToDevice(lib, good).value])
  {
    var s1 := [good];
    var s2 := s1 + [otherTenant];
    var s3 := s2 + [noPlatform];
    assert s3 == [good, otherTenant, noPlatform];
    assert !Admitted(otherTenant) && !Admitted(noPlatform);
    assert s1[..0] == [] && s2[..1] == s1 && s3[..2] == s2;
    assert HostsReadable(lib, s1);
    var d := ToDevice(lib, good).value;
    assert [] + [d] == [d];
    assert HostsFrom(lib, s1) == HostStep(lib, Ok([]), good) == Ok([d]);
    assert HostsReadable(lib, s2);
    assert HostsFrom(lib, s2) == HostStep(lib, Ok([d]), otherTenant) == Ok([d]);
    assert HostsReadable(lib, s3);
    assert HostsFrom(lib, s3) == HostStep(lib, Ok([d]), noPlatform) == Ok([d]);
  }

  /**
   * An admitted record whose IPv4 address does not parse ends the listing with that
   * error before its IPv6 address is read, and no later record is read at all: the
   * listing is defined whatever the later record holds.
   */
  lemma ErrorStopsReading(lib: NetLib, bad: RawHost, later: RawHost)
    requires Admitted(bad) && bad.primaryIp.Some? && bad.primaryIp4.Some?
    requires lib.parseCIDR(bad.primaryIp.value).Some? && lib.parseCIDR(bad.primaryIp4.value).None?
    ensures HostsReadable(lib, [bad, later])
    ensures HostsFrom(lib, [bad, later]) == Err(CidrError(bad.primaryIp4.value))
  {
    var s1 := [bad];
    var s2 := [bad, later];
    assert s1[..0] == [] && s2[..1] == s1;
    assert HostsReadable(lib, []) && DeviceReadable(lib, bad);
    assert HostsReadable(lib, s1);
    assert HostsFrom(lib, s1) == HostStep(lib, Ok([]), bad) == Err(CidrError(bad.primaryIp4.value));
    assert HostsReadable(lib, s2);
  }

  /** What a converted device is: allowed tenant and platform, empty site, the record's fields. */
  lemma ToDeviceFields(lib: NetLib, r: RawHost)
    requires Admitted(r) && DeviceReadable(lib, r)
    ensures ToDevice(lib, r).Err? <==>
              lib.parseCIDR(r.primaryIp.value).None? || lib.parseCIDR(r.primaryIp4.value).None?
              || lib.parseCIDR(r.primaryIp6.value).None?
    ensures ToDevice(lib, r).Ok? ==>
              var d := ToDevice(lib, r).value;
              && d.tenant == "as65342"
              && (d.platform == "centos" || d.platform == "openbsd")
              && d.site == ""
              && d.name == r.name && d.tags == r.tags && d.config == r.configContext
              && d.primaryNet4 == lib.parseCIDR(r.primaryIp4.value).value.network
              && d.primaryNet6 == lib.parseCIDR(r.primaryIp6.value).value.network
              && d.printablePrimaryNet4 == PrintableNet(IPString(lib, d.primaryNet4.ip))
  {
  }

  /**
   * Every listed device belongs to the allowed tenant, runs an allowed platform and has an
   * empty site.
   */
  lemma HostListFields(lib: NetLib, s: seq<RawHost>)
    requires HostsReadable(lib, s) && HostsFrom(lib, s).Ok?
    ensures forall d :: d in HostsFrom(lib, s).value ==>
              d.tenant == "as65342" && (d.platform == "centos" || d.platform == "openbsd") && d.site == ""
  {
    HostsFromSpec(lib, s);
    var ds := HostsFrom(lib, s).value;
    var rs := AdmittedOf(s);
    forall d | d in ds
      ensures d.tenant == "as65342" && (d.platform == "centos" || d.platform == "openbsd") && d.site == ""
    {
      var k :| 0 <= k < |ds| && ds[k] == d;
      assert rs[k] in rs;
      ToDeviceFields(lib, rs[k]);
    }
  }

  /**
   * Errors persist: once a prefix of the payload fails, the whole listing fails the same
   * way, and it is readable whatever the records after that prefix hold.
   */
  lemma {:induction false} HostsErrPersists(lib: NetLib, s: seq<RawHost>, k: nat)
    requires k <= |s| && HostsReadable(lib, s[..k]) && HostsFrom(lib, s[..k]).Err?
    ensures HostsReadable(lib, s) && HostsFrom(lib, s) == HostsFrom(lib, s[..k])
    decreases |s| - k
  {
    if k < |s| {
      var s' := s[..k + 1];
      assert s'[..|s'| - 1] == s[..k];
      assert HostsReadable(lib, s');
      assert HostsFrom(lib, s') == HostsFrom(lib, s[..k]);
      HostsErrPersists(lib, s, k + 1);
    } else {
      assert s[..k] == s;
    }
  }

  /** Every prefix of a readable payload is readable. */
  lemma {:induction false} HostsReadablePrefix(lib: NetLib, s: seq<RawHost>, n: nat)
    requires HostsReadable(lib, s) && n <= |s|
    ensures HostsReadable(lib, s[..n])
    decreases |s|
  {
    if n < |s| {
      var init := s[..|s| - 1];
      assert init[..n] == s[..n];
      HostsReadablePrefix(lib, init, n);
    } else {
      assert s[..n] == s;
    }
  }

  /** Appending one record extends the listing by that record's step. */
  lemma HostsSnoc(lib: NetLib, u: seq<RawHost>, r: RawHost)
    requires HostsReadable(lib, u + [r])
    ensures HostsReadable(lib, u) && (HostsFrom(lib, u).Ok? && Admitted(r) ==> DeviceReadable(lib, r))
    ensures HostsFrom(lib, u + [r]) == HostStep(lib, HostsFrom(lib, u), r)
  {
    var t := u + [r];
    assert t[..|t| - 1] == u;
    assert t[|t| - 1] == r;
  }

  /** One more record of the second list of a concatenated payload extends the listing by one step. */
  lemma HostsStepAppend(lib: NetLib, a: seq<RawHost>, b: seq<RawHost>, j: nat)
    requires HostsReadable(lib, a + b) && j < |b|
    ensures HostsReadable(lib, a + b[..j]) && HostsReadable(lib, a + b[..j + 1])
    ensures HostsFrom(lib, a + b[..j]).Ok? && Admitted(b[j]) ==> DeviceReadable(lib, b[j])
    ensures HostsFrom(lib, a + b[..j + 1]) == HostStep(lib, HostsFrom(lib, a + b[..j]), b[j])
    ensures a + b[..j + 1] == (a + b)[..|a| + j + 1]
  {
    PrefixOfAppend(a, b, j + 1);
    HostsReadableAppendPrefix(lib, a, b, j + 1);
    assert a + b[..j + 1] == (a + b[..j]) + [b[j]];
    HostsSnoc(lib, a + b[..j], b[j]);
  }

  /** A payload readable as a whole is readable up to any record of its second list. */
  lemma HostsReadableAppendPrefix(lib: NetLib, a: seq<RawHost>, b: seq<RawHost>, n: nat)
    requires HostsReadable(lib, a + b) && n <= |b|
    ensures HostsReadable(lib, a + b[..n])
  {
    PrefixOfAppend(a, b, n);
    HostsReadablePrefix(lib, a + b, |a| + n);
  }

  /** One iteration of the listing loop over the second list: it continues the listing or aborts it. */
  lemma HostsLoopStep(lib: NetLib, before: seq<RawHost>, entries: seq<RawHost>, j: nat,
                      acc: seq<ManagedDevice>, next: Result<seq<ManagedDevice>>)
    requires HostsReadable(lib, before + entries) && j < |entries|
    requires HostsReadable(lib, before + entries[..j]) && HostsFrom(lib, before + entries[..j]) == Ok(acc)
    requires Admitted(entries[j]) ==> DeviceReadable(lib, entries[j])
    requires next == HostStep(lib, Ok(acc), entries[j])
    ensures HostsReadable(lib, before + entries[..j + 1])
    ensures next.Ok? ==> HostsFrom(lib, before + entries[..j + 1]) == next
    ensures next.Err? ==> HostsFrom(lib, before + entries) == next
  {
    HostsStepAppend(lib, before, entries, j);
    if next.Err? {
      HostsErrPersists(lib, before + entries, |before| + j + 1);
    }
  }

  /** The admission checks, in the order the listing applies them. */
  method Admit(entry: RawHost) returns (admitted: bool)
    ensures admitted == Admitted(entry)
  {
    var ok := IsAllowedTenant(entry.tenantSlug);
    if !ok {
      return false;
    }
    ok := IsAllowedStatus(entry.statusLabel);
    if !ok {
      return false;
    }
    if entry.platformSlug.None? {
      return false;
    }
    admitted := IsAllowedPlatform(entry.platformSlug.value);
  }

  /** One loop iteration of the host listing. */
  method AddHost(lib: NetLib, entry: RawHost, allDevices: seq<ManagedDevice>)
    returns (result: Result<seq<ManagedDevice>>)
    requires Admitted(entry) ==> DeviceReadable(lib, entry)
    ensures result == HostStep(lib, Ok(allDevices), entry)
  {
    var admitted := Admit(entry);
    if !admitted {
      return Ok(allDevices);
    }
    var device := ToDevice(lib, entry);
    if device.Err? {
      return Err(device.error);
    }
    return Ok(allDevices + [device.value]);
  }

  /** The listing loop over one result list, continuing the listing of the lists before it. */
  method CollectHosts(lib: NetLib, entries: seq<RawHost>, ghost before: seq<RawHost>,
                      allDevices: seq<ManagedDevice>)
    returns (result: Result<seq<ManagedDevice>>)
    requires HostsReadable(lib, before + entries)
    requires HostsReadable(lib, before) && HostsFrom(lib, before) == Ok(allDevices)
    ensures result == HostsFrom(lib, before + entries)
  {
    var acc := allDevices;
    assert before + entries[..0] == before;
    for j := 0 to |entries|
      invariant HostsReadable(lib, before + entries[..j])
      invariant HostsFrom(lib, before + entries[..j]) == Ok(acc)
    {
      HostsStepAppend(lib, before, entries, j);
      var next := AddHost(lib, entries[j], acc);
      HostsLoopStep(lib, before, entries, j, acc, next);
      if next.Err? {
        return next;
      }
      acc := next.value;
    }
    assert before + entries[..|entries|] == before + entries;
    return Ok(acc);
  }

  // ---------------------------------------------------------------------------
  // Printable network tokens.

  /** Dash-separated decimal text of a 4-byte address. */
  function Dashed4(ip: seq<Byte>): string
    requires |ip| == 4
  {
    Decimal(ip[0]) + ("-" + (Decimal(ip[1]) + ("-" + (Decimal(ip[2]) + ("-" + Decimal(ip[3]))))))
  }

  lemma ReplaceDotsInDecimal(n: nat)
    ensures ReplaceAll(Decimal(n), ".", "-") == Decimal(n)
  {
    DecimalHasNo(n, '.');
    ReplaceAbsent(Decimal(n), ".", "-");
  }

  /** The token of an IPv4 network is its dotted text with every '.' made a '-'. */
  lemma PrintableNet4IsDashed(lib: NetLib, ip: Addr)
    requires |ip| == 4
    ensures PrintableNet(IPString(lib, ip)) == Dashed4(ip)
  {
    var t := Dotted4(ip);
    assert '/' !in t by {
      DecimalHasNo(ip[0], '/'); DecimalHasNo(ip[1], '/');
      DecimalHasNo(ip[2], '/'); DecimalHasNo(ip[3], '/');
    }
    ReplaceAbsent(t, "/24", "");
    var d0, d1, d2, d3 := Decimal(ip[0]), Decimal(ip[1]), Decimal(ip[2]), Decimal(ip[3]);
    assert ReplaceAll(".", ".", "-") == "-";
    ReplaceDotsInDecimal(ip[0]); ReplaceDotsInDecimal(ip[1]);
    ReplaceDotsInDecimal(ip[2]); ReplaceDotsInDecimal(ip[3]);
    ReplaceCharAppend(".", d3, '.', "-");
    ReplaceCharAppend(d2, "." + d3, '.', "-");
    ReplaceCharAppend(".", d2 + ("." + d3), '.', "-");
    ReplaceCharAppend(d1, "." + (d2 + ("." + d3)), '.', "-");
    ReplaceCharAppend(".", d1 + ("." + (d2 + ("." + d3))), '.', "-");
    ReplaceCharAppend(d0, "." + (d1 + ("." + (d2 + ("." + d3)))), '.', "-");
  }

  /** Distinct 4-byte addresses have distinct dashed texts. */
  lemma Dashed4Injective(a: seq<Byte>, b: seq<Byte>)
    requires |a| == 4 && |b| == 4 && Dashed4(a) == Dashed4(b)
    ensures a == b
  {
    forall i | 0 <= i < 4 ensures '-' !in Decimal(a[i]) && '-' !in Decimal(b[i]) {
      DecimalHasNo(a[i], '-');
      DecimalHasNo(b[i], '-');
    }
    var a1 := Decimal(a[1]) + ("-" + (Decimal(a[2]) + ("-" + Decimal(a[3]))));
    var b1 := Decimal(b[1]) + ("-" + (Decimal(b[2]) + ("-" + Decimal(b[3]))));
    SplitAtSeparator(Decimal(a[0]), a1, Decimal(b[0]), b1, '-');
    var a2 := Decimal(a[2]) + ("-" + Decimal(a[3]));
    var b2 := Decimal(b[2]) + ("-" + Decimal(b[3]));
    SplitAtSeparator(Decimal(a[1]), a2, Decimal(b[1]), b2, '-');
    SplitAtSeparator(Decimal(a[2]), Decimal(a[3]), Decimal(b[2]), Decimal(b[3]), '-');
    DecimalInjective(a[0], b[0]);
    DecimalInjective(a[1], b[1]);
    DecimalInjective(a[2], b[2]);
    DecimalInjective(a[3], b[3]);
  }

  /** Distinct IPv4 network addresses get distinct network tokens. */
  lemma PrintableNet4Distinct(lib: NetLib, n1: IPNet, n2: IPNet)
    requires |n1.ip| == 4 && |n2.ip| == 4 && n1.ip != n2.ip
    ensures PrintableNet(IPString(lib, n1.ip)) != PrintableNet(IPString(lib, n2.ip))
  {
    PrintableNet4IsDashed(lib, n1.ip);
    PrintableNet4IsDashed(lib, n2.ip);
    if Dashed4(n1.ip) == Dashed4(n2.ip) {
      Dashed4Injective(n1.ip, n2.ip);
    }
  }

  // ---------------------------------------------------------------------------
  // Gateway derivation.

  function AddressOf(g: Gateway): string { g.address }

  /** The gateway of an IPv4 network of at most /24: the last byte incremented. */
  function Gateway4(lib: NetLib, tenant: string, n: IPNet): Option<Gateway> {
    if n.prefixLen <= 24 then
      var network := NetString(lib, n);
      var address := IPString(lib, IncrementByte(n.ip, 3));
      Some(Gateway(address, network, tenant, ReplaceAll(address, ".", "-"),
                   ReplaceAll(ReplaceAll(network, "/24", ""), ".", "-")))
    else None
  }

  /** The gateway of an IPv6 network of at most /64: the last byte incremented. */
  function Gateway6(lib: NetLib, tenant: string, n: IPNet): Option<Gateway>
    requires |n.ip| == 16
  {
    if n.prefixLen <= 64 then
      var network := NetString(lib, n);
      var address := IPString(lib, IncrementByte(n.ip, 15));
      Some(Gateway(address, network, tenant, ReplaceAll(address, ":", "-"),
                   ReplaceAll(ReplaceAll(network, "::/64", ""), ":", "-")))
    else None
  }

  function OptionSeq<T>(o: Option<T>): seq<T> {
    if o.Some? then [o.value] else []
  }

  /** A present IPv6 primary address parses to a 16-byte network (else `IP[15]++` panics). */
  predicate Ipv6FieldIsIpv6(lib: NetLib, r: RawHost) {
    r.primaryIp6.Some? && lib.parseCIDR(r.primaryIp6.value).Some? ==>
      |lib.parseCIDR(r.primaryIp6.value).value.network.ip| == 16
  }

  /** The IPv6 address of a record is reached, after its IPv4 step succeeds, only as an IPv6 network. */
  predicate EntryReadable(lib: NetLib, r: RawHost) {
    Candidate4(lib, r).Ok? ==> Ipv6FieldIsIpv6(lib, r)
  }

  /**
   * Gateway derivation over `s` never increments byte 15 of a 4-byte network: every
   * record it reaches while no error has occurred is readable. Records after the first
   * error are not read.
   */
  predicate GatewaysReadable(lib: NetLib, s: seq<RawHost>)
    decreases |s|, 0
  {
    s == [] ||
    (&& GatewaysReadable(lib, s[..|s| - 1])
     && (Candidates(lib, s[..|s| - 1]).Ok? ==> EntryReadable(lib, s[|s| - 1])))
  }

  /** The IPv4 candidate of one record, or the parse error that aborts the listing. */
  function Candidate4(lib: NetLib, r: RawHost): Result<seq<Gateway>> {
    if r.primaryIp4.None? then Ok([])
    else
      var p := lib.parseCIDR(r.primaryIp4.value);
      if p.None? then Err(CidrError(r.primaryIp4.value))
      else Ok(OptionSeq(Gateway4(lib, r.tenantSlug, p.value.network)))
  }

  function Candidate6(lib: NetLib, r: RawHost): Result<seq<Gateway>>
    requires Ipv6FieldIsIpv6(lib, r)
  {
    if r.primaryIp6.None? then Ok([])
    else
      var p := lib.parseCIDR(r.primaryIp6.value);
      if p.None? then Err(CidrError(r.primaryIp6.value))
      else
        Ok(OptionSeq(Gateway6(lib, r.tenantSlug, p.value.network)))
  }

  /** The candidate gateways of one record: IPv4 then IPv6, or the first parse error. */
  function CandidatesOf(lib: NetLib, r: RawHost): Result<seq<Gateway>>
    requires EntryReadable(lib, r)
  {
    var c4 := Candidate4(lib, r);
    if c4.Err? then c4
    else
      var c6 := Candidate6(lib, r);
      if c6.Err? then c6 else Ok(c4.value + c6.value)
  }

  /** The candidates so far extended by one record's, or the first parse error. */
  function CandidateStep(lib: NetLib, prev: Result<seq<Gateway>>, r: RawHost): Result<seq<Gateway>>
    requires prev.Ok? ==> EntryReadable(lib, r)
  {
    if prev.Err? then prev
    else
      var c := CandidatesOf(lib, r);
      if c.Err? then c else Ok(prev.value + c.value)
  }

  /** The candidate gateways of every record, in order, or the first parse error. */
  function Candidates(lib: NetLib, s: seq<RawHost>): Result<seq<Gateway>>
    requires GatewaysReadable(lib, s)
    decreases |s|, 1
  {
    if s == [] then Ok([])
    else CandidateStep(lib, Candidates(lib, s[..|s| - 1]), s[|s| - 1])
  }

  /** The gateway list: the candidates de-duplicated by address, first seen kept. */
  function GatewayList(lib: NetLib, s: seq<RawHost>): Result<seq<Gateway>>
    requires GatewaysReadable(lib, s)
  {
    var cs := Candidates(lib, s);
    if cs.Err? then Err(cs.error) else Ok(FirstSeen(cs.value, AddressOf))
  }

  /**
   * No two gateways share an address; every candidate's address is listed; every listed
   * gateway is the first candidate with its address (so the first device seen, physical
   * before virtual, determines its tenant and network).
   */
  lemma GatewayListDistinct(lib: NetLib, s: seq<RawHost>)
    requires GatewaysReadable(lib, s) && GatewayList(lib, s).Ok?
    ensures DistinctKeys(GatewayList(lib, s).value, AddressOf)
    ensures var cs := Candidates(lib, s).value;
            && (forall i :: 0 <= i < |cs| ==> HasKey(GatewayList(lib, s).value, AddressOf, cs[i].address))
            && (forall k :: 0 <= k < |GatewayList(lib, s).value| ==>
                  FirstOccurs(cs, AddressOf, GatewayList(lib, s).value[k]))
  {
    var cs := Candidates(lib, s).value;
    FirstSeenDistinct(cs, AddressOf);
    FirstSeenCovers(cs, AddressOf);
    FirstSeenKeepsFirst(cs, AddressOf);
  }

  /** The IPv4 gateway of a parsed /24-or-larger network ends in `.1`: network byte 3 is 0. */
  lemma Gateway4Address(lib: NetLib, c: ParsedCidr, tenant: string)
    requires |c.ip| == 4 && c.network.prefixLen <= 24
    ensures Gateway4(lib, tenant, c.network).Some?
    ensures var g := Gateway4(lib, tenant, c.network).value;
            var gw := c.network.ip[3 := 1];
            && g.address == Dotted4(gw)
            && g.printableAddress == Dashed4(gw)
            && g.network == Dotted4(c.network.ip) + "/" + Decimal(c.network.prefixLen)
            && g.tenant == tenant
  {
    LastByteCleared4(c.ip, c.network);
    var gw := c.network.ip[3 := 1];
    assert IncrementByte(c.network.ip, 3) == gw;
    PrintableNet4IsDashed(lib, gw);
    var t := Dotted4(gw);
    assert '/' !in t by {
      DecimalHasNo(gw[0], '/'); DecimalHasNo(gw[1], '/');
      DecimalHasNo(gw[2], '/'); DecimalHasNo(gw[3], '/');
    }
    ReplaceAbsent(t, "/24", "");
  }

  /** For a /24 network the printable network is its dashed address: "/24" is dropped. */
  lemma Gateway4Printable24(lib: NetLib, tenant: string, n: IPNet)
    requires |n.ip| == 4 && n.prefixLen == 24
    ensures Gateway4(lib, tenant, n).Some?
    ensures Gateway4(lib, tenant, n).value.printableNetwork == Dashed4(n.ip)
  {
    var t := Dotted4(n.ip);
    SmallDecimals();
    assert NetString(lib, n) == t + "/24";
    assert '/' !in t by {
      DecimalHasNo(n.ip[0], '/'); DecimalHasNo(n.ip[1], '/');
      DecimalHasNo(n.ip[2], '/'); DecimalHasNo(n.ip[3], '/');
    }
    ReplaceNoMatchPrefix(t, "/24");
    ReplaceAbsent(t, "/24", "");
    PrintableNet4IsDashed(lib, n.ip);
  }

  lemma GatewayExampleTexts()
    ensures Dotted4([10, 0, 1, 1]) == "10.0.1.1" && Dashed4([10, 0, 1, 1]) == "10-0-1-1"
  {
    SmallDecimals();
  }

  lemma NetworkExampleTexts()
    ensures Dotted4([10, 0, 1, 0]) + "/" + Decimal(24) == "10.0.1.0/24" && Dashed4([10, 0, 1, 0]) == "10-0-1-0"
  {
    SmallDecimals();
  }

  /** `10.0.1.0/24` has the gateway `10.0.1.1`, printed `10-0-1-1` on network `10-0-1-0`. */
  lemma Gateway4Example(lib: NetLib)
    ensures var g := Gateway4(lib, "as65342", IPNet([10, 0, 1, 0], 24));
            && g.Some?
            && g.value.address == "10.0.1.1" && g.value.printableAddress == "10-0-1-1"
            && g.value.network == "10.0.1.0/24" && g.value.printableNetwork == "10-0-1-0"
  {
    var n := IPNet([10, 0, 1, 0], 24);
    var c: ParsedCidr := Cidr([10, 0, 1, 0], n);
    Gateway4Address(lib, c, "as65342");
    Gateway4Printable24(lib, "as65342", n);
    assert n.ip[3 := 1] == [10, 0, 1, 1];
    GatewayExampleTexts();
    NetworkExampleTexts();
  }

  /** The IPv6 gateway of a parsed /64-or-larger network is the network with last byte 1. */
  lemma Gateway6Address(lib: NetLib, c: ParsedCidr, tenant: string)
    requires |c.ip| == 16 && c.network.prefixLen <= 64
    ensures Gateway6(lib, tenant, c.network).Some?
    ensures var g := Gateway6(lib, tenant, c.network).value;
            && g.address == lib.ip6String(c.network.ip[15 := 1])
            && g.network == lib.ip6String(c.network.ip) + "/" + Decimal(c.network.prefixLen)
            && g.tenant == tenant
            && ':' in g.address
  {
    LastByteCleared6(c.ip, c.network);
    Network64NotMapped(c.ip, c.network);
    var gw := c.network.ip[15 := 1];
    assert IncrementByte(c.network.ip, 15) == gw;
    assert gw[..12][10] == 0;
    ColonIffIpv6(lib, gw);
  }

  /**
   * Errors persist: once a prefix of the payload fails, gateway derivation fails that way,
   * and it is readable whatever the records after that prefix hold.
   */
  lemma {:induction false} CandidatesErrPersists(lib: NetLib, s: seq<RawHost>, k: nat)
    requires k <= |s| && GatewaysReadable(lib, s[..k]) && Candidates(lib, s[..k]).Err?
    ensures GatewaysReadable(lib, s) && Candidates(lib, s) == Candidates(lib, s[..k])
    decreases |s| - k
  {
    if k < |s| {
      var s' := s[..k + 1];
      assert s'[..|s'| - 1] == s[..k];
      assert GatewaysReadable(lib, s');
      assert Candidates(lib, s') == Candidates(lib, s[..k]);
      CandidatesErrPersists(lib, s, k + 1);
    } else {
      assert s[..k] == s;
    }
  }

  /**
   * A record whose IPv4 address does not parse ends gateway derivation with that error;
   * no later record is read, so the listing is defined whatever the later record holds.
   */
  lemma GatewayErrorStopsReading(lib: NetLib, bad: RawHost, later: RawHost)
    requires bad.primaryIp4.Some? && lib.parseCIDR(bad.primaryIp4.value).None?
    ensures GatewaysReadable(lib, [bad, later])
    ensures GatewayList(lib, [bad, later]) == Err(CidrError(bad.primaryIp4.value))
  {
    var s1 := [bad];
    var s2 := [bad, later];
    assert s1[..0] == [] && s2[..1] == s1;
    assert GatewaysReadable(lib, []) && Candidate4(lib, bad).Err?;
    assert GatewaysReadable(lib, s1);
    assert Candidates(lib, s1) == CandidateStep(lib, Ok([]), bad) == Err(CidrError(bad.primaryIp4.value));
    assert GatewaysReadable(lib, s2);
  }

  /** Every prefix of a readable payload is readable for gateway derivation. */
  lemma {:induction false} GatewaysReadablePrefix(lib: NetLib, s: seq<RawHost>, n: nat)
    requires GatewaysReadable(lib, s) && n <= |s|
    ensures GatewaysReadable(lib, s[..n])
    decreases |s|
  {
    if n < |s| {
      var init := s[..|s| - 1];
      assert init[..n] == s[..n];
      GatewaysReadablePrefix(lib, init, n);
    } else {
      assert s[..n] == s;
    }
  }

  /** Appending one record extends the candidates by that record's step. */
  lemma CandidatesSnoc(lib: NetLib, u: seq<RawHost>, r: RawHost)
    requires GatewaysReadable(lib, u + [r])
    ensures GatewaysReadable(lib, u) && (Candidates(lib, u).Ok? ==> EntryReadable(lib, r))
    ensures Candidates(lib, u + [r]) == CandidateStep(lib, Candidates(lib, u), r)
  {
    var t := u + [r];
    assert t[..|t| - 1] == u;
    assert t[|t| - 1] == r;
  }

  /** One more record of the second list of a concatenated payload extends the candidates by one step. */
  lemma CandidatesStepAppend(lib: NetLib, a: seq<RawHost>, b: seq<RawHost>, j: nat)
    requires GatewaysReadable(lib, a + b) && j < |b|
    ensures GatewaysReadable(lib, a + b[..j]) && GatewaysReadable(lib, a + b[..j + 1])
    ensures Candidates(lib, a + b[..j]).Ok? ==> EntryReadable(lib, b[j])
    ensures Candidates(lib, a + b[..j + 1]) == CandidateStep(lib, Candidates(lib, a + b[..j]), b[j])
    ensures a + b[..j + 1] == (a + b)[..|a| + j + 1]
  {
    PrefixOfAppend(a, b, j + 1);
    GatewaysReadablePrefix(lib, a + b, |a| + j + 1);
    assert a + b[..j + 1] == (a + b[..j]) + [b[j]];
    CandidatesSnoc(lib, a + b[..j], b[j]);
  }

  /** The `is_listed` scan and append for one new gateway. */
  method AppendIfNew(gateways: seq<Gateway>, newgw: Gateway, ghost cs: seq<Gateway>)
    returns (result: seq<Gateway>)
    requires gateways == FirstSeen(cs, AddressOf)
    ensures result == FirstSeen(cs + [newgw], AddressOf)
  {
    var isListed := IsListed(gateways, AddressOf, newgw.address);
    assert (cs + [newgw])[..|cs|] == cs;
    if !isListed {
      result := gateways + [newgw];
    } else {
      result := gateways;
    }
  }

  /** The IPv4 half of one loop iteration of the gateway listing. */
  method AddGateway4(lib: NetLib, entry: RawHost, gateways: seq<Gateway>, ghost cs: seq<Gateway>)
    returns (result: Result<seq<Gateway>>)
    requires gateways == FirstSeen(cs, AddressOf)
    ensures Candidate4(lib, entry).Err? ==> result == Candidate4(lib, entry)
    ensures Candidate4(lib, entry).Ok? ==> result == Ok(FirstSeen(cs + Candidate4(lib, entry).value, AddressOf))
  {
    if entry.primaryIp4.None? {
      assert cs + [] == cs;
      return Ok(gateways);
    }
    var parsed := lib.parseCIDR(entry.primaryIp4.value);
    if parsed.None? {
      return Err(CidrError(entry.primaryIp4.value));
    }
    var net4 := parsed.value.network;
    if net4.prefixLen > 24 {
      assert cs + [] == cs;
      return Ok(gateways);
    }
    var newgw := Gateway4(lib, entry.tenantSlug, net4).value;
    var next := AppendIfNew(gateways, newgw, cs);
    return Ok(next);
  }

  /** The IPv6 half of one loop iteration of the gateway listing. */
  method AddGateway6(lib: NetLib, entry: RawHost, gateways: seq<Gateway>, ghost cs: seq<Gateway>)
    returns (result: Result<seq<Gateway>>)
    requires Ipv6FieldIsIpv6(lib, entry)
    requires gateways == FirstSeen(cs, AddressOf)
    ensures Candidate6(lib, entry).Err? ==> result == Candidate6(lib, entry)
    ensures Candidate6(lib, entry).Ok? ==> result == Ok(FirstSeen(cs + Candidate6(lib, entry).value, AddressOf))
  {
    if entry.primaryIp6.None? {
      assert cs + [] == cs;
      return Ok(gateways);
    }
    var parsed := lib.parseCIDR(entry.primaryIp6.value);
    if parsed.None? {
      return Err(CidrError(entry.primaryIp6.value));
    }
    var net6 := parsed.value.network;
    if net6.prefixLen > 64 {
      assert cs + [] == cs;
      return Ok(gateways);
    }
    var newgw := Gateway6(lib, entry.tenantSlug, net6).value;
    var next := AppendIfNew(gateways, newgw, cs);
    return Ok(next);
  }

  /** One loop iteration of the gateway listing: the record's IPv4 then IPv6 gateway. */
  method AddEntryGateways(lib: NetLib, entry: RawHost, gateways: seq<Gateway>, ghost cs: seq<Gateway>)
    returns (result: Result<seq<Gateway>>)
    requires EntryReadable(lib, entry)
    requires gateways == FirstSeen(cs, AddressOf)
    ensures CandidatesOf(lib, entry).Err? ==> result == CandidatesOf(lib, entry)
    ensures CandidatesOf(lib, entry).Ok? ==>
              result == Ok(FirstSeen(cs + CandidatesOf(lib, entry).value, AddressOf))
  {
    result := AddGateway4(lib, entry, gateways, cs);
    if result.Err? {
      return;
    }
    assert Candidate4(lib, entry).Ok?;
    ghost var seen := cs + Candidate4(lib, entry).value;
    result := AddGateway6(lib, entry, result.value, seen);
    if result.Ok? {
      assert seen + Candidate6(lib, entry).value == cs + CandidatesOf(lib, entry).value;
    }
  }

  /** One iteration of the gateway loop over the second list: it continues the listing or aborts it. */
  lemma GatewaysLoopStep(lib: NetLib, before: seq<RawHost>, entries: seq<RawHost>, j: nat,
                         acc: seq<Gateway>, next: Result<seq<Gateway>>)
    requires GatewaysReadable(lib, before + entries) && j < |entries|
    requires GatewaysReadable(lib, before + entries[..j]) && Candidates(lib, before + entries[..j]).Ok?
    requires EntryReadable(lib, entries[j])
    requires CandidatesOf(lib, entries[j]).Err? ==> next == CandidatesOf(lib, entries[j])
    requires CandidatesOf(lib, entries[j]).Ok? ==>
               next == Ok(FirstSeen(Candidates(lib, before + entries[..j]).value + CandidatesOf(lib, entries[j]).value,
                                    AddressOf))
    ensures GatewaysReadable(lib, before + entries[..j + 1])
    ensures next.Ok? ==> && Candidates(lib, before + entries[..j + 1]).Ok?
                         && next.value == FirstSeen(Candidates(lib, before + entries[..j + 1]).value, AddressOf)
    ensures next.Err? ==> GatewayList(lib, before + entries) == Err(next.error)
  {
    CandidatesStepAppend(lib, before, entries, j);
    if next.Err? {
      CandidatesErrPersists(lib, before + entries, |before| + j + 1);
    }
  }

  /** The gateway loop over one result list, continuing the candidates of the lists before it. */
  method CollectGateways(lib: NetLib, entries: seq<RawHost>, ghost before: seq<RawHost>,
                         gateways: seq<Gateway>)
    returns (result: Result<seq<Gateway>>)
    requires GatewaysReadable(lib, before + entries) && GatewaysReadable(lib, before)
    requires Candidates(lib, before).Ok? && gateways == FirstSeen(Candidates(lib, before).value, AddressOf)
    ensures result == GatewayList(lib, before + entries)
  {
    var acc := gateways;
    assert before + entries[..0] == before;
    for j := 0 to |entries|
      invariant GatewaysReadable(lib, before + entries[..j])
      invariant Candidates(lib, before + entries[..j]).Ok?
      invariant acc == FirstSeen(Candidates(lib, before + entries[..j]).value, AddressOf)
    {
      CandidatesStepAppend(lib, before, entries, j);
      var next := AddEntryGateways(lib, entries[j], acc, Candidates(lib, before + entries[..j]).value);
      GatewaysLoopStep(lib, before, entries, j, acc, next);
      if next.Err? {
        return Err(next.error);
      }
      acc := next.value;
    }
    assert before + entries[..|entries|] == before + entries;
    return Ok(acc);
  }

  // ---------------------------------------------------------------------------
  // Projections.

  /** The config contexts by name and data: same length, same order. */
  function ContextsOf(raw: seq<RawConfigContext>): (r: seq<ConfigContext>)
    ensures |r| == |raw|
    ensures forall i :: 0 <= i < |raw| ==> r[i] == ConfigContext(raw[i].name, raw[i].data)
    decreases |raw|
  {
    if raw == [] then []
    else
      var e := raw[|raw| - 1];
      ContextsOf(raw[..|raw| - 1]) + [ConfigContext(e.name, e.data)]
  }

  /** The tenants by name and slug: same length, same order. */
  function TenantsOf(raw: seq<RawTenant>): (r: seq<Tenant>)
    ensures |r| == |raw|
    ensures forall i :: 0 <= i < |raw| ==> r[i] == Tenant(raw[i].name, raw[i].slug)
    decreases |raw|
  {
    if raw == [] then []
    else
      var e := raw[|raw| - 1];
      TenantsOf(raw[..|raw| - 1]) + [Tenant(e.name, e.slug)]
  }

  // ---------------------------------------------------------------------------
  // The client.

  class NetboxClient {
    var prefixes: seq<RawPrefix>
    var devices: seq<RawHost>
    var virtualMachines: seq<RawHost>
    var configContexts: seq<RawConfigContext>
    var tenants: seq<RawTenant>

    constructor ()
      ensures prefixes == [] && devices == [] && virtualMachines == []
      ensures configContexts == [] && tenants == []
    {
      prefixes, devices, virtualMachines := [], [], [];
      configContexts, tenants := [], [];
    }

    /**
     * Fill the five caches in order; stop at the first failing request. The failing
     * request leaves its cache empty (nil) and the caches after it untouched.
     */
    method PrewarmCaches(p: Payloads) returns (err: Option<string>)
      modifies this
      ensures err == FirstFetchError(p)
      ensures prefixes == Cached(p.prefixes)
      ensures devices == if p.prefixes.Fetched? then Cached(p.devices) else old(devices)
      ensures virtualMachines ==
                if p.prefixes.Fetched? && p.devices.Fetched? then Cached(p.virtualMachines)
                else old(virtualMachines)
      ensures configContexts ==
                if p.prefixes.Fetched? && p.devices.Fetched? && p.virtualMachines.Fetched?
                then Cached(p.configContexts) else old(configContexts)
      ensures tenants ==
                if p.prefixes.Fetched? && p.devices.Fetched? && p.virtualMachines.Fetched?
                   && p.configContexts.Fetched?
                then Cached(p.tenants) else old(tenants)
      ensures err.None? ==>
                && prefixes == p.prefixes.results
                && devices == p.devices.results
                && virtualMachines == p.virtualMachines.results
                && configContexts == p.configContexts.results
                && tenants == p.tenants.results
    {
      if p.prefixes.FetchFailed? {
        prefixes := [];
        return Some("IPAM.IPAMPrefixesList: " + p.prefixes.reason);
      }
      prefixes := p.prefixes.results;
      if p.devices.FetchFailed? {
        devices := [];
        return Some("Dcim.DcimDevicesList: " + p.devices.reason);
      }
      devices := p.devices.results;
      if p.virtualMachines.FetchFailed? {
        virtualMachines := [];
        return Some("Virtualization.VirtualizationVirtualMachinesList: " + p.virtualMachines.reason);
      }
      virtualMachines := p.virtualMachines.results;
      if p.configContexts.FetchFailed? {
        configContexts := [];
        return Some("Extras.ExtrasConfigContextList: " + p.configContexts.reason);
      }
      configContexts := p.configContexts.results;
      if p.tenants.FetchFailed? {
        tenants := [];
        return Some("Tenancy.TenancyTenantsList: " + p.tenants.reason);
      }
      tenants := p.tenants.results;
      return None;
    }

    /** Exactly the allowed-tenant prefixes of the standard size, in payload order; never an error. */
    method GetPrefixList(lib: NetLib, tenant: string) returns (allPrefixes: seq<IPNet>, err: Option<string>)
      requires PrefixesParse(lib, prefixes)
      ensures err == None
      ensures allPrefixes == PrefixList(lib, prefixes)
    {
      allPrefixes := [];
      for i := 0 to |prefixes|
        invariant allPrefixes == PrefixList(lib, prefixes[..i])
      {
        assert prefixes[..i + 1][..i] == prefixes[..i];
        var entry := prefixes[i];
        var allowed := IsAllowedTenant(entry.tenantSlug);
        if !allowed {
          continue;
        }
        var network := lib.parseCIDR(entry.prefix).value.network;
        if |network.ip| == 16 {
          if network.prefixLen != 64 {
            continue;
          }
        } else {
          if network.prefixLen != 24 {
            continue;
          }
        }
        allPrefixes := allPrefixes + [network];
      }
      assert prefixes[..|prefixes|] == prefixes;
      err := None;
    }

    /** Physical devices then virtual machines, admitted ones only, or the first parse error. */
    method GetHostList(lib: NetLib) returns (result: Result<seq<ManagedDevice>>)
      requires HostsReadable(lib, devices + virtualMachines)
      ensures result == HostsFrom(lib, devices + virtualMachines)
    {
      ghost var all := devices + virtualMachines;
      assert [] + devices == devices == all[..|devices|];
      HostsReadablePrefix(lib, all, |devices|);
      result := CollectHosts(lib, devices, [], []);
      if result.Err? {
        HostsErrPersists(lib, all, |devices|);
        return;
      }
      result := CollectHosts(lib, virtualMachines, devices, result.value);
    }

    /** The config contexts by name and data, in order; never an error. */
    method ListConfigContexts() returns (contexts: seq<ConfigContext>, err: Option<string>)
      ensures err == None
      ensures contexts == ContextsOf(configContexts)
    {
      contexts := [];
      for i := 0 to |configContexts|
        invariant contexts == ContextsOf(configContexts[..i])
      {
        var entry := configContexts[i];
        assert configContexts[..i + 1][..i] == configContexts[..i];
        contexts := contexts + [ConfigContext(entry.name, entry.data)];
      }
      assert configContexts[..|configContexts|] == configContexts;
      err := None;
    }

    /** The tenants by name and slug, in order; never an error. */
    method ListTenants() returns (result: seq<Tenant>, err: Option<string>)
      ensures err == None
      ensures result == TenantsOf(tenants)
    {
      result := [];
      for i := 0 to |tenants|
        invariant result == TenantsOf(tenants[..i])
      {
        var entry := tenants[i];
        assert tenants[..i + 1][..i] == tenants[..i];
        result := result + [Tenant(entry.name, entry.slug)];
      }
      assert tenants[..|tenants|] == tenants;
      err := None;
    }

    /** The de-duplicated gateways of all devices then all virtual machines, or the first parse error. */
    method ListGateways(lib: NetLib) returns (result: Result<seq<Gateway>>)
      requires GatewaysReadable(lib, devices + virtualMachines)
      ensures result == GatewayList(lib, devices + virtualMachines)
    {
      ghost var all := devices + virtualMachines;
      assert [] + devices == devices == all[..|devices|];
      GatewaysReadablePrefix(lib, all, |devices|);
      result := CollectGateways(lib, devices, [], []);
      if result.Err? {
        CandidatesErrPersists(lib, all, |devices|);
        return;
      }
      result := CollectGateways(lib, virtualMachines, devices, result.value);
    }
  }

  /** Construct a client and prewarm its caches; any failing request is a construction error. */
  method NewNetboxClient(p: Payloads) returns (client: NetboxClient?, err: Option<string>)
    ensures (client != null) <==> AllFetched(p)
    ensures err.None? <==> AllFetched(p)
    ensures err.Some? ==> err.value == "client.PrewarmCaches: " + FirstFetchError(p).value + "\n"
    ensures client != null ==>
              && fresh(client)
              && client.prefixes == p.prefixes.results
              && client.devices == p.devices.results
              && client.virtualMachines == p.virtualMachines.results
              && client.configContexts == p.configContexts.results
              && client.tenants == p.tenants.results
  {
    var c := new NetboxClient();
    var e := c.PrewarmCaches(p);
    if e.Some? {
      return null, Some("client.PrewarmCaches: " + e.value + "\n");
    }
    return c, None;
  }
}

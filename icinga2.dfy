/**
 * The parameters of the monitoring configuration (lib/generator/icinga2.go): gateways
 * split by address family, the tenants, the hosts, and the de-duplicated platforms and
 * sites. Rendering and file output are not modelled.
 */
module Icinga2 {
  import opened Results
  import opened Models
  import opened GoNet
  import opened Dedup
  import opened Netbox

  predicate IsV6Gateway(g: Gateway) { ':' in g.address }

  /** The gateways whose address text contains ':', in order. */
  function V6Gateways(gs: seq<Gateway>): seq<Gateway>
    decreases |gs|
  {
    if gs == [] then []
    else V6Gateways(gs[..|gs| - 1]) + (if IsV6Gateway(gs[|gs| - 1]) then [gs[|gs| - 1]] else [])
  }

  /** The other gateways, in order. */
  function V4Gateways(gs: seq<Gateway>): seq<Gateway>
    decreases |gs|
  {
    if gs == [] then []
    else V4Gateways(gs[..|gs| - 1]) + (if !IsV6Gateway(gs[|gs| - 1]) then [gs[|gs| - 1]] else [])
  }

  /** The loop that appends each gateway to the IPv6 or the IPv4 list. */
  method SplitGateways(gateways: seq<Gateway>) returns (v4Gateways: seq<Gateway>, v6Gateways: seq<Gateway>)
    ensures v4Gateways == V4Gateways(gateways) && v6Gateways == V6Gateways(gateways)
  {
    v4Gateways, v6Gateways := [], [];
    for i := 0 to |gateways|
      invariant v4Gateways == V4Gateways(gateways[..i]) && v6Gateways == V6Gateways(gateways[..i])
    {
      var gw := gateways[i];
      assert gateways[..i + 1][..i] == gateways[..i];
      if ':' in gw.address {
        v6Gateways := v6Gateways + [gw];
      } else {
        v4Gateways := v4Gateways + [gw];
      }
    }
    assert gateways[..|gateways|] == gateways;
  }

  /**
   * The two lists partition the gateways: together they hold each gateway as often as the
   * input does, the IPv6 list exactly those with a ':', the IPv4 list the rest.
   */
  lemma {:induction false} SplitPartition(gs: seq<Gateway>)
    ensures multiset(V4Gateways(gs)) + multiset(V6Gateways(gs)) == multiset(gs)
    ensures forall g :: g in V6Gateways(gs) <==> g in gs && IsV6Gateway(g)
    ensures forall g :: g in V4Gateways(gs) <==> g in gs && !IsV6Gateway(g)
    decreases |gs|
  {
    if gs != [] {
      var init := gs[..|gs| - 1];
      SplitPartition(init);
      assert gs == init + [gs[|gs| - 1]];
    }
  }

  /** Each list keeps input order: splitting `a + b` splits `a`, then `b`. */
  lemma {:induction false} SplitAppend(a: seq<Gateway>, b: seq<Gateway>)
    ensures V4Gateways(a + b) == V4Gateways(a) + V4Gateways(b)
    ensures V6Gateways(a + b) == V6Gateways(a) + V6Gateways(b)
    decreases |b|
  {
    if b == [] {
      assert a + b == a;
    } else {
      assert (a + b)[..|a + b| - 1] == a + b[..|b| - 1];
      SplitAppend(a, b[..|b| - 1]);
    }
  }

  /** The platform of each device, in order. */
  function PlatformsOf(devices: seq<ManagedDevice>): (r: seq<string>)
    ensures |r| == |devices| && forall i :: 0 <= i < |devices| ==> r[i] == devices[i].platform
    decreases |devices|
  {
    if devices == [] then [] else PlatformsOf(devices[..|devices| - 1]) + [devices[|devices| - 1].platform]
  }

  /** The site of each device, in order. */
  function SitesOf(devices: seq<ManagedDevice>): (r: seq<string>)
    ensures |r| == |devices| && forall i :: 0 <= i < |devices| ==> r[i] == devices[i].site
    decreases |devices|
  {
    if devices == [] then [] else SitesOf(devices[..|devices| - 1]) + [devices[|devices| - 1].site]
  }

  /** The `is_listed` de-duplication loop over a list of names. */
  method DistinctNames(names: seq<string>) returns (all: seq<string>)
    ensures all == FirstSeen(names, Self)
  {
    all := [];
    for i := 0 to |names|
      invariant all == FirstSeen(names[..i], Self)
    {
      var newName := names[i];
      assert names[..i + 1][..i] == names[..i];
      var isListed := IsListed(all, Self, newName);
      if !isListed {
        all := all + [newName];
      }
    }
    assert names[..|names|] == names;
  }

  /**
   * The platforms list has no duplicates and holds exactly the devices' platforms, each
   * one at its first occurrence.
   */
  lemma PlatformsSpec(devices: seq<ManagedDevice>)
    ensures var ps := FirstSeen(PlatformsOf(devices), Self);
            && (forall i, j :: 0 <= i < j < |ps| ==> ps[i] != ps[j])
            && (forall p :: p in ps <==> exists i :: 0 <= i < |devices| && devices[i].platform == p)
  {
    FirstSeenValues(PlatformsOf(devices));
  }

  /** The sites list has no duplicates and holds exactly the devices' sites. */
  lemma SitesSpec(devices: seq<ManagedDevice>)
    ensures var ss := FirstSeen(SitesOf(devices), Self);
            && (forall i, j :: 0 <= i < j < |ss| ==> ss[i] != ss[j])
            && (forall s :: s in ss <==> exists i :: 0 <= i < |devices| && devices[i].site == s)
  {
    FirstSeenValues(SitesOf(devices));
  }

  /** Listed hosts never carry a site, so the sites list is `[""]`, or empty without hosts. */
  lemma ListedHostSites(lib: NetLib, s: seq<RawHost>)
    requires HostsReadable(lib, s) && HostsFrom(lib, s).Ok?
    ensures var ds := HostsFrom(lib, s).value;
            FirstSeen(SitesOf(ds), Self) == if ds == [] then [] else [""]
  {
    var ds := HostsFrom(lib, s).value;
    HostListFields(lib, s);
    if ds == [] {
      assert SitesOf(ds) == [];
    } else {
      forall i | 0 <= i < |ds| ensures SitesOf(ds)[i] == "" {
        assert ds[i] in ds;
      }
      FirstSeenConstant(SitesOf(ds), "");
    }
  }

  datatype Icinga2Params = Icinga2Params(
    devices: seq<ManagedDevice>,
    tenants: seq<Tenant>,
    ipv4Gateways: seq<Gateway>,
    ipv6Gateways: seq<Gateway>,
    platforms: seq<string>,
    sites: seq<string>)

  /**
   * The template parameters for a client snapshot, or the first listing error: the
   * gateway listing is consulted first, then the host listing. The hosts are read for
   * the host listing only when the gateway listing succeeded.
   */
  function Icinga2Spec(lib: NetLib, hosts: seq<RawHost>, tenants: seq<RawTenant>): Result<Icinga2Params>
    requires GatewaysReadable(lib, hosts) && (GatewayList(lib, hosts).Ok? ==> HostsReadable(lib, hosts))
  {
    var gateways := GatewayList(lib, hosts);
    if gateways.Err? then Err("ListGateways: " + gateways.error)
    else
      var devices := HostsFrom(lib, hosts);
      if devices.Err? then Err("GetHostList: " + devices.error)
      else
        var ds := devices.value;
        Ok(Icinga2Params(ds, TenantsOf(tenants), V4Gateways(gateways.value), V6Gateways(gateways.value),
                         FirstSeen(PlatformsOf(ds), Self), FirstSeen(SitesOf(ds), Self)))
  }

  /** A listing error aborts before any parameters exist, and says which listing failed. */
  lemma Icinga2Errors(lib: NetLib, hosts: seq<RawHost>, tenants: seq<RawTenant>)
    requires GatewaysReadable(lib, hosts) && (GatewayList(lib, hosts).Ok? ==> HostsReadable(lib, hosts))
    ensures Icinga2Spec(lib, hosts, tenants).Ok? <==> GatewayList(lib, hosts).Ok? && HostsFrom(lib, hosts).Ok?
    ensures GatewayList(lib, hosts).Err? ==>
              Icinga2Spec(lib, hosts, tenants) == Err("ListGateways: " + GatewayList(lib, hosts).error)
  {
  }

  /**
   * An admitted record without a primary address whose IPv4 address does not parse:
   * the host listing would dereference the missing address, but the gateway listing
   * fails first, so the generator returns the gateway error and never lists hosts.
   */
  lemma GatewayErrorBeforeHosts(lib: NetLib, bad: RawHost, tenants: seq<RawTenant>)
    requires Admitted(bad) && bad.primaryIp.None? && bad.primaryIp4.Some?
    requires lib.parseCIDR(bad.primaryIp4.value).None?
    ensures GatewaysReadable(lib, [bad]) && !HostsReadable(lib, [bad])
    ensures Icinga2Spec(lib, [bad], tenants) == Err("ListGateways: " + CidrError(bad.primaryIp4.value))
  {
    var s := [bad];
    assert s[..0] == [];
    assert HostsReadable(lib, []) && HostsFrom(lib, []) == Ok([]);
    assert GatewaysReadable(lib, []) && Candidates(lib, []) == Ok([]);
    assert Candidate4(lib, bad).Err?;
    assert GatewaysReadable(lib, s);
    assert Candidates(lib, s) == CandidateStep(lib, Ok([]), bad);
  }

  /** The generator: list, split and de-duplicate, in the order the source does. */
  method Icinga2Config(client: NetboxClient, lib: NetLib) returns (result: Result<Icinga2Params>)
    requires GatewaysReadable(lib, client.devices + client.virtualMachines)
    requires GatewayList(lib, client.devices + client.virtualMachines).Ok? ==>
               HostsReadable(lib, client.devices + client.virtualMachines)
    ensures result == Icinga2Spec(lib, client.devices + client.virtualMachines, client.tenants)
  {
    var gateways := client.ListGateways(lib);
    if gateways.Err? {
      return Err("ListGateways: " + gateways.error);
    }
    var v4Gateways, v6Gateways := SplitGateways(gateways.value);
    var tenants, _ := client.ListTenants();
    var devices := client.GetHostList(lib);
    if devices.Err? {
      return Err("GetHostList: " + devices.error);
    }
    var allPlatforms := DistinctNames(PlatformsOf(devices.value));
    var allSites := DistinctNames(SitesOf(devices.value));
    return Ok(Icinga2Params(devices.value, tenants, v4Gateways, v6Gateways, allPlatforms, allSites));
  }
}

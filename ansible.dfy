/**
 * The inventory and host-vars parameters of the Ansible generator
 * (lib/generator/ansible.go): the platform re-filter, the tag, platform and site
 * groupings, and the per-host configuration update. Rendering, JSON encoding and file
 * output are not modelled.
 */
module Ansible {
  import opened Results
  import opened GoNet
  import opened Models
  import opened Netbox

  const AnsiblePlatforms: seq<string> := ["centos", "openbsd"]

  predicate AnsiblePlatform(p: string) { p in AnsiblePlatforms }

  // ---------------------------------------------------------------------------
  // Platform re-filter.

  /** The hosts whose platform is an Ansible platform, in order. */
  function Entries(hosts: seq<ManagedDevice>): seq<ManagedDevice>
    decreases |hosts|
  {
    if hosts == [] then []
    else
      var h := hosts[|hosts| - 1];
      Entries(hosts[..|hosts| - 1]) + (if AnsiblePlatform(h.platform) then [h] else [])
  }

  /** The nested host-by-platform loop; each host matches at most one platform. */
  method FilterEntries(allEntries: seq<ManagedDevice>) returns (entries: seq<ManagedDevice>)
    ensures entries == Entries(allEntries)
  {
    entries := [];
    for i := 0 to |allEntries|
      invariant entries == Entries(allEntries[..i])
    {
      var entry := allEntries[i];
      assert allEntries[..i + 1][..i] == allEntries[..i];
      ghost var before := entries;
      for k := 0 to |AnsiblePlatforms|
        invariant entries == before + (if entry.platform in AnsiblePlatforms[..k] then [entry] else [])
      {
        assert AnsiblePlatforms[..k + 1] == AnsiblePlatforms[..k] + [AnsiblePlatforms[k]];
        if AnsiblePlatforms[k] == entry.platform {
          entries := entries + [entry];
        }
      }
      assert AnsiblePlatforms[..|AnsiblePlatforms|] == AnsiblePlatforms;
    }
    assert allEntries[..|allEntries|] == allEntries;
  }

  /** Exactly the hosts on an Ansible platform are kept. */
  lemma {:induction false} EntriesMembers(hosts: seq<ManagedDevice>)
    ensures forall e :: e in Entries(hosts) <==> e in hosts && AnsiblePlatform(e.platform)
    decreases |hosts|
  {
    if hosts != [] {
      EntriesMembers(hosts[..|hosts| - 1]);
      assert hosts == hosts[..|hosts| - 1] + [hosts[|hosts| - 1]];
    }
  }

  /** The filter keeps host order: filtering `a + b` filters `a`, then `b`. */
  lemma {:induction false} EntriesAppend(a: seq<ManagedDevice>, b: seq<ManagedDevice>)
    ensures Entries(a + b) == Entries(a) + Entries(b)
    decreases |b|
  {
    if b == [] {
      assert a + b == a;
    } else {
      assert (a + b)[..|a + b| - 1] == a + b[..|b| - 1];
      EntriesAppend(a, b[..|b| - 1]);
    }
  }

  /** On hosts that all run an Ansible platform the filter keeps everything. */
  lemma {:induction false} EntriesKeepAll(hosts: seq<ManagedDevice>)
    requires forall i :: 0 <= i < |hosts| ==> AnsiblePlatform(hosts[i].platform)
    ensures Entries(hosts) == hosts
    decreases |hosts|
  {
    if hosts != [] {
      EntriesKeepAll(hosts[..|hosts| - 1]);
    }
  }

  /** The host listing already admits only these platforms, so the re-filter is the identity. */
  lemma ListedHostsAreEntries(lib: NetLib, s: seq<RawHost>)
    requires HostsReadable(lib, s) && HostsFrom(lib, s).Ok?
    ensures Entries(HostsFrom(lib, s).value) == HostsFrom(lib, s).value
  {
    var ds := HostsFrom(lib, s).value;
    HostListFields(lib, s);
    forall i | 0 <= i < |ds| ensures AnsiblePlatform(ds[i].platform) {
      assert ds[i] in ds;
    }
    EntriesKeepAll(ds);
  }

  // ---------------------------------------------------------------------------
  // Groupings.

  /** A Go map read: a missing key reads as the empty list. */
  function Lookup(m: map<string, seq<ManagedDevice>>, k: string): seq<ManagedDevice> {
    if k in m then m[k] else []
  }

  function PlatformKey(d: ManagedDevice): string { d.platform }

  function SiteKey(d: ManagedDevice): string { d.site }

  /** Each entry appended under its key, in entry order. */
  function GroupBy(es: seq<ManagedDevice>, key: ManagedDevice -> string): map<string, seq<ManagedDevice>>
    decreases |es|
  {
    if es == [] then map[]
    else
      var m := GroupBy(es[..|es| - 1], key);
      var e := es[|es| - 1];
      m[key(e) := Lookup(m, key(e)) + [e]]
  }

  /** The entries with key `k`, in order. */
  function Select(es: seq<ManagedDevice>, key: ManagedDevice -> string, k: string): seq<ManagedDevice>
    decreases |es|
  {
    if es == [] then []
    else
      var e := es[|es| - 1];
      Select(es[..|es| - 1], key, k) + (if key(e) == k then [e] else [])
  }

  lemma {:induction false} SelectMembers(es: seq<ManagedDevice>, key: ManagedDevice -> string, k: string)
    ensures forall x :: x in Select(es, key, k) <==> x in es && key(x) == k
    decreases |es|
  {
    if es != [] {
      SelectMembers(es[..|es| - 1], key, k);
      assert es == es[..|es| - 1] + [es[|es| - 1]];
    }
  }

  /**
   * The grouping has a key exactly for each key occurring among the entries, and lists
   * under it exactly the entries with that key, in order.
   */
  lemma {:induction false} GroupBySpec(es: seq<ManagedDevice>, key: ManagedDevice -> string)
    ensures forall k :: k in GroupBy(es, key) <==> exists i :: 0 <= i < |es| && key(es[i]) == k
    ensures forall k :: Lookup(GroupBy(es, key), k) == Select(es, key, k)
    decreases |es|
  {
    if es != [] {
      var init := es[..|es| - 1];
      GroupBySpec(init, key);
      assert forall i :: 0 <= i < |init| ==> init[i] == es[i];
    }
  }

  /** Every entry is listed under its own key and under no other. */
  lemma GroupByExactlyOnce(es: seq<ManagedDevice>, key: ManagedDevice -> string)
    ensures forall i, k :: 0 <= i < |es| ==> (es[i] in Lookup(GroupBy(es, key), k) <==> k == key(es[i]))
  {
    GroupBySpec(es, key);
    forall k ensures forall x :: x in Select(es, key, k) <==> x in es && key(x) == k {
      SelectMembers(es, key, k);
    }
  }

  /** The grouping loop: append each entry under its key. */
  method GroupInto(entries: seq<ManagedDevice>, key: ManagedDevice -> string)
    returns (groups: map<string, seq<ManagedDevice>>)
    ensures groups == GroupBy(entries, key)
  {
    groups := map[];
    for i := 0 to |entries|
      invariant groups == GroupBy(entries[..i], key)
    {
      var entry := entries[i];
      assert entries[..i + 1][..i] == entries[..i];
      groups := groups[key(entry) := Lookup(groups, key(entry)) + [entry]];
    }
    assert entries[..|entries|] == entries;
  }

  /** `n` copies of `e`. */
  function Repeat(e: ManagedDevice, n: nat): seq<ManagedDevice> {
    if n == 0 then [] else Repeat(e, n - 1) + [e]
  }

  /** How often `t` occurs in `tags`. */
  function Occurrences(tags: seq<string>, t: string): nat
    decreases |tags|
  {
    if tags == [] then 0
    else Occurrences(tags[..|tags| - 1], t) + (if tags[|tags| - 1] == t then 1 else 0)
  }

  /** One entry appended under each of its tags, in tag order. */
  function AddTags(m: map<string, seq<ManagedDevice>>, e: ManagedDevice, tags: seq<string>): map<string, seq<ManagedDevice>>
    decreases |tags|
  {
    if tags == [] then m
    else
      var m' := AddTags(m, e, tags[..|tags| - 1]);
      var t := tags[|tags| - 1];
      m'[t := Lookup(m', t) + [e]]
  }

  function TagGroups(es: seq<ManagedDevice>): map<string, seq<ManagedDevice>>
    decreases |es|
  {
    if es == [] then map[]
    else AddTags(TagGroups(es[..|es| - 1]), es[|es| - 1], es[|es| - 1].tags)
  }

  /** Reference: each entry repeated once per occurrence of `t` among its tags, in entry order. */
  function Tagged(es: seq<ManagedDevice>, t: string): seq<ManagedDevice>
    decreases |es|
  {
    if es == [] then []
    else Tagged(es[..|es| - 1], t) + Repeat(es[|es| - 1], Occurrences(es[|es| - 1].tags, t))
  }

  /** Under tag `t`, the entry is appended once per occurrence of `t` in `tags`. */
  lemma {:induction false} AddTagsLookup(m: map<string, seq<ManagedDevice>>, e: ManagedDevice, tags: seq<string>, t: string)
    ensures Lookup(AddTags(m, e, tags), t) == Lookup(m, t) + Repeat(e, Occurrences(tags, t))
    decreases |tags|
  {
    if tags != [] {
      var init := tags[..|tags| - 1];
      AddTagsLookup(m, e, init, t);
      if tags[|tags| - 1] == t {
        assert Occurrences(tags, t) == Occurrences(init, t) + 1;
      }
    }
  }

  /** The keys after adding one entry are the old keys and the entry's tags. */
  lemma {:induction false} AddTagsKeys(m: map<string, seq<ManagedDevice>>, e: ManagedDevice, tags: seq<string>, t: string)
    ensures t in AddTags(m, e, tags) <==> t in m || t in tags
    decreases |tags|
  {
    if tags != [] {
      var init := tags[..|tags| - 1];
      AddTagsKeys(m, e, init, t);
      assert tags == init + [tags[|tags| - 1]];
    }
  }

  /**
   * The tag map lists, under each tag, each entry once per occurrence of that tag in its
   * tags, in entry order; it has a key exactly for each tag some entry carries.
   */
  lemma {:induction false} TagGroupsSpec(es: seq<ManagedDevice>, t: string)
    ensures Lookup(TagGroups(es), t) == Tagged(es, t)
    ensures t in TagGroups(es) <==> exists i :: 0 <= i < |es| && t in es[i].tags
    decreases |es|
  {
    if es != [] {
      var init := es[..|es| - 1];
      var e := es[|es| - 1];
      TagGroupsSpec(init, t);
      AddTagsLookup(TagGroups(init), e, e.tags, t);
      AddTagsKeys(TagGroups(init), e, e.tags, t);
      assert forall i :: 0 <= i < |init| ==> init[i] == es[i];
    }
  }

  /** The nested entry-by-tag loop. */
  method GroupTags(entries: seq<ManagedDevice>) returns (tags: map<string, seq<ManagedDevice>>)
    ensures tags == TagGroups(entries)
  {
    tags := map[];
    for i := 0 to |entries|
      invariant tags == TagGroups(entries[..i])
    {
      var entry := entries[i];
      assert entries[..i + 1][..i] == entries[..i];
      ghost var before := tags;
      for k := 0 to |entry.tags|
        invariant tags == AddTags(before, entry, entry.tags[..k])
      {
        var tag := entry.tags[k];
        assert entry.tags[..k + 1][..k] == entry.tags[..k];
        tags := tags[tag := Lookup(tags, tag) + [entry]];
      }
      assert entry.tags[..|entry.tags|] == entry.tags;
    }
    assert entries[..|entries|] == entries;
  }

  // ---------------------------------------------------------------------------
  // The inventory.

  datatype InventoryParams = InventoryParams(
    devices: seq<ManagedDevice>,
    tags: map<string, seq<ManagedDevice>>,
    platforms: map<string, seq<ManagedDevice>>,
    sites: map<string, seq<ManagedDevice>>)

  /** The inventory parameters for a client snapshot, or the host listing's error. */
  function InventorySpec(lib: NetLib, hosts: seq<RawHost>): Result<InventoryParams>
    requires HostsReadable(lib, hosts)
  {
    var listed := HostsFrom(lib, hosts);
    if listed.Err? then Err("client.GetHostListFor: " + listed.error)
    else
      var es := Entries(listed.value);
      Ok(InventoryParams(es, TagGroups(es), GroupBy(es, PlatformKey), GroupBy(es, SiteKey)))
  }

  method AnsibleInventory(client: NetboxClient, lib: NetLib) returns (result: Result<InventoryParams>)
    requires HostsReadable(lib, client.devices + client.virtualMachines)
    ensures result == InventorySpec(lib, client.devices + client.virtualMachines)
  {
    var allEntries := client.GetHostList(lib);
    if allEntries.Err? {
      return Err("client.GetHostListFor: " + allEntries.error);
    }
    var entries := FilterEntries(allEntries.value);
    var tags := GroupTags(entries);
    var platforms := GroupInto(entries, PlatformKey);
    var sites := GroupInto(entries, SiteKey);
    return Ok(InventoryParams(entries, tags, platforms, sites));
  }

  // ---------------------------------------------------------------------------
  // Host vars.

  const HostVarKeys: set<string> := {"primary_ip", "primary_ip6", "primary_ip4", "tenant", "platform", "site"}

  /** A host's configuration with its six inventory facts stored into it. */
  function WithHostVars(fields: map<string, Value>, d: ManagedDevice): map<string, Value> {
    fields["primary_ip" := IP(d.primaryIP)]["primary_ip6" := IP(d.primaryIP6)]
          ["primary_ip4" := IP(d.primaryIP4)]["tenant" := Text(d.tenant)]
          ["platform" := Text(d.platform)]["site" := Text(d.site)]
  }

  /**
   * After the update the six keys hold the device's facts, the key set grows by exactly
   * those six, and every other key keeps its value.
   */
  lemma HostVarsSpec(fields: map<string, Value>, d: ManagedDevice)
    ensures var r := WithHostVars(fields, d);
            && r["primary_ip"] == IP(d.primaryIP) && r["primary_ip6"] == IP(d.primaryIP6)
            && r["primary_ip4"] == IP(d.primaryIP4) && r["tenant"] == Text(d.tenant)
            && r["platform"] == Text(d.platform) && r["site"] == Text(d.site)
            && r.Keys == fields.Keys + HostVarKeys
            && forall k :: k in fields && k !in HostVarKeys ==> r[k] == fields[k]
  {
  }

  /** Storing the same facts twice changes nothing further. */
  lemma HostVarsIdempotent(fields: map<string, Value>, d: ManagedDevice)
    ensures WithHostVars(WithHostVars(fields, d), d) == WithHostVars(fields, d)
  {
  }

  /** A host's configuration map, updated in place. */
  class HostConfig {
    var fields: map<string, Value>

    constructor (fields: map<string, Value>)
      ensures this.fields == fields
    {
      this.fields := fields;
    }

    method SetHostVars(entry: ManagedDevice)
      modifies this
      ensures fields == WithHostVars(old(fields), entry)
    {
      fields := fields["primary_ip" := IP(entry.primaryIP)];
      fields := fields["primary_ip6" := IP(entry.primaryIP6)];
      fields := fields["primary_ip4" := IP(entry.primaryIP4)];
      fields := fields["tenant" := Text(entry.tenant)];
      fields := fields["platform" := Text(entry.platform)];
      fields := fields["site" := Text(entry.site)];
    }
  }

  /** One vars file: `<name>.json` holding the data that is encoded into it. */
  datatype VarsFile = VarsFile(fileName: string, data: Value)

  /** Appending ".json" keeps distinct names distinct, so no two files share a name. */
  lemma JsonNameInjective(a: string, b: string)
    ensures a + ".json" == b + ".json" <==> a == b
  {
    if |a| == |b| {
      assert a == (a + ".json")[..|a|];
      assert b == (b + ".json")[..|b|];
    } else {
      assert |a + ".json"| != |b + ".json"|;
    }
  }

  /** One group-vars file per configuration context, its data encoded unchanged. */
  function GroupVarsFiles(cs: seq<ConfigContext>): (r: seq<VarsFile>)
    ensures |r| == |cs|
    ensures forall i :: 0 <= i < |cs| ==> r[i].fileName == cs[i].name + ".json" && r[i].data == cs[i].config
    decreases |cs|
  {
    if cs == [] then []
    else
      var c := cs[|cs| - 1];
      GroupVarsFiles(cs[..|cs| - 1]) + [VarsFile(c.name + ".json", c.config)]
  }

  /** Contexts with distinct names give files with distinct names. */
  lemma GroupVarsDistinct(cs: seq<ConfigContext>)
    requires forall i, j :: 0 <= i < j < |cs| ==> cs[i].name != cs[j].name
    ensures forall i, j :: 0 <= i < j < |cs| ==> GroupVarsFiles(cs)[i].fileName != GroupVarsFiles(cs)[j].fileName
  {
    var r := GroupVarsFiles(cs);
    forall i, j | 0 <= i < j < |cs| ensures r[i].fileName != r[j].fileName {
      JsonNameInjective(cs[i].name, cs[j].name);
    }
  }

  /** The group-vars files of the cached configuration contexts. */
  method AnsibleGroupVars(client: NetboxClient) returns (files: seq<VarsFile>)
    ensures files == GroupVarsFiles(ContextsOf(client.configContexts))
  {
    var entries, _ := client.ListConfigContexts();
    files := [];
    for i := 0 to |entries|
      invariant files == GroupVarsFiles(entries[..i])
    {
      var entry := entries[i];
      assert entries[..i + 1][..i] == entries[..i];
      files := files + [VarsFile(entry.name + ".json", entry.config)];
    }
    assert entries[..|entries|] == entries;
  }

  predicate ConfigsAreObjects(es: seq<ManagedDevice>) {
    forall i :: 0 <= i < |es| ==> es[i].config.Object?
  }

  /** One host-vars file per entry: its configuration object with the six facts stored. */
  function HostVarsFiles(es: seq<ManagedDevice>): (r: seq<VarsFile>)
    requires ConfigsAreObjects(es)
    ensures |r| == |es|
    ensures forall i :: 0 <= i < |es| ==>
              r[i].fileName == es[i].name + ".json" && r[i].data.Object? &&
              r[i].data.fields == WithHostVars(es[i].config.fields, es[i])
    decreases |es|
  {
    if es == [] then []
    else
      var e := es[|es| - 1];
      HostVarsFiles(es[..|es| - 1]) + [VarsFile(e.name + ".json", Object(WithHostVars(e.config.fields, e)))]
  }

  /** The host-vars files for a client snapshot, or the host listing's error. */
  function HostVarsResult(lib: NetLib, hosts: seq<RawHost>): Result<seq<VarsFile>>
    requires HostsReadable(lib, hosts)
    requires HostsFrom(lib, hosts).Ok? ==> ConfigsAreObjects(Entries(HostsFrom(lib, hosts).value))
  {
    var listed := HostsFrom(lib, hosts);
    if listed.Err? then Err("client.GetHostListFor: " + listed.error)
    else Ok(HostVarsFiles(Entries(listed.value)))
  }

  /** The per-entry loop: a configuration object updated with the entry's facts. */
  method WriteHostVars(entries: seq<ManagedDevice>) returns (files: seq<VarsFile>)
    requires ConfigsAreObjects(entries)
    ensures files == HostVarsFiles(entries)
  {
    files := [];
    for i := 0 to |entries|
      invariant files == HostVarsFiles(entries[..i])
    {
      var entry := entries[i];
      assert entries[..i + 1][..i] == entries[..i];
      var hostConfig := new HostConfig(entry.config.fields);
      hostConfig.SetHostVars(entry);
      files := files + [VarsFile(entry.name + ".json", Object(hostConfig.fields))];
    }
    assert entries[..|entries|] == entries;
  }

  method AnsibleHostVars(client: NetboxClient, lib: NetLib) returns (result: Result<seq<VarsFile>>)
    requires HostsReadable(lib, client.devices + client.virtualMachines)
    requires HostsFrom(lib, client.devices + client.virtualMachines).Ok? ==>
               ConfigsAreObjects(Entries(HostsFrom(lib, client.devices + client.virtualMachines).value))
    ensures result == HostVarsResult(lib, client.devices + client.virtualMachines)
  {
    var allEntries := client.GetHostList(lib);
    if allEntries.Err? {
      return Err("client.GetHostListFor: " + allEntries.error);
    }
    var entries := FilterEntries(allEntries.value);
    var files := WriteHostVars(entries);
    return Ok(files);
  }
}

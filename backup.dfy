/**
 * The backup host list (lib/generator/backup.go): one `name,platform,site` line per
 * listed host. Writing the file is not modelled.
 */
module Backup {
  import opened Results
  import opened GoStrings
  import opened GoNet
  import opened Models
  import opened Netbox

  /** `fmt.Sprintf("%s,%s,%s\n", name, platform, site)`. */
  function BackupLine(h: ManagedDevice): string {
    h.name + "," + h.platform + "," + h.site + "\n"
  }

  /** The lines of all hosts, in host order. */
  function BackupFile(hosts: seq<ManagedDevice>): string {
    ConcatMap(hosts, BackupLine)
  }

  /** Listing more hosts appends their lines. */
  lemma BackupFileAppend(a: seq<ManagedDevice>, b: seq<ManagedDevice>)
    ensures BackupFile(a + b) == BackupFile(a) + BackupFile(b)
    ensures BackupFile([]) == ""
  {
    ConcatMapAppend(a, b, BackupLine);
  }

  /** Fields free of the separators: no ',' in name or platform, no line break anywhere. */
  predicate PlainFields(h: ManagedDevice) {
    ',' !in h.name && ',' !in h.platform && '\n' !in h.name && '\n' !in h.platform && '\n' !in h.site
  }

  /** A line determines the host's name, platform and site when they hold no separator. */
  lemma BackupLineInjective(h: ManagedDevice, h': ManagedDevice)
    requires PlainFields(h) && PlainFields(h')
    requires BackupLine(h) == BackupLine(h')
    ensures h.name == h'.name && h.platform == h'.platform && h.site == h'.site
  {
    var tail := h.platform + ([','] + (h.site + "\n"));
    var tail' := h'.platform + ([','] + (h'.site + "\n"));
    assert BackupLine(h) == h.name + ([','] + tail);
    assert BackupLine(h') == h'.name + ([','] + tail');
    SplitAtSeparator(h.name, tail, h'.name, tail', ',');
    SplitAtSeparator(h.platform, h.site + "\n", h'.platform, h'.site + "\n", ',');
    assert h.site == (h.site + "\n")[..|h.site|];
    assert h'.site == (h'.site + "\n")[..|h'.site|];
  }

  /** The first comma-separated field of a line is the host name. */
  lemma BackupLineName(h: ManagedDevice)
    requires ',' !in h.name
    ensures BeforeFirst(BackupLine(h), ',') == h.name
  {
    assert BackupLine(h) == h.name + ([','] + (h.platform + "," + h.site + "\n"));
    BeforeFirstOfJoin(h.name, h.platform + "," + h.site + "\n", ',');
  }

  lemma BackupLineNewlines(h: ManagedDevice)
    requires PlainFields(h)
    ensures CountChar(BackupLine(h), '\n') == 1
  {
    var body := h.name + "," + h.platform + "," + h.site;
    assert '\n' !in body;
    CountCharAbsent(body, '\n');
    CountCharAppend(body, "\n", '\n');
  }

  /** One line per host. */
  lemma BackupFileNewlines(hosts: seq<ManagedDevice>)
    requires forall i :: 0 <= i < |hosts| ==> PlainFields(hosts[i])
    ensures CountChar(BackupFile(hosts), '\n') == |hosts|
  {
    forall i | 0 <= i < |hosts| ensures CountChar(BackupLine(hosts[i]), '\n') == 1 {
      BackupLineNewlines(hosts[i]);
    }
    ConcatMapCount(hosts, BackupLine, '\n', 1);
  }

  /** Listed hosts have no site, so each of their lines ends in an empty third field. */
  lemma ListedBackupLines(lib: NetLib, s: seq<RawHost>)
    requires HostsReadable(lib, s) && HostsFrom(lib, s).Ok?
    ensures forall d :: d in HostsFrom(lib, s).value ==> BackupLine(d) == d.name + "," + d.platform + ",\n"
  {
    HostListFields(lib, s);
  }

  /** The backup list for a client snapshot, or the host listing's error. */
  function BackupResult(lib: NetLib, hosts: seq<RawHost>): Result<string>
    requires HostsReadable(lib, hosts)
  {
    var listed := HostsFrom(lib, hosts);
    if listed.Err? then Err("GetHostList: " + listed.error) else Ok(BackupFile(listed.value))
  }

  /** The per-host loop: the lines, concatenated in host order. */
  method WriteLines(allHosts: seq<ManagedDevice>) returns (content: string)
    ensures content == BackupFile(allHosts)
  {
    content := "";
    for i := 0 to |allHosts|
      invariant content == ConcatMap(allHosts[..i], BackupLine)
    {
      var host := allHosts[i];
      assert allHosts[..i + 1][..i] == allHosts[..i];
      var line := host.name + "," + host.platform + "," + host.site + "\n";
      content := content + line;
    }
    assert allHosts[..|allHosts|] == allHosts;
  }

  method BackupHosts(client: NetboxClient, lib: NetLib) returns (result: Result<string>)
    requires HostsReadable(lib, client.devices + client.virtualMachines)
    ensures result == BackupResult(lib, client.devices + client.virtualMachines)
  {
    var allHosts := client.GetHostList(lib);
    if allHosts.Err? {
      return Err("GetHostList: " + allHosts.error);
    }
    var content := WriteLines(allHosts.value);
    return Ok(content);
  }
}

/**
 * The Rundeck node list (lib/generator/rundeck.go): one five-line YAML block per listed
 * host, keyed by the host's short name. Writing the file is not modelled.
 */
module Rundeck {
  import opened Results
  import opened GoStrings
  import opened GoNet
  import opened Models
  import opened Netbox

  /** The login user: "core" on CoreOS, "rundeck" everywhere else. */
  function Username(platform: string): string {
    if platform == "coreos" then "core" else "rundeck"
  }

  /** The OS family: "bsd" on OpenBSD, "linux" everywhere else. */
  function OsFamily(platform: string): string {
    if platform == "openbsd" then "bsd" else "linux"
  }

  /** The platform switch. */
  method Login(platform: string) returns (username: string, os: string)
    ensures username == Username(platform) && os == OsFamily(platform)
    ensures username == "core" <==> platform == "coreos"
    ensures username == "rundeck" <==> platform != "coreos"
    ensures os == "bsd" <==> platform == "openbsd"
    ensures os == "linux" <==> platform != "openbsd"
  {
    username := "rundeck";
    os := "linux";
    if platform == "coreos" {
      username := "core";
    } else if platform == "openbsd" {
      os := "bsd";
    }
  }

  /** The short name: everything before the first '.' (`strings.Split(name, ".")[0]`). */
  function HostKey(name: string): string {
    BeforeFirst(name, '.')
  }

  /** A fully qualified `host.domain` is keyed by `host`; a dotless name by itself. */
  lemma HostKeyOfFqdn(host: string, domain: string)
    requires '.' !in host
    ensures HostKey(host + "." + domain) == host
    ensures HostKey(host) == host
  {
    assert host + "." + domain == host + (['.'] + domain);
    BeforeFirstOfJoin(host, domain, '.');
  }

  function Line(s: string): string { s + "\n" }

  /** The YAML block of one host. */
  function Block(h: ManagedDevice): string {
    Line(HostKey(h.name) + ":")
      + Line("  hostname: " + h.name)
      + Line("  username: " + Username(h.platform))
      + Line("  osFamily: " + OsFamily(h.platform))
      + Line("  osName: " + h.platform)
  }

  /** The blocks of all hosts, in host order. */
  function RundeckFile(hosts: seq<ManagedDevice>): string {
    ConcatMap(hosts, Block)
  }

  /** Listing more hosts appends their blocks. */
  lemma RundeckFileAppend(a: seq<ManagedDevice>, b: seq<ManagedDevice>)
    ensures RundeckFile(a + b) == RundeckFile(a) + RundeckFile(b)
  {
    ConcatMapAppend(a, b, Block);
  }

  lemma LineNewlines(s: string)
    requires '\n' !in s
    ensures CountChar(Line(s), '\n') == 1
  {
    CountCharAppend(s, "\n", '\n');
    CountCharAbsent(s, '\n');
  }

  predicate SingleLine(h: ManagedDevice) {
    '\n' !in h.name && '\n' !in h.platform
  }

  /** Five lines without inner line breaks hold exactly five line breaks. */
  lemma FiveLines(l1: string, l2: string, l3: string, l4: string, l5: string)
    requires '\n' !in l1 && '\n' !in l2 && '\n' !in l3 && '\n' !in l4 && '\n' !in l5
    ensures CountChar(Line(l1) + Line(l2) + Line(l3) + Line(l4) + Line(l5), '\n') == 5
  {
    LineNewlines(l1);
    LineNewlines(l2);
    LineNewlines(l3);
    LineNewlines(l4);
    LineNewlines(l5);
    CountCharAppend(Line(l1), Line(l2), '\n');
    CountCharAppend(Line(l1) + Line(l2), Line(l3), '\n');
    CountCharAppend(Line(l1) + Line(l2) + Line(l3), Line(l4), '\n');
    CountCharAppend(Line(l1) + Line(l2) + Line(l3) + Line(l4), Line(l5), '\n');
  }

  /** A host whose name and platform hold no line break takes exactly five lines. */
  lemma BlockNewlines(h: ManagedDevice)
    requires SingleLine(h)
    ensures CountChar(Block(h), '\n') == 5
  {
    var key := HostKey(h.name);
    assert key <= h.name;
    assert '\n' !in key by {
      forall i | 0 <= i < |key| ensures key[i] != '\n' {
        assert key[i] == h.name[i];
      }
    }
    FiveLines(key + ":", "  hostname: " + h.name, "  username: " + Username(h.platform),
              "  osFamily: " + OsFamily(h.platform), "  osName: " + h.platform);
  }

  /** The file has five lines per host. */
  lemma RundeckFileNewlines(hosts: seq<ManagedDevice>)
    requires forall i :: 0 <= i < |hosts| ==> SingleLine(hosts[i])
    ensures CountChar(RundeckFile(hosts), '\n') == 5 * |hosts|
  {
    forall i | 0 <= i < |hosts| ensures CountChar(Block(hosts[i]), '\n') == 5 {
      BlockNewlines(hosts[i]);
    }
    ConcatMapCount(hosts, Block, '\n', 5);
  }

  /**
   * Listed hosts run CentOS or OpenBSD, so the CoreOS login never appears: every listed
   * host logs in as "rundeck", and its family is "bsd" exactly when it runs OpenBSD.
   */
  lemma ListedHostLogins(lib: NetLib, s: seq<RawHost>)
    requires HostsReadable(lib, s) && HostsFrom(lib, s).Ok?
    ensures forall d :: d in HostsFrom(lib, s).value ==>
              Username(d.platform) == "rundeck" && (OsFamily(d.platform) == "bsd" <==> d.platform == "openbsd")
  {
    HostListFields(lib, s);
  }

  /** The node list for a client snapshot, or the host listing's error. */
  function RundeckResult(lib: NetLib, hosts: seq<RawHost>): Result<string>
    requires HostsReadable(lib, hosts)
  {
    var listed := HostsFrom(lib, hosts);
    if listed.Err? then Err("GetHostList: " + listed.error) else Ok(RundeckFile(listed.value))
  }

  /** One host's block, line by line. */
  method BlockOf(host: ManagedDevice) returns (line: string)
    ensures line == Block(host)
  {
    var username, os := Login(host.platform);
    line := Line(HostKey(host.name) + ":");
    line := line + Line("  hostname: " + host.name);
    line := line + Line("  username: " + username);
    line := line + Line("  osFamily: " + os);
    line := line + Line("  osName: " + host.platform);
  }

  /** The per-host loop: the blocks, concatenated in host order. */
  method WriteBlocks(allHosts: seq<ManagedDevice>) returns (content: string)
    ensures content == RundeckFile(allHosts)
  {
    content := "";
    for i := 0 to |allHosts|
      invariant content == ConcatMap(allHosts[..i], Block)
    {
      assert allHosts[..i + 1][..i] == allHosts[..i];
      var line := BlockOf(allHosts[i]);
      content := content + line;
    }
    assert allHosts[..|allHosts|] == allHosts;
  }

  method RundeckHosts(client: NetboxClient, lib: NetLib) returns (result: Result<string>)
    requires HostsReadable(lib, client.devices + client.virtualMachines)
    ensures result == RundeckResult(lib, client.devices + client.virtualMachines)
  {
    var allHosts := client.GetHostList(lib);
    if allHosts.Err? {
      return Err("GetHostList: " + allHosts.error);
    }
    var content := WriteBlocks(allHosts.value);
    return Ok(content);
  }
}

/** Allow-lists and DNS naming helpers (lib/common/utils.go). */
module Utils {
  import opened GoStrings
  import opened GoNet

  const AllowedTenants: seq<string> := ["as65342"]
  const AllowedPlatforms: seq<string> := ["centos", "openbsd"]
  const AllowedStatus: seq<string> := ["Active"]

  predicate TenantAllowed(tenant: string) { tenant in AllowedTenants }
  predicate StatusAllowed(status: string) { status in AllowedStatus }
  predicate PlatformAllowed(platform: string) { platform in AllowedPlatforms }

  /** The early-return scan the three allow-list checks share. */
  method Listed(allowed: seq<string>, x: string) returns (found: bool)
    ensures found <==> x in allowed
  {
    for idx := 0 to |allowed|
      invariant x !in allowed[..idx]
    {
      if allowed[idx] == x {
        return true;
      }
      assert allowed[..idx + 1] == allowed[..idx] + [allowed[idx]];
    }
    assert allowed[..|allowed|] == allowed;
    return false;
  }

  method IsAllowedTenant(tenant: string) returns (allowed: bool)
    ensures allowed == TenantAllowed(tenant)
    ensures allowed <==> tenant == "as65342"
  {
    allowed := Listed(AllowedTenants, tenant);
  }

  method IsAllowedStatus(status: string) returns (allowed: bool)
    ensures allowed == StatusAllowed(status)
    ensures allowed <==> status == "Active"
  {
    allowed := Listed(AllowedStatus, status);
  }

  method IsAllowedPlatform(platform: string) returns (allowed: bool)
    ensures allowed == PlatformAllowed(platform)
    ensures allowed <==> platform == "centos" || platform == "openbsd"
  {
    allowed := Listed(AllowedPlatforms, platform);
  }

  /**
   * Every character of `s` as a one-character label, labels in reverse order, joined
   * by '.'.  This is what the loops `result = string(v) + "." + result` build.
   */
  function ReverseLabels(s: string): (r: string)
    ensures |r| == if s == [] then 0 else 2 * |s| - 1
  {
    if |s| <= 1 then s
    else [s[|s| - 1]] + "." + ReverseLabels(s[..|s| - 1])
  }

  /** Even positions hold the characters of `s` back to front; odd positions hold dots. */
  lemma {:induction false} ReverseLabelsAt(s: string)
    ensures forall k :: 0 <= k < |s| ==> ReverseLabels(s)[2 * k] == s[|s| - 1 - k]
    ensures forall k :: 0 <= k < |s| - 1 ==> ReverseLabels(s)[2 * k + 1] == '.'
  {
    if |s| > 1 {
      var init := s[..|s| - 1];
      ReverseLabelsAt(init);
      var r := ReverseLabels(s);
      assert r == [s[|s| - 1]] + "." + ReverseLabels(init);
      forall k | 0 < k < |s| ensures r[2 * k] == s[|s| - 1 - k] {
        assert r[2 * k] == ReverseLabels(init)[2 * (k - 1)];
      }
      forall k | 0 < k < |s| - 1 ensures r[2 * k + 1] == '.' {
        assert r[2 * k + 1] == ReverseLabels(init)[2 * (k - 1) + 1];
      }
    }
  }

  /** The prepend-with-dot loop over the characters of `tmp`. */
  method ReverseLabelsOf(tmp: string) returns (result: string)
    ensures result == ReverseLabels(tmp)
  {
    result := "";
    for i := 0 to |tmp|
      invariant result == ReverseLabels(tmp[..i])
      invariant result == "" <==> i == 0
    {
      var v := tmp[i];
      assert tmp[..i + 1][..i] == tmp[..i] && tmp[..i + 1][i] == v;
      if result == "" {
        result := [v];
      } else {
        result := [v] + "." + result;
      }
    }
    assert tmp[..|tmp|] == tmp;
  }

  /** The reverse-lookup zone of a network: `c.b.a.in-addr.arpa` or 16 nibble labels `.ip6.arpa`. */
  function ZoneName(network: IPNet): string {
    var i := network.ip;
    if |i| == 16 then ReverseLabels(HexBytes(i[..8])) + ".ip6.arpa"
    else Decimal(i[2]) + "." + Decimal(i[1]) + "." + Decimal(i[0]) + ".in-addr.arpa"
  }

  method ToDnsZoneName(network: IPNet) returns (result: string)
    ensures result == ZoneName(network)
  {
    var i := network.ip;
    if |i| == 16 {
      var tmp := HexBytes(i[..8]);
      result := ReverseLabelsOf(tmp);
      result := result + ".ip6.arpa";
    } else {
      result := Decimal(i[2]) + "." + Decimal(i[1]) + "." + Decimal(i[0]) + ".in-addr.arpa";
    }
  }

  /**
   * An IPv6 zone name is 16 one-nibble labels: label `k` is nibble `15 - k` of the
   * first 8 bytes (nibble `j` is the high half of byte `j / 2` for even `j`, the low
   * half for odd `j`), followed by ".ip6.arpa".
   */
  lemma ZoneName6(network: IPNet)
    requires |network.ip| == 16
    ensures |ZoneName(network)| == 31 + |".ip6.arpa"|
    ensures ZoneName(network)[31..] == ".ip6.arpa"
    ensures forall k :: 0 <= k < 16 ==>
              var j := 15 - k;
              var b := network.ip[j / 2];
              ZoneName(network)[2 * k] == HexDigit(if j % 2 == 0 then b / 16 else b % 16)
    ensures forall k :: 0 <= k < 15 ==> ZoneName(network)[2 * k + 1] == '.'
  {
    var bs := network.ip[..8];
    var nibbles := HexBytes(bs);
    ReverseLabelsAt(nibbles);
    var z := ZoneName(network);
    assert z == ReverseLabels(nibbles) + ".ip6.arpa";
    forall k | 0 <= k < 16
      ensures var j := 15 - k; var b := network.ip[j / 2];
              z[2 * k] == HexDigit(if j % 2 == 0 then b / 16 else b % 16)
    {
      HexBytesAt(bs, 15 - k);
    }
  }

  /** `10.0.1.0/24` has the zone `1.0.10.in-addr.arpa`. */
  lemma ZoneNameExample4()
    ensures ZoneName(IPNet([10, 0, 1, 0], 24)) == "1.0.10.in-addr.arpa"
  {
    SmallDecimals();
    assert ZoneName(IPNet([10, 0, 1, 0], 24)) == Decimal(1) + "." + Decimal(0) + "." + Decimal(10) + ".in-addr.arpa";
  }

  /** An IPv4 zone name is three dot-separated decimal labels, then "in-addr.arpa". */
  lemma ZoneName4Form(n: IPNet)
    requires |n.ip| == 4
    ensures ZoneName(n) == Decimal(n.ip[2]) + (['.'] + (Decimal(n.ip[1]) + (['.'] + (Decimal(n.ip[0]) + (['.'] + "in-addr.arpa")))))
  {
  }

  /** An IPv4 zone name determines the network's first three bytes. */
  lemma ZoneName4Injective(m: IPNet, n: IPNet)
    requires |m.ip| == 4 && |n.ip| == 4 && ZoneName(m) == ZoneName(n)
    ensures m.ip[..3] == n.ip[..3]
  {
    var a, b := m.ip, n.ip;
    DecimalHasNo(a[0], '.'); DecimalHasNo(a[1], '.'); DecimalHasNo(a[2], '.');
    DecimalHasNo(b[0], '.'); DecimalHasNo(b[1], '.'); DecimalHasNo(b[2], '.');
    ZoneName4Form(m);
    ZoneName4Form(n);
    SplitThreeLabels(Decimal(a[2]), Decimal(a[1]), Decimal(a[0]), Decimal(b[2]), Decimal(b[1]), Decimal(b[0]), "in-addr.arpa", '.');
    DecimalInjective(a[0], b[0]);
    DecimalInjective(a[1], b[1]);
    DecimalInjective(a[2], b[2]);
  }

  /** `ToFqdn`: the name with exactly one trailing dot added unless it already ends in one. */
  function ToFqdn(name: string): (r: string)
    ensures HasSuffix(r, ".")
    ensures HasSuffix(name, ".") ==> r == name
    ensures !HasSuffix(name, ".") ==> r == name + "."
  {
    if !HasSuffix(name, ".") then name + "." else name
  }

  lemma ToFqdnIdempotent(name: string)
    ensures ToFqdn(ToFqdn(name)) == ToFqdn(name)
  {
  }
}

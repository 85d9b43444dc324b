/**
 * The part of Go's `net` package the inventory code relies on: addresses as 4- or
 * 16-byte sequences, networks as an address plus a prefix length, CIDR parsing and
 * the textual forms of addresses and networks.
 *
 * `net.ParseCIDR` and the IPv6 text form of `IP.String` are not written out: they are
 * the two fields of a `NetLib` value that every operation needing them receives. What
 * the model relies on about them is carried by their result types: a parsed network is
 * the parsed address masked to its prefix length, and the text of an address without
 * an IPv4 form contains a ':'. IPv4 text (dotted decimal) is written out; `IP.String`
 * prints it for 4-byte addresses and for IPv4-mapped 16-byte ones (`::ffff:a.b.c.d`).
 */
module GoNet {
  import opened Results
  import opened GoStrings

  type Byte = b: int | 0 <= b < 256

  /** An IPv4 (4-byte) or IPv6 (16-byte) address. */
  type Addr = s: seq<Byte> | |s| == 4 || |s| == 16 witness [0, 0, 0, 0]

  /** `net.IPNet` with the canonical mask of `prefixLen` leading one bits. */
  datatype IPNet = IPNet(ip: Addr, prefixLen: nat)

  function Pow2(k: nat): (r: nat)
    ensures r >= 1
  {
    if k == 0 then 1 else 2 * Pow2(k - 1)
  }

  /** `b & mask` where `mask` keeps the `keep` leading bits of the byte (clamped to 0..8). */
  function MaskByte(b: Byte, keep: int): (r: Byte)
    ensures keep >= 8 ==> r == b
    ensures keep <= 0 ==> r == 0
  {
    if keep >= 8 then b
    else if keep <= 0 then 0
    else
      var p := Pow2(8 - keep);
      RoundDown(b, p);
      (b / p) * p
  }

  /** Rounding down to a multiple of `p` stays within `0..b`. */
  lemma RoundDown(b: nat, p: nat)
    requires p >= 1
    ensures 0 <= (b / p) * p <= b
  {
    assert b == (b / p) * p + b % p;
  }

  /** `n` is the network of `ip` under `n.prefixLen`: every bit past the prefix is cleared. */
  ghost predicate IsNetworkOf(ip: Addr, n: IPNet) {
    && |n.ip| == |ip|
    && n.prefixLen <= 8 * |ip|
    && forall i :: 0 <= i < |ip| ==> n.ip[i] == MaskByte(ip[i], n.prefixLen - 8 * i)
  }

  /** What `net.ParseCIDR` returns on success: the address and its network. */
  datatype Cidr = Cidr(ip: Addr, network: IPNet)

  type ParsedCidr = c: Cidr | IsNetworkOf(c.ip, c.network)
    witness Cidr([0, 0, 0, 0], IPNet([0, 0, 0, 0], 0))

  /** IPv6 text as `IP.String` prints an address without an IPv4 form: it always contains a ':'. */
  type Ip6Text = s: string | ':' in s witness "::"

  /** The two primitives of Go's `net` package the model takes as given. */
  datatype NetLib = NetLib(parseCIDR: string -> Option<ParsedCidr>, ip6String: Addr -> Ip6Text)

  /** Dotted-decimal text of a 4-byte address. */
  function Dotted4(ip: seq<Byte>): string
    requires |ip| == 4
  {
    Decimal(ip[0]) + ("." + (Decimal(ip[1]) + ("." + (Decimal(ip[2]) + ("." + Decimal(ip[3]))))))
  }

  /** A 16-byte address of the form `::ffff:a.b.c.d`. */
  predicate V4Mapped(ip: seq<Byte>) {
    |ip| == 16 && ip[..12] == [0, 0, 0, 0, 0, 0, 0, 0, 0, 0, 255, 255]
  }

  /** `IP.To4()` is not nil: a 4-byte address or an IPv4-mapped 16-byte one. */
  predicate HasTo4(ip: Addr) {
    |ip| == 4 || V4Mapped(ip)
  }

  /** `IP.To4()` where it is not nil: the four IPv4 bytes. */
  function To4(ip: Addr): (r: seq<Byte>)
    requires HasTo4(ip)
    ensures |r| == 4
  {
    if |ip| == 4 then ip else ip[12..]
  }

  /** `IP.String()`: dotted decimal when the address has an IPv4 form, IPv6 text otherwise. */
  function IPString(lib: NetLib, ip: Addr): string {
    if HasTo4(ip) then Dotted4(To4(ip)) else lib.ip6String(ip)
  }

  /**
   * `IPNet.String()`: address text, '/', prefix length. For a 16-byte IPv4-mapped network
   * Go prints the prefix length less 96; this function prints it unchanged. The modelled
   * callers pass 4-byte networks or 16-byte networks of at most /64, which are never
   * mapped (`Network64NotMapped`).
   */
  function NetString(lib: NetLib, n: IPNet): string {
    IPString(lib, n.ip) + "/" + Decimal(n.prefixLen)
  }

  /** The address as `IPNet.Contains` compares it: its IPv4 bytes when `To4` is not nil. */
  function Normalised(ip: Addr): (r: Addr)
    ensures |r| == 4 <==> HasTo4(ip)
  {
    if HasTo4(ip) then To4(ip) else ip
  }

  /**
   * `IPNet.Contains(ip)`: the address and the network number are both taken in their
   * 4-byte form when they have one; a 16-byte mask over a 4-byte network number keeps
   * its last four bytes (the first 96 bits are skipped). The address is contained when
   * it then has the network number's length and equals it on every bit under the mask.
   */
  predicate NetContains(n: IPNet, ip: Addr) {
    var x, nn := Normalised(ip), Normalised(n.ip);
    var skip := 8 * (|n.ip| - |nn|);
    && |x| == |nn|
    && forall i :: 0 <= i < |x| ==>
         MaskByte(x[i], n.prefixLen - skip - 8 * i) == MaskByte(nn[i], n.prefixLen - skip - 8 * i)
  }

  /** `ip[i]++` on a Go byte: wraps from 255 to 0. */
  function IncrementByte(ip: Addr, i: nat): Addr
    requires i < |ip|
  {
    ip[i := (ip[i] as int + 1) % 256]
  }

  /** The `%02x` text of each byte, concatenated. */
  function HexBytes(bs: seq<Byte>): (r: string)
    ensures |r| == 2 * |bs|
  {
    if bs == [] then "" else Hex2(bs[0]) + HexBytes(bs[1..])
  }

  /** Nibble `k` of the hex text is the high or low half of byte `k / 2`. */
  lemma {:induction false} HexBytesAt(bs: seq<Byte>, k: nat)
    requires k < 2 * |bs|
    ensures HexBytes(bs)[k] == HexDigit(if k % 2 == 0 then bs[k / 2] / 16 else bs[k / 2] % 16)
  {
    if k >= 2 {
      HexBytesAt(bs[1..], k - 2);
      assert HexBytes(bs)[k] == HexBytes(bs[1..])[k - 2];
    }
  }

  /** The text of an address contains ':' exactly when it is a 16-byte address that is not IPv4-mapped. */
  lemma ColonIffIpv6(lib: NetLib, ip: Addr)
    ensures ':' in IPString(lib, ip) <==> |ip| == 16 && !V4Mapped(ip)
  {
    if HasTo4(ip) {
      var v4 := To4(ip);
      DecimalHasNo(v4[0], ':');
      DecimalHasNo(v4[1], ':');
      DecimalHasNo(v4[2], ':');
      DecimalHasNo(v4[3], ':');
    }
  }

  /** `::ffff:10.0.1.5` prints as `10.0.1.5`, with no ':'. */
  lemma MappedExample(lib: NetLib)
    ensures V4Mapped([0, 0, 0, 0, 0, 0, 0, 0, 0, 0, 255, 255, 10, 0, 1, 5])
    ensures IPString(lib, [0, 0, 0, 0, 0, 0, 0, 0, 0, 0, 255, 255, 10, 0, 1, 5]) == "10.0.1.5"
  {
    var ip: Addr := [0, 0, 0, 0, 0, 0, 0, 0, 0, 0, 255, 255, 10, 0, 1, 5];
    assert ip[..12] == [0, 0, 0, 0, 0, 0, 0, 0, 0, 0, 255, 255];
    assert To4(ip) == [10, 0, 1, 5];
    assert Decimal(10) == Decimal(1) + [DigitChar(0)];
  }

  /**
   * A 4-byte address and its IPv4-mapped 16-byte form are indistinguishable to the
   * operations that read an address: they print alike and lie in the same networks.
   */
  lemma MappedFormAgrees(lib: NetLib, n: IPNet, a4: Addr, a16: Addr)
    requires |a4| == 4 && V4Mapped(a16) && a16[12..] == a4
    ensures To4(a16) == To4(a4) && IPString(lib, a16) == IPString(lib, a4)
    ensures NetContains(n, a16) <==> NetContains(n, a4)
  {
    assert Normalised(a16) == Normalised(a4);
  }

  /** An address with an IPv4 form is never inside a 16-byte network that has none. */
  lemma Ipv6NetExcludesIpv4(n: IPNet, ip: Addr)
    requires |n.ip| == 16 && !V4Mapped(n.ip) && HasTo4(ip)
    ensures !NetContains(n, ip)
  {
    assert |Normalised(ip)| == 4 && |Normalised(n.ip)| == 16;
  }

  /** `::ffff:10.0.1.5` lies in `10.0.1.0/24` and not in `::/64`. */
  lemma MappedContainment()
    ensures NetContains(IPNet([10, 0, 1, 0], 24), [0, 0, 0, 0, 0, 0, 0, 0, 0, 0, 255, 255, 10, 0, 1, 5])
    ensures !NetContains(IPNet([0, 0, 0, 0, 0, 0, 0, 0, 0, 0, 0, 0, 0, 0, 0, 0], 64),
                         [0, 0, 0, 0, 0, 0, 0, 0, 0, 0, 255, 255, 10, 0, 1, 5])
  {
    var ip: Addr := [0, 0, 0, 0, 0, 0, 0, 0, 0, 0, 255, 255, 10, 0, 1, 5];
    var z: Addr := [0, 0, 0, 0, 0, 0, 0, 0, 0, 0, 0, 0, 0, 0, 0, 0];
    assert ip[..12] == [0, 0, 0, 0, 0, 0, 0, 0, 0, 0, 255, 255];
    assert z[..12][10] == 0;
    assert Normalised(ip) == [10, 0, 1, 5];
    var n := IPNet([10, 0, 1, 0], 24);
    assert Normalised(n.ip) == n.ip;
    forall i | 0 <= i < 4
      ensures MaskByte(Normalised(ip)[i], 24 - 8 * i) == MaskByte(n.ip[i], 24 - 8 * i)
    {
      if i == 3 {
        assert MaskByte(5, 0) == 0 == MaskByte(0, 0);
      }
    }
    Ipv6NetExcludesIpv4(IPNet(z, 64), ip);
  }

  /** The network of a 16-byte address under a prefix of at most 64 bits is not IPv4-mapped. */
  lemma Network64NotMapped(ip: Addr, n: IPNet)
    requires IsNetworkOf(ip, n) && |ip| == 16 && n.prefixLen <= 64
    ensures n.ip[10] == 0 && !V4Mapped(n.ip)
  {
    assert n.ip[10] == MaskByte(ip[10], n.prefixLen - 80);
    assert n.ip[..12][10] == n.ip[10];
  }

  /** The network of an IPv4 address under a prefix of at most 24 bits ends in a zero byte. */
  lemma LastByteCleared4(ip: Addr, n: IPNet)
    requires IsNetworkOf(ip, n) && |ip| == 4 && n.prefixLen <= 24
    ensures n.ip[3] == 0
  {
    assert n.ip[3] == MaskByte(ip[3], n.prefixLen - 24);
  }

  /** The network of an IPv6 address under a prefix of at most 64 bits ends in a zero byte. */
  lemma LastByteCleared6(ip: Addr, n: IPNet)
    requires IsNetworkOf(ip, n) && |ip| == 16 && n.prefixLen <= 64
    ensures n.ip[15] == 0
  {
    assert n.ip[15] == MaskByte(ip[15], n.prefixLen - 120);
  }
}

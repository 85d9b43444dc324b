/** The domain model every generator consumes (lib/common/models.go). */
module Models {
  import opened GoNet

  /**
   * Untyped configuration data, as Go's `interface{}` holds it after decoding JSON,
   * plus the `net.IP` values the host-vars generator stores into it.
   */
  datatype Value =
    | Null
    | Bool(b: bool)
    | Number(n: real)
    | Text(s: string)
    | IP(addr: Addr)
    | List(items: seq<Value>)
    | Object(fields: map<string, Value>)

  /** A physical or virtual host that passed the allow-lists. */
  datatype ManagedDevice = ManagedDevice(
    name: string,
    primaryIP: Addr,
    primaryNet: IPNet,
    printablePrimaryNet: string,
    primaryIP4: Addr,
    primaryNet4: IPNet,
    printablePrimaryNet4: string,
    primaryIP6: Addr,
    primaryNet6: IPNet,
    printablePrimaryNet6: string,
    platform: string,
    site: string,
    tenant: string,
    tags: seq<string>,
    config: Value)

  datatype ConfigContext = ConfigContext(name: string, config: Value)

  datatype Tenant = Tenant(name: string, slug: string)

  /** The first host address of a device's primary network. */
  datatype Gateway = Gateway(
    address: string,
    network: string,
    tenant: string,
    printableAddress: string,
    printableNetwork: string)

  datatype IpAddress = IpAddress(address: Addr, network: IPNet, dns: string, tenant: string)
}

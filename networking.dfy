/**
 * The address value type that the wRPC resolver consumes (`ContextualNetAddress`
 * and `IpAddress` of the `kaspa_utils::networking` crate). Its text parser and
 * formatter live outside this model; only its shape and the two operations the
 * resolver uses (`port_not_specified`, `with_port`) are modelled.
 */
module Networking {
  import opened Wrappers

  newtype u8 = x: int | 0 <= x < 0x100
  newtype u16 = x: int | 0 <= x < 0x1_0000

  type Ipv6Segments = s: seq<u16> | |s| == 8 witness [0, 0, 0, 0, 0, 0, 0, 0]

  /** A literal IP address; no host names. */
  datatype IpAddress =
    | V4(a: u8, b: u8, c: u8, d: u8)
    | V6(segments: Ipv6Segments)

  /** `127.0.0.1` */
  const Loopback: IpAddress := V4(127, 0, 0, 1)
  /** `0.0.0.0`, every interface */
  const Unspecified: IpAddress := V4(0, 0, 0, 0)

  /** The error of the foreign address parser; its contents are not modelled. */
  datatype AddrParseError = AddrParseError(detail: string)

  /** An IP with a port that may be left for the environment to fill in. */
  datatype ContextualNetAddress = ContextualNetAddress(ip: IpAddress, port: Option<u16>) {

    predicate PortNotSpecified()
    {
      port.None?
    }

    /** A copy of this address carrying port `p`; the receiver is not changed. */
    function WithPort(p: u16): (r: ContextualNetAddress)
      ensures r.ip == ip && r.port == Some(p)
      ensures !r.PortNotSpecified()
    {
      this.(port := Some(p))
    }
  }

  /** The delegate text parser `str::parse::<ContextualNetAddress>`, passed in as a value. */
  type AddressParser = string -> Result<ContextualNetAddress, AddrParseError>
}

/**
 * The wRPC listen-address resolver: a configuration value that is either one of
 * the two keywords `default` and `public` or a literal address, and its
 * resolution into a concrete address for a given network type and encoding.
 */
module WrpcAddress {
  import opened Wrappers
  import opened Networking
  import opened NetworkTypes
  import opened WrpcService

  /** How the listen address is specified: exactly one of three shapes. */
  datatype WrpcNetAddress =
    | Default                               // loopback, default port
    | Public                                // every interface, default port
    | Custom(address: ContextualNetAddress) // caller's address, port optional
  {
    /** The host this specification names. */
    function Host(): IpAddress
    {
      match this
      case Default => Loopback
      case Public => Unspecified
      case Custom(a) => a.ip
    }

    /** The port this specification carries itself; only a custom address can. */
    function ExplicitPort(): Option<u16>
    {
      if Custom? then address.port else None
    }
  }

  /**
   * The conventional RPC port of `network` for `encoding`: the Borsh port for
   * Borsh, the JSON port for SerdeJson.
   */
  function DefaultPort(ports: DefaultPorts, network: NetworkType, encoding: WrpcEncoding): u16
  {
    match encoding
    case Borsh => ports.borshRpcPort(network)
    case SerdeJson => ports.jsonRpcPort(network)
  }

  /**
   * `WrpcNetAddress::to_address`. The result always carries a port; its host is
   * the one the specification names, and its port is the specification's own
   * when it has one and the environment's default otherwise.
   */
  function ToAddress(spec: WrpcNetAddress, ports: DefaultPorts, network: NetworkType, encoding: WrpcEncoding)
    : (r: ContextualNetAddress)
    ensures !r.PortNotSpecified()
    ensures r.ip == spec.Host()
    ensures r.port == if spec.ExplicitPort().Some? then spec.ExplicitPort() else Some(DefaultPort(ports, network, encoding))
  {
    match spec
    case Default =>
      ContextualNetAddress(Loopback, Some(DefaultPort(ports, network, encoding)))
    case Public =>
      ContextualNetAddress(Unspecified, Some(DefaultPort(ports, network, encoding)))
    case Custom(address) =>
      if address.PortNotSpecified() then address.WithPort(DefaultPort(ports, network, encoding))
      else address
  }

  /**
   * `FromStr::from_str`. The keywords are matched exactly; any other text goes
   * to the address parser, whose error is passed on unchanged.
   */
  function FromStr(parse: AddressParser, s: string): (r: Result<WrpcNetAddress, AddrParseError>)
    ensures r == Ok(Default) <==> s == "default"
    ensures r == Ok(Public) <==> s == "public"
    ensures r.Ok? && r.value.Custom? ==> parse(s) == Ok(r.value.address)
    ensures r.Err? ==> parse(s) == Err(r.error)
  {
    match s
    case "default" => Ok(Default)
    case "public" => Ok(Public)
    case _ =>
      var addr :- parse(s);
      Ok(Custom(addr))
  }

  /** `TryFrom<&str>`: the same as parsing the text. */
  function TryFromStr(parse: AddressParser, s: string): (r: Result<WrpcNetAddress, AddrParseError>)
    ensures r == FromStr(parse, s)
  {
    FromStr(parse, s)
  }

  /** `TryFrom<String>`: the same as parsing the borrowed text of the owned string. */
  function TryFromString(parse: AddressParser, s: string): (r: Result<WrpcNetAddress, AddrParseError>)
    ensures r == FromStr(parse, s)
  {
    FromStr(parse, s)
  }
}

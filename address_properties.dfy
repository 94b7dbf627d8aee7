/** What the resolver and the parser promise, for every port table and every address parser. */
module WrpcAddressProperties {
  import opened Wrappers
  import opened Networking
  import opened NetworkTypes
  import opened WrpcService
  import opened WrpcAddress

  /** Borsh servers default to the Borsh RPC port, SerdeJson servers to the JSON RPC port. */
  lemma DefaultPortFollowsEncoding(ports: DefaultPorts, network: NetworkType)
    ensures DefaultPort(ports, network, Borsh) == ports.borshRpcPort(network)
    ensures DefaultPort(ports, network, SerdeJson) == ports.jsonRpcPort(network)
  {
  }

  /** `default` is loopback on the environment's default port. */
  lemma ResolveDefault(ports: DefaultPorts, network: NetworkType, encoding: WrpcEncoding)
    ensures ToAddress(Default, ports, network, encoding) == ContextualNetAddress(Loopback, Some(DefaultPort(ports, network, encoding)))
  {
  }

  /** `public` is every interface on the environment's default port. */
  lemma ResolvePublic(ports: DefaultPorts, network: NetworkType, encoding: WrpcEncoding)
    ensures ToAddress(Public, ports, network, encoding) == ContextualNetAddress(Unspecified, Some(DefaultPort(ports, network, encoding)))
  {
  }

  /** An address that names its port is used as it is, whatever the network and encoding. */
  lemma ExplicitPortWins(a: ContextualNetAddress, ports: DefaultPorts, network: NetworkType, encoding: WrpcEncoding)
    requires !a.PortNotSpecified()
    ensures ToAddress(Custom(a), ports, network, encoding) == a
  {
  }

  /** An address without a port keeps its host and gets the environment's default port. */
  lemma MissingPortIsFilled(a: ContextualNetAddress, ports: DefaultPorts, network: NetworkType, encoding: WrpcEncoding)
    requires a.PortNotSpecified()
    ensures ToAddress(Custom(a), ports, network, encoding) == ContextualNetAddress(a.ip, Some(DefaultPort(ports, network, encoding)))
  {
  }

  /** Feeding a resolved address back in as a custom address, under any environment, changes nothing. */
  lemma ResolvedIsFixedPoint(spec: WrpcNetAddress, ports: DefaultPorts, network: NetworkType, encoding: WrpcEncoding,
                             ports': DefaultPorts, network': NetworkType, encoding': WrpcEncoding)
    ensures var r := ToAddress(spec, ports, network, encoding);
            ToAddress(Custom(r), ports', network', encoding') == r
  {
  }

  /** The addresses resolution can produce are exactly those that carry a port. */
  lemma ResolvedAddressesArePortSpecified(ports: DefaultPorts, network: NetworkType, encoding: WrpcEncoding, a: ContextualNetAddress)
    ensures (exists spec :: ToAddress(spec, ports, network, encoding) == a) <==> !a.PortNotSpecified()
  {
    if !a.PortNotSpecified() {
      assert ToAddress(Custom(a), ports, network, encoding) == a;
    }
  }

  /**
   * Resolution sees the network type and encoding only through the default
   * port, and re-derives it on every call: a specification without a port of
   * its own resolves differently wherever the default ports differ.
   */
  lemma EnvironmentMattersOnlyThroughDefaultPort(spec: WrpcNetAddress,
                                                 ports: DefaultPorts, network: NetworkType, encoding: WrpcEncoding,
                                                 ports': DefaultPorts, network': NetworkType, encoding': WrpcEncoding)
    ensures DefaultPort(ports, network, encoding) == DefaultPort(ports', network', encoding') ==>
              ToAddress(spec, ports, network, encoding) == ToAddress(spec, ports', network', encoding')
    ensures spec.ExplicitPort().None? && DefaultPort(ports, network, encoding) != DefaultPort(ports', network', encoding') ==>
              ToAddress(spec, ports, network, encoding) != ToAddress(spec, ports', network', encoding')
  {
  }

  /** Capitalised keywords are not keywords: they go to the address parser and fail with its error. */
  lemma KeywordsAreCaseSensitive(parse: AddressParser)
    requires parse("Default").Err? && parse("Public").Err?
    ensures FromStr(parse, "Default") == Err(parse("Default").error)
    ensures FromStr(parse, "Public") == Err(parse("Public").error)
  {
  }

  /** Any text other than the two keywords parses exactly as the address parser parses it. */
  lemma NonKeywordParsesAsDelegate(parse: AddressParser, s: string)
    requires s != "default" && s != "public"
    ensures forall a :: FromStr(parse, s) == Ok(Custom(a)) <==> parse(s) == Ok(a)
    ensures FromStr(parse, s).Err? <==> parse(s).Err?
    ensures FromStr(parse, s).Err? ==> FromStr(parse, s).error == parse(s).error
  {
  }

  /**
   * When the address parser rejects both keywords and reads back what the
   * formatter writes, the written form of an address parses as that custom address.
   */
  lemma CustomRoundTrip(parse: AddressParser, display: ContextualNetAddress -> string, a: ContextualNetAddress)
    requires parse("default").Err? && parse("public").Err?
    requires parse(display(a)) == Ok(a)
    ensures FromStr(parse, display(a)) == Ok(Custom(a))
  {
  }

  /**
   * The module's own test: `1.2.3.4:8080` keeps its port on mainnet with Borsh,
   * and `1.2.3.4` takes the default port of every network type and encoding.
   */
  lemma TestCustom(parse: AddressParser, ports: DefaultPorts)
    requires parse("1.2.3.4:8080") == Ok(ContextualNetAddress(V4(1, 2, 3, 4), Some(8080)))
    requires parse("1.2.3.4") == Ok(ContextualNetAddress(V4(1, 2, 3, 4), None))
    ensures FromStr(parse, "1.2.3.4:8080").Ok? && FromStr(parse, "1.2.3.4").Ok?
    ensures ToAddress(FromStr(parse, "1.2.3.4:8080").value, ports, Mainnet, Borsh) == ContextualNetAddress(V4(1, 2, 3, 4), Some(8080))
    ensures forall network, encoding ::
              ToAddress(FromStr(parse, "1.2.3.4").value, ports, network, encoding) ==
              ContextualNetAddress(V4(1, 2, 3, 4), Some(if encoding == Borsh then ports.borshRpcPort(network) else ports.jsonRpcPort(network)))
  {
  }
}

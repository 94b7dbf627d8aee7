# wRPC listen-address resolver

A model of the listen-address resolver of the kaspa wRPC server
(`rpc/wrpc/server/src/address.rs`). A configuration string becomes one of three
specifications. `default` means loopback on the default port. `public` means every
interface on the default port. Any other text that the address parser accepts
becomes a `Custom` address, which may or may not carry its own port. Resolution
turns a specification into a concrete `ContextualNetAddress`. The default port
depends on the network type and on the wire encoding: Borsh uses the Borsh RPC
port and SerdeJson uses the JSON RPC port.

Files:

- `wrappers.dfy`: `Option` and a Rust-style `Result` (`Ok`/`Err`) that works with `:-`.
- `networking.dfy`: the address value type (`IpAddress`, `ContextualNetAddress`,
  `port_not_specified`, `with_port`) and the type of the delegate address parser.
- `network_type.dfy`: `NetworkType` and the table of default RPC ports.
- `service.dfy`: `WrpcEncoding`.
- `address.dfy`: `WrpcNetAddress`, `to_address` (`ToAddress`), `from_str` (`FromStr`) and the two `TryFrom` conversions.
- `address_properties.dfy`: lemmas about the resolver and the parser.

The collaborators whose source is not part of this model stay abstract without
assuming anything about them:

- The default-port table is a value `DefaultPorts(borshRpcPort, jsonRpcPort)` of
  two functions from `NetworkType` to a port. It is passed to the resolver, so every
  property holds for every table.
- The `ContextualNetAddress` text parser is a parameter of type
  `string -> Result<ContextualNetAddress, AddrParseError>`. Every parser
  property holds for every such function.

## Model

| member | source | states |
|---|---|---|
| `WrpcAddress.ToAddress` | rpc/wrpc/server/src/address.rs:16-44 | the result always carries a port; its host is the one the specification names (127.0.0.1, 0.0.0.0 or the custom address's IP); its port is the custom address's own when present, otherwise the default port for the network type and encoding, chosen the same way in all three branches |
| `Networking.ContextualNetAddress.WithPort` | rpc/wrpc/server/src/address.rs:38 | `with_port` returns a copy with the same IP and the given port, which is then specified |
| `WrpcAddressProperties.DefaultPortFollowsEncoding` | rpc/wrpc/server/src/address.rs:19-21 | Borsh selects `default_borsh_rpc_port(network)`; SerdeJson selects `default_json_rpc_port(network)` |
| `WrpcAddressProperties.ResolveDefault` | rpc/wrpc/server/src/address.rs:18-23 | `Default` resolves to 127.0.0.1 with the default port of the network type and encoding |
| `WrpcAddressProperties.ResolvePublic` | rpc/wrpc/server/src/address.rs:25-30 | `Public` resolves to 0.0.0.0 with the default port of the network type and encoding |
| `WrpcAddressProperties.ExplicitPortWins` | rpc/wrpc/server/src/address.rs:39-41 | a custom address with a port resolves to itself under every network type and encoding |
| `WrpcAddressProperties.MissingPortIsFilled` | rpc/wrpc/server/src/address.rs:33-38 | a custom address without a port keeps its IP and takes the default port |
| `WrpcAddressProperties.ResolvedIsFixedPoint` | rpc/wrpc/server/src/address.rs:32-42 | resolving `Custom(to_address(x, n, e))` under any other environment returns `to_address(x, n, e)` unchanged |
| `WrpcAddressProperties.ResolvedAddressesArePortSpecified` | rpc/wrpc/server/src/address.rs:16-44 | an address is the result of some resolution under a given environment if and only if it carries a port |
| `WrpcAddressProperties.EnvironmentMattersOnlyThroughDefaultPort` | rpc/wrpc/server/src/address.rs:16-44 | two environments with the same default port resolve every specification alike; a specification without its own port resolves differently when the default ports differ |
| `WrpcAddress.FromStr` | rpc/wrpc/server/src/address.rs:47-59 | the result is `Default` exactly for the text `default` and `Public` exactly for `public`, so a failure never falls back to a keyword; a `Custom` result holds what the address parser returned; an error is the address parser's error unchanged |
| `WrpcAddressProperties.NonKeywordParsesAsDelegate` | rpc/wrpc/server/src/address.rs:53-56 | for any text other than the keywords, the result is `Custom(a)` exactly when the address parser returns `a`, and an error exactly when the parser fails, with the same error |
| `WrpcAddressProperties.KeywordsAreCaseSensitive` | rpc/wrpc/server/src/address.rs:50-52 | `Default` and `Public` are not keywords: when the address parser rejects them, parsing fails with the parser's error |
| `WrpcAddressProperties.CustomRoundTrip` | rpc/wrpc/server/src/address.rs:49-57 | if the address parser rejects both keywords and reads back the formatted form of an address, that formatted form parses as `Custom` of the same address |
| `WrpcAddress.TryFromStr` | rpc/wrpc/server/src/address.rs:61-67 | `TryFrom<&str>` gives the same result as `from_str` on the same text |
| `WrpcAddress.TryFromString` | rpc/wrpc/server/src/address.rs:69-75 | `TryFrom<String>` gives the same result as `from_str` on the string's text |
| `WrpcAddressProperties.TestCustom` | rpc/wrpc/server/src/address.rs:83-175 | given the address parser's readings of `1.2.3.4:8080` and `1.2.3.4`, the first resolves to 1.2.3.4:8080 on mainnet with Borsh, and the second resolves to 1.2.3.4 with the Borsh or JSON default port of every network type |

## Left out

- The serde `Deserialize` derive and its `rename` attribute (lines 7-8): their behaviour belongs to the serde library.
- The text round trip `format!("{host}:{port}").parse().unwrap()` (lines 23 and 30) is modelled as building the address from 127.0.0.1 or 0.0.0.0 and `Some(port)` directly. The format and parse path and its `unwrap`, which cannot panic for a valid port, depend on the foreign address parser.
- The internals of the `ContextualNetAddress` and `IpAddress` parsers, the formatter and the contents of `AddrParseError`: these are foreign types. The parser and the formatter are function parameters, and the error is a record with an uninterpreted detail string.
- The port numbers of the `NetworkType` default-port table: they are defined in another crate, so the table is a parameter.
- Binding or opening sockets: none of it is in this file.

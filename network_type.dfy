/**
 * The network types of the consensus core and their default RPC ports. The
 * port numbers belong to another crate, so the table is a parameter: every
 * property proved here holds for every table.
 */
module NetworkTypes {
  import opened Networking

  datatype NetworkType = Mainnet | Testnet | Devnet | Simnet

  /** `NetworkType::default_borsh_rpc_port` and `NetworkType::default_json_rpc_port`. */
  datatype DefaultPorts = DefaultPorts(borshRpcPort: NetworkType -> u16, jsonRpcPort: NetworkType -> u16)
}

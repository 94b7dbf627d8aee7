/** The wire encodings a wRPC server can speak (`WrpcEncoding` of the server's service module). */
module WrpcService {
  datatype WrpcEncoding = Borsh | SerdeJson
}

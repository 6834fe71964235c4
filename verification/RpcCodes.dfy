/** The status codes that both ends of an RPC connection know. */
module RpcCodes {
  const RPC_PENDING := -1
  const ENCODING_ERROR := -2
  const PROCEDURE_UNAVAILABLE := -3
}

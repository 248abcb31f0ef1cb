/** Values shared by every part of the gateway model. */
module Basics {

  datatype Option<+T> = None | Some(value: T)

  datatype Result<+T, +E> = Ok(value: T) | Err(error: E)

  // Only equality of principals matters to the gateway.
  type Principal = nat
  type CanisterId = Principal

  const U64_MAX: nat := 0xFFFF_FFFF_FFFF_FFFF

  type u64 = n: nat | n <= U64_MAX

  datatype ClientKey = ClientKey(principal: Principal, nonce: u64)

  /** A message in the canister's queue, addressed to one client. */
  datatype CanisterOutputMessage = CanisterOutputMessage(clientKey: ClientKey, key: string, content: string)

  /** What a client receives: the message with the certificate of the batch that carried it. */
  datatype CanisterToClientMessage = CanisterToClientMessage(key: string, content: string, cert: string, tree: string)

  /** The canister's answer to one poll. */
  datatype CertifiedMessages = CertifiedMessages(
    messages: seq<CanisterOutputMessage>,
    cert: string,
    tree: string,
    isEndOfQueue: Option<bool>)

  /** A polled message on its way to the client it is addressed to. */
  datatype Packet = Packet(clientKey: ClientKey, message: CanisterToClientMessage)
}

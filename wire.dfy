/** The registration body exchanged between client and server. */
module Wire {
  import opened Basics

  /** `RegisterRequest`, declared with the same fields and JSON names by the client and by both
      server handlers. Decoding JSON into it is outside the model: a handler receives the result of
      the decoder, a request or the decoder's error. */
  datatype RegisterRequest = RegisterRequest(
    name: string,
    pubKey: string,      // base64 of the Ed25519 public key
    endpoint: string,
    timestamp: Int64,    // Unix seconds
    signature: string)   // base64 of the signature over the decimal timestamp
}

/** Client and server side of registration together: what the client signs is what the server
    verifies, so the request of a client with a well-formed key pair passes every check. */
module Handshake {
  import opened Basics
  import Identity
  import Registry
  import Decimal

  /** `strconv.FormatInt(ts, 10)` on the client and `fmt.Sprintf("%d", ts)` on the server give
      the same bytes. */
  lemma SignedIsVerified(ts: Int64)
    ensures Identity.SignedMessage(ts) == Registry.VerifiedMessage(ts)
  {
    Decimal.FormatIntIsSprint(ts);
  }

  /** A client whose signature scheme is sound for its key pair (every signature it makes is
      64 bytes and verifies under its 32-byte public key) is admitted by the `/register` handler:
      the reply is 200 with an empty body, and the entry is written under its name. */
  lemma ClientRequestPassesGate(name: string, endpoint: string, ts: Int64, pub: seq<byte>, priv: seq<byte>,
                                sign: Identity.Signer, verify: Registry.Verifier,
                                devices: map<string, Registry.Device>, now: Time)
    requires |pub| == Registry.PublicKeySize
    requires forall m :: |sign(priv, m)| == Registry.SignatureSize && verify(pub, m, sign(priv, m))
    ensures var req := Identity.BuildRequest(name, endpoint, ts, pub, sign(priv, Identity.SignedMessage(ts)));
            var r := Registry.RegisterStep(devices, Ok(req), verify, now);
            r.response == Registry.Response(200, "") && Registry.WrittenAt(devices, req, now, r.devices)
  {
    var sig := sign(priv, Identity.SignedMessage(ts));
    var req := Identity.BuildRequest(name, endpoint, ts, pub, sig);
    SignedIsVerified(ts);
    assert Registry.DecodedOfSize(req.pubKey, Registry.PublicKeySize) == Some(pub);
    assert Registry.DecodedOfSize(req.signature, Registry.SignatureSize) == Some(sig);
    assert Registry.Admitted(req, verify);
  }
}

/** The in-memory control server: the `devices` map guarded by `mu`, the registration handler that
    admits a device after checking its signed timestamp, and the handler that lists the devices. */
module Registry {
  import opened Basics
  import opened Wire
  import Text
  import Decimal
  import Base64
  import Maps

  /** The in-memory record of the server's `Device` type. */
  datatype Device = Device(name: string, pubKey: string, endpoint: string, ip: string, lastSeen: Time)

  const PublicKeySize := 32  // ed25519.PublicKeySize
  const SignatureSize := 64  // ed25519.SignatureSize

  /** `ed25519.Verify(publicKey, message, sig)`, left uninterpreted. */
  type Verifier = (seq<byte>, seq<byte>, seq<byte>) -> bool

  /** What the handler writes back: a status and a body. */
  datatype Response = Response(status: int, body: string)

  /** `http.Error(w, msg, code)`: the message followed by a newline. */
  function Error(msg: string, code: int): Response {
    Response(code, msg + "\n")
  }

  /** The base64 field decoded, when it decodes and is exactly `size` bytes long. */
  function DecodedOfSize(field: string, size: nat): (r: Option<seq<byte>>)
    ensures r.Some? ==> |r.value| == size && Base64.Decode(field) == r
    ensures r.None? ==> Base64.Decode(field).None? || |Base64.Decode(field).value| != size
  {
    match Base64.Decode(field)
    case Some(b) => if |b| == size then Some(b) else None
    case None => None
  }

  /** The bytes the signature must cover: `[]byte(fmt.Sprintf("%d", ts))`. */
  function VerifiedMessage(ts: Int64): (m: seq<byte>)
    ensures Decimal.Parse(Text.BytesToString(m)) == Some(ts as int)
  {
    var s := Decimal.Sprint(ts);
    Text.AsciiRoundTrip(s);
    Decimal.ParseSprint(ts);
    Text.AsciiBytes(s)
  }

  /** The address given to a device written when the map held `n` entries. */
  function AssignedIp(n: nat): (ip: string)
    ensures |ip| > 9 && ip[..9] == "100.64.0." && Decimal.Parse(ip[9..]) == Some(n + 1)
  {
    Decimal.ParseSprint(n + 1);
    var ip := "100.64.0." + Decimal.Sprint(n + 1);
    assert ip[9..] == Decimal.Sprint(n + 1);
    ip
  }

  /** Every check of the handler passes: key and signature decode to the Ed25519 sizes and the
      signature verifies over the decimal timestamp. */
  predicate Admitted(req: RegisterRequest, verify: Verifier) {
    && DecodedOfSize(req.pubKey, PublicKeySize).Some?
    && DecodedOfSize(req.signature, SignatureSize).Some?
    && verify(DecodedOfSize(req.pubKey, PublicKeySize).value, VerifiedMessage(req.timestamp),
              DecodedOfSize(req.signature, SignatureSize).value)
  }

  /** Every entry is stored under its own name. */
  ghost predicate NamesMatchKeys(devices: map<string, Device>) {
    forall k :: k in devices ==> devices[k].name == k
  }

  /** `after` is `before` with the entry for `req.name` (re)written and nothing else touched. */
  ghost predicate WrittenAt(before: map<string, Device>, req: RegisterRequest, now: Time, after: map<string, Device>) {
    && after.Keys == before.Keys + {req.name}
    && after[req.name] == Device(req.name, req.pubKey, req.endpoint, AssignedIp(|before|), now)
    && forall k :: k in before && k != req.name ==> after[k] == before[k]
  }

  /** The map after the handler stores `req`: its entry under its name, nothing else touched. */
  function Store(devices: map<string, Device>, req: RegisterRequest, now: Time): (after: map<string, Device>)
    ensures WrittenAt(devices, req, now, after)
    ensures |after| == if req.name in devices then |devices| else |devices| + 1
    ensures NamesMatchKeys(devices) ==> NamesMatchKeys(after)
  {
    devices[req.name := Device(req.name, req.pubKey, req.endpoint, AssignedIp(|devices|), now)]
  }

  datatype Outcome = Outcome(response: Response, devices: map<string, Device>)

  /** One call of the registration handler on the map `devices`: the checks run in order and the
      first that fails decides the answer; only a request passing all of them writes the map. */
  function RegisterStep(devices: map<string, Device>, body: Result<RegisterRequest>, verify: Verifier, now: Time): (r: Outcome)
    ensures r.response.status != 200 ==> r.devices == devices
    ensures body.Err? ==> r.response == Error("invalid request", 400)
    ensures body.Ok? && DecodedOfSize(body.value.pubKey, PublicKeySize).None? ==>
              r.response == Error("invalid public key", 400)
    ensures body.Ok? && DecodedOfSize(body.value.pubKey, PublicKeySize).Some?
            && DecodedOfSize(body.value.signature, SignatureSize).None? ==>
              r.response == Error("invalid signature", 400)
    ensures body.Ok? && DecodedOfSize(body.value.pubKey, PublicKeySize).Some?
            && DecodedOfSize(body.value.signature, SignatureSize).Some? && !Admitted(body.value, verify) ==>
              r.response == Error("signature verification failed", 401)
    ensures body.Ok? && Admitted(body.value, verify) ==>
              r.response == Response(200, "") && WrittenAt(devices, body.value, now, r.devices)
              && |r.devices| == (if body.value.name in devices then |devices| else |devices| + 1)
    ensures NamesMatchKeys(devices) ==> NamesMatchKeys(r.devices)
  {
    match body
    case Err(_) => Outcome(Error("invalid request", 400), devices)
    case Ok(req) =>
      var key := DecodedOfSize(req.pubKey, PublicKeySize);
      if key.None? then Outcome(Error("invalid public key", 400), devices)
      else
        var sig := DecodedOfSize(req.signature, SignatureSize);
        if sig.None? then Outcome(Error("invalid signature", 400), devices)
        else if !verify(key.value, VerifiedMessage(req.timestamp), sig.value) then
          Outcome(Error("signature verification failed", 401), devices)
        else
          Outcome(Response(200, ""), Store(devices, req, now))
  }

  /** The server's `devices` map, which every handler uses under `mu`. */
  class DeviceRegistry {
    var devices: map<string, Device>

    ghost predicate Valid()
      reads this
    {
      NamesMatchKeys(devices)
    }

    constructor ()
      ensures Valid() && devices == map[]
    {
      devices := map[];
    }

    /** `registerHandler`. */
    method Register(body: Result<RegisterRequest>, verify: Verifier, now: Time) returns (resp: Response)
      requires Valid()
      modifies this
      ensures Valid()
      ensures Outcome(resp, devices) == RegisterStep(old(devices), body, verify, now)
    {
      if body.Err? {
        resp := Error("invalid request", 400);
        return;
      }
      var req := body.value;
      var pubKeyBytes := Base64.Decode(req.pubKey);
      if pubKeyBytes.None? || |pubKeyBytes.value| != PublicKeySize {
        resp := Error("invalid public key", 400);
        return;
      }
      var sigBytes := Base64.Decode(req.signature);
      if sigBytes.None? || |sigBytes.value| != SignatureSize {
        resp := Error("invalid signature", 400);
        return;
      }
      var msg := VerifiedMessage(req.timestamp);
      if !verify(pubKeyBytes.value, msg, sigBytes.value) {
        resp := Error("signature verification failed", 401);
        return;
      }
      devices := devices[req.name := Device(req.name, req.pubKey, req.endpoint, AssignedIp(|devices|), now)];
      resp := Response(200, "");
    }

    /** `peerListHandler`: the entries copied verbatim into a list, in map order. */
    method PeerList() returns (peers: seq<Device>)
      ensures Maps.IsListing(peers, devices)
      ensures |peers| == |devices|
      ensures forall d :: d in peers <==> d in devices.Values
    {
      peers := Maps.ListValues(devices);
      Maps.ListingContents(peers, devices);
    }
  }

  /** Addresses are not unique: after A, B, A again and then C register, A and C both hold
      "100.64.0.3", because the suffix is the entry count plus one and the second write of A
      did not grow the map. */
  lemma AddressesCanCollide(a: RegisterRequest, b: RegisterRequest, c: RegisterRequest, verify: Verifier,
                            t1: Time, t2: Time, t3: Time, t4: Time)
    requires a.name != b.name && b.name != c.name && a.name != c.name
    requires Admitted(a, verify) && Admitted(b, verify) && Admitted(c, verify)
    ensures
      var d1 := RegisterStep(map[], Ok(a), verify, t1).devices;
      var d2 := RegisterStep(d1, Ok(b), verify, t2).devices;
      var d3 := RegisterStep(d2, Ok(a), verify, t3).devices;
      var d4 := RegisterStep(d3, Ok(c), verify, t4).devices;
      d4[a.name].ip == d4[c.name].ip == AssignedIp(2)
  {
    var d1 := RegisterStep(map[], Ok(a), verify, t1).devices;
    var d2 := RegisterStep(d1, Ok(b), verify, t2).devices;
    var d3 := RegisterStep(d2, Ok(a), verify, t3).devices;
    assert |d1| == 1;
    assert |d2| == 2;
    assert |d3| == 2;
  }
}

/** The client's device identity (client/keygen.go): the Ed25519 key pair kept base64-encoded in
    `pubkey.txt` and `privkey.txt`, and the signed registration it sends to the server. */
module Identity {
  import opened Basics
  import opened Wire
  import Text
  import Base64
  import Decimal

  const PublicKeySize := 32   // ed25519.PublicKeySize
  const PrivateKeySize := 64  // ed25519.PrivateKeySize

  datatype KeyPair = KeyPair(pub: seq<byte>, priv: seq<byte>)

  /** A key file as the client finds it: absent (`os.Stat` fails), present but unreadable
      (`os.ReadFile` fails with the given error), or holding bytes. */
  datatype FileState = Absent | Unreadable(err: string) | Present(contents: seq<byte>)

  predicate Exists(f: FileState) {
    !f.Absent?
  }

  /** `os.ReadFile` of the named file. */
  function ReadFile(path: string, f: FileState): (r: Result<seq<byte>>)
    ensures r.Ok? <==> f.Present?
    ensures r.Ok? ==> r.value == f.contents
  {
    match f
    case Absent => Err("open " + path + ": no such file or directory")
    case Unreadable(e) => Err(e)
    case Present(b) => Ok(b)
  }

  /** `base64.StdEncoding.DecodeString(string(bytes.TrimSpace(b)))`. */
  function DecodeKeyFile(b: seq<byte>): (r: Result<seq<byte>>)
    ensures r.Ok? <==> Base64.Decode(Text.BytesToString(Text.TrimSpace(b))).Some?
    ensures r.Ok? ==> Some(r.value) == Base64.Decode(Text.BytesToString(Text.TrimSpace(b)))
  {
    match Base64.Decode(Text.BytesToString(Text.TrimSpace(b)))
    case Some(k) => Ok(k)
    case None => Err("illegal base64 data")
  }

  /** `loadKeys`: read both files, then decode both; the first failure wins. No length is
      checked, so a valid base64 file of any length is accepted as a key. */
  function LoadKeys(pubFile: FileState, privFile: FileState): (r: Result<KeyPair>)
    ensures r.Ok? <==> (pubFile.Present? && privFile.Present?
                        && DecodeKeyFile(pubFile.contents).Ok? && DecodeKeyFile(privFile.contents).Ok?)
    ensures r.Ok? ==> r.value == KeyPair(DecodeKeyFile(pubFile.contents).value, DecodeKeyFile(privFile.contents).value)
    ensures !pubFile.Present? ==> r == Err(ReadFile("pubkey.txt", pubFile).msg)
    ensures pubFile.Present? && !privFile.Present? ==> r == Err(ReadFile("privkey.txt", privFile).msg)
    ensures pubFile.Present? && privFile.Present? && DecodeKeyFile(pubFile.contents).Err? ==>
              r == Err(DecodeKeyFile(pubFile.contents).msg)
    ensures pubFile.Present? && privFile.Present? && DecodeKeyFile(pubFile.contents).Ok?
            && DecodeKeyFile(privFile.contents).Err? ==>
              r == Err(DecodeKeyFile(privFile.contents).msg)
  {
    match ReadFile("pubkey.txt", pubFile)
    case Err(e) => Err(e)
    case Ok(pubB64) =>
      match ReadFile("privkey.txt", privFile)
      case Err(e) => Err(e)
      case Ok(privB64) =>
        match DecodeKeyFile(pubB64)
        case Err(e) => Err(e)
        case Ok(pub) =>
          match DecodeKeyFile(privB64)
          case Err(e) => Err(e)
          case Ok(priv) => Ok(KeyPair(pub, priv))
  }

  /** What a key file holds once written: the ASCII bytes of the base64 encoding. */
  function Written(key: seq<byte>): (b: seq<byte>)
    ensures Text.Trimmed(b) && |b| == |Base64.Encode(key)|
  {
    Base64.EncodeIsPlainAscii(key);
    Text.AsciiBytes(Base64.Encode(key))
  }

  /** The bytes written read back as the encoding, and trimming leaves them alone. */
  lemma WrittenText(key: seq<byte>)
    ensures Text.BytesToString(Written(key)) == Base64.Encode(key)
    ensures Text.TrimSpace(Written(key)) == Written(key)
  {
    Base64.EncodeIsPlainAscii(key);
    Text.AsciiRoundTrip(Base64.Encode(key));
    Text.TrimSpaceOfTrimmed(Written(key));
  }

  /** A key file that holds the encoding of a key, with any ASCII whitespace around it (a
      trailing newline from an editor, say), decodes to that key. */
  lemma DecodePadded(w1: seq<byte>, key: seq<byte>, w2: seq<byte>)
    requires Text.AllSpace(w1) && Text.AllSpace(w2)
    ensures DecodeKeyFile(w1 + Written(key) + w2) == Ok(key)
  {
    Text.TrimSpaceOfPadded(w1, Written(key), w2);
    WrittenText(key);
    Base64.DecodeEncode(key);
  }

  /** Loading what was written gives the key pair back, whitespace around either file aside. */
  lemma LoadWritten(k: KeyPair, w1: seq<byte>, w2: seq<byte>, w3: seq<byte>, w4: seq<byte>)
    requires Text.AllSpace(w1) && Text.AllSpace(w2) && Text.AllSpace(w3) && Text.AllSpace(w4)
    ensures LoadKeys(Present(w1 + Written(k.pub) + w2), Present(w3 + Written(k.priv) + w4)) == Ok(k)
  {
    DecodePadded(w1, k.pub, w2);
    DecodePadded(w3, k.priv, w4);
  }

  /** The files exactly as `ensureKeysExist` writes them load back. */
  lemma LoadWrittenFiles(k: KeyPair)
    ensures LoadKeys(Present(Written(k.pub)), Present(Written(k.priv))) == Ok(k)
  {
    DecodeWritten(k.pub);
    DecodeWritten(k.priv);
  }

  lemma DecodeWritten(key: seq<byte>)
    ensures DecodeKeyFile(Written(key)) == Ok(key)
  {
    WrittenText(key);
    Base64.DecodeEncode(key);
  }

  /** The keys `ensureKeysExist` returns and the two files it leaves behind. */
  datatype KeysStep = KeysStep(result: Result<KeyPair>, pubFile: FileState, privFile: FileState)

  /** `ensureKeysExist`: load when both files exist; otherwise generate (`gen`, the outcome of
      `ed25519.GenerateKey`), write the public then the private file (`pubWriteErr` and
      `privWriteErr`, the outcome of each `os.WriteFile`), and return the generated pair. */
  function EnsureStep(pubFile: FileState, privFile: FileState, gen: Result<KeyPair>,
                      pubWriteErr: Option<string>, privWriteErr: Option<string>): (r: KeysStep)
    ensures Exists(pubFile) && Exists(privFile) ==>
              r.result == LoadKeys(pubFile, privFile) && r.pubFile == pubFile && r.privFile == privFile
    ensures !(Exists(pubFile) && Exists(privFile)) && r.result.Ok? ==>
              gen.Ok? && r.result == gen && pubWriteErr.None? && privWriteErr.None?
              && r.pubFile == Present(Written(gen.value.pub)) && r.privFile == Present(Written(gen.value.priv))
    ensures r.result.Ok? ==> LoadKeys(r.pubFile, r.privFile) == r.result
    ensures !(Exists(pubFile) && Exists(privFile)) ==>
              r.result == if gen.Err? then Err(gen.msg)
                          else if pubWriteErr.Some? then Err(pubWriteErr.value)
                          else if privWriteErr.Some? then Err(privWriteErr.value)
                          else gen
    ensures r.result.Err? ==> r.privFile == privFile
    ensures r.result.Err? ==>
              r.pubFile == if !(Exists(pubFile) && Exists(privFile)) && gen.Ok? && pubWriteErr.None?
                           then Present(Written(gen.value.pub)) else pubFile
  {
    if Exists(pubFile) && Exists(privFile) then KeysStep(LoadKeys(pubFile, privFile), pubFile, privFile)
    else match gen
      case Err(e) => KeysStep(Err(e), pubFile, privFile)
      case Ok(k) =>
        if pubWriteErr.Some? then KeysStep(Err(pubWriteErr.value), pubFile, privFile)
        else
          var pubWritten := Present(Written(k.pub));
          if privWriteErr.Some? then KeysStep(Err(privWriteErr.value), pubWritten, privFile)
          else
            LoadWrittenFiles(k);
            KeysStep(Ok(k), pubWritten, Present(Written(k.priv)))
  }

  /** Once `ensureKeysExist` has succeeded, every later call returns the same pair and writes
      nothing, whatever the generator would have produced. */
  lemma {:induction false} KeysStable(pubFile: FileState, privFile: FileState, gen: Result<KeyPair>,
                                      pubWriteErr: Option<string>, privWriteErr: Option<string>,
                                      gen': Result<KeyPair>, pubWriteErr': Option<string>, privWriteErr': Option<string>)
    requires EnsureStep(pubFile, privFile, gen, pubWriteErr, privWriteErr).result.Ok?
    ensures var s := EnsureStep(pubFile, privFile, gen, pubWriteErr, privWriteErr);
            EnsureStep(s.pubFile, s.privFile, gen', pubWriteErr', privWriteErr') == s
  {
    var s := EnsureStep(pubFile, privFile, gen, pubWriteErr, privWriteErr);
    assert LoadKeys(s.pubFile, s.privFile) == s.result;
    assert Exists(s.pubFile) && Exists(s.privFile);
    var t := EnsureStep(s.pubFile, s.privFile, gen', pubWriteErr', privWriteErr');
    assert t.result == LoadKeys(s.pubFile, s.privFile) && t.pubFile == s.pubFile && t.privFile == s.privFile;
  }

  /** A private write that fails after the public one leaves the new public file in place. */
  lemma PrivateWriteFails(privFile: FileState, k: KeyPair, e: string)
    ensures EnsureStep(Absent, privFile, Ok(k), None, Some(e)) == KeysStep(Err(e), Present(Written(k.pub)), privFile)
  {
  }

  lemma LoadsWhenBothExist(pubFile: FileState, privFile: FileState, gen: Result<KeyPair>,
                           pubWriteErr: Option<string>, privWriteErr: Option<string>)
    requires Exists(pubFile) && Exists(privFile)
    ensures EnsureStep(pubFile, privFile, gen, pubWriteErr, privWriteErr).result == LoadKeys(pubFile, privFile)
  {
  }

  /** A failed private write after a good public write leaves the new public key beside an old
      private key file; the next call loads that mismatched pair instead of generating one. */
  lemma MismatchAfterPrivateWriteFails(prev: KeyPair, k: KeyPair, e: string, gen': Result<KeyPair>,
                                       pubWriteErr': Option<string>, privWriteErr': Option<string>)
    ensures EnsureStep(Absent, Present(Written(prev.priv)), Ok(k), None, Some(e))
         == KeysStep(Err(e), Present(Written(k.pub)), Present(Written(prev.priv)))
    ensures EnsureStep(Present(Written(k.pub)), Present(Written(prev.priv)), gen', pubWriteErr', privWriteErr').result
         == Ok(KeyPair(k.pub, prev.priv))
  {
    var pubW, privW := Present(Written(k.pub)), Present(Written(prev.priv));
    PrivateWriteFails(privW, k, e);
    LoadsWhenBothExist(pubW, privW, gen', pubWriteErr', privWriteErr');
    LoadWrittenFiles(KeyPair(k.pub, prev.priv));
  }

  /** The bytes signed: `[]byte(strconv.FormatInt(timestamp, 10))`. They read back as the
      timestamp. */
  function SignedMessage(ts: Int64): (m: seq<byte>)
    ensures Decimal.Parse(Text.BytesToString(m)) == Some(ts as int)
  {
    Decimal.FormatIntIsSprint(ts);
    Decimal.ParseSprint(ts);
    Text.AsciiRoundTrip(Decimal.Sprint(ts));
    Text.AsciiBytes(Decimal.FormatInt10(ts))
  }

  /** The request body the client marshals: key and signature base64-encoded, which the server
      decodes back to exactly those bytes. */
  function BuildRequest(name: string, endpoint: string, ts: Int64, pub: seq<byte>, sig: seq<byte>): (r: RegisterRequest)
    ensures r.name == name && r.endpoint == endpoint && r.timestamp == ts
    ensures Base64.Decode(r.pubKey) == Some(pub) && Base64.Decode(r.signature) == Some(sig)
  {
    Base64.DecodeEncode(pub);
    Base64.DecodeEncode(sig);
    RegisterRequest(name, Base64.Encode(pub), endpoint, ts, Base64.Encode(sig))
  }

  /** `ed25519.Sign(privateKey, message)`, left uninterpreted; it panics unless the private key
      has 64 bytes. */
  type Signer = (seq<byte>, seq<byte>) -> seq<byte>

  /** The HTTP client's answer to a POST: a transport error, or a status and a body. */
  datatype PostReply = TransportError(err: string) | Reply(status: int, body: string)

  /** `http.Post(url, "application/json", body)`, left uninterpreted. */
  type Poster = (string, RegisterRequest) -> PostReply

  datatype RegisterOutcome = Registered | Failed(msg: string) | SignPanicked

  class KeyFiles {
    var pubFile: FileState
    var privFile: FileState

    constructor (pubFile: FileState, privFile: FileState)
      ensures this.pubFile == pubFile && this.privFile == privFile
    {
      this.pubFile := pubFile;
      this.privFile := privFile;
    }

    /** `ensureKeysExist` over the two files. A failed write is taken to leave that file as it was. */
    method EnsureKeysExist(gen: Result<KeyPair>, pubWriteErr: Option<string>, privWriteErr: Option<string>)
      returns (r: Result<KeyPair>)
      requires gen.Ok? ==> |gen.value.pub| == PublicKeySize && |gen.value.priv| == PrivateKeySize
      modifies this
      ensures KeysStep(r, pubFile, privFile) == EnsureStep(old(pubFile), old(privFile), gen, pubWriteErr, privWriteErr)
    {
      if Exists(pubFile) && Exists(privFile) {
        r := LoadKeys(pubFile, privFile);
        return;
      }
      if gen.Err? {
        return Err(gen.msg);
      }
      if pubWriteErr.Some? {
        return Err(pubWriteErr.value);
      }
      pubFile := Present(Written(gen.value.pub));
      if privWriteErr.Some? {
        return Err(privWriteErr.value);
      }
      privFile := Present(Written(gen.value.priv));
      r := Ok(gen.value);
    }

    /** `registerDevice`: obtain the keys, sign the decimal timestamp `now`, post the request
        to `server + "/register"` and report the server's verdict. `sent` is what was posted. */
    method RegisterDevice(name: string, endpoint: string, server: string, now: Int64,
                          gen: Result<KeyPair>, pubWriteErr: Option<string>, privWriteErr: Option<string>,
                          sign: Signer, post: Poster)
      returns (outcome: RegisterOutcome, sent: Option<RegisterRequest>)
      requires gen.Ok? ==> |gen.value.pub| == PublicKeySize && |gen.value.priv| == PrivateKeySize
      modifies this
      ensures var s := EnsureStep(old(pubFile), old(privFile), gen, pubWriteErr, privWriteErr);
              && pubFile == s.pubFile && privFile == s.privFile
              && (s.result.Err? ==> outcome == Failed("failed to load or generate keys: " + s.result.msg) && sent.None?)
              && (s.result.Ok? && |s.result.value.priv| != PrivateKeySize ==> outcome == SignPanicked && sent.None?)
              && (s.result.Ok? && |s.result.value.priv| == PrivateKeySize ==>
                    var k := s.result.value;
                    var req := BuildRequest(name, endpoint, now, k.pub, sign(k.priv, SignedMessage(now)));
                    && sent == Some(req)
                    && outcome == match post(server + "/register", req)
                                  case TransportError(e) => Failed(e)
                                  case Reply(status, body) =>
                                    if status != 200 then Failed("server error: " + body) else Registered)
    {
      var keys := EnsureKeysExist(gen, pubWriteErr, privWriteErr);
      if keys.Err? {
        return Failed("failed to load or generate keys: " + keys.msg), None;
      }
      var msg := SignedMessage(now);
      if |keys.value.priv| != PrivateKeySize {
        return SignPanicked, None;
      }
      var sig := sign(keys.value.priv, msg);
      var req := BuildRequest(name, endpoint, now, keys.value.pub, sig);
      sent := Some(req);
      var reply := post(server + "/register", req);
      match reply
      case TransportError(e) =>
        outcome := Failed(e);
      case Reply(status, body) =>
        if status != 200 {
          outcome := Failed("server error: " + body);
        } else {
          outcome := Registered;
        }
    }
  }
}

/** The client's encrypted peer cache: how the AES key is provisioned (keyring, then environment,
    then a freshly generated one) and the layout of the sealed file. AES-GCM itself is abstract. */
module PeerCache {
  import opened Basics
  import Base64
  import Text

  const KeySize := 32    // AES-256
  const NonceSize := 12  // gcm.NonceSize() of cipher.NewGCM

  /** `gcm.Seal(nil, nonce, plaintext, nil)` under a key, left uninterpreted. */
  type Sealer = (seq<byte>, seq<byte>, seq<byte>) -> seq<byte>

  /** A stored base64 value usable as the AES key: not empty, decodes, and is exactly 32 bytes. */
  function UsableKey(b64: string): (r: Option<seq<byte>>)
    ensures r.Some? <==> b64 != "" && Base64.Decode(b64).Some? && |Base64.Decode(b64).value| == KeySize
    ensures r.Some? ==> r == Base64.Decode(b64)
  {
    if b64 == "" then None
    else match Base64.Decode(b64)
      case Some(key) => if |key| == KeySize then Some(key) else None
      case None => None
  }

  datatype KeySource = Keyring | Environment

  /** The precedence of `getOrCreateAESKey` before it generates: the keyring value (None when
      `keyring.Get` fails) if usable, else the environment value if usable, else nothing. */
  function ChooseKey(keyring: Option<string>, env: string): (r: Option<(seq<byte>, KeySource)>)
    ensures r.Some? ==> |r.value.0| == KeySize
    ensures keyring.Some? && UsableKey(keyring.value).Some? ==> r == Some((UsableKey(keyring.value).value, Keyring))
    ensures (keyring.None? || UsableKey(keyring.value).None?) ==>
              r == if UsableKey(env).Some? then Some((UsableKey(env).value, Environment)) else None
  {
    if keyring.Some? && UsableKey(keyring.value).Some? then Some((UsableKey(keyring.value).value, Keyring))
    else if UsableKey(env).Some? then Some((UsableKey(env).value, Environment))
    else None
  }

  /** A key written to the keyring as base64 is the key the next call reads back. */
  lemma StoredKeyIsChosen(key: seq<byte>, env: string)
    requires |key| == KeySize
    ensures ChooseKey(Some(Base64.Encode(key)), env) == Some((key, Keyring))
  {
    Base64.DecodeEncode(key);
  }

  /** The `n` bytes `io.ReadFull` takes from a source that yields `stream` before failing
      (None: it fails at once); a short source is an error. */
  function ReadFull(stream: Option<seq<byte>>, n: nat): (r: Option<seq<byte>>)
    ensures r.Some? ==> |r.value| == n
  {
    if stream.Some? && |stream.value| >= n then Some(stream.value[..n]) else None
  }

  /** `aes.NewCipher` accepts 16-, 24- and 32-byte keys. */
  predicate AesKeyLength(key: seq<byte>) {
    |key| == 16 || |key| == 24 || |key| == 32
  }

  /** The file contents: the nonce, then the sealed plaintext (`gcm.Seal(nonce, nonce, p, nil)`
      appends to its first argument). */
  function Blob(nonce: seq<byte>, sealed: seq<byte>): (b: seq<byte>)
    requires |nonce| == NonceSize
    ensures |b| == NonceSize + |sealed| && b[..NonceSize] == nonce && b[NonceSize..] == sealed
  {
    nonce + sealed
  }

  /** The client's durable state: the keyring entry meshnet/peerskey and the file peers.json.enc. */
  class ClientStore {
    var keyring: Option<string>
    var cacheFile: Option<seq<byte>>

    constructor (keyring: Option<string>, cacheFile: Option<seq<byte>>)
      ensures this.keyring == keyring && this.cacheFile == cacheFile
    {
      this.keyring := keyring;
      this.cacheFile := cacheFile;
    }

    /** `getOrCreateAESKey`. `keyringUp` says whether the keyring answers (`Get` and `Set` both
        fail when it does not); `random` is what `rand.Read` yields. None is `log.Fatalf`: the
        process ends. The printed line is returned in `printed`. */
    method GetOrCreateAESKey(env: string, keyringUp: bool, random: Option<seq<byte>>)
      returns (key: Option<seq<byte>>, printed: Option<string>)
      modifies this`keyring
      ensures key.Some? ==> |key.value| == KeySize
      ensures var chosen := ChooseKey(if keyringUp then old(keyring) else None, env);
              if chosen.Some? then
                key == Some(chosen.value.0) && printed == None && keyring == old(keyring)
              else if ReadFull(random, KeySize).None? then
                key == None && printed == None && keyring == old(keyring)
              else
                var generated := ReadFull(random, KeySize).value;
                key == Some(generated)
                && (keyringUp ==> keyring == Some(Base64.Encode(generated)) && printed == None)
                && (!keyringUp ==> keyring == old(keyring) && printed == Some(Base64.Encode(generated)))
    {
      printed := None;
      var got := if keyringUp then keyring else None;
      var chosen := ChooseKey(got, env);
      if chosen.Some? {
        return Some(chosen.value.0), None;
      }
      var generated := ReadFull(random, KeySize);
      if generated.None? {
        return None, None;
      }
      var keyB64 := Base64.Encode(generated.value);
      if keyringUp {
        keyring := Some(keyB64);
      } else {
        printed := Some(keyB64);
      }
      key := generated;
    }

    /** `saveEncryptedPeers`, given the JSON of the peer list (None: `json.Marshal` failed), the
        nonce source, and whether `os.WriteFile` succeeds. The file is replaced only when every
        step succeeds; `fatal` is a key-generation failure, which ends the process. */
    method SaveEncryptedPeers(plaintext: Option<seq<byte>>, env: string, keyringUp: bool,
                              keyRandom: Option<seq<byte>>, nonceRandom: Option<seq<byte>>,
                              seal: Sealer, writeOk: bool) returns (fatal: bool)
      modifies this
      ensures var chosen := ChooseKey(if keyringUp then old(keyring) else None, env);
              var key := if chosen.Some? then Some(chosen.value.0) else ReadFull(keyRandom, KeySize);
              && fatal == key.None?
              && keyring == (if chosen.None? && key.Some? && keyringUp then Some(Base64.Encode(key.value)) else old(keyring))
              && var nonce := ReadFull(nonceRandom, NonceSize);
                 cacheFile == if !fatal && plaintext.Some? && nonce.Some? && writeOk
                              then Some(Blob(nonce.value, seal(key.value, nonce.value, plaintext.value)))
                              else old(cacheFile)
    {
      fatal := false;
      var key, _ := GetOrCreateAESKey(env, keyringUp, keyRandom);
      if key.None? {
        return true;
      }
      if plaintext.None? {
        return;
      }
      if !AesKeyLength(key.value) {
        return;
      }
      var nonce := ReadFull(nonceRandom, NonceSize);
      if nonce.None? {
        return;
      }
      var ciphertext := Blob(nonce.value, seal(key.value, nonce.value, plaintext.value));
      if writeOk {
        cacheFile := Some(ciphertext);
      }
    }
  }
}

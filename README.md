# p2pnetwork control plane, modelled in Dafny

p2pnetwork is a small peer-to-peer mesh. A control server admits devices and hands out the list
of peers. Each client device keeps an Ed25519 identity, registers itself with the server, caches
the peer list encrypted on disk, pings its peers, and guards its own HTTP endpoint with a
middleware that only lets known peers through.

This project models the decision and update logic of that system. Cryptography, HTTP, JSON, the
database, the OS keyring, the environment, the file system, randomness and the clock enter as
explicit inputs or as uninterpreted function parameters.

The repository holds two server iterations that do not compile together, so each handler is
modelled as its own module over its own state:

- `Registry` (server/register.go, server/peer.go, state from server/main.go) is the in-memory
  server. `registerHandler` runs its checks in order: the JSON decode, the public key (base64 and
  32 bytes), the signature (base64 and 64 bytes), then Ed25519 verification of the decimal
  timestamp. The first check that fails decides the reply, and the `devices` map is written only
  when every check passes. `RegisterStep` is the reference function; the class method
  `DeviceRegistry.Register` is the imperative early-return handler, proved equal to it.
  `PeerList` copies the map into a list in an unspecified order.
- `Directory` (server/auth.go, with the store calls of server/db.go) is the database-backed
  server. The store is a map keyed by `PubKey`, which matches the unique index of shared/device.go.
  Registration checks the method and the body, then looks the key up and upserts. A known device
  only has `LastSeen` refreshed. An unknown one is inserted with the host and port of the remote
  address. No signature is checked.
- `PeerCache` (client/main.go) covers how the AES key is provisioned (keyring first, then the
  environment, then a freshly generated key) and the `nonce || Seal(...)` layout of
  `peers.json.enc`.
- `PeerView` (client/main.go) covers the client's peer list: the linear search by public key, the
  request middleware, and one pass of the ping sweep.
- `Identity` (client/keygen.go) covers the key files `pubkey.txt`/`privkey.txt`: load or
  generate, trimming before decoding, the signed decimal timestamp, and the registration request.
- `Handshake` connects client and server. The bytes the client signs are the bytes the server
  verifies, so a client with a sound key pair passes every check of the in-memory server.

Supporting modules model the library routines the core relies on, each with its own inverse or
reference:

- `Text`: `bytes.TrimSpace` and `strings.Split(s, " ")[1]`.
- `Decimal`: `fmt` `%d` and `strconv.FormatInt`, proved equal, with a parser as the inverse.
- `Base64`: RFC 4648 section 4 standard encoding with Go's decoder. Padding is required, CR and LF
  are skipped, and the unused trailing bits are not checked.
- `HostPort`: `net.SplitHostPort` and `net.JoinHostPort`.
- `Maps`: copying a Go map's values in an unspecified order.

## Model

| member | source | states |
|---|---|---|
| Registry.DecodedOfSize | server/register.go:38-49 | a field is accepted exactly when it base64-decodes to the required number of bytes, and then yields those bytes |
| Registry.VerifiedMessage | server/register.go:52 | the message the server verifies reads back as the request's timestamp in decimal |
| Registry.AssignedIp | server/register.go:66 | the assigned address is "100.64.0." followed by the decimal of the entry count before the write plus one |
| Registry.Store | server/register.go:62-68 | the write puts the request's name, key, endpoint, address and time under its name, touches no other entry, grows the map by one iff the name was new, and keeps every entry under its own name |
| Registry.RegisterStep | server/register.go:29-71 | each failing check yields its own message and status (400, 400, 400, 401) in order, and any non-200 reply leaves the map unchanged; a request passing every check yields 200 with an empty body and the keyed write |
| Registry.DeviceRegistry.constructor | server/main.go:19-22 | the server starts with an empty map |
| Registry.DeviceRegistry.Register | server/register.go:29-71 | the early-return handler gives the reply and new map of `RegisterStep` and keeps every entry under its name |
| Registry.DeviceRegistry.PeerList | server/peer.go:8-18 | the list holds each entry once, verbatim, in some order of the keys; its length is the entry count, its members are exactly the map's values, and the map is not modified |
| Registry.AddressesCanCollide | server/register.go:66 | after A, B, A and C register, A and C hold the same address, so addresses are not unique |
| Maps.ListValues | server/peer.go:12-15 | the range-and-append loop yields a listing of the map |
| Maps.ListingContents | server/peer.go:12-15 | a listing has one element per key and holds exactly the map's values |
| Maps.ListingsArePermutations | server/peer.go:13 | two listings of one map are permutations of each other, so iteration order changes only the order |
| Directory.RegistrationStep | server/auth.go:45-104 | 405 for a non-POST, 400 for a bad body, 500 for a lookup or upsert error with no change, otherwise the upsert; a failed listing after it answers 500 "failed to get peers" with the upsert kept; 200 exactly when every step succeeds; the store stays keyed by public key |
| Directory.Store.GetDeviceByPubKey | server/db.go:67-80 | the row for the key, none when it is missing, or the database error |
| Directory.Store.UpsertDevice | server/auth.go:77-82 | assumed to write the row under its public key, and to do nothing on failure |
| Directory.Store.GetAllDevices | server/db.go:97-106 | every row, in some order, or the database error |
| Directory.Store.Registration | server/auth.go:45-104 | the handler's status, message and new store are those of `RegistrationStep`; on 200 the reply carries the server key and a listing of the store read after the upsert |
| Directory.Store.Peers | server/auth.go:106-125 | 405 for a non-GET, 500 with the error, otherwise a listing of the whole store |
| Directory.KnownDeviceOnlyRefreshed | server/auth.go:77-79 | a known key keeps its record except `LastSeen`; the request's name, endpoint and address are ignored |
| Directory.UnknownDeviceInserted | server/auth.go:61-69 | an unknown key is inserted with the request's fields, the remote host and port, and `Connected` false; the store grows by one |
| Directory.RemoteAddressNeverRejects | server/auth.go:59 | the remote address never changes the status, because the split error is overwritten |
| Directory.ObservedAddress | server/auth.go:59 | a remote address in `host:port` form is stored with that host and port |
| PeerCache.UsableKey | client/main.go:105-110 | a stored value is usable iff it is not empty and decodes to exactly 32 bytes |
| PeerCache.ChooseKey | client/main.go:104-123 | a usable keyring value wins; otherwise a usable environment value; every chosen key is 32 bytes |
| PeerCache.StoredKeyIsChosen | client/main.go:130-133 | a key stored in the keyring as base64 is the one the next lookup chooses |
| PeerCache.ReadFull | client/main.go:91 | a successful read has exactly the requested length |
| PeerCache.Blob | client/main.go:96 | the file is the 12-byte nonce followed by the sealed text |
| PeerCache.ClientStore.GetOrCreateAESKey | client/main.go:103-142 | the chosen key if there is one; else a fresh 32-byte key, stored in the keyring when it answers and printed only when it does not; a failed read of randomness ends the process |
| PeerCache.ClientStore.SaveEncryptedPeers | client/main.go:70-101 | the file becomes `nonce || Seal(key, nonce, json)` only when the marshal, nonce read and write all succeed; otherwise it is unchanged |
| PeerView.Refreshed | client/main.go:191-196 | only `Connected` changes, and it is true iff the ping answered 200 |
| PeerView.Reach | client/main.go:182-185 | the sweep reaches every peer before the first whose request cannot be built |
| PeerView.Swept | client/main.go:180-197 | the length is unchanged and only `Connected` changes; reached peers are connected iff they answered 200; peers after a crash are untouched |
| PeerView.SweepIdempotent | client/main.go:180-197 | a second sweep against the same answers changes nothing |
| PeerView.ClientPeers.FindByPubKey | client/main.go:144-153 | the first peer with the key, or the error "Could not find peer" exactly when none has it |
| PeerView.ClientPeers.Middleware | client/main.go:155-176 | a header without a space panics; an unknown key gets 500 "failed to get device: Could not find peer"; a known key is forwarded; the peer list is never modified |
| PeerView.ClientPeers.CheckPeersOnce | client/main.go:180-197 | one pass rewrites the list to the sweep's result, and crashes exactly when some request cannot be built |
| Text.AsciiRoundTrip | client/keygen.go:92 | converting ASCII text to bytes and back gives the text |
| Text.TrimSpace | client/keygen.go:73 | the result has no white space at either end |
| Text.TrimSpaceOfPadded | client/keygen.go:73 | trimming removes exactly the white space around a trimmed slice |
| Text.SecondField | client/main.go:159 | there is no field exactly when the header has no space, which is where the index panics |
| Text.SecondFieldOfHeader | client/main.go:185 | the header "Bearer " followed by a key yields that key |
| Decimal.Sprint | server/register.go:52 | the rendering is ASCII and starts with '-' exactly for negative values |
| Decimal.ParseSprint | server/register.go:52 | reading the rendering back gives the number |
| Decimal.SprintInjective | server/register.go:52 | distinct timestamps render to distinct messages |
| Decimal.FormatBitsDecimal | client/keygen.go:92 | the least-significant-first digit loop writes the digits of the number |
| Decimal.FormatInt10 | client/keygen.go:92 | `strconv.FormatInt(i, 10)` reads back as `i`; FormatIntIsSprint proves it equal to the `%d` rendering |
| Decimal.FormatIntIsSprint | client/keygen.go:92 | `strconv.FormatInt(i, 10)` and `fmt` `%d` give the same string for every int64 |
| Base64.Encode | client/keygen.go:44-45 | the encoding has 4 characters per started 3-byte group, all from the alphabet or '=' |
| Base64.Decode | server/register.go:38-45 | `base64.StdEncoding.DecodeString`: CR and LF are skipped, an accepted input has a multiple of 4 other characters, and it yields 3 bytes per group less at most 2 of padding; DecodeEncode proves it inverts Encode |
| Base64.DecodeEncode | server/register.go:38 | decoding an encoding gives the bytes back, for every length |
| Base64.EncodeIsPlainAscii | client/keygen.go:73 | an encoding is ASCII, has no space, and is unaffected by trimming |
| HostPort.SplitHostPort | server/auth.go:59 | a split succeeds only with a last ':' present; the port holds no ':' and the host no bracket |
| HostPort.SplitJoin | server/auth.go:59 | splitting a joined host and port gives them back, bracketed IPv6 hosts included |
| Identity.ReadFile | client/keygen.go:64-71 | a read succeeds exactly for a present, readable file and yields its bytes |
| Identity.DecodeKeyFile | client/keygen.go:73-80 | the key is the base64 decoding of the trimmed file, without a length check |
| Identity.LoadKeys | client/keygen.go:63-83 | both files read and decode, or the first failure in source order: pubkey.txt read, privkey.txt read, pubkey.txt decode, privkey.txt decode |
| Identity.Written | client/keygen.go:44-50 | a written key file is already trimmed |
| Identity.DecodePadded | client/keygen.go:73-77 | a key file with white space around its encoding still decodes to the key |
| Identity.LoadWritten | client/keygen.go:63-83 | loading the written files gives the key pair back, whatever white space surrounds them |
| Identity.EnsureStep | client/keygen.go:25-56 | with both files present, it loads and writes nothing; with either missing, the result is the generator's error, else the public write's error, else the private write's error, else the freshly generated pair; success means the generated pair was written to both files; whatever it returns reloads from the files it leaves; on failure the private file is untouched, and pubkey.txt holds the new key exactly when its write succeeded before the private write failed |
| Identity.MismatchAfterPrivateWriteFails | client/keygen.go:47-52 | after a failed private write beside an old privkey.txt, the next call loads the new public key with the old private key |
| Identity.KeysStable | client/keygen.go:30-35 | after one success, every later call returns the same pair and writes nothing |
| Identity.SignedMessage | client/keygen.go:91-92 | the signed bytes read back as the timestamp |
| Identity.BuildRequest | client/keygen.go:95-101 | the request carries the name, endpoint and timestamp, and fields that decode to exactly the public key and signature |
| Identity.KeyFiles.EnsureKeysExist | client/keygen.go:25-56 | the method's result and files are those of `EnsureStep` |
| Identity.KeyFiles.RegisterDevice | client/keygen.go:85-121 | a key failure returns an error before anything is sent; a private key of the wrong length makes signing panic; otherwise the built, signed request is posted and any non-200 reply is an error |
| Handshake.SignedIsVerified | client/keygen.go:91-93 | the bytes the client signs are the bytes the in-memory server verifies |
| Handshake.ClientRequestPassesGate | server/register.go:37-56 | a client whose signatures verify under its 32-byte key gets 200 with its entry written |

## Left out

- Directory.Store.UpsertDevice: `UpsertDevice` is called but not defined in the server package's files (server/db.go, server/sqlconnect.go). Its effect (insert or replace the row keyed by `PubKey`, nothing on error) is an assumption.
- `UpdateDeviceByPubKey` and the rest of server/db.go are not modelled beyond the two store reads. Its lookup ignores the key filter.
- server/sqlconnect.go is not modelled. It does not compile (a misspelt type, an undefined type, and a second `db` and `initDB`).
- Ed25519 signing and verification, AES-GCM sealing, WireGuard key generation and `crypto/rand` are uninterpreted parameters or inputs. There is no decryption code to pair the sealing with.
- JSON encoding and decoding are not modelled. A handler receives the decoder's result, and the client posts the request value.
- The `json.Marshal` error branch of `registerDevice` is not modelled. Marshalling that struct cannot fail.
- HTTP serving and clients, the keyring, environment variables, files and the clock are inputs: `now`, `remoteAddr`, keyring contents, file states and ping answers.
- Logging and the peer printout are not modelled. The one exception is the key `getOrCreateAESKey` prints, which is returned because it is the only place that key appears.
- The goroutines, the `mu` mutex and the endless loops with `time.Sleep` are not modelled. One handler call, or one pass of the sweep, is modelled, sequentially.
- `getPeersFromServer` is not modelled. It is an endless loop of an HTTP GET and a JSON decode into the global `peers` (client/main.go:38,56), then a call of `saveEncryptedPeers`, which is modelled. `getDeviceByPubKey`, the request middleware and `checkPeers` read that global list. The model takes the decoded list as the argument of PeerView.ClientPeers' constructor, and does not model its replacement by a later fetch while the other goroutines read it.
- `handlePing`, `main` and `generateServerKeys` are not modelled. They are wiring and key generation.
- `main` at client/main.go:224 passes four arguments to the three-parameter `registerDevice`. The model follows the three-parameter definition.
- Device records omit the database `ID`. The database assigns it and no logic reads it.
- `registrationHandler` reads the clock twice. The model uses one `now` for both reads.
- Text.TrimSpace: trims ASCII white space only, not the Unicode spaces `bytes.TrimSpace` also removes.
- Identity.DecodeKeyFile: the error reads "illegal base64 data" without the byte offset Go appends.
- PeerCache.ClientStore.GetOrCreateAESKey: one `keyringUp` flag stands for both `keyring.Get` and `keyring.Set` working. A keyring that answers one and not the other is not modelled.
- PeerCache.ClientStore.SaveEncryptedPeers and Identity.KeyFiles.EnsureKeysExist: a failed `os.WriteFile` is taken to leave the file as it was. A partial write is not modelled.
- Registry.AssignedIp: the entry count is an unbounded integer. The suffix has no bound, so the address is not claimed to be a valid IPv4 address.
- Timestamp freshness, replay and rollback protection, a server-side liveness sweep and loading the peer cache are not modelled. The code does none of them, and server/auth.go:58 is a TODO.
- `string(bytes)` is modelled as one character per byte. Go keeps the raw bytes. The two agree on every input the model's decoders accept.
- In the sweep, an endpoint of the form `ip:port` (which `main` builds from its arguments) makes `http.NewRequest` fail. The sweep then dereferences a nil request. The model passes request building to the prober, whose `Unbuildable` answer stands for this case, and reports it as a crash.

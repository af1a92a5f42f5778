/** The database-backed control server: a store of device records keyed by public key, the
    registration handler that looks a key up and upserts, and the handler that lists the store.
    The database itself is abstract: a map from `PubKey` to the record (the unique index makes the
    key identify one row), and every database call may fail with an error given as an input. */
module Directory {
  import opened Basics
  import opened Wire
  import opened Models
  import HostPort
  import Maps

  /** Every record is stored under its own public key. */
  ghost predicate Keyed(rows: map<string, Device>) {
    forall k :: k in rows ==> rows[k].pubKey == k
  }

  /** The errors the database calls of one request return, if any (None: the call succeeds). */
  datatype Faults = Faults(lookup: Option<string>, upsert: Option<string>, list: Option<string>)

  /** The host and port of the remote address; both empty where `net.SplitHostPort` fails, whose
      error the handler overwrites with the lookup's. */
  function Observed(remoteAddr: string): HostPort.Address {
    match HostPort.SplitHostPort(remoteAddr)
    case Ok(a) => a
    case Err(_) => HostPort.Address("", "")
  }

  /** The record built for a device not seen before. */
  function NewDevice(req: RegisterRequest, remoteAddr: string, now: Time): Device {
    var a := Observed(remoteAddr);
    Device(req.name, req.pubKey, a.host, a.port, req.endpoint, now, false)
  }

  /** The store after the upsert `registrationHandler` performs for `req`. */
  function Upserted(rows: map<string, Device>, req: RegisterRequest, remoteAddr: string, now: Time): map<string, Device> {
    if req.pubKey in rows then rows[req.pubKey := rows[req.pubKey].(lastSeen := now)]
    else rows[req.pubKey := NewDevice(req, remoteAddr, now)]
  }

  datatype Step = Step(status: int, message: string, rows: map<string, Device>)

  /** Status, error message and new store of one `registrationHandler` call. */
  function RegistrationStep(rows: map<string, Device>, httpMethod: string, body: Result<RegisterRequest>,
                            remoteAddr: string, now: Time, faults: Faults): (r: Step)
    ensures r.status in {200, 400, 405, 500}
    ensures httpMethod != "POST" ==> r == Step(405, "method not allowed\n", rows)
    ensures httpMethod == "POST" && body.Err? ==> r == Step(400, "bad request: " + body.msg + "\n", rows)
    ensures httpMethod == "POST" && body.Ok? && faults.lookup.Some? ==>
              r == Step(500, "failed to get device: " + faults.lookup.value + "\n", rows)
    ensures httpMethod == "POST" && body.Ok? && faults.lookup.None? && faults.upsert.Some? ==>
              r == Step(500, "failed to upsert device: " + faults.upsert.value + "\n", rows)
    ensures httpMethod == "POST" && body.Ok? && faults.lookup.None? && faults.upsert.None? ==>
              r.rows == Upserted(rows, body.value, remoteAddr, now)
    ensures httpMethod == "POST" && body.Ok? && faults.lookup.None? && faults.upsert.None? && faults.list.Some? ==>
              r.status == 500 && r.message == "failed to get peers: " + faults.list.value + "\n"
    ensures r.status == 200 <==>
              httpMethod == "POST" && body.Ok? && faults.lookup.None? && faults.upsert.None? && faults.list.None?
    ensures Keyed(rows) ==> Keyed(r.rows)
  {
    if httpMethod != "POST" then Step(405, "method not allowed\n", rows)
    else if body.Err? then Step(400, "bad request: " + body.msg + "\n", rows)
    else if faults.lookup.Some? then Step(500, "failed to get device: " + faults.lookup.value + "\n", rows)
    else if faults.upsert.Some? then Step(500, "failed to upsert device: " + faults.upsert.value + "\n", rows)
    else
      var rows' := Upserted(rows, body.value, remoteAddr, now);
      if faults.list.Some? then Step(500, "failed to get peers: " + faults.list.value + "\n", rows')
      else Step(200, "", rows')
  }

  /** The answer of a handler: an `http.Error`, or a JSON body with status 200. */
  datatype Reply =
    | Failed(status: int, message: string)
    | Registered(serverPublicKey: seq<byte>, peers: seq<Device>)
    | PeerList(peers: seq<Device>)

  function StatusOf(r: Reply): int {
    if r.Failed? then r.status else 200
  }

  class Store {
    var rows: map<string, Device>

    ghost predicate Valid()
      reads this
    {
      Keyed(rows)
    }

    constructor ()
      ensures Valid() && rows == map[]
    {
      rows := map[];
    }

    /** `GetDeviceByPubKey`: the row with that key, none, or the database's error. */
    method GetDeviceByPubKey(pubKey: string, fault: Option<string>) returns (r: Result<Option<Device>>)
      ensures fault.Some? ==> r == Err(fault.value)
      ensures fault.None? ==> r == Ok(if pubKey in rows then Some(rows[pubKey]) else None)
    {
      if fault.Some? {
        return Err(fault.value);
      }
      if pubKey in rows {
        r := Ok(Some(rows[pubKey]));
      } else {
        r := Ok(None);
      }
    }

    /** `UpsertDevice`, which is not defined in the server package's files (server/db.go,
        server/sqlconnect.go): assumed to insert or replace the row whose key is `d.PubKey`, and
        to change nothing when it fails. */
    method UpsertDevice(d: Device, fault: Option<string>) returns (err: Option<string>)
      requires Valid()
      modifies this
      ensures Valid()
      ensures err == fault
      ensures rows == if fault.None? then old(rows)[d.pubKey := d] else old(rows)
    {
      err := fault;
      if fault.None? {
        rows := rows[d.pubKey := d];
      }
    }

    /** `GetAllDevices`: every row, in the database's order. */
    method GetAllDevices(fault: Option<string>) returns (r: Result<seq<Device>>)
      ensures fault.Some? ==> r == Err(fault.value)
      ensures fault.None? ==> r.Ok? && Maps.IsListing(r.value, rows)
    {
      if fault.Some? {
        return Err(fault.value);
      }
      var all := Maps.ListValues(rows);
      r := Ok(all);
    }

    /** `registrationHandler`. No signature or timestamp is checked. */
    method Registration(httpMethod: string, body: Result<RegisterRequest>, remoteAddr: string, now: Time,
                        serverPublicKey: seq<byte>, faults: Faults) returns (reply: Reply)
      requires Valid()
      modifies this
      ensures Valid()
      ensures var step := RegistrationStep(old(rows), httpMethod, body, remoteAddr, now, faults);
              rows == step.rows && StatusOf(reply) == step.status
              && (reply.Failed? ==> reply.message == step.message)
              && (step.status == 200 ==>
                    reply.Registered? && reply.serverPublicKey == serverPublicKey && Maps.IsListing(reply.peers, rows))
    {
      if httpMethod != "POST" {
        return Failed(405, "method not allowed\n");
      }
      if body.Err? {
        return Failed(400, "bad request: " + body.msg + "\n");
      }
      var req := body.value;
      var addr := Observed(remoteAddr);
      var newDevice := Device(req.name, req.pubKey, addr.host, addr.port, req.endpoint, now, false);
      var found := GetDeviceByPubKey(newDevice.pubKey, faults.lookup);
      if found.Err? {
        return Failed(500, "failed to get device: " + found.msg + "\n");
      }
      var err;
      if found.value.Some? {
        var device := found.value.value.(lastSeen := now);
        err := UpsertDevice(device, faults.upsert);
      } else {
        err := UpsertDevice(newDevice, faults.upsert);
      }
      if err.Some? {
        return Failed(500, "failed to upsert device: " + err.value + "\n");
      }
      var peerList := GetAllDevices(faults.list);
      if peerList.Err? {
        return Failed(500, "failed to get peers: " + peerList.msg + "\n");
      }
      reply := Registered(serverPublicKey, peerList.value);
    }

    /** `peersHandler`: a read of the whole store. */
    method Peers(httpMethod: string, fault: Option<string>) returns (reply: Reply)
      ensures httpMethod != "GET" ==> reply == Failed(405, "method not allowed\n")
      ensures httpMethod == "GET" && fault.Some? ==> reply == Failed(500, "Failed to get peers: " + fault.value + "\n")
      ensures httpMethod == "GET" && fault.None? ==> reply.PeerList? && Maps.IsListing(reply.peers, rows)
    {
      if httpMethod != "GET" {
        return Failed(405, "method not allowed\n");
      }
      var peerList := GetAllDevices(fault);
      if peerList.Err? {
        return Failed(500, "Failed to get peers: " + peerList.msg + "\n");
      }
      reply := PeerList(peerList.value);
    }
  }

  /** A device already in the store keeps every field but `LastSeen`: the name, endpoint and
      address of the new request are dropped, and `Connected` stays what it was. */
  lemma KnownDeviceOnlyRefreshed(rows: map<string, Device>, req: RegisterRequest, remoteAddr: string, now: Time, faults: Faults)
    requires Keyed(rows) && req.pubKey in rows
    requires faults.lookup.None? && faults.upsert.None?
    ensures var r := RegistrationStep(rows, "POST", Ok(req), remoteAddr, now, faults).rows;
            r.Keys == rows.Keys && r[req.pubKey] == rows[req.pubKey].(lastSeen := now)
            && forall k :: k in rows && k != req.pubKey ==> r[k] == rows[k]
  {
  }

  /** A device not in the store is inserted from the request and the observed address,
      not connected, and the store grows by one. */
  lemma UnknownDeviceInserted(rows: map<string, Device>, req: RegisterRequest, remoteAddr: string, now: Time, faults: Faults)
    requires req.pubKey !in rows
    requires faults.lookup.None? && faults.upsert.None?
    ensures var r := RegistrationStep(rows, "POST", Ok(req), remoteAddr, now, faults).rows;
            r.Keys == rows.Keys + {req.pubKey} && |r| == |rows| + 1
            && r[req.pubKey] == Device(req.name, req.pubKey, Observed(remoteAddr).host, Observed(remoteAddr).port,
                                       req.endpoint, now, false)
  {
  }

  /** The remote address never decides the status: a malformed one registers like any other. */
  lemma RemoteAddressNeverRejects(rows: map<string, Device>, httpMethod: string, body: Result<RegisterRequest>,
                                  a1: string, a2: string, now: Time, faults: Faults)
    ensures RegistrationStep(rows, httpMethod, body, a1, now, faults).status
         == RegistrationStep(rows, httpMethod, body, a2, now, faults).status
  {
  }

  /** A request from `net/http`'s `host:port` remote address is stored with that host and port. */
  lemma ObservedAddress(host: string, port: string)
    requires HostPort.Lacks(host, '[') && HostPort.Lacks(host, ']')
    requires HostPort.Lacks(port, ':') && HostPort.Lacks(port, '[') && HostPort.Lacks(port, ']')
    ensures Observed(HostPort.JoinHostPort(host, port)) == HostPort.Address(host, port)
  {
    HostPort.SplitJoin(host, port);
  }
}

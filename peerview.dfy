/** The client's in-memory peer list (`peers`): the lookup by public key, the request middleware
    that consults it, and one pass of the liveness sweep that pings every peer. */
module PeerView {
  import opened Basics
  import opened Models
  import Text

  /** What pinging a peer yields: the request could not be built (`http.NewRequest` failed, so
      the sweep dereferences a nil request and panics), the call failed, or a status code. */
  datatype Ping = Unbuildable | Unreachable | Answered(status: int)

  /** The network, left uninterpreted: the outcome of a GET of the given URL. */
  type Prober = string -> Ping

  function PingUrl(d: Device): string {
    d.endpoint + "/ping"
  }

  /** The peer with `Connected` set from the ping: true exactly for an answer with status 200. */
  function Refreshed(d: Device, p: Ping): (r: Device)
    ensures r.(connected := d.connected) == d
    ensures r.connected <==> p.Answered? && p.status == 200
  {
    d.(connected := p.Answered? && p.status == 200)
  }

  /** How far a sweep gets: the index of the first peer whose ping request cannot be built,
      or the whole list. */
  function Reach(ps: seq<Device>, probe: Prober): (n: nat)
    ensures n <= |ps|
    ensures forall i :: 0 <= i < n ==> !probe(PingUrl(ps[i])).Unbuildable?
    ensures n < |ps| ==> probe(PingUrl(ps[n])).Unbuildable?
    decreases |ps|
  {
    if |ps| == 0 then 0
    else if probe(PingUrl(ps[0])).Unbuildable? then 0
    else 1 + Reach(ps[1..], probe)
  }

  /** The list after one sweep: the peers it reached refreshed, the rest as they were. */
  function Swept(ps: seq<Device>, probe: Prober): (r: seq<Device>)
    ensures |r| == |ps|
    ensures forall i :: 0 <= i < |ps| ==> r[i].(connected := ps[i].connected) == ps[i]
    ensures forall i :: 0 <= i < Reach(ps, probe) ==>
              (r[i].connected <==> probe(PingUrl(ps[i])).Answered? && probe(PingUrl(ps[i])).status == 200)
    ensures forall i :: Reach(ps, probe) <= i < |ps| ==> r[i] == ps[i]
  {
    var n := Reach(ps, probe);
    seq(|ps|, i requires 0 <= i < |ps| => if i < n then Refreshed(ps[i], probe(PingUrl(ps[i]))) else ps[i])
  }

  /** A sweep changes no endpoint, so it reaches as far the second time. */
  lemma {:induction false} ReachOfSwept(ps: seq<Device>, probe: Prober)
    ensures Reach(Swept(ps, probe), probe) == Reach(ps, probe)
  {
    var r := Swept(ps, probe);
    var n := Reach(ps, probe);
    assert forall i :: 0 <= i < |ps| ==> PingUrl(r[i]) == PingUrl(ps[i]) by {
      forall i | 0 <= i < |ps| ensures PingUrl(r[i]) == PingUrl(ps[i]) {
        assert r[i].(connected := ps[i].connected) == ps[i];
      }
    }
    ReachDeterminedByUrls(r, ps, probe);
  }

  lemma {:induction false} ReachDeterminedByUrls(a: seq<Device>, b: seq<Device>, probe: Prober)
    requires |a| == |b| && forall i :: 0 <= i < |a| ==> PingUrl(a[i]) == PingUrl(b[i])
    ensures Reach(a, probe) == Reach(b, probe)
    decreases |a|
  {
    if |a| > 0 {
      assert PingUrl(a[0]) == PingUrl(b[0]);
      ReachDeterminedByUrls(a[1..], b[1..], probe);
    }
  }

  /** Sweeping again against the same network answers changes nothing. */
  lemma SweepIdempotent(ps: seq<Device>, probe: Prober)
    ensures Swept(Swept(ps, probe), probe) == Swept(ps, probe)
  {
    var r := Swept(ps, probe);
    ReachOfSwept(ps, probe);
    var r2 := Swept(r, probe);
    forall i | 0 <= i < |ps| ensures r2[i] == r[i] {
      assert r[i].(connected := ps[i].connected) == ps[i];
      assert r2[i].(connected := r[i].connected) == r[i];
    }
  }

  const NotFound := "Could not find peer"

  /** The body `http.Error` writes for a failed lookup. */
  function LookupFailure(err: string): string {
    "failed to get device: " + err + "\n"
  }

  /** What the middleware does with a request. */
  datatype GateOutcome =
    | Panicked                   // no space in the Authorization header: the index expression panics
    | Failed(status: int, message: string)
    | Forwarded                  // `next.ServeHTTP` is called

  class ClientPeers {
    var peers: seq<Device>

    constructor (peers: seq<Device>)
      ensures this.peers == peers
    {
      this.peers := peers;
    }

    /** Some peer has that public key. */
    predicate Known(pubKey: string)
      reads this
    {
      exists i :: 0 <= i < |peers| && peers[i].pubKey == pubKey
    }

    /** `getDeviceByPubKey`: the first peer with that key. */
    method FindByPubKey(pubKey: string) returns (r: Result<Device>)
      ensures r.Ok? ==> exists i :: 0 <= i < |peers| && peers[i] == r.value && peers[i].pubKey == pubKey
                                   && forall j :: 0 <= j < i ==> peers[j].pubKey != pubKey
      ensures r.Err? <==> !Known(pubKey)
      ensures r.Err? ==> r.msg == NotFound
    {
      var i := 0;
      while i < |peers|
        invariant 0 <= i <= |peers|
        invariant forall j :: 0 <= j < i ==> peers[j].pubKey != pubKey
      {
        var peer := peers[i];
        if peer.pubKey == pubKey {
          return Ok(peer);
        }
        i := i + 1;
      }
      r := Err(NotFound);
    }

    /** `requestMiddleware` for one request. The update of `LastSeen` and `Connected` is made on
        the loop variable's copy returned by the lookup, so `peers` is never written (the method
        has no `modifies` clause). */
    method Middleware(authHeader: string, now: Time) returns (outcome: GateOutcome)
      ensures outcome == Panicked <==> Text.SecondField(authHeader).None?
      ensures outcome == Forwarded <==> Text.SecondField(authHeader).Some? && Known(Text.SecondField(authHeader).value)
      ensures outcome.Failed? ==> outcome == Failed(500, LookupFailure(NotFound))
    {
      var field := Text.SecondField(authHeader);
      if field.None? {
        return Panicked;
      }
      var device := FindByPubKey(field.value);
      if device.Err? {
        return Failed(500, LookupFailure(device.msg));
      }
      var copy := device.value.(lastSeen := now, connected := true);  // updated, then dropped
      outcome := Forwarded;
    }

    /** One pass of `checkPeers`' outer loop: ping every peer in order and record the result in
        its `Connected` field; `crashed` is the panic on an unbuildable request, which stops the
        pass (and the process) there. */
    method CheckPeersOnce(probe: Prober) returns (crashed: bool)
      modifies this
      ensures crashed <==> Reach(old(peers), probe) < |old(peers)|
      ensures peers == Swept(old(peers), probe)
    {
      ghost var ps := peers;
      crashed := false;
      var i := 0;
      while i < |peers|
        invariant 0 <= i <= |peers| == |ps|
        invariant forall j :: 0 <= j < i ==> !probe(PingUrl(ps[j])).Unbuildable?
        invariant forall j :: 0 <= j < i ==> peers[j] == Refreshed(ps[j], probe(PingUrl(ps[j])))
        invariant forall j :: i <= j < |ps| ==> peers[j] == ps[j]
      {
        var result := probe(PingUrl(peers[i]));
        if result.Unbuildable? {
          crashed := true;
          assert Reach(ps, probe) == i;
          return;
        }
        peers := peers[i := Refreshed(peers[i], result)];
        i := i + 1;
      }
      assert Reach(ps, probe) == |ps|;
    }
  }
}

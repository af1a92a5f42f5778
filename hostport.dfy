/** `net.SplitHostPort`, which the database-backed registration handler applies to the request's
    remote address, and `net.JoinHostPort`, the form in which `net/http` reports that address. */
module HostPort {
  import opened Basics
  import Text

  datatype Address = Address(host: string, port: string)

  predicate Lacks(s: string, c: char) {
    forall i :: 0 <= i < |s| ==> s[i] != c
  }

  /** The closing checks shared by both forms: no '[' from `j` on, no ']' from `k` on. */
  function CheckBrackets(hostport: string, host: string, i: nat, j: nat, k: nat): Result<Address>
    requires i < |hostport| && j <= |hostport| && k <= |hostport|
  {
    if Text.IndexOf(hostport[j..], '[') >= 0 then Err("unexpected '[' in address")
    else if Text.IndexOf(hostport[k..], ']') >= 0 then Err("unexpected ']' in address")
    else Ok(Address(host, hostport[i + 1..]))
  }

  /** `net.SplitHostPort`: the port is what follows the last ':'; a host holding a ':' must be
      bracketed, and a bracketed host must be followed directly by that last ':'. */
  function SplitHostPort(hostport: string): (r: Result<Address>)
    ensures r.Ok? ==> Text.LastIndexOf(hostport, ':') >= 0
    ensures r.Ok? ==> Lacks(r.value.port, ':') && Lacks(r.value.host, '[') && Lacks(r.value.host, ']')
  {
    var i := Text.LastIndexOf(hostport, ':');
    if i < 0 then Err("missing port in address")
    else if hostport[0] == '[' then
      var end := Text.IndexOf(hostport, ']');
      if end < 0 then Err("missing ']' in address")
      else if end + 1 == |hostport| then Err("missing port in address")
      else if end + 1 != i then
        if hostport[end + 1] == ':' then Err("too many colons in address") else Err("missing port in address")
      else
        var r := CheckBrackets(hostport, hostport[1..end], i, 1, end + 1);
        assert r.Ok? ==> Lacks(hostport[1..end], '[') by {
          if r.Ok? {
            forall n | 0 <= n < end - 1 ensures hostport[1..end][n] != '[' {
              assert hostport[1..end][n] == hostport[1..][n];
            }
          }
        }
        r
    else
      var host := hostport[..i];
      if Text.IndexOf(host, ':') >= 0 then Err("too many colons in address")
      else
        var r := CheckBrackets(hostport, host, i, 0, 0);
        assert hostport[0..] == hostport;
        r
  }

  /** `net.JoinHostPort`: a host holding a ':' (an IPv6 literal) is bracketed. */
  function JoinHostPort(host: string, port: string): string {
    if Text.IndexOf(host, ':') >= 0 then "[" + host + "]:" + port else host + ":" + port
  }

  /** Splitting an address written by `JoinHostPort` recovers its host and port. */
  lemma SplitJoin(host: string, port: string)
    requires Lacks(host, '[') && Lacks(host, ']')
    requires Lacks(port, ':') && Lacks(port, '[') && Lacks(port, ']')
    ensures SplitHostPort(JoinHostPort(host, port)) == Ok(Address(host, port))
  {
    if Text.IndexOf(host, ':') >= 0 {
      SplitBracketed(host, port);
    } else {
      SplitPlain(host, port);
    }
  }

  lemma SplitBracketed(host: string, port: string)
    requires Lacks(host, '[') && Lacks(host, ']')
    requires Lacks(port, ':') && Lacks(port, '[') && Lacks(port, ']')
    ensures SplitHostPort("[" + host + "]:" + port) == Ok(Address(host, port))
  {
    var s := "[" + host + "]:" + port;
    var i := |host| + 2;
    assert s[i] == ':' && s[i + 1..] == port;
    assert Text.LastIndexOf(s, ':') == i;
    assert s[|host| + 1] == ']';
    assert Text.IndexOf(s, ']') == |host| + 1;
    assert s[1..|host| + 1] == host;
    assert s[1..] == host + "]:" + port;
    assert s[|host| + 2..] == ":" + port;
  }

  lemma SplitPlain(host: string, port: string)
    requires Lacks(host, ':') && Lacks(host, '[') && Lacks(host, ']')
    requires Lacks(port, ':') && Lacks(port, '[') && Lacks(port, ']')
    ensures SplitHostPort(host + ":" + port) == Ok(Address(host, port))
  {
    var s := host + ":" + port;
    var i := |host|;
    assert s[i] == ':' && s[i + 1..] == port;
    assert Text.LastIndexOf(s, ':') == i;
    assert s[..i] == host;
    assert s[0..] == s;
  }
}

/** What the proxy handshakes run on. */
module Connections {
  import opened Utf8

  type Port = p: int | 0 <= p < 65536

  /** A duplex connection: what the peer will have sent, and what it will still accept. */
  class Connection {
    var incoming: seq<Byte>
    var sent: seq<Byte>
    var accepts: nat

    constructor (incoming: seq<Byte>, accepts: nat)
      ensures this.incoming == incoming && sent == [] && this.accepts == accepts
    {
      this.incoming, sent, this.accepts := incoming, [], accepts;
    }

    method WriteAll(data: seq<Byte>) returns (ok: bool)
      modifies this
      ensures incoming == old(incoming)
      ensures ok <==> |data| <= old(accepts)
      ensures ok ==> sent == old(sent) + data && accepts == old(accepts) - |data|
    {
      if |data| <= accepts {
        sent, accepts := sent + data, accepts - |data|;
        return true;
      }
      sent, accepts := sent + data[..accepts], 0;
      return false;
    }

    method ReadExact(n: nat) returns (ok: bool, data: seq<Byte>)
      modifies this
      ensures sent == old(sent) && accepts == old(accepts)
      ensures ok <==> n <= |old(incoming)|
      ensures ok ==> data == old(incoming)[..n] && incoming == old(incoming)[n..]
      ensures !ok ==> incoming == []
    {
      if n <= |incoming| {
        ok, data := true, incoming[..n];
        incoming := incoming[n..];
      } else {
        ok, data := false, [];
        incoming := [];
      }
    }
  }
}

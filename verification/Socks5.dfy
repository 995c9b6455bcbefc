/**
 The SOCKS5 client handshake (RFC 1928, with the username/password method of RFC 1929). It must
 leave the connection exactly at the first byte behind the proxy's own messages, because the SSH
 stream starts there.
 */
module Socks5 {
  import opened Connections
  import opened Utf8
  import opened Wrappers

  datatype Target = Domain(host: seq<Byte>) | Ip4(octets: seq<Byte>) | Ip6(octets: seq<Byte>)

  datatype Failure =
    | Io
    | InvalidResponse
    | NoAcceptableMethod
    | CredentialsTooLong
    | AuthenticationFailed
    | TargetUnresolved
    | HostTooLong
    | Refused(reply: Byte)
    | InvalidAddressType

  // ---------------------------------------------------------------- the messages

  const GREETING_PLAIN: seq<Byte> := [5, 1, 0]
  const GREETING_AUTH: seq<Byte> := [5, 2, 0, 2]

  function Greeting(offersAuth: bool): seq<Byte> {
    if offersAuth then GREETING_AUTH else GREETING_PLAIN
  }

  /** A length as the single byte the cast keeps of it. */
  function LengthByte(s: seq<Byte>): Byte {
    |s| % 256
  }

  function AuthRequest(user: seq<Byte>, password: seq<Byte>): seq<Byte> {
    [1, LengthByte(user)] + user + [LengthByte(password)] + password
  }

  function Address(target: Target): seq<Byte> {
    match target
    case Domain(host) => [3, LengthByte(host)] + host
    case Ip4(octets) => [1] + octets
    case Ip6(octets) => [4] + octets
  }

  function ConnectRequest(target: Target, port: Port): seq<Byte> {
    [5, 1, 0] + Address(target) + [port / 256, port % 256]
  }

  predicate FitsByte(s: seq<Byte>) {
    |s| <= 255
  }

  /** An IP address has four or sixteen octets. */
  predicate WellFormed(target: Target) {
    match target
    case Domain(_) => true
    case Ip4(octets) => |octets| == 4
    case Ip6(octets) => |octets| == 16
  }

  function ToNat(b: Byte): nat {
    b
  }

  // ---------------------------------------------------------------- the server's messages

  /** The length of a reply's address, read from its type and its first byte. */
  function AddressLength(addressType: Byte, next: seq<Byte>): Option<nat> {
    match addressType
    case 1 => Some(4)
    case 3 => if next == [] then None else Some(1 + ToNat(next[0]))
    case 4 => Some(16)
    case _ => None
  }

  /** One complete reply of section 6 of RFC 1928 that reports success. */
  predicate SuccessReply(s: seq<Byte>) {
    && |s| >= 4 && s[0] == 5 && s[1] == 0
    && var n := AddressLength(s[3], s[4..]);
       n.Some? && |s| == 4 + n.value + 2
  }

  /** Everything a proxy says in a successful handshake, from the method reply on. */
  predicate SuccessTranscript(s: seq<Byte>) {
    && |s| >= 2 && s[0] == 5 && s[1] != 0xFF
    && if s[1] == 2 then |s| >= 4 && s[2..4] == [1, 0] && SuccessReply(s[4..]) else SuccessReply(s[2..])
  }

  /** A complete reply that reports success stands at the front of a byte stream. */
  ghost predicate HasReply(s: seq<Byte>) {
    exists n :: 0 <= n <= |s| && SuccessReply(s[..n])
  }

  /** So does everything a proxy says in a successful handshake. */
  ghost predicate HasTranscript(s: seq<Byte>): (has: bool)
    ensures has ==> |s| >= 2
  {
    exists n :: 0 <= n <= |s| && SuccessTranscript(s[..n])
  }

  /** At most one front of a byte stream is a complete reply, so the handshake's end is determined. */
  lemma TranscriptEndsOnce(s: seq<Byte>, m: nat, n: nat)
    requires m <= n <= |s| && SuccessTranscript(s[..m]) && SuccessTranscript(s[..n])
    ensures m == n
  {
    var a, b := s[..m], s[..n];
    var k := if s[1] == 2 then 4 else 2;
    assert a[k..] == b[k..][..m - k];
    assert a[k..][4..] == b[k..][4..][..m - k - 4];
  }

  // ---------------------------------------------------------------- the client

  datatype Proxy = Proxy(username: Option<seq<Byte>>, password: Option<seq<Byte>>)

  function OrEmpty(s: Option<seq<Byte>>): seq<Byte> {
    if s.Some? then s.value else []
  }

  function OffersAuth(proxy: Proxy): bool {
    OrEmpty(proxy.username) != []
  }

  function NegotiationBytes(proxy: Proxy, selected: Byte): seq<Byte> {
    Greeting(OffersAuth(proxy))
    + if selected == 2 then AuthRequest(OrEmpty(proxy.username), OrEmpty(proxy.password)) else []
  }

  /** What the client writes in a successful handshake when the server picks `selected`. */
  function ClientBytes(proxy: Proxy, selected: Byte, target: Target, port: Port): seq<Byte> {
    NegotiationBytes(proxy, selected) + ConnectRequest(target, port)
  }

  predicate CredentialsFit(proxy: Proxy) {
    FitsByte(OrEmpty(proxy.username)) && FitsByte(OrEmpty(proxy.password))
  }

  /** The lengths that must fit their length bytes. */
  predicate Encodable(proxy: Proxy, selected: Byte, target: Target) {
    && (selected == 2 ==> CredentialsFit(proxy))
    && (target.Domain? ==> FitsByte(target.host))
  }

  method Authenticate(stream: Connection, proxy: Proxy) returns (r: Result<(), Failure>)
    modifies stream
    ensures exists n :: 0 <= n <= |old(stream.incoming)| && stream.incoming == old(stream.incoming)[n..]
    ensures
      var request := AuthRequest(OrEmpty(proxy.username), OrEmpty(proxy.password));
      && (r.Ok? <==> && FitsByte(OrEmpty(proxy.username)) && FitsByte(OrEmpty(proxy.password))
                     && |request| <= old(stream.accepts)
                     && |old(stream.incoming)| >= 2 && old(stream.incoming)[..2] == [1, 0])
      && (r.Ok? ==> && stream.sent == old(stream.sent) + request
                    && stream.accepts == old(stream.accepts) - |request|
                    && stream.incoming == old(stream.incoming)[2..])
    ensures !(FitsByte(OrEmpty(proxy.username)) && FitsByte(OrEmpty(proxy.password))) ==>
              r == Err(CredentialsTooLong) && stream.sent == old(stream.sent)
    ensures r == Err(AuthenticationFailed) <==>
              && CredentialsFit(proxy)
              && |AuthRequest(OrEmpty(proxy.username), OrEmpty(proxy.password))| <= old(stream.accepts)
              && |old(stream.incoming)| >= 2 && old(stream.incoming)[..2] != [1, 0]
    ensures r.Err? && CredentialsFit(proxy) ==> r.error in [AuthenticationFailed, Io]
    ensures r == Err(Io) ==> stream.incoming == [] || old(stream.accepts) < HANDSHAKE_BYTES - 4 - 262
  {
    var username, password := OrEmpty(proxy.username), OrEmpty(proxy.password);
    assert stream.incoming == stream.incoming[0..];
    if |username| > 255 || |password| > 255 {
      return Err(CredentialsTooLong);
    }
    var request := [1, LengthByte(username)];
    request := request + username;
    request := request + [LengthByte(password)];
    request := request + password;
    var ok := stream.WriteAll(request);
    if !ok {
      return Err(Io);
    }
    var response;
    ok, response := stream.ReadExact(2);
    if !ok {
      assert [] == old(stream.incoming)[|old(stream.incoming)|..];
      return Err(Io);
    }
    if response != [1, 0] {
      return Err(AuthenticationFailed);
    }
    return Ok(());
  }

  method ReadBoundAddress(stream: Connection, addressType: Byte) returns (r: Result<(), Failure>)
    modifies stream
    ensures stream.sent == old(stream.sent) && stream.accepts == old(stream.accepts)
    ensures
      var n := AddressLength(addressType, old(stream.incoming));
      && (r.Ok? <==> n.Some? && n.value + 2 <= |old(stream.incoming)|)
      && (r.Ok? ==> stream.incoming == old(stream.incoming)[n.value + 2..])
    ensures exists n :: 0 <= n <= |old(stream.incoming)| && stream.incoming == old(stream.incoming)[n..]
    ensures r == Err(InvalidAddressType) <==> addressType !in [1, 3, 4]
    ensures r.Err? ==> r == Err(InvalidAddressType) || (r == Err(Io) && stream.incoming == [])
  {
    ghost var all := stream.incoming;
    assert all[|all|..] == [] && all[0..] == all;
    var ok, data := true, [];
    if addressType == 1 {
      ok, data := stream.ReadExact(6);
    } else if addressType == 3 {
      ok, data := stream.ReadExact(1);
      if ok {
        var length: nat := data[0];
        ok, data := stream.ReadExact(length + 2);
        assert all[1..][|all| - 1..] == [];
        assert ok ==> all[1..][length + 2..] == all[length + 3..];
      }
    } else if addressType == 4 {
      ok, data := stream.ReadExact(18);
    } else {
      return Err(InvalidAddressType);
    }
    return if ok then Ok(()) else Err(Io);
  }

  /** No handshake writes more: greeting, credentials and request with all lengths 255. */
  const HANDSHAKE_BYTES := 4 + 513 + 262

  /** The bytes of the method reply, with the auth reply when the server selects method 2. */
  predicate Negotiated(s: seq<Byte>) {
    |s| >= 2 && s[0] == 5 && s[1] != 0xFF && (s[1] == 2 ==> |s| >= 4 && s[2..4] == [1, 0])
  }

  function NegotiatedLength(selected: Byte): nat {
    if selected == 2 then 4 else 2
  }

  lemma NegotiationIsShort(proxy: Proxy, selected: Byte)
    requires selected == 2 ==> CredentialsFit(proxy)
    ensures |NegotiationBytes(proxy, selected)| <= HANDSHAKE_BYTES - 262
  {
  }

  /** The methods were sent and the server made a choice. */
  predicate Greeted(proxy: Proxy, accepts: nat, s: seq<Byte>) {
    |Greeting(OffersAuth(proxy))| <= accepts && |s| >= 2
  }

  /** The server asked for credentials that fit, and answered them. */
  predicate Answered(proxy: Proxy, accepts: nat, s: seq<Byte>) {
    && Greeted(proxy, accepts, s) && s[..2] == [5, 2] && CredentialsFit(proxy)
    && |NegotiationBytes(proxy, 2)| <= accepts && |s| >= 4
  }

  /** The server's choice was accepted, with its answer to the credentials when it asked for them. */
  predicate Agreed(proxy: Proxy, accepts: nat, s: seq<Byte>) {
    && Negotiated(s) && (s[1] == 2 ==> CredentialsFit(proxy))
    && |NegotiationBytes(proxy, s[1])| <= accepts
  }

  /** Which failure of the negotiation has which cause. */
  predicate Refusals(proxy: Proxy, accepts: nat, s: seq<Byte>, r: Result<Byte, Failure>) {
    && (r == Err(InvalidResponse) <==> Greeted(proxy, accepts, s) && s[0] != 5)
    && (r == Err(NoAcceptableMethod) <==> Greeted(proxy, accepts, s) && s[..2] == [5, 0xFF])
    && (r == Err(CredentialsTooLong) <==> Greeted(proxy, accepts, s) && s[..2] == [5, 2] && !CredentialsFit(proxy))
    && (r == Err(AuthenticationFailed) <==> Answered(proxy, accepts, s) && s[2..4] != [1, 0])
    && (r.Err? ==> r.error in [InvalidResponse, NoAcceptableMethod, CredentialsTooLong, AuthenticationFailed, Io])
    && (r.Ok? <==> Agreed(proxy, accepts, s))
  }

  /** The request was sent too, and the head of a reply came. */
  predicate Asked(proxy: Proxy, resolved: Option<Target>, port: Port, accepts: nat, s: seq<Byte>) {
    && Agreed(proxy, accepts, s)
    && resolved.Some? && Encodable(proxy, s[1], resolved.value)
    && |ClientBytes(proxy, s[1], resolved.value, port)| <= accepts
    && |s| >= NegotiatedLength(s[1]) + 4
  }

  /** Which failure of the handshake has which cause; the code of a refusal is passed on. */
  predicate Diagnosed(proxy: Proxy, resolved: Option<Target>, port: Port, accepts: nat, s: seq<Byte>,
      r: Result<(), Failure>)
  {
    && (Greeted(proxy, accepts, s) ==>
          && (s[0] != 5 ==> r == Err(InvalidResponse))
          && (s[..2] == [5, 0xFF] ==> r == Err(NoAcceptableMethod))
          && (s[..2] == [5, 2] && !CredentialsFit(proxy) ==> r == Err(CredentialsTooLong)))
    && (Answered(proxy, accepts, s) && s[2..4] != [1, 0] ==> r == Err(AuthenticationFailed))
    && (Agreed(proxy, accepts, s) && resolved.None? ==> r == Err(TargetUnresolved))
    && (Agreed(proxy, accepts, s) && resolved.Some? && resolved.value.Domain? && !FitsByte(resolved.value.host) ==>
          r == Err(HostTooLong))
    && (Asked(proxy, resolved, port, accepts, s) ==>
          var reply := s[NegotiatedLength(s[1])..];
          && (reply[0] != 5 ==> r == Err(InvalidResponse))
          && (reply[0] == 5 && reply[1] != 0 ==> r == Err(Refused(reply[1])))
          && (reply[..2] == [5, 0] && reply[3] !in [1, 3, 4] ==> r == Err(InvalidAddressType)))
  }

  lemma NegotiationFailed(proxy: Proxy, resolved: Option<Target>, port: Port, accepts: nat, s: seq<Byte>,
      error: Failure)
    requires Refusals(proxy, accepts, s, Err(error))
    ensures Diagnosed(proxy, resolved, port, accepts, s, Err(error))
  {
    hide Greeted, Answered, Agreed, CredentialsFit, FitsByte;
  }

  /** After the negotiation only the target and the reply can fail. */
  lemma NegotiationDone(proxy: Proxy, resolved: Option<Target>, port: Port, accepts: nat, s: seq<Byte>,
      selected: Byte, r: Result<(), Failure>)
    requires Refusals(proxy, accepts, s, Ok(selected))
    requires resolved.None? ==> r == Err(TargetUnresolved)
    requires resolved.Some? && resolved.value.Domain? && !FitsByte(resolved.value.host) ==> r == Err(HostTooLong)
    requires Asked(proxy, resolved, port, accepts, s) && ReplyFailure(s[NegotiatedLength(s[1])..]).Err? ==>
               r == ReplyFailure(s[NegotiatedLength(s[1])..])
    ensures Diagnosed(proxy, resolved, port, accepts, s, r)
  {
    hide Greeted, Answered, Agreed, CredentialsFit, FitsByte;
    if Asked(proxy, resolved, port, accepts, s) {
      var reply := s[NegotiatedLength(s[1])..];
      assert reply[..2] == [5, 0] ==> reply[0] == 5 && reply[1] == 0;
    }
  }

  /** Offers the methods, reads the server's choice and authenticates when it asks for it. */
  method Negotiate(stream: Connection, proxy: Proxy) returns (r: Result<Byte, Failure>)
    modifies stream
    ensures
      var all := old(stream.incoming);
      && (r.Ok? <==> && Negotiated(all) && (all[1] == 2 ==> CredentialsFit(proxy))
                     && |NegotiationBytes(proxy, all[1])| <= old(stream.accepts))
      && (r.Ok? ==> && r.value == all[1] && stream.incoming == all[NegotiatedLength(all[1])..]
                    && stream.sent == old(stream.sent) + NegotiationBytes(proxy, all[1])
                    && stream.accepts == old(stream.accepts) - |NegotiationBytes(proxy, all[1])|)
    ensures Refusals(proxy, old(stream.accepts), old(stream.incoming), r)
    ensures r == Err(Io) ==> stream.incoming == [] || old(stream.accepts) < HANDSHAKE_BYTES - 262
  {
    var hasAuth := OrEmpty(proxy.username) != [];
    var methods := if hasAuth then [5, 2, 0, 2] else [5, 1, 0];
    var ok := stream.WriteAll(methods);
    if !ok {
      return Err(Io);
    }
    var selected;
    ok, selected := stream.ReadExact(2);
    if !ok {
      return Err(Io);
    }
    if selected[0] != 5 {
      return Err(InvalidResponse);
    }
    if selected[1] == 0xFF {
      return Err(NoAcceptableMethod);
    }
    if selected[1] == 2 {
      ghost var rest := stream.incoming;
      var authenticated := Authenticate(stream, proxy);
      assert old(stream.incoming)[2..] == rest;
      assert |rest| >= 2 ==> rest[..2] == old(stream.incoming)[2..4] && rest[2..] == old(stream.incoming)[4..];
      if authenticated.Err? {
        return Err(authenticated.error);
      }
    }
    return Ok(selected[1]);
  }

  /** Encodes and sends the CONNECT request; a host name that does not fit its length byte is refused. */
  method SendRequest(stream: Connection, target: Target, port: Port) returns (r: Result<(), Failure>)
    modifies stream
    ensures stream.incoming == old(stream.incoming)
    ensures r.Ok? <==> && (target.Domain? ==> FitsByte(target.host))
                       && |ConnectRequest(target, port)| <= old(stream.accepts)
    ensures r.Ok? ==> stream.sent == old(stream.sent) + ConnectRequest(target, port)
    ensures target.Domain? && !FitsByte(target.host) ==> r == Err(HostTooLong) && stream.sent == old(stream.sent)
    ensures r.Err? && !(target.Domain? && !FitsByte(target.host)) ==> r == Err(Io)
    ensures r == Err(Io) && WellFormed(target) ==> old(stream.accepts) < 262
  {
    var request := [5, 1, 0];
    match target {
      case Domain(host) =>
        if |host| > 255 {
          return Err(HostTooLong);
        }
        request := request + [3];
        request := request + [LengthByte(host)];
        request := request + host;
      case Ip4(octets) =>
        request := request + [1];
        request := request + octets;
      case Ip6(octets) =>
        request := request + [4];
        request := request + octets;
    }
    request := request + [port / 256, port % 256];
    assert request == ConnectRequest(target, port);
    var ok := stream.WriteAll(request);
    return if ok then Ok(()) else Err(Io);
  }

  /**
   The handshake. It succeeds exactly when everything can be encoded and written and the
   server's bytes begin with a successful transcript; then it has consumed exactly that
   transcript, so the next incoming byte is the first SSH byte.
   */
  method Connect(stream: Connection, proxy: Proxy, resolved: Option<Target>,
      port: Port) returns (r: Result<(), Failure>)
    requires resolved.Some? ==> WellFormed(resolved.value)
    modifies stream
    ensures
      var all := old(stream.incoming);
      && (r.Ok? <==> && resolved.Some?
                     && HasTranscript(all)
                     && Encodable(proxy, all[1], resolved.value)
                     && |ClientBytes(proxy, all[1], resolved.value, port)| <= old(stream.accepts))
      && (r.Ok? ==> && stream.sent == old(stream.sent) + ClientBytes(proxy, all[1], resolved.value, port)
                    && |stream.incoming| <= |all|
                    && stream.incoming == all[|all| - |stream.incoming|..]
                    && SuccessTranscript(all[..|all| - |stream.incoming|]))
    ensures Diagnosed(proxy, resolved, port, old(stream.accepts), old(stream.incoming), r)
    ensures r == Err(Io) ==> stream.incoming == [] || old(stream.accepts) < HANDSHAKE_BYTES
  {
    hide SuccessReply, SuccessTranscript, HasReply, HasTranscript, AuthRequest, ConnectRequest, NegotiationBytes;
    hide FitsByte, Greeted, Answered, CredentialsFit, Refusals, Diagnosed, ReplyFailure;
    ghost var all, accepts := stream.incoming, stream.accepts;
    TranscriptIff(all);
    var selected := Negotiate(stream, proxy);
    if selected.Err? {
      NegotiationFailed(proxy, resolved, port, accepts, all, selected.error);
      return Err(selected.error);
    }
    NegotiationIsShort(proxy, all[1]);
    if resolved.None? {
      NegotiationDone(proxy, resolved, port, accepts, all, selected.value, Err(TargetUnresolved));
      return Err(TargetUnresolved);
    }
    r := SendRequest(stream, resolved.value, port);
    if r.Err? {
      NegotiationDone(proxy, resolved, port, accepts, all, selected.value, r);
      return;
    }
    BothSent(old(stream.sent), NegotiationBytes(proxy, all[1]), ConnectRequest(resolved.value, port));
    r := ReadReply(stream);
    if r.Ok? {
      TranscriptEnds(all, stream.incoming);
    }
    NegotiationDone(proxy, resolved, port, accepts, all, selected.value, r);
  }

  lemma BothSent(before: seq<Byte>, first: seq<Byte>, second: seq<Byte>)
    ensures before + first + second == before + (first + second)
  {
  }

  /** What the head of a reply that is no success says; the code of a refusal is passed on. */
  function ReplyFailure(s: seq<Byte>): Result<(), Failure> {
    if |s| < 4 then Ok(())
    else if s[0] != 5 then Err(InvalidResponse)
    else if s[1] != 0 then Err(Refused(s[1]))
    else if s[3] !in [1, 3, 4] then Err(InvalidAddressType)
    else Ok(())
  }

  /** Reads the reply of section 6: head, then the bound address its type announces. */
  method ReadReply(stream: Connection) returns (r: Result<(), Failure>)
    modifies stream
    ensures stream.sent == old(stream.sent)
    ensures r.Ok? ==>
              var n := |old(stream.incoming)| - |stream.incoming|;
              0 <= n && stream.incoming == old(stream.incoming)[n..] && SuccessReply(old(stream.incoming)[..n])
    ensures HasReply(old(stream.incoming)) <==> r.Ok?
    ensures ReplyFailure(old(stream.incoming)).Err? ==> r == ReplyFailure(old(stream.incoming))
    ensures ReplyFailure(old(stream.incoming)).Ok? && r.Err? ==> r == Err(Io)
    ensures r == Err(Io) ==> stream.incoming == []
  {
    ghost var all := stream.incoming;
    var ok, head := stream.ReadExact(4);
    if !ok {
      return Err(Io);
    }
    if head[0] != 5 {
      return Err(InvalidResponse);
    }
    if head[1] != 0 {
      return Err(Refused(head[1]));
    }
    r := ReadBoundAddress(stream, head[3]);
    ghost var length := AddressLength(all[3], all[4..]);
    if r.Ok? {
      assert all[4..][length.value + 2..] == all[4 + length.value + 2..];
      assert all[..4 + length.value + 2][4..] == all[4..][..length.value + 2];
    }
    forall n | 0 <= n <= |all| && SuccessReply(all[..n])
      ensures r.Ok?
    {
      assert all[..n][4..] == all[4..][..n - 4];
    }
  }

  lemma SliceOfSlice(s: seq<Byte>, k: nat, n: nat)
    requires k <= n <= |s|
    ensures s[..n][k..] == s[k..n] == s[k..][..n - k]
    ensures s[k..][n - k..] == s[n..]
  {
    assert s[..n][k..] == s[k..n];
    assert s[k..n] == s[k..][..n - k];
  }

  /** A transcript is the negotiation followed by one reply. */
  lemma TranscriptSplits(all: seq<Byte>, n: nat)
    requires n <= |all|
    ensures SuccessTranscript(all[..n]) <==>
              && Negotiated(all) && NegotiatedLength(all[1]) <= n
              && SuccessReply(all[NegotiatedLength(all[1])..][..n - NegotiatedLength(all[1])])
  {
    if |all| >= 2 && NegotiatedLength(all[1]) <= n {
      var k := NegotiatedLength(all[1]);
      SliceOfSlice(all, k, n);
      assert k == 4 ==> all[..n][2..4] == all[2..4];
    }
  }

  lemma TranscriptIff(all: seq<Byte>)
    ensures HasTranscript(all) <==> Negotiated(all) && HasReply(all[NegotiatedLength(all[1])..])
  {
    hide SuccessTranscript, SuccessReply;
    if n :| 0 <= n <= |all| && SuccessTranscript(all[..n]) {
      TranscriptSplits(all, n);
    }
    if Negotiated(all) {
      var k := NegotiatedLength(all[1]);
      if m :| 0 <= m <= |all[k..]| && SuccessReply(all[k..][..m]) {
        TranscriptSplits(all, k + m);
      }
    }
  }

  lemma TranscriptEnds(all: seq<Byte>, left: seq<Byte>)
    requires Negotiated(all)
    requires var rest := all[NegotiatedLength(all[1])..];
             && |left| <= |rest| && left == rest[|rest| - |left|..] && SuccessReply(rest[..|rest| - |left|])
    ensures |left| <= |all| && left == all[|all| - |left|..] && SuccessTranscript(all[..|all| - |left|])
  {
    hide SuccessTranscript, SuccessReply;
    var k := NegotiatedLength(all[1]);
    SliceOfSlice(all, k, |all| - |left|);
    TranscriptSplits(all, |all| - |left|);
  }

  // ---------------------------------------------------------------- what the server understands

  /** The client's side as a server reads it. */
  datatype ClientView = ClientView(
    methods: seq<Byte>,
    credentials: Option<(seq<Byte>, seq<Byte>)>,
    target: Target,
    port: Port,
    rest: seq<Byte>)

  /** Section 2 of RFC 1929: version, counted user name, counted password. */
  function ReadCredentials(s: seq<Byte>): Option<((seq<Byte>, seq<Byte>), seq<Byte>)> {
    if |s| < 2 || s[0] != 1 || |s| < 2 + ToNat(s[1]) + 1 then None
    else
      var u := ToNat(s[1]);
      var p := ToNat(s[2 + u]);
      if |s| < 3 + u + p then None
      else Some(((s[2..2 + u], s[3 + u..3 + u + p]), s[3 + u + p..]))
  }

  /** The address of section 4 of RFC 1928. */
  function ReadTarget(s: seq<Byte>): Option<(Target, seq<Byte>)> {
    if s == [] then None
    else match s[0]
      case 1 => if |s| < 5 then None else Some((Ip4(s[1..5]), s[5..]))
      case 3 => if |s| < 2 || |s| < 2 + ToNat(s[1]) then None
                else Some((Domain(s[2..2 + ToNat(s[1])]), s[2 + ToNat(s[1])..]))
      case 4 => if |s| < 17 then None else Some((Ip6(s[1..17]), s[17..]))
      case _ => None
  }

  /** A CONNECT request of section 4. */
  function ReadRequest(s: seq<Byte>): Option<(Target, Port, seq<Byte>)> {
    if |s| < 3 || s[..3] != [5, 1, 0] then None
    else match ReadTarget(s[3..])
      case None => None
      case Some((target, rest)) =>
        if |rest| < 2 then None else Some((target, ToNat(rest[0]) * 256 + ToNat(rest[1]), rest[2..]))
  }

  /** A server that selects `selected` reads the whole client side. */
  function ReadClient(s: seq<Byte>, selected: Byte): Option<ClientView> {
    if |s| < 2 || s[0] != 5 || |s| < 2 + ToNat(s[1]) then None
    else
      var methods, afterMethods := s[2..2 + ToNat(s[1])], s[2 + ToNat(s[1])..];
      var auth := if selected == 2 then ReadCredentials(afterMethods) else None;
      if selected == 2 && auth.None? then None
      else
        match ReadRequest(if selected == 2 then auth.value.1 else afterMethods)
        case None => None
        case Some((target, port, rest)) =>
          Some(ClientView(methods, if selected == 2 then Some(auth.value.0) else None, target, port, rest))
  }

  lemma CredentialsDecode(user: seq<Byte>, password: seq<Byte>, rest: seq<Byte>)
    requires FitsByte(user) && FitsByte(password)
    ensures ReadCredentials(AuthRequest(user, password) + rest) == Some(((user, password), rest))
  {
    var s := AuthRequest(user, password) + rest;
    var u, p := |user|, |password|;
    assert s[1] == u && s[2 + u] == p;
    assert s[2..2 + u] == user && s[3 + u..3 + u + p] == password && s[3 + u + p..] == rest;
  }

  lemma TargetDecodes(target: Target, tail: seq<Byte>)
    requires WellFormed(target) && (target.Domain? ==> FitsByte(target.host))
    ensures ReadTarget(Address(target) + tail) == Some((target, tail))
  {
    var t := Address(target) + tail;
    match target
    case Domain(host) => assert t[2..2 + |host|] == host && t[2 + |host|..] == tail;
    case Ip4(octets) => assert t[1..5] == octets && t[5..] == tail;
    case Ip6(octets) => assert t[1..17] == octets && t[17..] == tail;
  }

  lemma RequestDecodes(target: Target, port: Port, rest: seq<Byte>)
    requires WellFormed(target) && (target.Domain? ==> FitsByte(target.host))
    ensures ReadRequest(ConnectRequest(target, port) + rest) == Some((target, port, rest))
  {
    hide ReadTarget, Address;
    var s := ConnectRequest(target, port) + rest;
    var tail := [port / 256, port % 256] + rest;
    assert s[..3] == [5, 1, 0] && s[3..] == Address(target) + tail;
    TargetDecodes(target, tail);
    assert tail[2..] == rest;
  }

  /** What the client wrote reads back as the same credentials, address and port, no byte astray. */
  lemma ClientBytesDecode(proxy: Proxy, selected: Byte, target: Target, port: Port, rest: seq<Byte>)
    requires WellFormed(target) && Encodable(proxy, selected, target)
    ensures ReadClient(ClientBytes(proxy, selected, target, port) + rest, selected)
         == Some(ClientView(
              if OffersAuth(proxy) then [0, 2] else [0],
              if selected == 2 then Some((OrEmpty(proxy.username), OrEmpty(proxy.password))) else None,
              target, port, rest))
  {
    hide ReadRequest, ReadCredentials, AuthRequest, ConnectRequest;
    var request := ConnectRequest(target, port);
    var tail := request + rest;
    var auth := if selected == 2 then AuthRequest(OrEmpty(proxy.username), OrEmpty(proxy.password)) else [];
    var greeting := Greeting(OffersAuth(proxy));
    var s := ClientBytes(proxy, selected, target, port) + rest;
    assert s == greeting + (auth + tail);
    assert s[0] == 5 && ToNat(s[1]) == |greeting| - 2;
    assert s[2..|greeting|] == greeting[2..] == if OffersAuth(proxy) then [0, 2] else [0];
    assert s[|greeting|..] == auth + tail;
    RequestDecodes(target, port, rest);
    if selected == 2 {
      CredentialsDecode(OrEmpty(proxy.username), OrEmpty(proxy.password), tail);
    } else {
      assert auth + tail == tail;
    }
  }

  /** Section 2 of RFC 1929: both strings have 1 to 255 bytes. */
  ghost predicate ConformingAuth(request: seq<Byte>) {
    exists u: seq<Byte>, p: seq<Byte> ::
      1 <= |u| <= 255 && 1 <= |p| <= 255 && request == [1, LengthByte(u)] + u + [LengthByte(p)] + p
  }

  /**
   The code sends empty strings when the server selects the method although no user name or
   password is configured: a request that fits conforms exactly when neither is empty.
   */
  lemma AuthConformsIff(user: seq<Byte>, password: seq<Byte>)
    requires FitsByte(user) && FitsByte(password)
    ensures ConformingAuth(AuthRequest(user, password)) <==> user != [] && password != []
  {
    var request := AuthRequest(user, password);
    CredentialsDecode(user, password, []);
    forall u: seq<Byte>, p: seq<Byte> |
      1 <= |u| <= 255 && 1 <= |p| <= 255 && request == [1, LengthByte(u)] + u + [LengthByte(p)] + p
      ensures u == user && p == password
    {
      CredentialsDecode(u, p, []);
    }
  }

  // ---------------------------------------------------------------- what the server may do

  /** The methods offered to the server. */
  function Offered(proxy: Proxy): seq<Byte> {
    Greeting(OffersAuth(proxy))[2..]
  }

  /** A server that says this in the handshake is taken at its word. */
  function ReplyChoosing(selected: Byte): seq<Byte> {
    [5, selected] + (if selected == 2 then [1, 0] else []) + [5, 0, 0, 1, 0, 0, 0, 0, 0, 0]
  }

  /**
   Section 3 of RFC 1928 has the server choose an offered method. The code goes on with every
   method but 0xFF: of all server streams that complete the handshake, the choice was offered
   exactly when it is 0, or 2 with a user name configured.
   */
  lemma ChoiceIsOfferedIff(proxy: Proxy, s: seq<Byte>, n: nat)
    requires n <= |s| && SuccessTranscript(s[..n])
    ensures s[1] in Offered(proxy) <==> s[1] == 0 || (s[1] == 2 && OffersAuth(proxy))
  {
    assert Offered(proxy) == if OffersAuth(proxy) then [0, 2] else [0];
  }

  lemma ChosenSucceeds(selected: Byte)
    ensures var s := ReplyChoosing(selected);
            && |s| > 1 && s[1] == selected && (selected != 0xFF ==> SuccessTranscript(s))
            && (HasTranscript(s) <==> selected != 0xFF)
  {
    var s := ReplyChoosing(selected);
    var reply: seq<Byte> := [5, 0, 0, 1, 0, 0, 0, 0, 0, 0];
    if selected == 2 {
      assert s[2..4] == [1, 0] && s[4..] == reply;
    } else {
      assert s[2..] == reply;
    }
    assert s[..|s|] == s;
  }

  /**
   The handshake with a server that makes the given choice and a connection that takes all bytes:
   whether the choice was offered does not matter, only 0xFF and lengths that do not fit stop it.
   */
  method ConnectChoosing(proxy: Proxy, selected: Byte, target: Target, port: Port)
    returns (r: Result<(), Failure>, sent: seq<Byte>)
    requires WellFormed(target)
    ensures r.Ok? <==> selected != 0xFF && Encodable(proxy, selected, target)
    ensures r.Ok? ==> sent == ClientBytes(proxy, selected, target, port)
  {
    hide SuccessTranscript, HasTranscript, ClientBytes, Encodable, ReplyChoosing, Diagnosed;
    ChosenSucceeds(selected);
    var stream := new Connection(ReplyChoosing(selected), |ClientBytes(proxy, selected, target, port)|);
    r := Connect(stream, proxy, Some(target), port);
    sent := stream.sent;
    assert [] + ClientBytes(proxy, selected, target, port) == ClientBytes(proxy, selected, target, port);
  }

  lemma UnofferedMethodSucceeds(proxy: Proxy)
    ensures SuccessTranscript(ReplyChoosing(1)) && 1 !in Offered(proxy)
  {
    ChosenSucceeds(1);
    assert Offered(proxy) == if OffersAuth(proxy) then [0, 2] else [0];
  }

  /** A server that chooses GSSAPI, which is never offered, is accepted. */
  method ConnectUnoffered(proxy: Proxy, target: Target, port: Port) returns (r: Result<(), Failure>)
    requires WellFormed(target) && (target.Domain? ==> FitsByte(target.host))
    ensures r.Ok? && 1 !in Offered(proxy)
  {
    var sent;
    r, sent := ConnectChoosing(proxy, 1, target, port);
    UnofferedMethodSucceeds(proxy);
  }

  /** Without a user name, a server that chooses method 2 is sent a request with two empty strings. */
  lemma MissingUserIsSentEmpty(target: Target, port: Port)
    ensures var proxy := Proxy(None, None);
            && SuccessTranscript(ReplyChoosing(2)) && CredentialsFit(proxy)
            && !OffersAuth(proxy) && 2 !in Offered(proxy)
            && ClientBytes(proxy, 2, target, port) == [5, 1, 0] + [1, 0, 0] + ConnectRequest(target, port)
            && !ConformingAuth([1, 0, 0])
  {
    ChosenSucceeds(2);
    AuthConformsIff([], []);
    assert AuthRequest([], []) == [1, 0, 0];
    assert Offered(Proxy(None, None)) == [0];
  }

  /** The handshake with such a server succeeds, and those are the bytes it wrote. */
  method ConnectWithoutUser(target: Target, port: Port) returns (r: Result<(), Failure>, sent: seq<Byte>)
    requires WellFormed(target) && (target.Domain? ==> FitsByte(target.host))
    ensures r.Ok? && sent == [5, 1, 0] + [1, 0, 0] + ConnectRequest(target, port) && !ConformingAuth([1, 0, 0])
  {
    hide ClientBytes, ConnectRequest, FitsByte, ConformingAuth;
    MissingUserIsSentEmpty(target, port);
    r, sent := ConnectChoosing(Proxy(None, None), 2, target, port);
  }
}

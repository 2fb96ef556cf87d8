/** The SOCKS5 server (internal/proxy/socks5.go) and the health check's client (internal/netx/proxy_health.go),
    RFC 1928 sections 3 to 6 and RFC 1929 section 2. Each side is a function of the bytes it has received;
    the methods that read and write a connection compute that function. */
module Socks5 {
  import opened Text

  type Byte = x: int | 0 <= x < 256
  type Bytes = seq<Byte>

  const VERSION: Byte := 5
  const AUTH_NONE: Byte := 0
  const AUTH_USER_PASS: Byte := 2
  const AUTH_NO_ACCEPT: Byte := 0xFF
  const CMD_CONNECT: Byte := 1
  const ATYP_IPV4: Byte := 1
  const ATYP_DOMAIN: Byte := 3
  const ATYP_IPV6: Byte := 4
  const REP_SUCCESS: Byte := 0
  const REP_GENERAL_FAIL: Byte := 1
  const REP_REFUSED: Byte := 5
  const REP_CMD_NOT_SUPPORTED: Byte := 7

  /** A destination as it stood on the wire; addresses are kept as bytes instead of their printed form. */
  datatype Host = Name(name: Bytes) | V4(address: Bytes) | V6(address: Bytes)

  datatype DialResult = Connected | Refused | Unreachable

  /** The gateway's settings and its surroundings: who authenticates, which users have a connector, what dialling
      does. */
  datatype Options = Options(
    requireAuth: bool, rotating: bool,
    authenticate: (Bytes, Bytes) -> bool, hasConnector: Bytes -> bool, dial: (Bytes, Host, nat) -> DialResult)

  // ---- reading -----------------------------------------------------------------------------

  datatype Read<T> = Got(value: T, rest: Bytes) | Short

  function ReadFull(s: Bytes, n: nat): Read<Bytes> { if |s| < n then Short else Got(s[..n], s[n..]) }

  /** One length byte and that many bytes. */
  function ReadCounted(s: Bytes): Read<Bytes> { if s == [] then Short else ReadFull(s[1..], s[0]) }

  /** The user/pass message after its version byte. */
  function ReadCredentials(s: Bytes): Read<(Bytes, Bytes)> {
    match ReadCounted(s)
    case Short => Short
    case Got(user, rest) =>
      match ReadCounted(rest)
      case Short => Short
      case Got(pass, left) => Got((user, pass), left)
  }

  /** The whole user/pass message; Short also when its version byte is wrong. */
  function ReadAuth(s: Bytes): Read<(Bytes, Bytes)> {
    if s == [] || s[0] != 1 then Short else ReadCredentials(s[1..])
  }

  /** None: an address type the server does not know. */
  function ReadAddress(s: Bytes, atyp: Byte): Read<Option<Host>> {
    if atyp == ATYP_IPV4 then
      match ReadFull(s, 4) case Short => Short case Got(a, rest) => Got(Some(V4(a)), rest)
    else if atyp == ATYP_IPV6 then
      match ReadFull(s, 16) case Short => Short case Got(a, rest) => Got(Some(V6(a)), rest)
    else if atyp == ATYP_DOMAIN then
      match ReadCounted(s) case Short => Short case Got(a, rest) => Got(Some(Name(a)), rest)
    else Got(None, s)
  }

  function PortOf(b: Bytes): nat
    requires |b| == 2
  { var hi: int, lo: int := b[0], b[1]; hi * 256 + lo }

  function Reply(code: Byte): Bytes { [VERSION, code, 0, ATYP_IPV4, 0, 0, 0, 0, 0, 0] }

  // ---- the server as a function of its input ---------------------------------------------------

  /** Waiting: the server is blocked in a read. A dial happened exactly in Relaying and DialFailed; `rest` is
      what the client sent beyond the handshake. */
  datatype End =
    | Waiting
    | Dropped
    | NoConnector
    | DialFailed(host: Host, port: nat, user: Bytes, rest: Bytes)
    | Relaying(host: Host, port: nat, user: Bytes, rest: Bytes)
  {
    predicate Dialled() { DialFailed? || Relaying? }

    /** What was dialled, if anything. */
    function Target(): Option<Dialling> {
      if Dialled() then Some(Dialling(user, host, port, rest)) else None
    }
  }

  /** A dial: for whom, where to, and what the client sent after its request. */
  datatype Dialling = Dialling(user: Bytes, host: Host, port: nat, rest: Bytes)

  datatype Trace = Trace(written: Bytes, end: End) {
    function After(before: Bytes): Trace { Trace(before + written, end) }
  }

  /** A read that finds too little: the server waits, or leaves if the client has closed. */
  function Starved(closed: bool): Trace { Trace([], if closed then Dropped else Waiting) }

  function Connect(o: Options, user: Bytes, host: Host, port: nat, rest: Bytes): Trace {
    if !o.hasConnector(user) then Trace(Reply(REP_GENERAL_FAIL), NoConnector)
    else match o.dial(user, host, port)
      case Connected => Trace(Reply(REP_SUCCESS), Relaying(host, port, user, rest))
      case Refused => Trace(Reply(REP_REFUSED), DialFailed(host, port, user, rest))
      case Unreachable => Trace(Reply(REP_GENERAL_FAIL), DialFailed(host, port, user, rest))
  }

  /** Address, port and dial. */
  function ServeTarget(o: Options, user: Bytes, atyp: Byte, s: Bytes, closed: bool): Trace {
    match ReadAddress(s, atyp)
    case Short => if closed then Trace(Reply(REP_GENERAL_FAIL), Dropped) else Trace([], Waiting)
    case Got(None, _) => Trace(Reply(REP_GENERAL_FAIL), Dropped)
    case Got(Some(host), afterHost) =>
      match ReadFull(afterHost, 2)
      case Short => Starved(closed)
      case Got(port, rest) => Connect(o, user, host, PortOf(port), rest)
  }

  function ServeRequest(o: Options, user: Bytes, s: Bytes, closed: bool): Trace {
    match ReadFull(s, 4)
    case Short => Starved(closed)
    case Got(header, afterHeader) =>
      if header[0] != VERSION then Trace([], Dropped)
      else if header[1] != CMD_CONNECT then Trace(Reply(REP_CMD_NOT_SUPPORTED), Dropped)
      else ServeTarget(o, user, header[3], afterHeader, closed)
  }

  /** How far the method negotiation got, and what the server wrote in it: starved in the middle, refused,
      or open for the request of this user. */
  datatype Negotiation = Pending(said: Bytes) | Rejected(said: Bytes) | Open(user: Bytes, rest: Bytes, said: Bytes)

  /** socksAuth. */
  function AuthStep(o: Options, s: Bytes): Negotiation {
    if s == [] then Pending([VERSION, AUTH_USER_PASS])
    else if s[0] != 1 then Rejected([VERSION, AUTH_USER_PASS])
    else match ReadCredentials(s[1..])
      case Short => Pending([VERSION, AUTH_USER_PASS])
      case Got(c, rest) =>
        if o.authenticate(c.0, c.1) then Open(c.0, rest, [VERSION, AUTH_USER_PASS, 1, 0])
        else Rejected([VERSION, AUTH_USER_PASS, 1, 1])
  }

  /** socksAuthCapture. A wrong version byte is swallowed and the key stays empty. */
  function CaptureStep(s: Bytes): Negotiation {
    if s == [] then Pending([VERSION, AUTH_USER_PASS])
    else if s[0] != 1 then Open([], s[1..], [VERSION, AUTH_USER_PASS])
    else match ReadCredentials(s[1..])
      case Short => Pending([VERSION, AUTH_USER_PASS])
      case Got(c, rest) => Open(c.0, rest, [VERSION, AUTH_USER_PASS, 1, 0])
  }

  function Negotiated(o: Options, methods: Bytes, s: Bytes): Negotiation {
    if o.requireAuth then
      if AUTH_USER_PASS in methods then AuthStep(o, s) else Rejected([VERSION, AUTH_NO_ACCEPT])
    else if o.rotating && AUTH_USER_PASS in methods then CaptureStep(s)
    else if AUTH_NONE in methods then Open([], s, [VERSION, AUTH_NONE])
    else Rejected([VERSION, AUTH_NO_ACCEPT])
  }

  function Resume(o: Options, n: Negotiation, closed: bool): Trace {
    match n
    case Pending(said) => Starved(closed).After(said)
    case Rejected(said) => Trace(said, Dropped)
    case Open(user, rest, said) => ServeRequest(o, user, rest, closed).After(said)
  }

  function Serve(o: Options, s: Bytes, closed: bool): Trace {
    if s == [] then Starved(closed)
    else if s[0] != VERSION then Trace([], Dropped)
    else match ReadCounted(s[1..])
      case Short => Starved(closed)
      case Got(methods, rest) => Resume(o, Negotiated(o, methods, rest), closed)
  }

  // ---- the server as the code runs it ------------------------------------------------------------

  /** One end of a connection: the bytes that will arrive before it closes, how many were read, what was written. */
  class Connection {
    const stream: Bytes
    var pos: nat
    var written: Bytes

    ghost predicate Valid()
      reads this
    { pos <= |stream| }

    constructor (stream: Bytes)
      ensures Valid() && this.stream == stream && pos == 0 && written == []
    {
      this.stream, pos, written := stream, 0, [];
    }

    ghost function Unread(): Bytes
      requires Valid()
      reads this
    { stream[pos..] }

    method ReadByte() returns (r: Option<Byte>)
      requires Valid()
      modifies this`pos
      ensures Valid()
      ensures r == if old(Unread()) == [] then None else Some(old(Unread())[0])
      ensures Unread() == if r.Some? then old(Unread())[1..] else []
    {
      if pos == |stream| { return None; }
      r := Some(stream[pos]);
      pos := pos + 1;
    }

    /** A short read consumes what there was. */
    method ReadN(n: nat) returns (r: Option<Bytes>)
      requires Valid()
      modifies this`pos
      ensures Valid()
      ensures r == match ReadFull(old(Unread()), n) case Short => None case Got(value, _) => Some(value)
      ensures r.Some? ==> Unread() == old(Unread())[n..]
      ensures r.None? ==> Unread() == []
    {
      if |stream| - pos < n { pos := |stream|; return None; }
      r := Some(stream[pos..pos + n]);
      assert stream[pos..][..n] == stream[pos..pos + n];
      pos := pos + n;
    }

    method Write(b: Bytes)
      modifies this`written
      ensures written == old(written) + b
    { written := written + b; }
  }

  class Gateway {
    const opts: Options

    constructor (opts: Options)
      ensures this.opts == opts
    { this.opts := opts; }

    method ReadCountedFrom(conn: Connection) returns (r: Option<Bytes>)
      requires conn.Valid()
      modifies conn`pos
      ensures conn.Valid()
      ensures match ReadCounted(old(conn.Unread()))
              case Short => r == None && conn.Unread() == []
              case Got(value, rest) => r == Some(value) && conn.Unread() == rest
    {
      var n := conn.ReadByte();
      if n == None { return None; }
      r := conn.ReadN(n.value);
    }

    /** The user name when the credentials pass. */
    method SocksAuth(conn: Connection) returns (user: Option<Bytes>)
      requires conn.Valid()
      modifies conn
      ensures conn.Valid()
      ensures match ReadAuth(old(conn.Unread()))
              case Short => user == None && conn.written == old(conn.written)
              case Got(c, rest) =>
                if opts.authenticate(c.0, c.1)
                then user == Some(c.0) && conn.written == old(conn.written) + [1, 0] && conn.Unread() == rest
                else user == None && conn.written == old(conn.written) + [1, 1]
    {
      var ver := conn.ReadByte();
      if ver == None || ver.value != 1 { return None; }
      var name := ReadCountedFrom(conn);
      if name == None { return None; }
      var pass := ReadCountedFrom(conn);
      if pass == None { return None; }
      if opts.authenticate(name.value, pass.value) {
        conn.Write([1, 0]);
        return name;
      }
      conn.Write([1, 1]);
      user := None;
    }

    method SocksAuthCapture(conn: Connection) returns (user: Bytes)
      requires conn.Valid()
      modifies conn
      ensures conn.Valid()
      ensures match ReadAuth(old(conn.Unread()))
              case Short => user == [] && conn.written == old(conn.written)
                && conn.Unread() ==
                     if old(conn.Unread()) != [] && old(conn.Unread())[0] != 1 then old(conn.Unread())[1..] else []
              case Got(c, rest) => user == c.0 && conn.written == old(conn.written) + [1, 0] && conn.Unread() == rest
    {
      var ver := conn.ReadByte();
      if ver == None || ver.value != 1 { return []; }
      var name := ReadCountedFrom(conn);
      if name == None { return []; }
      var pass := ReadCountedFrom(conn);
      if pass == None { return []; }
      conn.Write([1, 0]);
      user := name.value;
    }

    /** None: the bytes ran out or the type is unknown. */
    method ReadSocksAddr(conn: Connection, atyp: Byte) returns (host: Option<Host>)
      requires conn.Valid()
      modifies conn`pos
      ensures conn.Valid()
      ensures match ReadAddress(old(conn.Unread()), atyp)
              case Short => host == None
              case Got(h, rest) => host == h && conn.Unread() == rest
      // exactly the destination whose address, of this type, comes next
      ensures forall h, rest ::
        Begins(old(conn.Unread()), atyp, h, rest) <==> (host == Some(h) && conn.Unread() == rest)
    {
      AddressesBegin(conn.Unread(), atyp);
      if atyp == ATYP_IPV4 {
        var buf := conn.ReadN(4);
        host := if buf == None then None else Some(V4(buf.value));
      } else if atyp == ATYP_IPV6 {
        var buf := conn.ReadN(16);
        host := if buf == None then None else Some(V6(buf.value));
      } else if atyp == ATYP_DOMAIN {
        var buf := ReadCountedFrom(conn);
        host := if buf == None then None else Some(Name(buf.value));
      } else {
        host := None;
      }
    }

    /** Everything after the negotiation. */
    method HandleRequest(conn: Connection, user: Bytes) returns (end: End)
      requires conn.Valid()
      modifies conn
      ensures conn.Valid()
      ensures var t := ServeRequest(opts, user, old(conn.Unread()), true);
        end == t.end && conn.written == old(conn.written) + t.written && (end.Dialled() ==> conn.Unread() == end.rest)
    {
      var header := conn.ReadN(4);
      if header == None || header.value[0] != VERSION { return Dropped; }
      if header.value[1] != CMD_CONNECT {
        conn.Write(Reply(REP_CMD_NOT_SUPPORTED));
        return Dropped;
      }
      var host := ReadSocksAddr(conn, header.value[3]);
      if host == None {
        conn.Write(Reply(REP_GENERAL_FAIL));
        return Dropped;
      }
      var portBuf := conn.ReadN(2);
      if portBuf == None { return Dropped; }
      var port := PortOf(portBuf.value);
      if !opts.hasConnector(user) {
        conn.Write(Reply(REP_GENERAL_FAIL));
        return NoConnector;
      }
      ghost var rest := conn.Unread();
      match opts.dial(user, host.value, port) {
        case Connected =>
          conn.Write(Reply(REP_SUCCESS));
          end := Relaying(host.value, port, user, conn.stream[conn.pos..]);
        case Refused =>
          conn.Write(Reply(REP_REFUSED));
          end := DialFailed(host.value, port, user, conn.stream[conn.pos..]);
        case Unreachable =>
          conn.Write(Reply(REP_GENERAL_FAIL));
          end := DialFailed(host.value, port, user, conn.stream[conn.pos..]);
      }
    }

    method ServeSOCKS5(conn: Connection) returns (end: End)
      requires conn.Valid()
      modifies conn
      ensures conn.Valid()
      ensures var t := Serve(opts, old(conn.Unread()), true);
        end == t.end && conn.written == old(conn.written) + t.written && (end.Dialled() ==> conn.Unread() == end.rest)
    {
      var ver := conn.ReadByte();
      if ver == None || ver.value != VERSION { return Dropped; }
      var methods := ReadCountedFrom(conn);
      if methods == None { return Dropped; }
      end := Proceed(conn, methods.value);
    }

    method Proceed(conn: Connection, methods: Bytes) returns (end: End)
      requires conn.Valid()
      modifies conn
      ensures conn.Valid()
      ensures var t := Resume(opts, Negotiated(opts, methods, old(conn.Unread())), true);
        end == t.end && conn.written == old(conn.written) + t.written && (end.Dialled() ==> conn.Unread() == end.rest)
    {
      ghost var n, before := Negotiated(opts, methods, conn.Unread()), conn.written;
      var user := Negotiate(conn, methods);
      if user == None { return Dropped; }
      ResumeReads(opts, n, user.value, conn.Unread());
      ghost var t := ServeRequest(opts, user.value, conn.Unread(), true);
      end := HandleRequest(conn, user.value);
      Regrouped(before, n.said, t.written);
    }

    /** The routing key, once the client may send its request. A capture cut short goes on with an empty key. */
    method Negotiate(conn: Connection, methods: Bytes) returns (user: Option<Bytes>)
      requires conn.Valid()
      modifies conn
      ensures conn.Valid()
      ensures var n := Negotiated(opts, methods, old(conn.Unread()));
        && conn.written == old(conn.written) + n.said
        && (n.Pending? ==> user == None || conn.Unread() == [])
        && (n.Rejected? ==> user == None)
        && (n.Open? ==> user == Some(n.user) && conn.Unread() == n.rest)
    {
      if opts.requireAuth {
        if AUTH_USER_PASS !in methods {
          conn.Write([VERSION, AUTH_NO_ACCEPT]);
          return None;
        }
        conn.Write([VERSION, AUTH_USER_PASS]);
        user := SocksAuth(conn);
      } else if opts.rotating && AUTH_USER_PASS in methods {
        conn.Write([VERSION, AUTH_USER_PASS]);
        var key := SocksAuthCapture(conn);
        user := Some(key);
      } else if AUTH_NONE in methods {
        conn.Write([VERSION, AUTH_NONE]);
        user := Some([]);
      } else {
        conn.Write([VERSION, AUTH_NO_ACCEPT]);
        user := None;
      }
    }
  }

  lemma Regrouped(a: Bytes, b: Bytes, c: Bytes)
    ensures (a + b) + c == a + (b + c)
  {}

  lemma ResumeReads(o: Options, n: Negotiation, user: Bytes, unread: Bytes)
    requires (n.Pending? && unread == []) || (n.Open? && user == n.user && unread == n.rest)
    ensures Resume(o, n, true) == ServeRequest(o, user, unread, true).After(n.said)
  {}

  // ---- what the server's reading means ---------------------------------------------------------------

  function GreetingOf(methods: Bytes): Bytes
    requires |methods| < 256
  { [VERSION, |methods|] + methods }

  function CredentialsOf(user: Bytes, pass: Bytes): Bytes
    requires |user| < 256 && |pass| < 256
  { [1, |user|] + user + [|pass|] + pass }

  predicate WireHost(h: Host) {
    match h case Name(n) => |n| < 256 case V4(a) => |a| == 4 case V6(a) => |a| == 16
  }

  function AddressOf(h: Host): Bytes
    requires WireHost(h)
  {
    match h case Name(n) => [ATYP_DOMAIN, |n|] + n case V4(a) => [ATYP_IPV4] + a case V6(a) => [ATYP_IPV6] + a
  }

  function RequestOf(reserved: Byte, h: Host, port: nat): Bytes
    requires WireHost(h) && port < 0x1_0000
  { [VERSION, CMD_CONNECT, reserved] + AddressOf(h) + [port / 256, port % 256] }

  lemma ReadCountedIs(s: Bytes)
    requires ReadCounted(s).Got?
    ensures |ReadCounted(s).value| < 256 && s == [|ReadCounted(s).value|] + ReadCounted(s).value + ReadCounted(s).rest
  {}

  lemma CredentialsAre(s: Bytes)
    requires ReadAuth(s).Got?
    ensures var (u, p) := ReadAuth(s).value;
      |u| < 256 && |p| < 256 && s == CredentialsOf(u, p) + ReadAuth(s).rest
  {
    ReadCountedIs(s[1..]);
    ReadCountedIs(ReadCounted(s[1..]).rest);
  }

  lemma AddressIs(s: Bytes, atyp: Byte)
    requires ReadAddress(s, atyp).Got? && ReadAddress(s, atyp).value.Some?
    ensures WireHost(ReadAddress(s, atyp).value.value)
    ensures [atyp] + s == AddressOf(ReadAddress(s, atyp).value.value) + ReadAddress(s, atyp).rest
  {
    if atyp == ATYP_DOMAIN { ReadCountedIs(s); }
  }

  /** What a request must hold for the server to reach the dialler. */
  ghost predicate Complete(s: Bytes) {
    && |s| >= 4 && s[0] == VERSION && s[1] == CMD_CONNECT
    && var a := ReadAddress(s[4..], s[3]); a.Got? && a.value.Some? && |a.rest| >= 2
  }

  lemma DialledIsComplete(o: Options, user: Bytes, s: Bytes, closed: bool)
    requires ServeRequest(o, user, s, closed).end.Dialled()
    ensures Complete(s)
  {}

  lemma CompleteConnects(o: Options, user: Bytes, s: Bytes, closed: bool)
    requires Complete(s)
    ensures var a := ReadAddress(s[4..], s[3]);
      ServeRequest(o, user, s, closed) == Connect(o, user, a.value.value, PortOf(a.rest[..2]), a.rest[2..])
  {}

  lemma CompleteIsRequest(s: Bytes)
    requires Complete(s)
    ensures var a := ReadAddress(s[4..], s[3]); var port := PortOf(a.rest[..2]);
      WireHost(a.value.value) && port < 0x1_0000 && s == RequestOf(s[2], a.value.value, port) + a.rest[2..]
  {
    AddressIs(s[4..], s[3]);
    var a := ReadAddress(s[4..], s[3]);
    PortBytes(a.rest[..2]);
    Regroup(s, a.rest, AddressOf(a.value.value));
    assert s[..3] == [VERSION, CMD_CONNECT, s[2]];
  }

  lemma PortBytes(p: Bytes)
    requires |p| == 2
    ensures PortOf(p) < 0x1_0000 && p == [PortOf(p) / 256, PortOf(p) % 256]
  {}

  lemma Regroup(s: Bytes, rest: Bytes, address: Bytes)
    requires |s| >= 4 && [s[3]] + s[4..] == address + rest && |rest| >= 2
    ensures s == s[..3] + address + rest[..2] + rest[2..]
  {
    assert s == s[..3] + ([s[3]] + s[4..]);
    assert rest == rest[..2] + rest[2..];
  }

  lemma ConnectEnds(o: Options, user: Bytes, host: Host, port: nat, rest: Bytes)
    requires Connect(o, user, host, port, rest).end.Dialled()
    ensures var end := Connect(o, user, host, port, rest).end;
      end.host == host && end.port == port && end.user == user && end.rest == rest
  {}

  lemma CompleteEnds(o: Options, user: Bytes, s: Bytes, closed: bool)
    requires Complete(s) && ServeRequest(o, user, s, closed).end.Dialled()
    ensures var end, a := ServeRequest(o, user, s, closed).end, ReadAddress(s[4..], s[3]);
      end.host == a.value.value && end.port == PortOf(a.rest[..2]) && end.user == user && end.rest == a.rest[2..]
  {
    var a := ReadAddress(s[4..], s[3]);
    CompleteConnects(o, user, s, closed);
    ConnectEnds(o, user, a.value.value, PortOf(a.rest[..2]), a.rest[2..]);
  }

  lemma DialledRequest(o: Options, user: Bytes, s: Bytes, closed: bool) returns (reserved: Byte)
    requires ServeRequest(o, user, s, closed).end.Dialled()
    ensures var end := ServeRequest(o, user, s, closed).end;
      && WireHost(end.host) && end.port < 0x1_0000 && end.user == user
      && s == RequestOf(reserved, end.host, end.port) + end.rest
  {
    DialledIsComplete(o, user, s, closed);
    CompleteEnds(o, user, s, closed);
    CompleteIsRequest(s);
    reserved := s[2];
  }

  lemma DialledResume(o: Options, n: Negotiation, closed: bool)
    requires Resume(o, n, closed).end.Dialled()
    ensures n.Open? && Resume(o, n, closed).end == ServeRequest(o, n.user, n.rest, closed).end
  {}

  lemma DialledGreeting(o: Options, s: Bytes, closed: bool)
    requires Serve(o, s, closed).end.Dialled()
    ensures s != [] && s[0] == VERSION && ReadCounted(s[1..]).Got?
    ensures var g := ReadCounted(s[1..]);
      && |g.value| < 256 && s == GreetingOf(g.value) + g.rest
      && Serve(o, s, closed) == Resume(o, Negotiated(o, g.value, g.rest), closed)
  {
    GreetingIs(s);
  }

  lemma GreetingIs(s: Bytes)
    requires s != [] && s[0] == VERSION && ReadCounted(s[1..]).Got?
    ensures var g := ReadCounted(s[1..]); |g.value| < 256 && s == GreetingOf(g.value) + g.rest
  {
    ReadCountedIs(s[1..]);
  }

  /** Every dial: a greeting, an accepted negotiation, and a well-formed request for what is dialled. */
  lemma DialledHandshake(o: Options, s: Bytes, closed: bool)
    returns (methods: Bytes, n: Negotiation, afterGreeting: Bytes, reserved: Byte)
    requires Serve(o, s, closed).end.Dialled()
    ensures |methods| < 256 && s == GreetingOf(methods) + afterGreeting
    ensures n == Negotiated(o, methods, afterGreeting) && n.Open?
    ensures var end := Serve(o, s, closed).end;
      && end.user == n.user && WireHost(end.host) && end.port < 0x1_0000
      && n.rest == RequestOf(reserved, end.host, end.port) + end.rest
  {
    DialledGreeting(o, s, closed);
    var g := ReadCounted(s[1..]);
    methods, afterGreeting := g.value, g.rest;
    n := Negotiated(o, methods, afterGreeting);
    DialledResume(o, n, closed);
    reserved := DialledRequest(o, n.user, n.rest, closed);
  }

  /** An accepted negotiation that requires authentication consists of user/pass, offered, and credentials that pass. */
  lemma OpenNeedsCredentials(o: Options, methods: Bytes, s: Bytes) returns (pass: Bytes)
    requires o.requireAuth && Negotiated(o, methods, s).Open?
    ensures var n := Negotiated(o, methods, s);
      && AUTH_USER_PASS in methods && |n.user| < 256 && |pass| < 256
      && s == CredentialsOf(n.user, pass) + n.rest && o.authenticate(n.user, pass)
  {
    CredentialsAre(s);
    pass := ReadAuth(s).value.1;
  }

  /** Otherwise a rotating gateway takes the user from a message it does not check, and with a wrong version byte
      the empty user; a gateway of one tunnel, or one not offered user/pass, reads nothing. */
  lemma OpenOtherwise(o: Options, methods: Bytes, s: Bytes) returns (opening: Bytes)
    requires !o.requireAuth && Negotiated(o, methods, s).Open?
    ensures var n := Negotiated(o, methods, s);
      && s == opening + n.rest
      && if o.rotating && AUTH_USER_PASS in methods then
           || (ReadAuth(opening).Got? && ReadAuth(opening).rest == [] && ReadAuth(opening).value.0 == n.user)
           || (|opening| == 1 && opening[0] != 1 && n.user == [])
         else AUTH_NONE in methods && opening == [] && n.user == []
  {
    opening := [];
    if o.rotating && AUTH_USER_PASS in methods {
      if s[0] != 1 {
        opening := [s[0]];
      } else {
        CredentialsAre(s);
        var (u, p) := ReadAuth(s).value;
        opening := CredentialsOf(u, p);
        CredentialsRead(u, p, []);
        assert opening + [] == opening;
      }
    }
  }

  /** Whatever bytes arrive, a server that requires authentication never dials unless credentials that pass were
      sent, under their user and to the destination of the request behind them. */
  lemma DialNeedsCredentials(o: Options, s: Bytes, closed: bool)
    returns (methods: Bytes, pass: Bytes, request: Bytes, reserved: Byte)
    ensures var end := Serve(o, s, closed).end;
      o.requireAuth && end.Dialled() ==>
        && |methods| < 256 && |end.user| < 256 && |pass| < 256
        && s == GreetingOf(methods) + (CredentialsOf(end.user, pass) + request)
        && AUTH_USER_PASS in methods && o.authenticate(end.user, pass)
        && WireHost(end.host) && end.port < 0x1_0000 && request == RequestOf(reserved, end.host, end.port) + end.rest
  {
    methods, pass, request, reserved := [], [], [], 0;
    if o.requireAuth && Serve(o, s, closed).end.Dialled() {
      var n, afterGreeting;
      methods, n, afterGreeting, reserved := DialledHandshake(o, s, closed);
      pass := OpenNeedsCredentials(o, methods, afterGreeting);
      request := n.rest;
    }
  }

  // ---- reading what was written -------------------------------------------------------------------------

  lemma CountedRead(b: Bytes, rest: Bytes)
    requires |b| < 256
    ensures ReadCounted([|b|] + b + rest) == Got(b, rest)
  {
    var s := [|b|] + b + rest;
    assert s[1..] == b + rest;
    assert s[1..][..|b|] == b && s[1..][|b|..] == rest;
  }

  lemma CredentialsRead(user: Bytes, pass: Bytes, rest: Bytes)
    requires |user| < 256 && |pass| < 256
    ensures ReadAuth(CredentialsOf(user, pass) + rest) == Got((user, pass), rest)
  {
    var s := CredentialsOf(user, pass) + rest;
    assert s[1..] == [|user|] + user + ([|pass|] + pass + rest);
    CountedRead(user, [|pass|] + pass + rest);
    CountedRead(pass, rest);
  }

  lemma PortRead(port: nat)
    requires port < 0x1_0000
    ensures PortOf([port / 256, port % 256]) == port
  {}

  lemma AddressRead(h: Host, rest: Bytes)
    requires WireHost(h)
    ensures ReadAddress(AddressOf(h)[1..] + rest, AddressOf(h)[0]) == Got(Some(h), rest)
  {
    match h
    case Name(n) =>
      assert AddressOf(h)[1..] + rest == [|n|] + n + rest;
      CountedRead(n, rest);
    case V4(a) => AddressBytes(a, rest);
    case V6(a) => AddressBytes(a, rest);
  }

  /** The address of h, of this type, and then `rest`. */
  ghost predicate Begins(s: Bytes, atyp: Byte, h: Host, rest: Bytes) {
    WireHost(h) && AddressOf(h)[0] == atyp && s == AddressOf(h)[1..] + rest
  }

  lemma AddressesBegin(s: Bytes, atyp: Byte)
    ensures forall h, rest :: Begins(s, atyp, h, rest) <==> ReadAddress(s, atyp) == Got(Some(h), rest)
  {
    forall h, rest ensures Begins(s, atyp, h, rest) <==> ReadAddress(s, atyp) == Got(Some(h), rest) {
      if Begins(s, atyp, h, rest) { AddressRead(h, rest); }
    }
  }

  lemma AddressBytes(a: Bytes, rest: Bytes)
    ensures ReadFull(a + rest, |a|) == Got(a, rest)
  {}

  lemma RequestParts(reserved: Byte, h: Host, port: nat, rest: Bytes)
    requires WireHost(h) && port < 0x1_0000
    ensures var s, p := RequestOf(reserved, h, port) + rest, [port / 256, port % 256];
      s[..4] == [5, 1, reserved, AddressOf(h)[0]] && s[4..] == AddressOf(h)[1..] + (p + rest)
  {
    HeaderParts(reserved, AddressOf(h), [port / 256, port % 256], rest);
  }

  lemma HeaderParts(reserved: Byte, address: Bytes, port: Bytes, rest: Bytes)
    requires address != [] && |port| == 2
    ensures var s := [5, 1, reserved] + address + port + rest;
      s[..4] == [5, 1, reserved, address[0]] && s[4..] == address[1..] + (port + rest)
  {}

  /** A request for any destination, by name or by address of either kind, reaches the dialler as it was meant. */
  lemma RequestRead(o: Options, user: Bytes, reserved: Byte, h: Host, port: nat, rest: Bytes, closed: bool)
    requires WireHost(h) && port < 0x1_0000
    ensures ServeRequest(o, user, RequestOf(reserved, h, port) + rest, closed) == Connect(o, user, h, port, rest)
  {
    var p := [port / 256, port % 256];
    RequestParts(reserved, h, port, rest);
    AddressRead(h, p + rest);
    assert (p + rest)[..2] == p && (p + rest)[2..] == rest;
    PortRead(port);
  }

  // ---- exactly when the server dials --------------------------------------------------------------------

  /** What a client may send between its greeting and its request, and the user it then is: credentials that pass where
      they are required; on a rotating port any credentials, or one byte that does not open such a message; otherwise
      nothing. */
  ghost predicate Opens(o: Options, methods: Bytes, opening: Bytes, user: Bytes) {
    if o.requireAuth then 2 in methods && exists pass :: Gives(opening, user, pass) && o.authenticate(user, pass)
    else if o.rotating && 2 in methods then
      (exists pass :: Gives(opening, user, pass)) || (|opening| == 1 && opening[0] != 1 && user == [])
    else 0 in methods && opening == [] && user == []
  }

  /** A user/pass message. */
  ghost predicate Gives(opening: Bytes, user: Bytes, pass: Bytes) {
    |user| < 256 && |pass| < 256 && opening == [1, |user|] + user + [|pass|] + pass
  }

  /** What the server writes up to there. */
  function Said(o: Options, methods: Bytes, opening: Bytes): Bytes {
    if !o.requireAuth && !(o.rotating && 2 in methods) then [5, 0] else if |opening| == 1 then [5, 2] else [5, 2, 1, 0]
  }

  /** The input is a greeting, an opening and a request, and `rest` is what follows. */
  ghost predicate Asks(o: Options, s: Bytes, methods: Bytes, opening: Bytes, user: Bytes, reserved: Byte, h: Host,
                       port: nat, rest: Bytes)
  {
    && |methods| < 256 && WireHost(h) && port < 0x1_0000 && Opens(o, methods, opening, user)
    && s == [5, |methods|] + methods + (opening + (RequestOf(reserved, h, port) + rest))
  }

  lemma OpeningRead(o: Options, methods: Bytes, opening: Bytes, user: Bytes, rest: Bytes)
    requires Opens(o, methods, opening, user)
    ensures Negotiated(o, methods, opening + rest) == Open(user, rest, Said(o, methods, opening))
  {
    if o.requireAuth || (o.rotating && 2 in methods) {
      if |opening| == 1 && opening[0] != 1 {
        assert (opening + rest)[1..] == rest;
      } else {
        var pass :| Gives(opening, user, pass) && (o.requireAuth ==> o.authenticate(user, pass));
        assert opening == CredentialsOf(user, pass);
        CredentialsRead(user, pass, rest);
      }
    } else {
      assert opening + rest == rest;
    }
  }

  lemma OpeningIs(o: Options, methods: Bytes, s: Bytes) returns (opening: Bytes)
    requires Negotiated(o, methods, s).Open?
    ensures s == opening + Negotiated(o, methods, s).rest && Opens(o, methods, opening, Negotiated(o, methods, s).user)
  {
    var n := Negotiated(o, methods, s);
    if o.requireAuth {
      var pass := OpenNeedsCredentials(o, methods, s);
      opening := CredentialsOf(n.user, pass);
      assert Gives(opening, n.user, pass);
    } else {
      opening := OpenOtherwise(o, methods, s);
      if o.rotating && 2 in methods && ReadAuth(opening).Got? && ReadAuth(opening).rest == [] {
        CredentialsAre(opening);
        var (u, p) := ReadAuth(opening).value;
        assert CredentialsOf(u, p) + [] == CredentialsOf(u, p);
        if u == n.user { assert Gives(opening, n.user, p); }
      }
    }
  }

  /** Such an input is served: exactly the destination of the request is dialled, for that user. */
  lemma HandshakeIsServed(o: Options, s: Bytes, methods: Bytes, opening: Bytes, user: Bytes, reserved: Byte, h: Host,
        port: nat, rest: Bytes, closed: bool)
    requires Asks(o, s, methods, opening, user, reserved, h, port, rest)
    ensures Serve(o, s, closed) == Connect(o, user, h, port, rest).After(Said(o, methods, opening))
  {
    var request := RequestOf(reserved, h, port) + rest;
    GreetingRead(o, methods, opening + request, closed);
    OpeningRead(o, methods, opening, user, request);
    RequestRead(o, user, reserved, h, port, rest, closed);
  }

  lemma GreetingRead(o: Options, methods: Bytes, rest: Bytes, closed: bool)
    requires |methods| < 256
    ensures Serve(o, [5, |methods|] + methods + rest, closed) == Resume(o, Negotiated(o, methods, rest), closed)
  {
    assert ([5, |methods|] + methods + rest)[1..] == [|methods|] + methods + rest;
    CountedRead(methods, rest);
  }

  /** The input is a whole handshake of this user for this destination. */
  ghost predicate Asked(o: Options, s: Bytes, d: Dialling) {
    exists methods, opening, reserved :: Asks(o, s, methods, opening, d.user, reserved, d.host, d.port, d.rest)
  }

  lemma AskedIsServed(o: Options, s: Bytes, d: Dialling, closed: bool)
    ensures o.hasConnector(d.user) && Asked(o, s, d) ==> Serve(o, s, closed).end.Target() == Some(d)
  {
    if o.hasConnector(d.user) && Asked(o, s, d) {
      var methods, opening, reserved :| Asks(o, s, methods, opening, d.user, reserved, d.host, d.port, d.rest);
      HandshakeIsServed(o, s, methods, opening, d.user, reserved, d.host, d.port, d.rest, closed);
      ConnectorDials(o, d);
    }
  }

  lemma ConnectorDials(o: Options, d: Dialling)
    ensures Connect(o, d.user, d.host, d.port, d.rest).end.Target() == if o.hasConnector(d.user) then Some(d) else None
  {}

  lemma DialledWasAsked(o: Options, s: Bytes, d: Dialling, closed: bool)
    ensures Serve(o, s, closed).end.Target() == Some(d) ==> o.hasConnector(d.user) && Asked(o, s, d)
  {
    if Serve(o, s, closed).end.Target() == Some(d) { DialledAsks(o, s, d, closed); }
  }

  lemma DialledAsks(o: Options, s: Bytes, d: Dialling, closed: bool)
    requires Serve(o, s, closed).end.Target() == Some(d)
    ensures o.hasConnector(d.user) && Asked(o, s, d)
  {
    var methods, n, afterGreeting, reserved := DialledHandshake(o, s, closed);
    var opening := OpeningIs(o, methods, afterGreeting);
    assert Asks(o, s, methods, opening, d.user, reserved, d.host, d.port, d.rest);
    HandshakeIsServed(o, s, methods, opening, d.user, reserved, d.host, d.port, d.rest, closed);
    ConnectorDials(o, d);
  }

  /** For every input: the server dials if and only if the input is a greeting, an opening it accepts and a CONNECT
      request for a name or an address of either kind, from a user that has a connector; and it then dials the
      destination of that request for that user. */
  lemma DialsExactly(o: Options, s: Bytes, d: Dialling, closed: bool)
    ensures Serve(o, s, closed).end.Target() == Some(d) <==> o.hasConnector(d.user) && Asked(o, s, d)
  {
    DialledWasAsked(o, s, d, closed);
    AskedIsServed(o, s, d, closed);
  }

  /** What the client is told: the reply's second byte is 0 for a connection, 5 for a refused one, and 1 for any other
      failure and for a user without a connector. */
  lemma ReplyTells(o: Options, user: Bytes, h: Host, port: nat, rest: Bytes)
    ensures var code := if !o.hasConnector(user) then 1 else
        match o.dial(user, h, port) case Connected => 0 case Refused => 5 case Unreachable => 1;
      Connect(o, user, h, port, rest).written == [5, code, 0, 1, 0, 0, 0, 0, 0, 0]
  {}

  /** The wire formats, byte by byte. */
  lemma WireFormats(methods: Bytes, user: Bytes, pass: Bytes, reserved: Byte, name: Bytes, v4: Bytes, v6: Bytes,
        port: nat)
    requires |methods| < 256 && |user| < 256 && |pass| < 256 && |name| < 256 && port < 0x1_0000
    ensures GreetingOf(methods) == [5, |methods|] + methods
    ensures CredentialsOf(user, pass) == [1, |user|] + user + [|pass|] + pass
    ensures var p := [port / 256, port % 256];
      && RequestOf(reserved, Name(name), port) == [5, 1, reserved, 3, |name|] + name + p
      && (WireHost(V4(v4)) <==> |v4| == 4) && (WireHost(V6(v6)) <==> |v6| == 16)
      && (|v4| == 4 ==> RequestOf(reserved, V4(v4), port) == [5, 1, reserved, 1] + v4 + p)
      && (|v6| == 16 ==> RequestOf(reserved, V6(v6), port) == [5, 1, reserved, 4] + v6 + p)
  {}

  // ---- what the server refuses ---------------------------------------------------------------------------

  /** No method it accepts was offered. */
  lemma MethodsRefused(o: Options, methods: Bytes, rest: Bytes, closed: bool)
    requires |methods| < 256
    requires if o.requireAuth then 2 !in methods else 0 !in methods && !(o.rotating && 2 in methods)
    ensures Serve(o, [5, |methods|] + methods + rest, closed) == Trace([5, 0xFF], Dropped)
  {
    GreetingRead(o, methods, rest, closed);
  }

  /** Credentials that do not pass. */
  lemma CredentialsRefused(o: Options, methods: Bytes, user: Bytes, pass: Bytes, rest: Bytes, closed: bool)
    requires |methods| < 256 && |user| < 256 && |pass| < 256
    requires o.requireAuth && 2 in methods && !o.authenticate(user, pass)
    ensures Serve(o, [5, |methods|] + methods + (CredentialsOf(user, pass) + rest), closed) ==
      Trace([5, 2, 1, 1], Dropped)
  {
    GreetingRead(o, methods, CredentialsOf(user, pass) + rest, closed);
    CredentialsRead(user, pass, rest);
  }

  /** After an accepted opening: another command than CONNECT, or an unknown address type. */
  lemma RequestRefused(o: Options, methods: Bytes, opening: Bytes, user: Bytes, command: Byte, reserved: Byte,
        atyp: Byte, rest: Bytes, closed: bool)
    requires |methods| < 256 && Opens(o, methods, opening, user)
    requires command != 1 || (atyp != 1 && atyp != 3 && atyp != 4)
    ensures Serve(o, [5, |methods|] + methods + (opening + ([5, command, reserved, atyp] + rest)), closed) ==
      Trace(Said(o, methods, opening) + [5, if command != 1 then 7 else 1, 0, 1, 0, 0, 0, 0, 0, 0], Dropped)
  {
    var request := [5, command, reserved, atyp] + rest;
    GreetingRead(o, methods, opening + request, closed);
    OpeningRead(o, methods, opening, user, request);
    assert request[..4] == [5, command, reserved, atyp];
  }

  // ---- the server is a stream processor --------------------------------------------------------------------

  function Fed(t: Trace, more: Bytes): Trace {
    match t.end
    case DialFailed(h, p, u, rest) => Trace(t.written, DialFailed(h, p, u, rest + more))
    case Relaying(h, p, u, rest) => Trace(t.written, Relaying(h, p, u, rest + more))
    case _ => t
  }

  /** More input never takes back what a side wrote, and changes nothing once it no longer waits. */
  ghost predicate Extends(t: Trace, more: Bytes, after: Trace) {
    if t.end == Waiting then t.written <= after.written else after == Fed(t, more)
  }

  lemma ReadFullMore(s: Bytes, more: Bytes, n: nat)
    requires ReadFull(s, n).Got?
    ensures ReadFull(s + more, n) == Got(ReadFull(s, n).value, ReadFull(s, n).rest + more)
  {
    assert (s + more)[..n] == s[..n] && (s + more)[n..] == s[n..] + more;
  }

  lemma ReadCountedMore(s: Bytes, more: Bytes)
    requires ReadCounted(s).Got?
    ensures ReadCounted(s + more) == Got(ReadCounted(s).value, ReadCounted(s).rest + more)
  {
    assert (s + more)[1..] == s[1..] + more;
    ReadFullMore(s[1..], more, s[0]);
  }

  lemma ReadCredentialsMore(s: Bytes, more: Bytes)
    requires ReadCredentials(s).Got?
    ensures ReadCredentials(s + more) == Got(ReadCredentials(s).value, ReadCredentials(s).rest + more)
  {
    ReadCountedMore(s, more);
    ReadCountedMore(ReadCounted(s).rest, more);
  }

  lemma ReadAddressMore(s: Bytes, more: Bytes, atyp: Byte)
    requires ReadAddress(s, atyp).Got?
    ensures ReadAddress(s + more, atyp) == Got(ReadAddress(s, atyp).value, ReadAddress(s, atyp).rest + more)
  {
    if atyp == ATYP_IPV4 { ReadFullMore(s, more, 4); }
    else if atyp == ATYP_IPV6 { ReadFullMore(s, more, 16); }
    else if atyp == ATYP_DOMAIN { ReadCountedMore(s, more); }
  }

  lemma ConnectMore(o: Options, user: Bytes, host: Host, port: nat, rest: Bytes, more: Bytes)
    ensures Extends(Connect(o, user, host, port, rest), more, Connect(o, user, host, port, rest + more))
  {}

  lemma ServeTargetMore(o: Options, user: Bytes, atyp: Byte, s: Bytes, more: Bytes, closed: bool)
    ensures Extends(ServeTarget(o, user, atyp, s, false), more, ServeTarget(o, user, atyp, s + more, closed))
  {
    var a := ReadAddress(s, atyp);
    if a.Got? {
      ReadAddressMore(s, more, atyp);
      if a.value.Some? && ReadFull(a.rest, 2).Got? {
        ReadFullMore(a.rest, more, 2);
        ConnectMore(o, user, a.value.value, PortOf(a.rest[..2]), a.rest[2..], more);
      }
    }
  }

  lemma ServeRequestMore(o: Options, user: Bytes, s: Bytes, more: Bytes, closed: bool)
    ensures Extends(ServeRequest(o, user, s, false), more, ServeRequest(o, user, s + more, closed))
  {
    if ReadFull(s, 4).Got? {
      ReadFullMore(s, more, 4);
      ServeTargetMore(o, user, s[3], s[4..], more, closed);
    }
  }

  lemma ExtendsAfter(t: Trace, more: Bytes, after: Trace, before: Bytes)
    requires Extends(t, more, after)
    ensures Extends(t.After(before), more, after.After(before))
  {}

  /** A negotiation that is through stays as it is; one that is pending has said a beginning of what it will say. */
  lemma NegotiatedMore(o: Options, methods: Bytes, s: Bytes, more: Bytes)
    ensures var n, m := Negotiated(o, methods, s), Negotiated(o, methods, s + more);
      match n
      case Pending(said) => said <= m.said
      case Rejected(_) => m == n
      case Open(user, rest, said) => m == Open(user, rest + more, said)
  {
    if s != [] {
      assert (s + more)[1..] == s[1..] + more;
      if ReadCredentials(s[1..]).Got? { ReadCredentialsMore(s[1..], more); }
    }
  }

  lemma ResumeMore(o: Options, methods: Bytes, s: Bytes, more: Bytes, closed: bool)
    ensures Extends(Resume(o, Negotiated(o, methods, s), false), more,
      Resume(o, Negotiated(o, methods, s + more), closed))
  {
    NegotiatedMore(o, methods, s, more);
    var n := Negotiated(o, methods, s);
    if n.Open? {
      ServeRequestMore(o, n.user, n.rest, more, closed);
      ExtendsAfter(ServeRequest(o, n.user, n.rest, false), more, ServeRequest(o, n.user, n.rest + more, closed),
          n.said);
    }
  }

  /** The server is a stream processor: what it does on some input it also does on any longer one. */
  lemma ServeMore(o: Options, s: Bytes, more: Bytes, closed: bool)
    ensures Extends(Serve(o, s, false), more, Serve(o, s + more, closed))
  {
    if s != [] {
      assert (s + more)[1..] == s[1..] + more;
      if ReadCounted(s[1..]).Got? {
        ReadCountedMore(s[1..], more);
        var g := ReadCounted(s[1..]);
        ResumeMore(o, g.value, g.rest, more, closed);
      }
    }
  }
}

/** The health check's SOCKS5 client (internal/netx/proxy_health.go) and its conversation with the server. */
module Socks5Client {
  import opened Socks5
  import opened Text

  const HTTP_PORT: nat := 80

  datatype Client = Client(username: Bytes, password: Bytes, host: Bytes) {
    predicate AuthEnabled() { username != [] || password != [] }
    function Methods(): Bytes { if AuthEnabled() then [AUTH_NONE, AUTH_USER_PASS] else [AUTH_NONE] }
    function Greeting(): Bytes { [VERSION, |Methods()|] + Methods() }
  }

  /** Go's byte(n): the length field wraps at 256. */
  function LengthByte(n: nat): Byte { n % 256 }

  function Credentials(c: Client): Bytes {
    [1, LengthByte(|c.username|)] + c.username + [LengthByte(|c.password|)] + c.password
  }

  function ConnectRequest(c: Client): Bytes {
    [VERSION, CMD_CONNECT, 0, ATYP_DOMAIN, LengthByte(|c.host|)] + c.host + [HTTP_PORT / 256, HTTP_PORT % 256]
  }

  // ---- the client as a function of what it has received --------------------------------------

  /** Blocked in a read, given up, or ready to send its HTTP request with `rest` received beyond the handshake. */
  datatype Progress = Blocked | GaveUp | Ready(rest: Bytes)

  datatype Run = Run(sent: Bytes, progress: Progress) {
    function After(before: Bytes): Run { Run(before + sent, progress) }
  }

  function ConsumeAddress(s: Bytes, atyp: Byte): Progress {
    if atyp == ATYP_IPV4 then match ReadFull(s, 6) case Short => Blocked case Got(_, rest) => Ready(rest)
    else if atyp == ATYP_IPV6 then match ReadFull(s, 18) case Short => Blocked case Got(_, rest) => Ready(rest)
    else if atyp == ATYP_DOMAIN then
      if s == [] then Blocked else
        var n: int := s[0];
        match ReadFull(s[1..], n + 2) case Short => Blocked case Got(_, rest) => Ready(rest)
    else GaveUp
  }

  function Request(c: Client, s: Bytes): Run {
    Run(ConnectRequest(c),
      match ReadFull(s, 4)
      case Short => Blocked
      case Got(reply, rest) => if reply[1] != 0 then GaveUp else ConsumeAddress(rest, reply[3]))
  }

  function Authenticate(c: Client, s: Bytes): Run {
    match ReadFull(s, 2)
    case Short => Run(Credentials(c), Blocked)
    case Got(resp, rest) =>
      if resp != [1, 0] then Run(Credentials(c), GaveUp) else Request(c, rest).After(Credentials(c))
  }

  function Converse(c: Client, s: Bytes): Run {
    match ReadFull(s, 2)
    case Short => Run(c.Greeting(), Blocked)
    case Got(sel, rest) =>
      if sel[0] != VERSION || sel[1] == AUTH_NO_ACCEPT then Run(c.Greeting(), GaveUp)
      else if sel[1] == AUTH_USER_PASS then Authenticate(c, rest).After(c.Greeting())
      else Request(c, rest).After(c.Greeting())
  }

  // ---- the client as the code runs it ----------------------------------------------------------

  class HealthChecker {
    const client: Client

    constructor (client: Client)
      ensures this.client == client
    { this.client := client; }

    method SendCredentials(conn: Connection) returns (ok: bool)
      requires conn.Valid()
      modifies conn
      ensures conn.Valid() && conn.written == old(conn.written) + Credentials(client)
      ensures ok <==> ReadFull(old(conn.Unread()), 2).Got? && ReadFull(old(conn.Unread()), 2).value == [1, 0]
      ensures ok ==> conn.Unread() == old(conn.Unread())[2..]
    {
      conn.Write(Credentials(client));
      var resp := conn.ReadN(2);
      if resp == None { return false; }
      ok := !(resp.value[0] != 1 || resp.value[1] != 0);
    }

    method ConsumeSocksAddr(conn: Connection, atyp: Byte) returns (ok: bool)
      requires conn.Valid()
      modifies conn`pos
      ensures conn.Valid()
      ensures var p := ConsumeAddress(old(conn.Unread()), atyp); (ok <==> p.Ready?) && (ok ==> conn.Unread() == p.rest)
    {
      var r: Option<Bytes>;
      if atyp == ATYP_IPV4 {
        r := conn.ReadN(6);
      } else if atyp == ATYP_IPV6 {
        r := conn.ReadN(18);
      } else if atyp == ATYP_DOMAIN {
        var n := conn.ReadByte();
        if n == None { return false; }
        var length: int := n.value;
        r := conn.ReadN(length + 2);
      } else {
        return false;
      }
      ok := r.Some?;
    }

    method RequestConnect(conn: Connection) returns (ok: bool)
      requires conn.Valid()
      modifies conn
      ensures conn.Valid()
      ensures var r := Request(client, old(conn.Unread()));
        && conn.written == old(conn.written) + r.sent && (ok <==> r.progress.Ready?)
        && (ok ==> conn.Unread() == r.progress.rest)
    {
      conn.Write(ConnectRequest(client));
      var reply := conn.ReadN(4);
      if reply == None || reply.value[1] != 0 { return false; }
      ok := ConsumeSocksAddr(conn, reply.value[3]);
    }

    /** requestIP up to its HTTP request, against a peer that sends `stream` and closes. */
    method RequestIP(conn: Connection) returns (ok: bool)
      requires conn.Valid()
      modifies conn
      ensures conn.Valid()
      ensures var r := Converse(client, old(conn.Unread()));
        && conn.written == old(conn.written) + r.sent && (ok <==> r.progress.Ready?)
        && (ok ==> conn.Unread() == r.progress.rest)
    {
      conn.Write(client.Greeting());
      var sel := conn.ReadN(2);
      if sel == None { return false; }
      if sel.value[0] != VERSION || sel.value[1] == AUTH_NO_ACCEPT { return false; }
      if sel.value[1] == AUTH_USER_PASS {
        var passed := SendCredentials(conn);
        if !passed { return false; }
      }
      ok := RequestConnect(conn);
    }
  }

  // ---- what the client says and accepts ----------------------------------------------------------

  /** Its messages, byte by byte: it offers user/pass only when it has credentials, and asks for its host on port 80. */
  lemma ClientMessages(c: Client)
    ensures c.Greeting() == if c.username != [] || c.password != [] then [5, 2, 0, 2] else [5, 1, 0]
    ensures Credentials(c) == [1, |c.username| % 256] + c.username + [|c.password| % 256] + c.password
    ensures ConnectRequest(c) == [5, 1, 0, 3, |c.host| % 256] + c.host + [0, 80]
  {}

  /** A reply that reports success is read to its end, whatever address of whatever kind it names; one that reports a
      failure, or names an unknown kind of address, makes the client give up. */
  lemma ReplyRead(c: Client, first: Byte, code: Byte, reserved: Byte, h: Host, port: nat, rest: Bytes)
    requires WireHost(h) && port < 0x1_0000
    ensures Request(c, [first, code, reserved] + AddressOf(h) + [port / 256, port % 256] + rest) ==
      Run(ConnectRequest(c), if code == 0 then Ready(rest) else GaveUp)
  {
    var address, p := AddressOf(h), [port / 256, port % 256];
    ReplyParts(first, code, reserved, address, p, rest);
    AddressConsumed(h, p, rest);
  }

  lemma ReplyParts(first: Byte, code: Byte, reserved: Byte, address: Bytes, port: Bytes, rest: Bytes)
    requires address != [] && |port| == 2
    ensures var s := [first, code, reserved] + address + port + rest;
      |s| >= 4 && s[..4] == [first, code, reserved, address[0]] && s[4..] == address[1..] + (port + rest)
  {}

  lemma AddressConsumed(h: Host, port: Bytes, rest: Bytes)
    requires WireHost(h) && |port| == 2
    ensures ConsumeAddress(AddressOf(h)[1..] + (port + rest), AddressOf(h)[0]) == Ready(rest)
  {
    var s := AddressOf(h)[1..] + (port + rest);
    match h
    case Name(n) =>
      assert s == [|n|] + n + (port + rest) && s[1..] == n + (port + rest);
      assert (n + (port + rest))[|n| + 2..] == rest;
    case V4(a) => assert s == a + (port + rest) && s[6..] == rest;
    case V6(a) => assert s == a + (port + rest) && s[18..] == rest;
  }

  /** What makes it give up, and go on, at the start: another version, no acceptable method, refused credentials. */
  lemma SelectionRead(c: Client, version: Byte, choice: Byte, rest: Bytes)
    ensures var r := Converse(c, [version, choice] + rest);
      if version != 5 || choice == 0xFF then r == Run(c.Greeting(), GaveUp)
      else if choice == 2 then
        && c.Greeting() + Credentials(c) <= r.sent
        && (|rest| >= 2 && rest[..2] != [1, 0] ==> r == Run(c.Greeting() + Credentials(c), GaveUp))
      else r == Request(c, rest).After(c.Greeting())
  {
    assert ([version, choice] + rest)[2..] == rest;
  }

  // ---- the conversation --------------------------------------------------------------------------

  /** What both sides have written after k exchanges. */
  datatype Wire = Wire(toServer: Bytes, toClient: Bytes)

  /** The server answers what it has, the client what it then hears. */
  function Turn(o: Options, c: Client, w: Wire): Wire {
    var heard := Serve(o, w.toServer, false).written;
    Wire(Converse(c, heard).sent, heard)
  }

  function TurnOf(o: Options, c: Client): Wire -> Wire { (w: Wire) => Turn(o, c, w) }

  function Iterate<T>(f: T -> T, x: T, k: nat): T { if k == 0 then x else f(Iterate(f, x, k - 1)) }

  function Exchange(o: Options, c: Client, k: nat): Wire {
    Iterate(TurnOf(o, c), Wire(c.Greeting(), []), k)
  }

  predicate Fits(c: Client) { |c.username| < 256 && |c.password| < 256 && |c.host| < 256 }

  /** The server lets this client make its request. */
  predicate Admitted(o: Options, c: Client) {
    o.requireAuth ==> c.AuthEnabled() && o.authenticate(c.username, c.password)
  }

  /** The user/pass sub-negotiation takes place. */
  predicate Negotiates(o: Options, c: Client) { c.AuthEnabled() && (o.requireAuth || o.rotating) }

  function User(o: Options, c: Client): Bytes { if Negotiates(o, c) then c.username else [] }

  lemma ServerReadsGreeting(o: Options, c: Client, rest: Bytes)
    ensures Serve(o, c.Greeting() + rest, false) == Resume(o, Negotiated(o, c.Methods(), rest), false)
  {
    var s := c.Greeting() + rest;
    assert s[1..] == [|c.Methods()|] + c.Methods() + rest;
    CountedRead(c.Methods(), rest);
  }

  lemma ServerReadsCredentials(o: Options, c: Client, rest: Bytes)
    requires Fits(c)
    ensures ReadAuth(Credentials(c) + rest) == Got((c.username, c.password), rest)
  {
    assert Credentials(c) == CredentialsOf(c.username, c.password);
    CredentialsRead(c.username, c.password, rest);
  }

  lemma ServerReadsRequest(o: Options, c: Client, user: Bytes)
    requires Fits(c)
    ensures ServeRequest(o, user, ConnectRequest(c), false) == Connect(o, user, Name(c.host), HTTP_PORT, [])
  {
    assert ConnectRequest(c) == RequestOf(0, Name(c.host), HTTP_PORT) + [];
    RequestRead(o, user, 0, Name(c.host), HTTP_PORT, [], false);
  }

  /** What the client makes of the final reply. */
  lemma ClientReadsReply(c: Client, code: Byte)
    ensures Request(c, Reply(code)) == Run(ConnectRequest(c), if code == 0 then Ready([]) else GaveUp)
  {
    var s := Reply(code);
    assert s[..4] == [VERSION, code, 0, ATYP_IPV4];
    assert |s[4..]| == 6 && s[4..][6..] == [];
  }

  lemma ClientHears(c: Client, s: Bytes)
    ensures Converse(c, [VERSION, AUTH_NONE] + s) == Request(c, s).After(c.Greeting())
    ensures Converse(c, [VERSION, AUTH_USER_PASS] + s) == Authenticate(c, s).After(c.Greeting())
    ensures Authenticate(c, [1, 0] + s) == Request(c, s).After(Credentials(c))
  {
    assert ([VERSION, AUTH_NONE] + s)[2..] == s && ([VERSION, AUTH_USER_PASS] + s)[2..] == s && ([1, 0] + s)[2..] == s;
  }

  function Code(o: Options, c: Client): Byte {
    if !o.hasConnector(User(o, c)) then REP_GENERAL_FAIL
    else match o.dial(User(o, c), Name(c.host), HTTP_PORT)
      case Connected => REP_SUCCESS
      case Refused => REP_REFUSED
      case Unreachable => REP_GENERAL_FAIL
  }

  /** Everything each side has written when the conversation is over. */
  function Settled(o: Options, c: Client): Wire {
    if Negotiates(o, c) then
      if Admitted(o, c) then
        Wire(c.Greeting() + (Credentials(c) + ConnectRequest(c)), [VERSION, AUTH_USER_PASS, 1, 0] + Reply(Code(o, c)))
      else Wire(c.Greeting() + Credentials(c), [VERSION, AUTH_USER_PASS, 1, 1])
    else if Admitted(o, c) then Wire(c.Greeting() + ConnectRequest(c), [VERSION, AUTH_NONE] + Reply(Code(o, c)))
    else Wire(c.Greeting(), [VERSION, AUTH_NO_ACCEPT])
  }

  /** Where the server and the client then stand. */
  ghost predicate Outcome(o: Options, c: Client, t: Trace, r: Run) {
    var user, host := User(o, c), Name(c.host);
    if !Admitted(o, c) then t.end == Dropped && r.progress == GaveUp
    else if !o.hasConnector(user) then t.end == NoConnector && r.progress == GaveUp
    else match o.dial(user, host, HTTP_PORT)
      case Connected => t.end == Relaying(host, HTTP_PORT, user, []) && r.progress == Ready([])
      case _ => t.end == DialFailed(host, HTTP_PORT, user, []) && r.progress == GaveUp
  }

  /** At the settled state neither side has more to say. */
  ghost predicate Meets(o: Options, c: Client, w: Wire) {
    var t, r := Serve(o, w.toServer, false), Converse(c, w.toClient);
    t.written == w.toClient && r.sent == w.toServer && Outcome(o, c, t, r)
  }

  lemma PlainExchange(o: Options, c: Client)
    requires Fits(c) && !Negotiates(o, c) && Admitted(o, c)
    ensures Exchange(o, c, 2) == Settled(o, c) && Meets(o, c, Settled(o, c))
  {
    ServerReadsGreeting(o, c, []);
    assert c.Greeting() + [] == c.Greeting() && [VERSION, AUTH_NONE] + [] == [VERSION, AUTH_NONE];
    ClientHears(c, []);
    assert Exchange(o, c, 1) == Wire(c.Greeting() + ConnectRequest(c), [VERSION, AUTH_NONE]);
    ServerReadsGreeting(o, c, ConnectRequest(c));
    ServerReadsRequest(o, c, []);
    ClientHears(c, Reply(Code(o, c)));
    ClientReadsReply(c, Code(o, c));
  }

  lemma RefusedGreeting(o: Options, c: Client)
    requires !Negotiates(o, c) && !Admitted(o, c)
    ensures Exchange(o, c, 1) == Settled(o, c) && Meets(o, c, Settled(o, c))
  {
    ServerReadsGreeting(o, c, []);
    assert c.Greeting() + [] == c.Greeting();
  }

  lemma ServerOffersCredentials(o: Options, c: Client)
    requires Negotiates(o, c)
    ensures Serve(o, c.Greeting(), false) == Trace([VERSION, AUTH_USER_PASS], Waiting)
  {
    ServerReadsGreeting(o, c, []);
    assert c.Greeting() + [] == c.Greeting();
  }

  /** The server's turn in a conversation with credentials. */
  lemma ServerHears(o: Options, c: Client, rest: Bytes)
    requires Fits(c) && Negotiates(o, c)
    ensures Serve(o, c.Greeting() + (Credentials(c) + rest), false) ==
      if Admitted(o, c) then ServeRequest(o, c.username, rest, false).After([VERSION, AUTH_USER_PASS, 1, 0])
      else Trace([VERSION, AUTH_USER_PASS, 1, 1], Dropped)
  {
    ServerReadsGreeting(o, c, Credentials(c) + rest);
    ServerReadsCredentials(o, c, rest);
  }

  lemma ClientHearsTwice(c: Client, s: Bytes)
    ensures Converse(c, [VERSION, AUTH_USER_PASS]) == Run(c.Greeting() + Credentials(c), Blocked)
    ensures Converse(c, [VERSION, AUTH_USER_PASS, 1, 0] + s) == Request(c, s).After(Credentials(c)).After(c.Greeting())
    ensures Converse(c, [VERSION, AUTH_USER_PASS, 1, 1]) == Run(c.Greeting() + Credentials(c), GaveUp)
  {
    ClientHears(c, []);
    assert [VERSION, AUTH_USER_PASS] + [] == [VERSION, AUTH_USER_PASS];
    ClientHears(c, [1, 0] + s);
    assert [VERSION, AUTH_USER_PASS] + ([1, 0] + s) == [VERSION, AUTH_USER_PASS, 1, 0] + s;
    ClientHears(c, s);
    ClientHears(c, [1, 1]);
    assert [VERSION, AUTH_USER_PASS] + [1, 1] == [VERSION, AUTH_USER_PASS, 1, 1];
    assert [1, 1][..2] == [1, 1] && [1, 1][1] != [1, 0][1];
  }

  lemma ServerAccepts(o: Options, c: Client)
    requires Fits(c) && Negotiates(o, c) && Admitted(o, c)
    ensures Serve(o, c.Greeting() + Credentials(c), false) == Trace([VERSION, AUTH_USER_PASS, 1, 0], Waiting)
  {
    ServerHears(o, c, []);
    assert Credentials(c) + [] == Credentials(c);
  }

  lemma ClientAccepted(c: Client)
    ensures Converse(c, [VERSION, AUTH_USER_PASS, 1, 0]) ==
      Run(c.Greeting() + (Credentials(c) + ConnectRequest(c)), Blocked)
  {
    ClientHearsTwice(c, []);
    assert [VERSION, AUTH_USER_PASS, 1, 0] + [] == [VERSION, AUTH_USER_PASS, 1, 0];
  }

  lemma FirstTurn(o: Options, c: Client, w: Wire)
    requires Fits(c) && Negotiates(o, c) && w.toServer == c.Greeting()
    ensures Turn(o, c, w) == Wire(c.Greeting() + Credentials(c), [VERSION, AUTH_USER_PASS])
  {
    ServerOffersCredentials(o, c);
    ClientHearsTwice(c, []);
  }

  /** The second exchange, when the credentials pass. */
  lemma SecondTurn(o: Options, c: Client, w: Wire)
    requires Fits(c) && Negotiates(o, c) && Admitted(o, c) && w.toServer == c.Greeting() + Credentials(c)
    ensures Turn(o, c, w) == Wire(c.Greeting() + (Credentials(c) + ConnectRequest(c)), [VERSION, AUTH_USER_PASS, 1, 0])
  {
    ServerAccepts(o, c);
    ClientAccepted(c);
  }

  lemma RefusedCredentials(o: Options, c: Client)
    requires Fits(c) && Negotiates(o, c) && !Admitted(o, c)
    ensures Meets(o, c, Settled(o, c))
  {
    ServerHears(o, c, []);
    assert Credentials(c) + [] == Credentials(c);
    ClientHearsTwice(c, []);
  }

  lemma FinalServer(o: Options, c: Client)
    requires Fits(c) && Negotiates(o, c) && Admitted(o, c)
    ensures Serve(o, Settled(o, c).toServer, false) ==
      Connect(o, c.username, Name(c.host), HTTP_PORT, []).After([VERSION, AUTH_USER_PASS, 1, 0])
  {
    ServerHears(o, c, ConnectRequest(c));
    ServerReadsRequest(o, c, c.username);
  }

  lemma FinalClient(o: Options, c: Client)
    requires Negotiates(o, c) && Admitted(o, c)
    ensures Converse(c, Settled(o, c).toClient) ==
      Run(Settled(o, c).toServer, if Code(o, c) == 0 then Ready([]) else GaveUp)
  {
    ClientHearsTwice(c, Reply(Code(o, c)));
    ClientReadsReply(c, Code(o, c));
  }

  lemma ConnectReplies(o: Options, c: Client)
    ensures Connect(o, User(o, c), Name(c.host), HTTP_PORT, []).written == Reply(Code(o, c))
  {}

  lemma AcceptedCredentials(o: Options, c: Client)
    requires Fits(c) && Negotiates(o, c) && Admitted(o, c)
    ensures Serve(o, Settled(o, c).toServer, false).written == Settled(o, c).toClient && Meets(o, c, Settled(o, c))
  {
    FinalServer(o, c);
    FinalClient(o, c);
    ConnectReplies(o, c);
  }

  lemma NegotiatedExchange(o: Options, c: Client)
    requires Fits(c) && Negotiates(o, c)
    ensures Exchange(o, c, 3) == Settled(o, c) && Meets(o, c, Settled(o, c))
  {
    FirstTurn(o, c, Exchange(o, c, 0));
    if Admitted(o, c) {
      SecondTurn(o, c, Exchange(o, c, 1));
      AcceptedCredentials(o, c);
    } else {
      RefusedCredentials(o, c);
      LastTurn(o, c, Exchange(o, c, 1));
    }
    LastTurn(o, c, Exchange(o, c, 2));
  }

  lemma LastTurn(o: Options, c: Client, w: Wire)
    requires Meets(o, c, Settled(o, c)) && w.toServer == Settled(o, c).toServer
    ensures Turn(o, c, w) == Settled(o, c)
  {}

  lemma MeetingIsFixed(o: Options, c: Client, w: Wire)
    requires Meets(o, c, w)
    ensures Turn(o, c, w) == w
  {}

  lemma {:induction false} FixedPoint<T>(f: T -> T, x: T, j: nat, k: nat)
    requires j <= k && f(Iterate(f, x, j)) == Iterate(f, x, j)
    ensures Iterate(f, x, k) == Iterate(f, x, j)
  {
    if j < k { FixedPoint(f, x, j, k - 1); }
  }

  /** The health check against the server: after three exchanges the conversation is over. The server dialled exactly
      the client's host on port 80, under the client's user, and only for an admitted client; it holds no unread
      byte of the client's, and the client has read every byte of the server's. */
  lemma HandshakeCompletes(o: Options, c: Client, k: nat)
    requires Fits(c) && k >= 3
    ensures Exchange(o, c, k) == Settled(o, c) && Meets(o, c, Exchange(o, c, k))
  {
    var j: nat := if Negotiates(o, c) then 3 else if Admitted(o, c) then 2 else 1;
    if Negotiates(o, c) {
      NegotiatedExchange(o, c);
    } else if Admitted(o, c) {
      PlainExchange(o, c);
    } else {
      RefusedGreeting(o, c);
    }
    MeetingIsFixed(o, c, Settled(o, c));
    FixedPoint(TurnOf(o, c), Wire(c.Greeting(), []), j, k);
  }

  // ---- any fragmentation and interleaving --------------------------------------------------------

  /** More input never takes back what the client sent, and changes nothing once it is not blocked. */
  ghost predicate Continues(r: Run, more: Bytes, after: Run) {
    match r.progress
    case Blocked => r.sent <= after.sent
    case GaveUp => after == r
    case Ready(rest) => after == Run(r.sent, Ready(rest + more))
  }

  lemma ContinuesAfter(r: Run, more: Bytes, after: Run, before: Bytes)
    requires Continues(r, more, after)
    ensures Continues(r.After(before), more, after.After(before))
  {}

  lemma ConsumeAddressMore(s: Bytes, more: Bytes, atyp: Byte)
    ensures match ConsumeAddress(s, atyp)
      case Blocked => true
      case GaveUp => ConsumeAddress(s + more, atyp) == GaveUp
      case Ready(rest) => ConsumeAddress(s + more, atyp) == Ready(rest + more)
  {
    if atyp == ATYP_IPV4 {
      if ReadFull(s, 6).Got? { ReadFullMore(s, more, 6); }
    } else if atyp == ATYP_IPV6 {
      if ReadFull(s, 18).Got? { ReadFullMore(s, more, 18); }
    } else if atyp == ATYP_DOMAIN && s != [] {
      var n: int := s[0];
      assert (s + more)[1..] == s[1..] + more;
      if ReadFull(s[1..], n + 2).Got? { ReadFullMore(s[1..], more, n + 2); }
    }
  }

  lemma RequestMore(c: Client, s: Bytes, more: Bytes)
    ensures Continues(Request(c, s), more, Request(c, s + more))
  {
    if ReadFull(s, 4).Got? {
      ReadFullMore(s, more, 4);
      ConsumeAddressMore(s[4..], more, s[3]);
    }
  }

  lemma AuthenticateMore(c: Client, s: Bytes, more: Bytes)
    ensures Continues(Authenticate(c, s), more, Authenticate(c, s + more))
  {
    if ReadFull(s, 2).Got? {
      ReadFullMore(s, more, 2);
      RequestMore(c, s[2..], more);
      ContinuesAfter(Request(c, s[2..]), more, Request(c, s[2..] + more), Credentials(c));
    }
  }

  /** The client is a stream processor too. */
  lemma ConverseMore(c: Client, s: Bytes, more: Bytes)
    ensures Continues(Converse(c, s), more, Converse(c, s + more))
  {
    if ReadFull(s, 2).Got? {
      ReadFullMore(s, more, 2);
      RequestMore(c, s[2..], more);
      AuthenticateMore(c, s[2..], more);
      ContinuesAfter(Request(c, s[2..]), more, Request(c, s[2..] + more), c.Greeting());
      ContinuesAfter(Authenticate(c, s[2..]), more, Authenticate(c, s[2..] + more), c.Greeting());
    }
  }

  lemma ServerIsMonotone(o: Options, s: Bytes, t: Bytes)
    requires s <= t
    ensures Serve(o, s, false).written <= Serve(o, t, false).written
  {
    ServeMore(o, s, t[|s|..], false);
    assert s + t[|s|..] == t;
  }

  lemma ClientIsMonotone(c: Client, s: Bytes, t: Bytes)
    requires s <= t
    ensures Converse(c, s).sent <= Converse(c, t).sent
  {
    ConverseMore(c, s, t[|s|..]);
    assert s + t[|s|..] == t;
  }

  /** The bytes that have arrived on either side; what a side wrote beyond them is in flight. */
  datatype Delivery = ToServer(n: nat) | ToClient(n: nat)

  function Said(o: Options, c: Client, arrived: Wire): Wire {
    Wire(Converse(c, arrived.toClient).sent, Serve(o, arrived.toServer, false).written)
  }

  /** The network may deliver any number of the bytes in flight, at either side, at any time. */
  predicate CanDeliver(o: Options, c: Client, arrived: Wire, d: Delivery) {
    match d
    case ToServer(n) => n > 0 && |arrived.toServer| + n <= |Said(o, c, arrived).toServer|
    case ToClient(n) => n > 0 && |arrived.toClient| + n <= |Said(o, c, arrived).toClient|
  }

  function Deliver(o: Options, c: Client, arrived: Wire, d: Delivery): Wire
    requires CanDeliver(o, c, arrived, d)
  {
    match d
    case ToServer(n) => arrived.(toServer := Said(o, c, arrived).toServer[..|arrived.toServer| + n])
    case ToClient(n) => arrived.(toClient := Said(o, c, arrived).toClient[..|arrived.toClient| + n])
  }

  predicate Possible(o: Options, c: Client, arrived: Wire, run: seq<Delivery>)
    decreases run
  {
    run == [] || (CanDeliver(o, c, arrived, run[0]) && Possible(o, c, Deliver(o, c, arrived, run[0]), run[1..]))
  }

  function Arrived(o: Options, c: Client, arrived: Wire, run: seq<Delivery>): Wire
    requires Possible(o, c, arrived, run)
    decreases run
  { if run == [] then arrived else Arrived(o, c, Deliver(o, c, arrived, run[0]), run[1..]) }

  predicate Quiet(o: Options, c: Client, arrived: Wire) { arrived == Said(o, c, arrived) }

  predicate Before(a: Wire, b: Wire) { a.toServer <= b.toServer && a.toClient <= b.toClient }

  /** Every byte that arrives is one the settled conversation carries, and each side has said no more. */
  ghost predicate OnTheWay(o: Options, c: Client, arrived: Wire) {
    Before(arrived, Said(o, c, arrived)) && Before(Said(o, c, arrived), Settled(o, c))
  }

  lemma SaidIsMonotone(o: Options, c: Client, a: Wire, b: Wire)
    requires Before(a, b)
    ensures Before(Said(o, c, a), Said(o, c, b))
  {
    ServerIsMonotone(o, a.toServer, b.toServer);
    ClientIsMonotone(c, a.toClient, b.toClient);
  }

  lemma DeliveryKeepsOnTheWay(o: Options, c: Client, arrived: Wire, d: Delivery)
    requires Meets(o, c, Settled(o, c)) && OnTheWay(o, c, arrived) && CanDeliver(o, c, arrived, d)
    ensures OnTheWay(o, c, Deliver(o, c, arrived, d))
  {
    var next := Deliver(o, c, arrived, d);
    assert Before(arrived, next) && Before(next, Said(o, c, arrived));
    SaidIsMonotone(o, c, arrived, next);
    assert Before(next, Settled(o, c));
    SaidIsMonotone(o, c, next, Settled(o, c));
    assert Said(o, c, Settled(o, c)) == Settled(o, c);
  }

  lemma {:induction false} RunStaysOnTheWay(o: Options, c: Client, arrived: Wire, run: seq<Delivery>)
    requires Meets(o, c, Settled(o, c)) && OnTheWay(o, c, arrived) && Possible(o, c, arrived, run)
    ensures var last := Arrived(o, c, arrived, run);
      OnTheWay(o, c, last) && |arrived.toServer| + |arrived.toClient| + |run| <= |last.toServer| + |last.toClient|
    decreases run
  {
    if run != [] {
      DeliveryKeepsOnTheWay(o, c, arrived, run[0]);
      RunStaysOnTheWay(o, c, Deliver(o, c, arrived, run[0]), run[1..]);
    }
  }

  lemma TurnStaysBefore(o: Options, c: Client, w: Wire, quiet: Wire)
    requires Quiet(o, c, quiet) && Before(w, quiet)
    ensures Before(Turn(o, c, w), quiet)
  {
    ServerIsMonotone(o, w.toServer, quiet.toServer);
    ClientIsMonotone(c, Serve(o, w.toServer, false).written, quiet.toClient);
  }

  lemma {:induction false} IterateStaysBefore(f: Wire -> Wire, x: Wire, k: nat, bound: Wire)
    requires Before(x, bound) && forall w :: Before(w, bound) ==> Before(f(w), bound)
    ensures Before(Iterate(f, x, k), bound)
  {
    if k > 0 { IterateStaysBefore(f, x, k - 1, bound); }
  }

  /** Lock-step exchanges stay behind any quiet state. */
  lemma ExchangesStayBefore(o: Options, c: Client, quiet: Wire, k: nat)
    requires Quiet(o, c, quiet)
    ensures Before(Exchange(o, c, k), quiet)
  {
    var start := Wire(c.Greeting(), []);
    ClientIsMonotone(c, [], quiet.toClient);
    forall w | Before(w, quiet) ensures Before(TurnOf(o, c)(w), quiet) { TurnStaysBefore(o, c, w, quiet); }
    IterateStaysBefore(TurnOf(o, c), start, k, quiet);
  }

  lemma BeforeEachOther(a: Wire, b: Wire)
    requires Before(a, b) && Before(b, a)
    ensures a == b
  {}

  lemma SettledIsBefore(o: Options, c: Client, quiet: Wire)
    requires Fits(c) && Quiet(o, c, quiet)
    ensures Before(Settled(o, c), quiet)
  {
    ExchangesStayBefore(o, c, quiet, 3);
    HandshakeCompletes(o, c, 3);
  }

  lemma StartIsOnTheWay(o: Options, c: Client)
    requires Fits(c)
    ensures Meets(o, c, Settled(o, c)) && OnTheWay(o, c, Wire([], []))
  {
    HandshakeCompletes(o, c, 3);
    SaidIsMonotone(o, c, Wire([], []), Settled(o, c));
    assert Said(o, c, Settled(o, c)) == Settled(o, c);
  }

  /** However the bytes are cut up and interleaved on their way: what has arrived is always a beginning of the one
      settled conversation, there are at most as many deliveries as it has bytes, and when nothing is in flight
      any more, it is that conversation. */
  lemma EveryDeliverySettles(o: Options, c: Client, run: seq<Delivery>)
    requires Fits(c) && Possible(o, c, Wire([], []), run)
    ensures var w := Arrived(o, c, Wire([], []), run);
      && Before(w, Settled(o, c)) && |run| <= |Settled(o, c).toServer| + |Settled(o, c).toClient|
      && ((forall d :: !CanDeliver(o, c, w, d)) ==> w == Settled(o, c) && Meets(o, c, w))
  {
    StartIsOnTheWay(o, c);
    RunStaysOnTheWay(o, c, Wire([], []), run);
    var w := Arrived(o, c, Wire([], []), run);
    if forall d :: !CanDeliver(o, c, w, d) {
      NothingInFlight(o, c, w);
      SettledIsBefore(o, c, w);
      BeforeEachOther(w, Settled(o, c));
    }
  }

  lemma NothingInFlight(o: Options, c: Client, w: Wire)
    requires Before(w, Said(o, c, w)) && forall d :: !CanDeliver(o, c, w, d)
    ensures Quiet(o, c, w)
  {
    var said := Said(o, c, w);
    if |w.toServer| < |said.toServer| { assert CanDeliver(o, c, w, ToServer(|said.toServer| - |w.toServer|)); }
    if |w.toClient| < |said.toClient| { assert CanDeliver(o, c, w, ToClient(|said.toClient| - |w.toClient|)); }
  }

  /** With a longer host the length byte wraps: a server that needs no credentials dials the client's host
      exactly when the name has at most 255 bytes. */
  lemma HostArrivesExactlyWhenItFits(o: Options, c: Client)
    requires !o.requireAuth && !c.AuthEnabled() && o.hasConnector([])
    ensures var end := Serve(o, c.Greeting() + ConnectRequest(c), false).end;
      (end.Dialled() && end.host == Name(c.host)) <==> |c.host| < 256
  {
    ServerReadsGreeting(o, c, ConnectRequest(c));
    if |c.host| < 256 {
      ServerReadsRequest(o, c, []);
    } else if Serve(o, c.Greeting() + ConnectRequest(c), false).end.Dialled() {
      var _ := DialledRequest(o, [], ConnectRequest(c), false);
    }
  }
}

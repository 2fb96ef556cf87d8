/** The active exit: the tunnel's bookkeeping (internal/tunnel/openvpn.go), activation and teardown
    (internal/services/gateway.go) and switching (internal/services/autoswitch.go). What the database, this
    machine and the nodes answer is an arbitrary function of time; routing commands fail as they like; the
    writes whose errors the code ignores succeed. */
module Gateways {
  import opened Lists
  import opened PolicyRouting
  import opened Ranking
  import opened Selection
  import opened Sorting
  import opened Store
  import opened Text

  // ---- the environment ---------------------------------------------------------------------

  datatype Question = Readable | DeviceFree | FilesWritten | ProgramStarts | Handshakes(node: Id)

  /** The answer to each question at each instant. */
  type Answers = (nat, Question) -> bool

  /** This machine can start the tunnel program: nothing here depends on the node. */
  predicate Admits(answers: Answers, t: nat) { answers(t, FilesWritten) && answers(t + 1, ProgramStarts) }

  predicate Completes(answers: Answers, t: nat, node: Id) { Admits(answers, t) && answers(t + 2, Handshakes(node)) }

  class Host {
    const answers: Answers
    var tick: nat

    constructor (answers: Answers)
      ensures this.answers == answers
    { this.answers := answers; }

    method Ask(q: Question) returns (yes: bool)
      modifies this
      ensures yes == answers(old(tick), q) && tick == old(tick) + 1
    {
      yes := answers(tick, q);
      tick := tick + 1;
    }
  }

  // ---- the tunnel manager's active tunnel ------------------------------------------------

  class Tunnel {
    const host: Host
    var held: bool
    var running: bool
    var activeNode: Id

    ghost predicate Valid()
      reads this
    { (held <==> activeNode != "") && (running ==> held) }

    ghost predicate Idle()
      reads this
    { !held && !running && activeNode == "" }

    constructor (host: Host)
      ensures Valid() && Idle() && this.host == host
    { this.host, held, running, activeNode := host, false, false, ""; }

    method Disconnect()
      modifies this
      ensures Idle()
    { held, running, activeNode := false, false, ""; }

    /** A file that cannot be written and a program that cannot be started fail like a refused handshake. */
    method Connect(node: Id) returns (ok: bool)
      requires node != ""
      modifies this, host
      ensures Valid() && host.tick > old(host.tick) && ok == Completes(host.answers, old(host.tick), node)
      ensures if ok then held && running && activeNode == node else Idle()
    {
      Disconnect();
      var filesWritten := host.Ask(FilesWritten);
      if !filesWritten { return false; }
      var started := host.Ask(ProgramStarts);
      if !started { return false; }
      ok := host.Ask(Handshakes(node));
      if ok { held, running, activeNode := true, true, node; }
    }

    /** The process dies on its own. */
    method ProcessExits()
      requires Valid()
      modifies this
      ensures Valid() && !running && held == old(held) && activeNode == old(activeNode)
    { running := false; }

    method ClearExitedProcess()
      requires Valid()
      modifies this
      ensures Valid()
      ensures if old(held && !running) then Idle()
        else held == old(held) && running == old(running) && activeNode == old(activeNode)
    {
      if held && !running { held, activeNode := false, ""; }
    }
  }

  // ---- what activation needs of the database -----------------------------------------------

  function WithStatus(rows: seq<Node>, id: Id, status: Status): (r: seq<Node>)
    ensures |r| == |rows|
    ensures forall i :: 0 <= i < |rows| ==> r[i] == if rows[i].id == id then rows[i].(status := status) else rows[i]
  { seq(|rows|, i requires 0 <= i < |rows| => if rows[i].id == id then rows[i].(status := status) else rows[i]) }

  function RowOf(rows: seq<Node>, id: Id): Option<Node> {
    if rows == [] then None else if rows[0].id == id then Some(rows[0]) else RowOf(rows[1..], id)
  }

  lemma {:induction false} RowOfFinds(rows: seq<Node>, i: nat)
    requires i < |rows| && forall j :: 0 <= j < i ==> rows[j].id != rows[i].id
    ensures RowOf(rows, rows[i].id) == Some(rows[i])
  {
    if i > 0 { RowOfFinds(rows[1..], i - 1); }
  }

  lemma {:induction false} RowOfMeans(rows: seq<Node>, id: Id)
    ensures RowOf(rows, id).None? <==> forall n <- rows :: n.id != id
    ensures RowOf(rows, id).Some? ==> RowOf(rows, id).value in rows && RowOf(rows, id).value.id == id
  {
    if rows != [] { RowOfMeans(rows[1..], id); }
  }

  // ---- how an activation ends ----------------------------------------------------------------

  /** Rejected, DeviceTaken and RoutingFailed are Go errors. */
  datatype Activation = Rejected | Activated | DeviceTaken | ConnectFailed | RoutingFailed {
    predicate IsError() { Rejected? || DeviceTaken? || RoutingFailed? }
  }

  /** What stays fixed during a run. */
  datatype Site = Site(labels: Labels, aliases: map<Id, Id>, answers: Answers)

  /** Questions an activation asks before it starts the tunnel. */
  const CONNECT_AFTER: nat := 4

  /** The row is there and the settings admit it, as far as the database answers from instant t on. */
  predicate Acceptable(site: Site, rows: seq<Node>, s: Settings, t: nat, id: Id) {
    var row := RowOf(rows, CanonicalId(site.aliases, id));
    && site.answers(t, Readable) && site.answers(t + 1, Readable) && site.answers(t + 2, Readable)
    && row.Some? && Eligible(site.labels, s, false)(row.value)
  }

  /** How an accepted activation goes on at instant t, up to its routing. */
  function Dialled(answers: Answers, t: nat, id: Id): Activation {
    if !answers(t, DeviceFree) then DeviceTaken else if Completes(answers, t + 1, id) then Activated else ConnectFailed
  }

  /** How an activation begun at instant t ends, up to its routing. */
  function Ending(site: Site, rows: seq<Node>, s: Settings, t: nat, id: Id): Activation {
    if !Acceptable(site, rows, s, t, id) then Rejected else Dialled(site.answers, t + 3, id)
  }

  lemma EndingFollows(site: Site, rows: seq<Node>, s: Settings, t: nat, id: Id, admitted: bool, r: Activation)
    requires admitted == Acceptable(site, rows, s, t, id)
    requires if admitted then EndsAs(r, Dialled(site.answers, t + 3, id)) else r == Rejected
    ensures EndsAs(r, Ending(site, rows, s, t, id))
  {}

  /** The settings admit the stored row this id leads to. */
  predicate Permits(site: Site, rows: seq<Node>, s: Settings, id: Id) {
    var row := RowOf(rows, CanonicalId(site.aliases, id));
    row.Some? && ModeAdmits(site.labels, s, row.value) && IpAdmits(s, row.value, false)
  }

  /** The database answers an activation's three reads. */
  predicate ReadsAt(answers: Answers, t: nat) {
    answers(t, Readable) && answers(t + 1, Readable) && answers(t + 2, Readable)
  }

  /** An activation begun at instant t, question by question: three reads, the device, the files, the program, the
      node's handshake. */
  lemma EndingMeans(site: Site, rows: seq<Node>, s: Settings, t: nat, id: Id)
    ensures var ending, yes := Ending(site, rows, s, t, id), site.answers;
      var accepted := ReadsAt(yes, t) && Permits(site, rows, s, id);
      var up := yes(t + 4, FilesWritten) && yes(t + 5, ProgramStarts) && yes(t + 6, Handshakes(id));
      && (ending == Rejected <==> !accepted)
      && (ending == DeviceTaken <==> accepted && !yes(t + 3, DeviceFree))
      && (ending == Activated <==> accepted && yes(t + 3, DeviceFree) && up)
      && (ending == ConnectFailed <==> accepted && yes(t + 3, DeviceFree) && !up)
  {}

  lemma EndingIsPermitted(site: Site, rows: seq<Node>, s: Settings, t: nat, id: Id, r: Activation)
    requires EndsAs(r, Ending(site, rows, s, t, id))
    ensures r != Rejected ==> exists n <- rows ::
      n.id == CanonicalId(site.aliases, id) && ModeAdmits(site.labels, s, n) && IpAdmits(s, n, false)
    ensures ReadsAt(site.answers, t) ==> (r == Rejected <==> !Permits(site, rows, s, id))
  {
    EndingMeans(site, rows, s, t, id);
    RowOfMeans(rows, CanonicalId(site.aliases, id));
  }

  predicate EndsAs(r: Activation, ending: Activation) { r == ending || (ending == Activated && r == RoutingFailed) }

  class NodeStore {
    const host: Host
    const aliases: map<Id, Id>
    var rows: seq<Node>
    var cooldowns: map<Id, Time>

    ghost predicate Valid()
      reads this
    { forall n <- rows :: n.id != "" }

    constructor (host: Host, aliases: map<Id, Id>, rows: seq<Node>)
      requires forall n <- rows :: n.id != ""
      ensures Valid() && this.host == host && this.aliases == aliases && this.rows == rows && cooldowns == map[]
    { this.host, this.aliases, this.rows, cooldowns := host, aliases, rows, map[]; }

    function Resolve(id: Id): Id { CanonicalId(aliases, id) }

    method Get(id: Id) returns (n: Option<Node>)
      modifies host
      ensures n == if host.answers(old(host.tick), Readable) then RowOf(rows, Resolve(id)) else None
      ensures host.tick == old(host.tick) + 1
    {
      var readable := host.Ask(Readable);
      if !readable { return None; }
      for k := 0 to |rows|
        invariant RowOf(rows, Resolve(id)) == RowOf(rows[k..], Resolve(id))
      {
        if rows[k].id == Resolve(id) { return Some(rows[k]); }
      }
      n := None;
    }

    method MarkUnavailable(id: Id)
      requires Valid()
      modifies this`rows
      ensures Valid() && rows == WithStatus(old(rows), Resolve(id), Unavailable)
    { rows := WithStatus(rows, Resolve(id), Unavailable); }

    method Blacklist(id: Id, until: Time)
      requires Valid()
      modifies this`rows, this`cooldowns
      ensures Valid() && rows == WithStatus(old(rows), Resolve(id), Cooldown)
      ensures cooldowns == old(cooldowns)[Resolve(id) := until]
    {
      cooldowns := cooldowns[Resolve(id) := until];
      rows := WithStatus(rows, Resolve(id), Cooldown);
    }
  }

  class SettingsStore {
    var settings: Settings

    method SetConnectionEnabled(enabled: bool)
      modifies this
      ensures settings == old(settings).(connectionEnabled := enabled)
    { settings := settings.(connectionEnabled := enabled); }
  }

  // ---- the gateway ---------------------------------------------------------------------------

  class GatewayService {
    const host: Host
    const nodes: NodeStore
    const settingsRepo: SettingsStore
    const tunnel: Tunnel
    const router: PolicyRouter
    const device: string
    const labels: Labels
    var lastError: string
    var activeLatency: int
    var exitIP: string
    var exitLatency: int
    var connectionEnabled: bool

    ghost predicate Valid()
      reads this, nodes, tunnel, router, router.kernel
    {
      && nodes.Valid() && tunnel.Valid() && router.kernel.Valid() && router.setupRetries >= 1
      && nodes.host == host && tunnel.host == host && device == router.config.iface
    }

    /** The router's whole state. */
    ghost function Routing(): World
      reads router, router.kernel
    { router.Abstract() }

    /** A cleanup since the router stood at `before` with these counts of failures. */
    ghost predicate CleanedUp(before: World, ipFaults: nat, restoreFaults: nat)
      reads router, router.kernel
    {
      CleanupOutcome(router.config, router.kernel.names, before, Routing(),
                     router.CleanSince(ipFaults), router.RestoredSince(restoreFaults))
    }

    ghost predicate SetUp(before: World, ok: bool, rp: RpStep, ipFaults: nat, restoreFaults: nat)
      reads router, router.kernel
    {
      SetupOutcome(router.config, router.kernel.names, before, Routing(), router.config.iface, ok, rp,
                   router.CleanSince(ipFaults), router.RestoredSince(restoreFaults))
    }

    /** Our rule and our default route are installed on the device. */
    ghost predicate Routed()
      reads router, router.kernel
    {
      && NewRule(device, router.config.table) in router.kernel.rules
      && NewRoute(device, router.config.table) in router.kernel.routes
    }

    constructor (host: Host, nodes: NodeStore, settingsRepo: SettingsStore, tunnel: Tunnel, router: PolicyRouter,
          labels: Labels)
      ensures this.host == host && this.nodes == nodes && this.settingsRepo == settingsRepo
      ensures this.tunnel == tunnel && this.router == router
      ensures device == router.config.iface && this.labels == labels && connectionEnabled
    {
      this.host, this.nodes, this.settingsRepo, this.tunnel, this.router := host, nodes, settingsRepo, tunnel, router;
      device, this.labels := router.config.iface, labels;
      lastError, activeLatency, exitIP, exitLatency, connectionEnabled := "", 0, "", 0, true;
    }

    function Here(): Site { Site(labels, nodes.aliases, host.answers) }

    /** Switches connections on and checks the node against the settings. */
    method Admit(nodeID: Id) returns (admitted: bool)
      requires Valid()
      modifies this`connectionEnabled, host, settingsRepo
      ensures Valid() && host.tick > old(host.tick)
      ensures admitted == Acceptable(Here(), nodes.rows, old(settingsRepo.settings), old(host.tick), nodeID)
      ensures admitted ==>
        host.tick == old(host.tick) + 3 && connectionEnabled && settingsRepo.settings.connectionEnabled
      ensures settingsRepo.settings == old(settingsRepo.settings)
           || settingsRepo.settings == old(settingsRepo.settings).(connectionEnabled := true)
    {
      var target := nodes.Get(nodeID);
      if target == None { return false; }
      var node := nodes.Get(nodeID);
      if node == None { return false; }
      settingsRepo.SetConnectionEnabled(true);
      connectionEnabled := true;
      var settingsRead := host.Ask(Readable);
      if !settingsRead { return false; }
      var verdict := ValidateAllowed(labels, node.value, settingsRepo.settings);
      admitted := verdict == Allowed;
    }

    /** Frees the device and brings the tunnel up on it. */
    method Dial(nodeID: Id) returns (r: Activation)
      requires Valid() && nodeID != ""
      modifies this`lastError, host, nodes`rows, tunnel
      ensures Valid() && host.tick > old(host.tick)
      ensures r == Dialled(host.answers, old(host.tick), nodeID)
      ensures if r == Activated then tunnel.running && tunnel.activeNode == nodeID else tunnel.Idle()
      ensures nodes.rows ==
        if r == ConnectFailed then WithStatus(old(nodes.rows), nodes.Resolve(nodeID), Unavailable) else old(nodes.rows)
    {
      tunnel.Disconnect();
      var deviceFree := host.Ask(DeviceFree);
      if !deviceFree {
        lastError := "tunnel device unavailable";
        return DeviceTaken;
      }
      var connected := tunnel.Connect(nodeID);
      if connected { return Activated; }
      nodes.MarkUnavailable(nodeID);
      lastError := "activation failed";
      r := ConnectFailed;
    }

    /** What an activation leaves: after a success the exit is up and our rule and route are installed, whatever
        else failed; after a failure no tunnel is left, and routing is either untouched (still the incumbent's) or
        cleaned up. */
    ghost predicate Leaves(r: Activation, rp: RpStep, nodeID: Id, before: World, ipFaults: nat, restoreFaults: nat)
      reads this, tunnel, router, router.kernel
    {
      match r
      case Rejected => true
      case Activated =>
        && tunnel.running && tunnel.activeNode == nodeID && Routed() && lastError == "" && activeLatency == 0
        && SetUp(before, true, rp, ipFaults, restoreFaults)
      case RoutingFailed => tunnel.Idle() && SetUp(before, false, rp, ipFaults, restoreFaults)
      case _ => tunnel.Idle() && Routing() == before
    }

    /** activate. A rejected activation leaves the exit alone, though it may switch connections on. */
    method Activate(nodeID: Id) returns (r: Activation, ghost rp: RpStep)
      requires Valid() && nodeID != ""
      modifies this`lastError, this`activeLatency, this`connectionEnabled, host, settingsRepo, nodes`rows, tunnel
      modifies router`rpFilterOriginal, router`restoreFaults, router.kernel
      ensures Valid() && host.tick > old(host.tick)
      ensures EndsAs(r, Ending(Here(), old(nodes.rows), old(settingsRepo.settings), old(host.tick), nodeID))
      // a node the settings do not admit is rejected, and with a database that can be read no other is
      ensures r != Rejected ==> exists n <- old(nodes.rows) ::
        && n.id == nodes.Resolve(nodeID)
        && ModeAdmits(labels, old(settingsRepo.settings), n) && IpAdmits(old(settingsRepo.settings), n, false)
      ensures ReadsAt(host.answers, old(host.tick)) ==>
        (r == Rejected <==> !Permits(Here(), old(nodes.rows), old(settingsRepo.settings), nodeID))
      // routing fails only when a command failed in each of the router's attempts
      ensures r == RoutingFailed ==> router.Troubles() >= old(router.Troubles()) + router.setupRetries
      ensures Leaves(r, rp, nodeID, old(Routing()), old(router.kernel.ipFaults), old(router.restoreFaults))
      ensures r == Rejected ==>
        unchanged(tunnel) && unchanged(router) && unchanged(router.kernel) && lastError == old(lastError)
      ensures nodes.rows ==
        if r == ConnectFailed then WithStatus(old(nodes.rows), nodes.Resolve(nodeID), Unavailable) else old(nodes.rows)
      ensures r != Rejected ==> connectionEnabled && settingsRepo.settings.connectionEnabled
      ensures settingsRepo.settings == old(settingsRepo.settings)
           || settingsRepo.settings == old(settingsRepo.settings).(connectionEnabled := true)
    {
      ghost var here, rows, settings, start := Here(), nodes.rows, settingsRepo.settings, host.tick;
      var admitted := Admit(nodeID);
      r, rp := Rejected, RpStep(false, false);
      if admitted { r, rp := Establish(nodeID); }
      EndingFollows(here, rows, settings, start, nodeID, admitted, r);
      EndingIsPermitted(here, rows, settings, start, nodeID, r);
    }

    /** The tunnel first, then its routing. */
    method Establish(nodeID: Id) returns (r: Activation, ghost rp: RpStep)
      requires Valid() && nodeID != ""
      modifies this`lastError, this`activeLatency, host, nodes`rows, tunnel
      modifies router`rpFilterOriginal, router`restoreFaults, router.kernel
      ensures Valid() && host.tick > old(host.tick) && r != Rejected
      ensures EndsAs(r, Dialled(host.answers, old(host.tick), nodeID))
      ensures r == RoutingFailed ==> router.Troubles() >= old(router.Troubles()) + router.setupRetries
      ensures Leaves(r, rp, nodeID, old(Routing()), old(router.kernel.ipFaults), old(router.restoreFaults))
      ensures nodes.rows ==
        if r == ConnectFailed then WithStatus(old(nodes.rows), nodes.Resolve(nodeID), Unavailable) else old(nodes.rows)
    {
      rp := RpStep(false, false);
      r := Dial(nodeID);
      if r != Activated { return; }
      var routed;
      routed, rp := SetUpRouting();
      if !routed {
        tunnel.Disconnect();
        lastError := "policy routing setup failed";
        return RoutingFailed, rp;
      }
      lastError, activeLatency := "", 0;
    }

    method SetUpRouting() returns (ok: bool, ghost rp: RpStep)
      requires Valid()
      modifies router`rpFilterOriginal, router`restoreFaults, router.kernel
      ensures Valid() && SetUp(old(Routing()), ok, rp, old(router.kernel.ipFaults), old(router.restoreFaults))
      ensures ok ==> Routed()
      ensures !ok ==> router.Troubles() >= old(router.Troubles()) + router.setupRetries
    {
      ok, rp := router.Setup(device);
    }

    method DisconnectOnly()
      requires Valid()
      modifies this, tunnel, router`rpFilterOriginal, router`restoreFaults, router.kernel
      ensures Valid() && tunnel.Idle()
        && CleanedUp(old(Routing()), old(router.kernel.ipFaults), old(router.restoreFaults))
      ensures activeLatency == 0 && exitIP == "" && exitLatency == 0
      ensures lastError == old(lastError) && connectionEnabled == old(connectionEnabled)
    {
      router.Cleanup();
      tunnel.Disconnect();
      activeLatency, exitIP, exitLatency := 0, "", 0;
    }

    method Disconnect()
      requires Valid()
      modifies this, settingsRepo, tunnel, router`rpFilterOriginal, router`restoreFaults, router.kernel
      ensures Valid() && tunnel.Idle()
        && CleanedUp(old(Routing()), old(router.kernel.ipFaults), old(router.restoreFaults))
      ensures !connectionEnabled && settingsRepo.settings == old(settingsRepo.settings).(connectionEnabled := false)
    {
      settingsRepo.SetConnectionEnabled(false);
      connectionEnabled := false;
      DisconnectOnly();
    }

    /** Called when a supervised process exits. It does not say which one: if a new tunnel is already up, its
        routing is cleaned up under it and the tunnel stays. `noticed`: the callback is due. */
    method HandleUnexpectedExit() returns (noticed: bool)
      requires Valid()
      modifies this, tunnel, router`rpFilterOriginal, router`restoreFaults, router.kernel
      ensures Valid() && noticed == old(tunnel.held)
      ensures !noticed ==> unchanged(this) && unchanged(tunnel) && unchanged(router) && unchanged(router.kernel)
      ensures noticed ==>
        && CleanedUp(old(Routing()), old(router.kernel.ipFaults), old(router.restoreFaults))
        && exitIP == "" && activeLatency == 0 && exitLatency == 0 && lastError != ""
      ensures noticed && !old(tunnel.running) ==> tunnel.Idle()
      ensures old(tunnel.running) ==> tunnel.held && tunnel.running && tunnel.activeNode == old(tunnel.activeNode)
      // with faithful commands the exit is up without its routing exactly when one was up before the callback
      ensures device != "" && router.CleanSince(old(router.kernel.ipFaults)) ==>
        (tunnel.running && !Routed() <==> old(tunnel.running))
    {
      if tunnel.activeNode == "" { return false; }
      lastError := "OpenVPN exited unexpectedly";
      router.Cleanup();
      if device != "" && router.CleanSince(old(router.kernel.ipFaults)) {
        OwnRouteGone(router.config, router.kernel.names, old(Routing()), Routing(),
                     router.RestoredSince(old(router.restoreFaults)));
      }
      activeLatency, exitIP, exitLatency := 0, "", 0;
      tunnel.ClearExitedProcess();
      noticed := true;
    }
  }

  // ---- switching ---------------------------------------------------------------------------------

  /** One activation by a switch: the rows there were, the settings, what it excluded, what it tried, when, and how
      that ended. */
  datatype Attempt = Attempt(
    rows: seq<Node>, settings: Settings, excluded: set<Id>, id: Id, at: nat, result: Activation)
  {
    /** The switch chose the node; in fixed mode the settings name it. */
    predicate Chosen() { settings.mode != Fixed }

    /** A node that was chosen is charged for a failed Connect. */
    predicate Penalised() { Chosen() && result == ConnectFailed }
  }

  function Tried(attempts: seq<Attempt>): set<Id> { set a | a in attempts :: a.id }

  /** The nodes a switch marks unavailable and puts on cooldown. */
  function Charged(attempts: seq<Attempt>): set<Id> { set a | a in attempts && a.Penalised() :: a.id }

  /** This machine could start the tunnel at the attempt's Connect. */
  predicate Admitted(answers: Answers, a: Attempt) { Admits(answers, a.at + CONNECT_AFTER) }

  /** The tunnel was started and the node did not complete the handshake. */
  predicate Refused(answers: Answers, a: Attempt) {
    a.Penalised() && Admitted(answers, a) && !answers(a.at + CONNECT_AFTER + 2, Handshakes(a.id))
  }

  function Refusals(answers: Answers, attempts: seq<Attempt>): set<Id> {
    set a | a in attempts && Refused(answers, a) :: a.id
  }

  /** The attempt took the best node of the first thousand ready ones that the settings admit and it does not
      exclude, and ended as the database, this machine and the node answered. */
  ghost predicate SoundAttempt(site: Site, a: Attempt) {
    && a.Chosen()
    && (exists n: Node ::
          n.id == a.id && Selects(site.labels, a.rows, a.settings, a.excluded, SWITCH_FETCH_LIMIT, Some(n)))
    && EndsAs(a.result, Ending(site, a.rows, a.settings, a.at, a.id))
  }

  function Excluded(attempts: seq<Attempt>, active: Id): set<Id> {
    Tried(attempts) + (if active == "" then {} else {active})
  }

  /** At most three attempts, each excluding the id that was active and those tried before. */
  ghost predicate SoundAttempts(site: Site, attempts: seq<Attempt>, active: Id) {
    && |attempts| <= 3
    && (forall i :: 0 <= i < |attempts| ==> SoundAttempt(site, attempts[i]))
    && (forall i :: 0 <= i < |attempts| ==> attempts[i].excluded == Excluded(attempts[..i], active))
    && (forall i :: 0 <= i < |attempts| - 1 ==> attempts[i].result != Activated)
  }

  /** Fixed mode: the chosen id, whatever is active. */
  ghost predicate FixedAttempt(site: Site, a: Attempt) {
    && !a.Chosen() && a.id != "" && a.settings.fixedNode == Some(a.id)
    && EndsAs(a.result, Ending(site, a.rows, a.settings, a.at, a.id))
  }

  /** Everything a switch under settings s may do. */
  ghost predicate SoundSwitch(site: Site, attempts: seq<Attempt>, active: Id, s: Settings) {
    && (forall a <- attempts :: a.settings == s)
    && (if s.mode == Fixed then attempts == [] || (|attempts| == 1 && FixedAttempt(site, attempts[0]))
        else SoundAttempts(site, attempts, active))
  }

  /** Whatever a switch tries and is not rejected, chosen or fixed, has a row that the settings admit. */
  lemma AttemptsArePermitted(site: Site, attempts: seq<Attempt>, active: Id, s: Settings, a: Attempt)
    requires SoundSwitch(site, attempts, active, s) && a in attempts && a.result != Rejected
    ensures Permits(site, a.rows, s, a.id)
    ensures exists n <- a.rows :: n.id == CanonicalId(site.aliases, a.id) && Eligible(site.labels, s, false)(n)
  {
    EndingMeans(site, a.rows, s, a.at, a.id);
    RowOfMeans(a.rows, CanonicalId(site.aliases, a.id));
    assert s.mode != Fixed ==> SoundAttempt(site, a);
  }

  lemma ExcludedIsNotChosen(site: Site, a: Attempt)
    requires SoundAttempt(site, a)
    ensures a.id !in a.excluded
  {
    var n: Node :| n.id == a.id && Selects(site.labels, a.rows, a.settings, a.excluded, SWITCH_FETCH_LIMIT, Some(n));
    assert n in Candidates(site.labels, a.rows, a.settings, a.excluded, SWITCH_FETCH_LIMIT);
  }

  /** No row is tried twice, nor the one whose own id is active. So no node is tried twice, as long as the ids
      tried are nodes' own ids. */
  lemma AttemptsAreDistinct(site: Site, attempts: seq<Attempt>, active: Id)
    requires SoundAttempts(site, attempts, active)
    ensures forall i, j :: 0 <= i < j < |attempts| ==> attempts[i].id != attempts[j].id
    ensures active != "" ==> active !in Tried(attempts)
    ensures (forall a <- attempts :: CanonicalId(site.aliases, a.id) == a.id) ==>
      forall i, j :: 0 <= i < j < |attempts| ==>
        CanonicalId(site.aliases, attempts[i].id) != CanonicalId(site.aliases, attempts[j].id)
  {
    forall i, j | 0 <= i < j < |attempts| ensures attempts[i].id != attempts[j].id {
      ExcludedIsNotChosen(site, attempts[j]);
      assert attempts[j].excluded == Excluded(attempts[..j], active);
      assert attempts[i] in attempts[..j];
    }
    forall i | 0 <= i < |attempts| && active != "" ensures attempts[i].id != active {
      ExcludedIsNotChosen(site, attempts[i]);
      assert attempts[i].excluded == Excluded(attempts[..i], active);
    }
  }

  lemma ChosenIsRow(labels: Labels, rows: seq<Node>, s: Settings, excluded: set<Id>, n: Node)
    requires Selects(labels, rows, s, excluded, SWITCH_FETCH_LIMIT, Some(n))
    ensures n in ListNodes(rows, IsReady(), SWITCH_FETCH_LIMIT) && n in rows && Eligible(labels, s, false)(n)
  {
    assert n in Candidates(labels, rows, s, excluded, SWITCH_FETCH_LIMIT);
    assert n in ListNodes(rows, IsReady(), SWITCH_FETCH_LIMIT);
    ListedIsRow(rows, IsReady(), SWITCH_FETCH_LIMIT, n);
  }

  /** The settings under which a switch considers just one id. */
  function OnlyId(id: Id): Settings { Settings(true, Favorites, AnyIp, "", None, [id]) }

  /** The attempt a switch then makes. */
  function AttemptOn(site: Site, rows: seq<Node>, excluded: set<Id>, id: Id, at: nat): Attempt {
    Attempt(rows, OnlyId(id), excluded, id, at, Ending(site, rows, OnlyId(id), at, id))
  }

  lemma OnlyIdIsChosen(labels: Labels, rows: seq<Node>, excluded: set<Id>, n: Node) returns (best: Node)
    requires n in ListNodes(rows, IsReady(), SWITCH_FETCH_LIMIT) && n.id !in excluded
    ensures best.id == n.id && Selects(labels, rows, OnlyId(n.id), excluded, SWITCH_FETCH_LIMIT, Some(best))
  {
    var s := OnlyId(n.id);
    var pool := Candidates(labels, rows, s, excluded, SWITCH_FETCH_LIMIT);
    assert Eligible(labels, s, false)(n);
    assert n in pool;
    HeadIsBest(s, pool);
    best := Ranked(s, pool)[0];
    assert best in pool && Eligible(labels, s, false)(best);
  }

  lemma AttemptAlone(site: Site, a: Attempt, active: Id)
    ensures SoundAttempt(site, a) && a.excluded == Excluded([], active) ==> SoundAttempts(site, [a], active)
  {
    assert [a][..0] == [];
  }

  lemma OnlyIdIsTried(site: Site, rows: seq<Node>, active: Id, n: Node, at: nat)
    requires n in ListNodes(rows, IsReady(), SWITCH_FETCH_LIMIT) && (active == "" || n.id != active)
    ensures SoundAttempts(site, [AttemptOn(site, rows, Excluded([], active), n.id, at)], active)
  {
    var a := AttemptOn(site, rows, Excluded([], active), n.id, at);
    NoAttempts(site, active);
    var best := OnlyIdIsChosen(site.labels, rows, a.excluded, n);
    AttemptAlone(site, a, active);
    assert SoundAttempt(site, a);
  }

  lemma TriedIsRow(site: Site, a: Attempt, active: Id) returns (n: Node)
    requires SoundAttempts(site, [a], active)
    ensures n in ListNodes(a.rows, IsReady(), SWITCH_FETCH_LIMIT) && n in a.rows && n.id == a.id
    ensures active != "" ==> n.id != active
  {
    assert SoundAttempt(site, [a][0]);
    AttemptsAreDistinct(site, [a], active);
    assert a.id in Tried([a]);
    n :| n.id == a.id && Selects(site.labels, a.rows, a.settings, a.excluded, SWITCH_FETCH_LIMIT, Some(n));
    ChosenIsRow(site.labels, a.rows, a.settings, a.excluded, n);
  }

  /** The gateway remembers the id a node was activated by, and a switch that chooses excludes that id. So it can try
      the very node that is active exactly when another id of it is the id of a listed ready row: most simply the
      node's own id, when it was activated by an alias. */
  lemma ActiveNodeMayBeTried(site: Site, rows: seq<Node>, active: Id)
    requires active != ""
    ensures (exists a: Attempt ::
               && a.rows == rows && CanonicalId(site.aliases, a.id) == CanonicalId(site.aliases, active)
               && SoundAttempts(site, [a], active))
       <==> (exists n <- ListNodes(rows, IsReady(), SWITCH_FETCH_LIMIT) ::
               n.id != active && CanonicalId(site.aliases, n.id) == CanonicalId(site.aliases, active))
  {
    var node := CanonicalId(site.aliases, active);
    if a: Attempt :|
      a.rows == rows && CanonicalId(site.aliases, a.id) == node && SoundAttempts(site, [a], active)
    {
      var n := TriedIsRow(site, a, active);
    }
    if n :|
      n in ListNodes(rows, IsReady(), SWITCH_FETCH_LIMIT) && n.id != active && CanonicalId(site.aliases, n.id) == node
    {
      OnlyIdIsTried(site, rows, active, n, 0);
      assert SoundAttempts(site, [AttemptOn(site, rows, Excluded([], active), n.id, 0)], active);
    }
  }

  /** The id a switch under these settings activates without choosing. */
  function Pinned(s: Settings): Option<Id> { if s.mode == Fixed then Some(s.fixedNode.GetOr("")) else None }

  /** A switch under settings that pin `pinned`, with rows of these ids, tries the node that was active. */
  ghost predicate Retries(site: Site, stored: set<Id>, active: Id, pinned: Option<Id>, attempts: seq<Attempt>,
                          s: Settings)
  {
    && Pinned(s) == pinned && SoundSwitch(site, attempts, active, s)
    && (forall a <- attempts, n <- a.rows :: n.id in stored)
    && CanonicalId(site.aliases, active) in Resolved(site, Tried(attempts))
  }

  /** Over all runs: the node that was active is never tried if and only if, where the switch chooses, no other
      stored row's id leads to it, and in fixed mode the fixed id is unset or leads to another node. */
  lemma ActiveNodeNeverTried(site: Site, stored: set<Id>, active: Id, pinned: Option<Id>)
    requires active != ""
    ensures (forall attempts, s :: !Retries(site, stored, active, pinned, attempts, s))
       <==> match pinned
            case None => forall c <- stored ::
              CanonicalId(site.aliases, c) == CanonicalId(site.aliases, active) ==> c == active
            case Some(id) => id == "" || CanonicalId(site.aliases, id) != CanonicalId(site.aliases, active)
  {
    match pinned
    case None =>
      forall attempts, s | Retries(site, stored, active, None, attempts, s)
        ensures exists c <- stored :: c != active && CanonicalId(site.aliases, c) == CanonicalId(site.aliases, active)
      {
        RetriedId(site, stored, active, attempts, s);
      }
      if c :| c in stored && c != active && CanonicalId(site.aliases, c) == CanonicalId(site.aliases, active) {
        OtherIdIsTried(site, stored, active, c);
      }
    case Some(id) =>
      if id != "" && CanonicalId(site.aliases, id) == CanonicalId(site.aliases, active) {
        FixedIsTried(site, stored, active, id);
      }
  }

  lemma RetriedId(site: Site, stored: set<Id>, active: Id, attempts: seq<Attempt>, s: Settings)
    ensures active != "" && Retries(site, stored, active, None, attempts, s) ==>
      exists c <- stored :: c != active && CanonicalId(site.aliases, c) == CanonicalId(site.aliases, active)
  {
    if active != "" && Retries(site, stored, active, None, attempts, s) {
      var a :| a in attempts && CanonicalId(site.aliases, a.id) == CanonicalId(site.aliases, active);
      AttemptsAreDistinct(site, attempts, active);
      assert a.id in Tried(attempts) && SoundAttempt(site, a);
      var n: Node :|
        n.id == a.id && Selects(site.labels, a.rows, a.settings, a.excluded, SWITCH_FETCH_LIMIT, Some(n));
      ChosenIsRow(site.labels, a.rows, a.settings, a.excluded, n);
      assert a.id in stored && a.id != active;
    }
  }

  lemma OtherIdIsTried(site: Site, stored: set<Id>, active: Id, c: Id)
    requires active != "" && c in stored && c != active
    requires CanonicalId(site.aliases, c) == CanonicalId(site.aliases, active)
    ensures Retries(site, stored, active, None, [AttemptOn(site, [ReadyRow(c)], {active}, c, 0)], OnlyId(c))
  {
    var a := AttemptOn(site, [ReadyRow(c)], {active}, c, 0);
    NoAttempts(site, active);
    ReadyIsTried(site, c, active, 0);
    assert c in Tried([a]);
  }

  /** Fixed mode with this node. */
  function OnlyFixed(id: Id): Settings { Settings(true, Fixed, AnyIp, "", Some(id), []) }

  lemma FixedIsTried(site: Site, stored: set<Id>, active: Id, id: Id)
    requires id != "" && CanonicalId(site.aliases, id) == CanonicalId(site.aliases, active)
    ensures Retries(site, stored, active, Some(id),
                    [Attempt([], OnlyFixed(id), {}, id, 0, Ending(site, [], OnlyFixed(id), 0, id))], OnlyFixed(id))
  {
    assert id in Tried([Attempt([], OnlyFixed(id), {}, id, 0, Ending(site, [], OnlyFixed(id), 0, id))]);
  }

  /** Where rows are found by their own ids, no other row's id leads to a stored node that is active if and only if
      it is active under its own id. */
  lemma OwnIdIsEnough(site: Site, stored: set<Id>, active: Id)
    requires CanonicalId(site.aliases, active) in stored && forall c <- stored :: CanonicalId(site.aliases, c) == c
    ensures (forall c <- stored :: CanonicalId(site.aliases, c) == CanonicalId(site.aliases, active) ==> c == active)
       <==> CanonicalId(site.aliases, active) == active
  {}

  /** The failing run of fixed mode: the fixed node is up under its own id, and a switch takes its tunnel down, dials
      it anew and, if it then refuses the handshake, is left without an exit. */
  lemma FixedNodeIsDialledAgain(site: Site, rows: seq<Node>, s: Settings, active: Id, t: nat)
    requires active != "" && s.mode == Fixed && s.fixedNode == Some(active) && Acceptable(site, rows, s, t, active)
    requires site.answers(t + 3, DeviceFree) && Admits(site.answers, t + CONNECT_AFTER)
    ensures var refused := !site.answers(t + CONNECT_AFTER + 2, Handshakes(active));
      exists a: Attempt ::
        && a.rows == rows && a.id == active && a.at == t && SoundSwitch(site, [a], active, s)
        && (if refused then a.result == ConnectFailed else a.result == Activated)
  {
    var a := Attempt(rows, s, {}, active, t, Ending(site, rows, s, t, active));
    assert SoundSwitch(site, [a], active, s);
  }

  function ReadyRow(id: Id): Node { Node(id, "", Residential, Ready, 1, 0, 0, 0, 0, None, 0) }

  lemma ReadyAlone(id: Id)
    ensures ReadyRow(id) in ListNodes([ReadyRow(id)], IsReady(), SWITCH_FETCH_LIMIT)
  {
    var n := ReadyRow(id);
    var all := Filter([n], IsReady());
    assert [n][1..] == [] && all == [n] + Filter([n][1..], IsReady());
    SortedKeepsElements(ListOrder(), all);
    SameElements(Sorted(ListOrder(), all), all);
  }

  /** The code's own comment says only a node that refused the handshake is charged. That holds exactly when this
      machine could start the tunnel at every Connect whose node was charged: Connect reports a file it could not
      write, or a program it could not start, as the node's failure. */
  lemma ChargedExactlyForHandshakes(site: Site, attempts: seq<Attempt>, active: Id, s: Settings)
    requires SoundSwitch(site, attempts, active, s)
    ensures Charged(attempts) == Refusals(site.answers, attempts)
       <==> forall a <- attempts :: a.Penalised() ==> Admitted(site.answers, a)
  {
    if s.mode != Fixed { AttemptsAreDistinct(site, attempts, active); }
    forall a | a in attempts && a.Penalised()
      ensures a.id in Refusals(site.answers, attempts) <==> Admitted(site.answers, a)
    {
      SameAttempt(attempts, a);
      assert SoundAttempt(site, a);
      FailedDialIsRefusal(site, a);
    }
    ChargesAreRefusals(site.answers, attempts);
  }

  lemma FailedDialIsRefusal(site: Site, a: Attempt)
    requires a.Penalised() && EndsAs(a.result, Ending(site, a.rows, a.settings, a.at, a.id))
    ensures Refused(site.answers, a) <==> Admitted(site.answers, a)
  {}

  lemma ChargesAreRefusals(answers: Answers, attempts: seq<Attempt>)
    requires forall a <- attempts :: a.Penalised() ==> (a.id in Refusals(answers, attempts) <==> Admitted(answers, a))
    ensures Charged(attempts) == Refusals(answers, attempts)
       <==> forall a <- attempts :: a.Penalised() ==> Admitted(answers, a)
  {
    if Charged(attempts) == Refusals(answers, attempts) {
      forall a | a in attempts && a.Penalised() ensures Admitted(answers, a) {
        assert a.id in Charged(attempts);
      }
    }
  }

  lemma SameAttempt(attempts: seq<Attempt>, a: Attempt)
    requires a in attempts
    requires forall i, j :: 0 <= i < j < |attempts| ==> attempts[i].id != attempts[j].id
    ensures forall b <- attempts :: b.id == a.id ==> b == a
  {
    var i :| 0 <= i < |attempts| && attempts[i] == a;
    forall b | b in attempts && b.id == a.id ensures b == a {
      var j :| 0 <= j < |attempts| && attempts[j] == b;
      assert i == j;
    }
  }

  /** An activation begun at instant t gets as far as its Connect and the tunnel cannot be started. */
  predicate StartFails(answers: Answers, t: nat) {
    && answers(t, Readable) && answers(t + 1, Readable) && answers(t + 2, Readable) && answers(t + 3, DeviceFree)
    && !Admits(answers, t + CONNECT_AFTER)
  }

  lemma ConnectWasReached(site: Site, a: Attempt)
    requires a.result == ConnectFailed && EndsAs(a.result, Ending(site, a.rows, a.settings, a.at, a.id))
    requires !StartFails(site.answers, a.at)
    ensures Admitted(site.answers, a)
  {}

  lemma StartFaultEnding(site: Site, id: Id, t: nat)
    requires StartFails(site.answers, t) && CanonicalId(site.aliases, id) == id
    ensures Ending(site, [ReadyRow(id)], OnlyId(id), t, id) == ConnectFailed
  {
    assert Eligible(site.labels, OnlyId(id), false)(ReadyRow(id));
  }

  /** Then a node is charged for it. */
  lemma StartFaultIsCharged(site: Site, t: nat) returns (a: Attempt)
    requires StartFails(site.answers, t)
    ensures SoundSwitch(site, [a], "", a.settings) && Charged([a]) != Refusals(site.answers, [a])
  {
    var id := FreshId(site.aliases.Keys);
    ReadyIsTried(site, id, "", t);
    StartFaultEnding(site, id, t);
    a := AttemptOn(site, [ReadyRow(id)], Excluded([], ""), id, t);
    ChargedAlone(site.answers, a);
  }

  lemma ReadyIsTried(site: Site, id: Id, active: Id, at: nat)
    requires active == "" || id != active
    ensures SoundSwitch(site, [AttemptOn(site, [ReadyRow(id)], Excluded([], active), id, at)], active, OnlyId(id))
  {
    ReadyAlone(id);
    OnlyIdIsTried(site, [ReadyRow(id)], active, ReadyRow(id), at);
  }

  lemma ChargedAlone(answers: Answers, a: Attempt)
    requires a.Penalised() && !Admitted(answers, a)
    ensures Charged([a]) != Refusals(answers, [a])
  {
    assert a in [a] && a.id in Charged([a]);
    assert a.id !in Refusals(answers, [a]);
  }

  lemma ChargedWereAdmitted(site: Site, attempts: seq<Attempt>, active: Id, s: Settings)
    requires SoundSwitch(site, attempts, active, s) && forall t: nat :: !StartFails(site.answers, t)
    ensures Charged(attempts) == Refusals(site.answers, attempts)
  {
    forall a | a in attempts && a.Penalised() ensures Admitted(site.answers, a) { ConnectWasReached(site, a); }
    ChargedExactlyForHandshakes(site, attempts, active, s);
  }

  /** Over all runs: only nodes that refused the handshake are charged if and only if this machine can start the
      tunnel whenever an activation comes to that. */
  lemma OnlyRefusalsAreCharged(site: Site)
    ensures (forall attempts: seq<Attempt>, active: Id, s: Settings ::
               SoundSwitch(site, attempts, active, s) ==> Charged(attempts) == Refusals(site.answers, attempts))
       <==> forall t: nat :: !StartFails(site.answers, t)
  {
    if t: nat :| StartFails(site.answers, t) {
      var a := StartFaultIsCharged(site, t);
    } else {
      forall attempts: seq<Attempt>, active: Id, s: Settings | SoundSwitch(site, attempts, active, s)
        ensures Charged(attempts) == Refusals(site.answers, attempts)
      {
        ChargedWereAdmitted(site, attempts, active, s);
      }
    }
  }

  ghost function FreshId(ids: set<Id>): (id: Id)
    ensures id !in ids
    ensures forall other <- ids :: |id| > |other|
  {
    if ids == {} then "" else
      var one :| one in ids;
      var rest := FreshId(ids - {one});
      if |rest| > |one| then rest else one + "x"
  }

  ghost predicate ReadsWork(answers: Answers, now: nat) { forall t | t >= now :: answers(t, Readable) }

  /** From `now` on everything works except starting the tunnel program on this machine. */
  ghost predicate OnlyStartsFail(answers: Answers, now: nat) {
    forall t | t >= now :: answers(t, Readable) && answers(t, DeviceFree) && !Admits(answers, t)
  }

  /** The rows are found by their own ids. */
  ghost predicate Canonical(aliases: map<Id, Id>, rows: seq<Node>) {
    && (forall i, j :: 0 <= i < j < |rows| ==> rows[i].id != rows[j].id)
    && forall n <- rows :: CanonicalId(aliases, n.id) == n.id
  }

  predicate SameButStatus(a: seq<Node>, b: seq<Node>) {
    |a| == |b| && forall i :: 0 <= i < |a| ==> a[i] == b[i].(status := a[i].status)
  }

  /** The attempts were made at `now` or later, on these rows, whose status alone changed meanwhile. */
  ghost predicate During(attempts: seq<Attempt>, now: nat, rows: seq<Node>) {
    forall a <- attempts :: a.at >= now && SameButStatus(a.rows, rows)
  }

  lemma StartFaultEnds(site: Site, a: Attempt, rows: seq<Node>)
    requires SoundAttempt(site, a) && SameButStatus(a.rows, rows) && OnlyStartsFail(site.answers, a.at)
    requires Canonical(site.aliases, rows)
    ensures a.Penalised() && !Admitted(site.answers, a)
  {
    var n: Node :| n.id == a.id && Selects(site.labels, a.rows, a.settings, a.excluded, SWITCH_FETCH_LIMIT, Some(n));
    ChosenIsRow(site.labels, a.rows, a.settings, a.excluded, n);
    var i :| 0 <= i < |a.rows| && a.rows[i] == n;
    assert rows[i] in rows && rows[i].id == n.id;
    RowOfFinds(a.rows, i);
  }

  /** The failing run: while only starting the tunnel fails, every node tried is charged and none was dialled. */
  lemma StartFaultsAreCharged(site: Site, attempts: seq<Attempt>, active: Id, now: nat, rows: seq<Node>)
    requires SoundAttempts(site, attempts, active) && During(attempts, now, rows) && OnlyStartsFail(site.answers, now)
    requires Canonical(site.aliases, rows)
    ensures Charged(attempts) == Tried(attempts) && Refusals(site.answers, attempts) == {}
  {
    forall a | a in attempts ensures a.Penalised() && !Admitted(site.answers, a) {
      assert SoundAttempt(site, a);
      StartFaultEnds(site, a, rows);
    }
  }

  lemma ExcludedMore(attempts: seq<Attempt>, active: Id, a: Attempt)
    ensures Excluded(attempts + [a], active) == Excluded(attempts, active) + {a.id}
  {}

  lemma ChargedMore(attempts: seq<Attempt>, a: Attempt)
    ensures Charged(attempts + [a]) == Charged(attempts) + if a.Penalised() then {a.id} else {}
  {}

  lemma NoAttempts(site: Site, active: Id)
    ensures SoundAttempts(site, [], active) && Resolved(site, Charged([])) == {}
    ensures forall s :: SoundSwitch(site, [], active, s)
    ensures Excluded([], active) == if active == "" then {} else {active}
  {
    assert Charged([]) == {} && Tried([]) == {};
  }

  lemma NotCharged(site: Site, attempts: seq<Attempt>)
    requires forall a <- attempts :: !a.Chosen()
    ensures Charged(attempts) == {} && Resolved(site, Charged(attempts)) == {}
  {}

  lemma FixedSwitch(site: Site, a: Attempt, active: Id, s: Settings, now: nat)
    requires FixedAttempt(site, a) && a.settings == s && s.mode == Fixed && a.at >= now
    ensures SoundSwitch(site, [a], active, s) && During([a], now, a.rows) && Resolved(site, Charged([a])) == {}
  {
    NotCharged(site, [a]);
  }

  lemma ResolvedMore(site: Site, attempts: seq<Attempt>, a: Attempt)
    ensures Resolved(site, Charged(attempts + [a])) ==
      Resolved(site, Charged(attempts)) + (if a.Penalised() then {CanonicalId(site.aliases, a.id)} else {})
  {
    ChargedMore(attempts, a);
  }

  /** One more attempt, after attempts that all failed. */
  lemma OneMore(site: Site, attempts: seq<Attempt>, active: Id, a: Attempt)
    requires SoundAttempts(site, attempts, active) && |attempts| < 3
    requires SoundAttempt(site, a) && a.excluded == Excluded(attempts, active)
    requires forall k :: 0 <= k < |attempts| ==> attempts[k].result != Activated
    ensures SoundAttempts(site, attempts + [a], active)
  {
    ExclusionsMore(attempts, active, a);
    var more := attempts + [a];
    forall i | 0 <= i < |more| ensures SoundAttempt(site, more[i]) {
      assert i < |attempts| ==> more[i] == attempts[i];
    }
    assert forall i :: 0 <= i < |attempts| ==> more[i].result == attempts[i].result;
  }

  lemma ExclusionsMore(attempts: seq<Attempt>, active: Id, a: Attempt)
    requires forall i :: 0 <= i < |attempts| ==> attempts[i].excluded == Excluded(attempts[..i], active)
    requires a.excluded == Excluded(attempts, active)
    ensures var more := attempts + [a];
      forall i :: 0 <= i < |more| ==> more[i].excluded == Excluded(more[..i], active)
  {
    var more := attempts + [a];
    forall i | 0 <= i < |more| ensures more[i].excluded == Excluded(more[..i], active) {
      assert more[..i] == attempts[..i];
      if i == |attempts| { assert attempts[..i] == attempts; }
    }
  }

  /** The attempts are sound and account for the ids on cooldown. */
  ghost predicate Accounted(site: Site, attempts: seq<Attempt>, active: Id, s: Settings, before: set<Id>,
                            keys: set<Id>)
  {
    SoundSwitch(site, attempts, active, s) && keys == before + Resolved(site, Charged(attempts))
  }

  /** And all of them failed. */
  ghost predicate Standing(site: Site, attempts: seq<Attempt>, active: Id, s: Settings, before: set<Id>,
                           keys: set<Id>)
  {
    && Accounted(site, attempts, active, s, before, keys)
    && forall k :: 0 <= k < |attempts| ==> attempts[k].result != Activated
  }

  lemma StandingMore(site: Site, attempts: seq<Attempt>, active: Id, s: Settings, before: set<Id>, keys: set<Id>,
        a: Attempt, more: set<Id>)
    requires Standing(site, attempts, active, s, before, keys) && |attempts| < 3
    requires SoundAttempt(site, a) && a.excluded == Excluded(attempts, active) && a.settings == s
    requires more == keys + (if a.result == ConnectFailed then {CanonicalId(site.aliases, a.id)} else {})
    ensures Accounted(site, attempts + [a], active, s, before, more)
  {
    SwitchMore(site, attempts, active, s, a);
    ResolvedMore(site, attempts, a);
  }

  /** All that one more round changes. */
  lemma RoundMore(site: Site, attempts: seq<Attempt>, active: Id, s: Settings, before: set<Id>, keys: set<Id>,
        a: Attempt, more: set<Id>)
    requires Standing(site, attempts, active, s, before, keys) && |attempts| < 3
    requires SoundAttempt(site, a) && a.excluded == Excluded(attempts, active) && a.settings == s
    requires more == keys + (if a.result == ConnectFailed then {CanonicalId(site.aliases, a.id)} else {})
    ensures var longer := attempts + [a];
      && Accounted(site, longer, active, s, before, more) && longer[..|attempts|] == attempts
      && (a.result != Activated ==> Standing(site, longer, active, s, before, more))
      && Excluded(longer, active) == Excluded(attempts, active) + {a.id}
  {
    ExcludedMore(attempts, active, a);
    StandingMore(site, attempts, active, s, before, keys, a, more);
  }

  lemma SwitchMore(site: Site, attempts: seq<Attempt>, active: Id, s: Settings, a: Attempt)
    requires SoundSwitch(site, attempts, active, s) && |attempts| < 3
    requires SoundAttempt(site, a) && a.excluded == Excluded(attempts, active) && a.settings == s
    requires forall k :: 0 <= k < |attempts| ==> attempts[k].result != Activated
    ensures SoundSwitch(site, attempts + [a], active, s)
  {
    OneMore(site, attempts, active, a);
  }

  function Resolved(site: Site, ids: set<Id>): set<Id> { set id | id in ids :: CanonicalId(site.aliases, id) }

  /** Connections are on, and in fixed mode a node is chosen. */
  predicate MaySwitch(s: Settings) { s.connectionEnabled && (s.mode == Fixed ==> s.fixedNode.GetOr("") != "") }

  datatype SwitchResult = Failed | NothingToDo | FixedNode(result: Activation) | Switched(id: Id) | NoCandidate | GaveUp

  class AutoSwitchService {
    const gateway: GatewayService
    const backoff: int

    constructor (gateway: GatewayService, backoff: int)
      ensures this.gateway == gateway && this.backoff == backoff
    { this.gateway, this.backoff := gateway, backoff; }

    /** None of the first thousand ready rows is admitted and not excluded. */
    ghost predicate NothingLeft(excluded: set<Id>)
      reads gateway, gateway.nodes, gateway.settingsRepo
    {
      Candidates(gateway.labels, gateway.nodes.rows, gateway.settingsRepo.settings, excluded, SWITCH_FETCH_LIMIT) == []
    }

    /** The exit is up on this node and routed. */
    ghost predicate ExitOn(id: Id)
      reads gateway, gateway.tunnel, gateway.router, gateway.router.kernel
    { gateway.tunnel.running && gateway.tunnel.activeNode == id && gateway.Routed() }

    /** A switch leaves the settings alone, once connections are on. */
    ghost predicate SettingsKept(before: Settings)
      reads gateway, gateway.settingsRepo
    { before.connectionEnabled ==> gateway.settingsRepo.settings == before }

    /** A switch that chooses its nodes is under way. */
    ghost predicate Choosing()
      reads gateway, gateway.settingsRepo
    { gateway.settingsRepo.settings.connectionEnabled && gateway.settingsRepo.settings.mode != Fixed }

    /** One candidate: only a failed Connect is charged to the node. */
    method TryNode(id: Id, now: Time) returns (result: Activation)
      requires gateway.Valid() && id != ""
      modifies gateway, gateway.host, gateway.settingsRepo, gateway.nodes`rows, gateway.nodes`cooldowns, gateway.tunnel
      modifies gateway.router`rpFilterOriginal, gateway.router`restoreFaults, gateway.router.kernel
      ensures gateway.Valid() && gateway.host.tick > old(gateway.host.tick)
      ensures EndsAs(result, Ending(gateway.Here(), old(gateway.nodes.rows), old(gateway.settingsRepo.settings),
                                    old(gateway.host.tick), id))
      ensures gateway.nodes.cooldowns == if result == ConnectFailed
        then old(gateway.nodes.cooldowns)[gateway.nodes.Resolve(id) := now + backoff] else old(gateway.nodes.cooldowns)
      ensures result == Activated ==> ExitOn(id)
      ensures SameButStatus(gateway.nodes.rows, old(gateway.nodes.rows))
      ensures SettingsKept(old(gateway.settingsRepo.settings))
    {
      ghost var rp;
      result, rp := gateway.Activate(id);
      Charge(id, result, now);
    }

    /** The cooldown of a node whose Connect failed. */
    method Charge(id: Id, result: Activation, now: Time)
      requires gateway.Valid()
      modifies gateway.nodes`rows, gateway.nodes`cooldowns
      ensures gateway.Valid() && SameButStatus(gateway.nodes.rows, old(gateway.nodes.rows))
      ensures gateway.nodes.cooldowns == if result == ConnectFailed
        then old(gateway.nodes.cooldowns)[gateway.nodes.Resolve(id) := now + backoff] else old(gateway.nodes.cooldowns)
    {
      if result == Activated || result.IsError() { return; }
      gateway.nodes.Blacklist(id, now + backoff);
    }

    /** selectExcluding, when the database can be read. */
    method Pick(excluded: set<Id>) returns (readable: bool, candidate: Option<Node>)
      modifies gateway.host
      ensures gateway.host.tick > old(gateway.host.tick)
      ensures ReadsWork(gateway.host.answers, old(gateway.host.tick)) ==> readable
      ensures readable ==> Selects(gateway.labels, gateway.nodes.rows, gateway.settingsRepo.settings, excluded,
                                   SWITCH_FETCH_LIMIT, candidate)
    {
      candidate := None;
      readable := gateway.host.Ask(Readable);
      if !readable { return; }
      readable := gateway.host.Ask(Readable);
      if !readable { return; }
      candidate := SelectExcluding(gateway.labels, gateway.nodes.rows, gateway.settingsRepo.settings, excluded);
    }

    /** Tries the best node left. With nothing to switch to, a running exit is taken down. */
    method TryBest(excluded: set<Id>, now: Time)
      returns (readable: bool, id: Id, result: Option<Activation>, ghost attempt: Attempt)
      requires gateway.Valid() && Choosing()
      modifies gateway, gateway.host, gateway.settingsRepo, gateway.nodes`rows, gateway.nodes`cooldowns, gateway.tunnel
      modifies gateway.router`rpFilterOriginal, gateway.router`restoreFaults, gateway.router.kernel
      ensures gateway.Valid() && gateway.host.tick > old(gateway.host.tick)
      ensures ReadsWork(gateway.host.answers, old(gateway.host.tick)) ==> readable
      ensures result.None? ==> gateway.nodes.cooldowns == old(gateway.nodes.cooldowns)
      ensures readable ==> (result.None? <==> old(NothingLeft(excluded)))
      ensures readable && result.None? ==> gateway.tunnel.Idle() && NothingLeft(excluded)
      ensures result.Some? ==>
        && readable && SoundAttempt(gateway.Here(), attempt) && attempt.excluded == excluded
        && attempt.id == id && attempt.result == result.value && attempt.settings == old(gateway.settingsRepo.settings)
        && attempt.rows == old(gateway.nodes.rows) && attempt.at >= old(gateway.host.tick)
        && gateway.nodes.cooldowns.Keys ==
             old(gateway.nodes.cooldowns.Keys)
             + (if result.value == ConnectFailed then {gateway.nodes.Resolve(id)} else {})
        && (result.value == Activated ==> ExitOn(id))
      ensures SameButStatus(gateway.nodes.rows, old(gateway.nodes.rows))
      ensures gateway.settingsRepo.settings == old(gateway.settingsRepo.settings)
    {
      attempt := *;
      id, result := "", None;
      var candidate;
      readable, candidate := Pick(excluded);
      if !readable { return; }
      if candidate == None {
        gateway.DisconnectOnly();
        return;
      }
      id := candidate.value.id;
      var tried;
      tried, attempt := TryChosen(candidate.value, excluded, now);
      result := Some(tried);
    }

    /** The candidate was chosen; the attempt on it is on record. */
    method TryChosen(n: Node, ghost excluded: set<Id>, now: Time) returns (result: Activation, ghost attempt: Attempt)
      requires gateway.Valid() && Choosing()
      requires Selects(gateway.labels, gateway.nodes.rows, gateway.settingsRepo.settings, excluded, SWITCH_FETCH_LIMIT,
                       Some(n))
      modifies gateway, gateway.host, gateway.settingsRepo, gateway.nodes`rows, gateway.nodes`cooldowns, gateway.tunnel
      modifies gateway.router`rpFilterOriginal, gateway.router`restoreFaults, gateway.router.kernel
      ensures gateway.Valid() && gateway.host.tick > old(gateway.host.tick)
      ensures SoundAttempt(gateway.Here(), attempt)
      ensures attempt == Attempt(old(gateway.nodes.rows), old(gateway.settingsRepo.settings), excluded, n.id,
                                 old(gateway.host.tick), result)
      ensures gateway.nodes.cooldowns.Keys ==
        old(gateway.nodes.cooldowns.Keys) + (if result == ConnectFailed then {gateway.nodes.Resolve(n.id)} else {})
      ensures result == Activated ==> ExitOn(n.id)
      ensures SameButStatus(gateway.nodes.rows, old(gateway.nodes.rows))
      ensures gateway.settingsRepo.settings == old(gateway.settingsRepo.settings)
    {
      ghost var rows, current, at := gateway.nodes.rows, gateway.settingsRepo.settings, gateway.host.tick;
      ChosenIsRow(gateway.labels, rows, current, excluded, n);
      result := TryNode(n.id, now);
      attempt := Attempt(rows, current, excluded, n.id, at, result);
    }

    /** What a switch under settings s promises: sound attempts, cooldowns exactly for the chosen nodes whose Connect
        failed, and the exit its result names. */
    ghost predicate Reports(r: SwitchResult, attempts: seq<Attempt>, active: Id, s: Settings, before: set<Id>)
      reads gateway, gateway.nodes, gateway.settingsRepo, gateway.tunnel, gateway.router, gateway.router.kernel
    {
      && SoundSwitch(gateway.Here(), attempts, active, s)
      && gateway.nodes.cooldowns.Keys == before + Resolved(gateway.Here(), Charged(attempts))
      && (r.Switched? ==>
            && attempts != [] && attempts[|attempts| - 1].id == r.id && attempts[|attempts| - 1].result == Activated
            && ExitOn(r.id))
      && (r == NoCandidate ==> gateway.tunnel.Idle() && NothingLeft(Excluded(attempts, active)))
      && (r == GaveUp ==> |attempts| == 3 && attempts[2].result != Activated)
      && (r.FixedNode? ==> s.mode == Fixed && |attempts| == 1 && FixedOutcome(r.result, attempts[0]))
      && (s.mode == Fixed && !r.FixedNode? ==> attempts == [])
    }

    /** Fixed mode: a node that is not rejected takes the exit's place or leaves none. */
    ghost predicate FixedOutcome(result: Activation, a: Attempt)
      reads gateway, gateway.tunnel, gateway.router, gateway.router.kernel
    {
      a.result == result
      && (result == Rejected || if result == Activated then ExitOn(a.id) else gateway.tunnel.Idle())
    }

    /** One round: a result ends the switch, otherwise `id` failed. */
    method TryNext(ghost attempts: seq<Attempt>, ghost active: Id, ghost before: set<Id>, excluded: set<Id>, now: Time)
      returns (end: Option<SwitchResult>, id: Id, ghost more: seq<Attempt>)
      requires gateway.Valid() && Choosing() && |attempts| < 3 && excluded == Excluded(attempts, active)
      requires Standing(gateway.Here(), attempts, active, gateway.settingsRepo.settings, before,
                        gateway.nodes.cooldowns.Keys)
      modifies gateway, gateway.host, gateway.settingsRepo, gateway.nodes`rows, gateway.nodes`cooldowns, gateway.tunnel
      modifies gateway.router`rpFilterOriginal, gateway.router`restoreFaults, gateway.router.kernel
      ensures gateway.Valid() && gateway.host.tick > old(gateway.host.tick)
      ensures SameButStatus(gateway.nodes.rows, old(gateway.nodes.rows))
      ensures more == attempts || (|more| == |attempts| + 1 && more[..|attempts|] == attempts
        && more[|attempts|].rows == old(gateway.nodes.rows) && more[|attempts|].at >= old(gateway.host.tick))
      ensures gateway.settingsRepo.settings == old(gateway.settingsRepo.settings)
      ensures end.Some? ==>
        && Reports(end.value, more, active, gateway.settingsRepo.settings, before)
        && end.value in {Failed, NoCandidate, Switched(id)}
      ensures end.None? ==>
        && more != attempts
        && Standing(gateway.Here(), more, active, gateway.settingsRepo.settings, before, gateway.nodes.cooldowns.Keys)
        && Excluded(more, active) == excluded + {id}
      ensures ReadsWork(gateway.host.answers, old(gateway.host.tick)) ==>
        (more == attempts <==> old(NothingLeft(excluded))) && end != Some(Failed)
    {
      ghost var keys, settings := gateway.nodes.cooldowns.Keys, gateway.settingsRepo.settings;
      var readable, result;
      ghost var attempt;
      readable, id, result, attempt := TryBest(excluded, now);
      more := attempts;
      if result.Some? {
        RoundMore(gateway.Here(), attempts, active, settings, before, keys, attempt, gateway.nodes.cooldowns.Keys);
        more := attempts + [attempt];
      }
      end :=
        if result.None? then Some(if readable then NoCandidate else Failed)
        else if result.value == Activated then Some(Switched(id))
        else None;
    }

    method TryCandidates(now: Time) returns (r: SwitchResult, ghost attempts: seq<Attempt>)
      requires gateway.Valid() && Choosing()
      modifies gateway, gateway.host, gateway.settingsRepo, gateway.nodes`rows, gateway.nodes`cooldowns, gateway.tunnel
      modifies gateway.router`rpFilterOriginal, gateway.router`restoreFaults, gateway.router.kernel
      ensures gateway.Valid()
      ensures Reports(r, attempts, old(gateway.tunnel.activeNode), old(gateway.settingsRepo.settings),
                      old(gateway.nodes.cooldowns.Keys))
      ensures During(attempts, old(gateway.host.tick), old(gateway.nodes.rows))
      ensures r == Failed || r.Switched? || r == NoCandidate || r == GaveUp
      ensures ReadsWork(gateway.host.answers, old(gateway.host.tick)) ==>
        (attempts == [] <==> old(NothingLeft(Excluded([], gateway.tunnel.activeNode)))) && r != Failed
    {
      attempts := [];
      var active := gateway.tunnel.activeNode;
      ghost var before := gateway.nodes.cooldowns.Keys;
      var excluded: set<Id> := if active == "" then {} else {active};
      NoAttempts(gateway.Here(), active);
      ghost var nothing := NothingLeft(excluded);
      for i := 0 to 3
        invariant gateway.Valid() && |attempts| == i && excluded == Excluded(attempts, active)
        invariant gateway.settingsRepo.settings == old(gateway.settingsRepo.settings)
        invariant Standing(gateway.Here(), attempts, active, gateway.settingsRepo.settings, before,
                           gateway.nodes.cooldowns.Keys)
        invariant gateway.host.tick >= old(gateway.host.tick)
        invariant SameButStatus(gateway.nodes.rows, old(gateway.nodes.rows))
        invariant During(attempts, old(gateway.host.tick), old(gateway.nodes.rows))
        invariant i == 0 ==> NothingLeft(excluded) == nothing
        invariant i > 0 && ReadsWork(gateway.host.answers, old(gateway.host.tick)) ==> !nothing
      {
        ghost var rows := gateway.nodes.rows;
        var end, id;
        ghost var more;
        end, id, more := TryNext(attempts, active, before, excluded, now);
        DuringMore(attempts, more, old(gateway.host.tick), old(gateway.nodes.rows), rows);
        attempts := more;
        if end.Some? { return end.value, attempts; }
        excluded := excluded + {id};
      }
      r := GaveUp;
    }

    /** Fixed mode: activates the fixed node, whatever is active, and charges it with nothing. */
    method SwitchToFixed(s: Settings, now: nat) returns (r: SwitchResult, ghost attempts: seq<Attempt>)
      requires gateway.Valid() && s == gateway.settingsRepo.settings && s.connectionEnabled && s.mode == Fixed
      requires s.fixedNode.GetOr("") != "" && gateway.host.tick >= now
      modifies gateway, gateway.host, gateway.settingsRepo, gateway.nodes`rows, gateway.nodes`cooldowns, gateway.tunnel
      modifies gateway.router`rpFilterOriginal, gateway.router`restoreFaults, gateway.router.kernel
      ensures gateway.Valid() && r.FixedNode? && During(attempts, now, old(gateway.nodes.rows))
      ensures Reports(r, attempts, old(gateway.tunnel.activeNode), s, old(gateway.nodes.cooldowns.Keys))
      ensures r == FixedNode(Rejected) ==> unchanged(gateway.tunnel) && unchanged(gateway.router.kernel)
    {
      ghost var a := Attempt(gateway.nodes.rows, s, {}, s.fixedNode.value, gateway.host.tick, Rejected);
      var result, rp := gateway.Activate(s.fixedNode.value);
      attempts := [a.(result := result)];
      FixedSwitch(gateway.Here(), a.(result := result), old(gateway.tunnel.activeNode), s, now);
      r := FixedNode(result);
    }

    /** Activates the best alternate node, or the fixed one in fixed mode. */
    method Switch(now: Time) returns (r: SwitchResult, ghost attempts: seq<Attempt>)
      requires gateway.Valid()
      modifies gateway, gateway.host, gateway.settingsRepo, gateway.nodes`rows, gateway.nodes`cooldowns, gateway.tunnel
      modifies gateway.router`rpFilterOriginal, gateway.router`restoreFaults, gateway.router.kernel
      ensures gateway.Valid()
      ensures Reports(r, attempts, old(gateway.tunnel.activeNode), old(gateway.settingsRepo.settings),
                      old(gateway.nodes.cooldowns.Keys))
      ensures During(attempts, old(gateway.host.tick), old(gateway.nodes.rows))
      ensures r == NothingToDo ==>
        unchanged(gateway) && unchanged(gateway.tunnel) && unchanged(gateway.router) && unchanged(gateway.nodes)
      ensures !old(gateway.settingsRepo.settings.connectionEnabled) ==>
        (r == NothingToDo || r == Failed) && unchanged(gateway.tunnel) && unchanged(gateway.nodes)
      ensures r.FixedNode? <==> old(FixesNode())
      ensures r == FixedNode(Rejected) ==> unchanged(gateway.tunnel) && unchanged(gateway.router.kernel)
      ensures old(gateway.settingsRepo.settings.connectionEnabled && gateway.settingsRepo.settings.mode != Fixed) ==>
        ReadsWork(gateway.host.answers, old(gateway.host.tick)) ==>
          (attempts == [] <==> old(NothingLeft(Excluded([], gateway.tunnel.activeNode))))
      // with a readable database it stops early only for an exit, for want of a candidate, or with nothing to do
      ensures ReadsWork(gateway.host.answers, old(gateway.host.tick)) ==>
        r != Failed && (r == NothingToDo <==> !old(MaySwitch(gateway.settingsRepo.settings)))
    {
      attempts := [];
      NoAttempts(gateway.Here(), gateway.tunnel.activeNode);
      var settingsRead := gateway.host.Ask(Readable);
      if !settingsRead { return Failed, []; }
      var settings := gateway.settingsRepo.settings;
      if !settings.connectionEnabled { return NothingToDo, []; }
      if settings.mode == Fixed {
        if settings.fixedNode.GetOr("") == "" { return NothingToDo, []; }
        r, attempts := SwitchToFixed(settings, gateway.host.tick);
        return;
      }
      r, attempts := TryCandidates(now);
    }

    /** The settings can be read and fix a node. */
    ghost predicate FixesNode()
      reads gateway, gateway.host, gateway.settingsRepo
    {
      var s := gateway.settingsRepo.settings;
      && gateway.host.answers(gateway.host.tick, Readable)
      && s.connectionEnabled && s.mode == Fixed && s.fixedNode.GetOr("") != ""
    }

    /** Reconnects after an exit went down. */
    method HandleUnexpectedExit(now: Time) returns (r: SwitchResult, ghost attempts: seq<Attempt>)
      requires gateway.Valid()
      modifies gateway, gateway.host, gateway.settingsRepo, gateway.nodes`rows, gateway.nodes`cooldowns, gateway.tunnel
      modifies gateway.router`rpFilterOriginal, gateway.router`restoreFaults, gateway.router.kernel
      ensures gateway.Valid()
      ensures Reports(r, attempts, old(gateway.tunnel.activeNode), old(gateway.settingsRepo.settings),
                      old(gateway.nodes.cooldowns.Keys))
      ensures During(attempts, old(gateway.host.tick), old(gateway.nodes.rows))
      ensures !old(gateway.settingsRepo.settings.connectionEnabled) ==>
        (r == NothingToDo || r == Failed) && unchanged(gateway.tunnel) && unchanged(gateway.nodes)
      ensures r.FixedNode? <==> old(FixesNode())
      ensures r == FixedNode(Rejected) ==> unchanged(gateway.tunnel) && unchanged(gateway.router.kernel)
      ensures ReadsWork(gateway.host.answers, old(gateway.host.tick)) ==>
        r != Failed && (r == NothingToDo <==> !old(MaySwitch(gateway.settingsRepo.settings)))
    {
      attempts := [];
      NoAttempts(gateway.Here(), gateway.tunnel.activeNode);
      var settingsRead := gateway.host.Ask(Readable);
      if !settingsRead { return Failed, []; }
      var settings := gateway.settingsRepo.settings;
      if !settings.connectionEnabled { return NothingToDo, []; }
      if settings.mode == Fixed && settings.fixedNode.GetOr("") != "" {
        r, attempts := SwitchToFixed(settings, gateway.host.tick);
        return;
      }
      r, attempts := Switch(now);
    }

    /** A supervised process exits: the gateway's handler, then this service as its callback. An exit that is
        down is forgotten first, so the switch that follows may try its node again. */
    method ProcessExited(now: Time) returns (r: SwitchResult, ghost attempts: seq<Attempt>)
      requires gateway.Valid()
      modifies gateway, gateway.host, gateway.settingsRepo, gateway.nodes`rows, gateway.nodes`cooldowns, gateway.tunnel
      modifies gateway.router`rpFilterOriginal, gateway.router`restoreFaults, gateway.router.kernel
      ensures gateway.Valid()
      ensures !old(gateway.tunnel.held) ==>
        && r == NothingToDo && attempts == [] && unchanged(gateway) && unchanged(gateway.tunnel)
        && unchanged(gateway.router) && unchanged(gateway.router.kernel) && unchanged(gateway.nodes)
      ensures old(gateway.tunnel.held) ==>
        && During(attempts, old(gateway.host.tick), old(gateway.nodes.rows))
        && Reports(r, attempts, if old(gateway.tunnel.running) then old(gateway.tunnel.activeNode) else "",
                   old(gateway.settingsRepo.settings), old(gateway.nodes.cooldowns.Keys))
        && (r.FixedNode? <==> old(FixesNode()))
      ensures old(gateway.tunnel.held) && ReadsWork(gateway.host.answers, old(gateway.host.tick)) ==>
        r != Failed && (r == NothingToDo <==> !old(MaySwitch(gateway.settingsRepo.settings)))
      ensures old(gateway.tunnel.held && !gateway.tunnel.running) ==>
        !old(gateway.settingsRepo.settings.connectionEnabled) ==>
        gateway.tunnel.Idle() && unchanged(gateway.nodes)
    {
      var noticed := gateway.HandleUnexpectedExit();
      if !noticed { return NothingToDo, []; }
      r, attempts := HandleUnexpectedExit(now);
    }
  }

  lemma DuringMore(attempts: seq<Attempt>, more: seq<Attempt>, now: nat, first: seq<Node>, rows: seq<Node>)
    requires During(attempts, now, first) && SameButStatus(rows, first)
    requires more == attempts || (|more| == |attempts| + 1 && more[..|attempts|] == attempts
      && more[|attempts|].rows == rows && more[|attempts|].at >= now)
    ensures During(more, now, first)
  {
    forall a | a in more ensures a.at >= now && SameButStatus(a.rows, first) {
      var i :| 0 <= i < |more| && more[i] == a;
      if i < |attempts| { assert attempts[i] == a; }
    }
  }
}

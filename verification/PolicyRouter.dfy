/** The policy router (internal/netx/routing.go) over a modelled kernel. Every command may fail at any time.
    Ghost counters record the failures that could matter, so that a contract can speak of the failures of one
    call: `ipFaults` the shows, deletes and flushes that failed although there was something to show or remove,
    `restoreFaults` the rp_filter values that could not be written back. */
module PolicyRouting {
  import opened Lists
  import opened Text
  import opened Naming
  import opened RouterText

  /** A kernel rule. `ip rule del oif D table T` removes the first one with that device and table. */
  datatype Rule = Rule(
    priority: string, selectors: seq<string>, oif: string, state: seq<string>, table: int, suffix: seq<string>)

  datatype Route = Route(table: int, destination: string, via: seq<string>, device: string, attributes: seq<string>)

  datatype RouterConfig = RouterConfig(table: int, iface: string, devicePrefix: string, strictRPF: bool)

  /** rt_tables: the names iproute2 prints for table ids. */
  type TableNames = map<int, string>

  function TableText(names: TableNames, t: int): string { if t in names then names[t] else Itoa(t) }

  predicate MatchesTable(text: string, table: int) { text == Itoa(table) || text == ROUTING_TABLE_ALIAS }

  /** Our table is printed as its number or under the project's alias. */
  predicate Recognised(c: RouterConfig, names: TableNames) { MatchesTable(TableText(names, c.table), c.table) }

  /** Every device this project creates; the gate on each destructive operation. */
  predicate Owns(c: RouterConfig, device: string) {
    device != "" && (device == c.iface || HasDevicePrefix(device, c.devicePrefix))
  }

  predicate OwnRule(c: RouterConfig, r: Rule) { r.table == c.table && Owns(c, r.oif) }
  predicate OwnRoute(c: RouterConfig, r: Route) { r.table == c.table && Owns(c, r.device) }

  function IsOwnRule(c: RouterConfig): Rule -> bool { (r: Rule) => OwnRule(c, r) }
  function IsOtherRule(c: RouterConfig): Rule -> bool { (r: Rule) => !OwnRule(c, r) }
  function IsOwnRoute(c: RouterConfig): Route -> bool { (r: Route) => OwnRoute(c, r) }
  function IsOtherRoute(c: RouterConfig): Route -> bool { (r: Route) => !OwnRoute(c, r) }
  function InTable(table: int): Route -> bool { (r: Route) => r.table == table }
  function OutsideTable(table: int): Route -> bool { (r: Route) => r.table != table }
  function RuleOn(oif: string, table: int): Rule -> bool { (r: Rule) => r.oif == oif && r.table == table }
  function RouteOn(destination: string, device: string, table: int): Route -> bool {
    (r: Route) => r.destination == destination && r.device == device && r.table == table
  }

  function NewRule(device: string, table: int): Rule { Rule("32765", ["from", "all"], device, [], table, []) }
  function NewRoute(device: string, table: int): Route { Route(table, "default", [], device, []) }

  // ---- what the show commands print and how it is read -----------------------------------

  function ShownRuleOf(names: TableNames, r: Rule): ShownRule {
    ShownRule(r.priority, r.selectors, r.oif, r.state, TableText(names, r.table), r.suffix)
  }

  function ShownRules(names: TableNames, rs: seq<Rule>): seq<ShownRule> {
    if rs == [] then [] else [ShownRuleOf(names, rs[0])] + ShownRules(names, rs[1..])
  }

  function ListedRules(names: TableNames, rs: seq<Rule>): seq<PolicyRule> {
    if rs == [] then [] else [Read(ShownRuleOf(names, rs[0]))] + ListedRules(names, rs[1..])
  }

  function ShownRouteOf(r: Route): ShownRoute { ShownRoute(r.destination, r.via, r.device, r.attributes) }
  function ShownRoutes(rs: seq<Route>): seq<ShownRoute> {
    if rs == [] then [] else [ShownRouteOf(rs[0])] + ShownRoutes(rs[1..])
  }

  function ListedRoutes(rs: seq<Route>): seq<TableRoute> {
    if rs == [] then [] else [TableRoute(rs[0].destination, rs[0].device)] + ListedRoutes(rs[1..])
  }

  ghost predicate PrintableRules(names: TableNames, rs: seq<Rule>) {
    forall r <- rs :: Printable(ShownRuleOf(names, r)) && r.oif != "oif"
  }

  ghost predicate PrintableRoutes(rs: seq<Route>) { forall r <- rs :: PrintableRoute(ShownRouteOf(r)) }

  lemma {:induction false} ShownRulesAt(names: TableNames, rs: seq<Rule>)
    ensures |ShownRules(names, rs)| == |ListedRules(names, rs)| == |rs|
    ensures forall i :: 0 <= i < |rs| ==> ShownRules(names, rs)[i] == ShownRuleOf(names, rs[i])
    ensures forall i :: 0 <= i < |rs| ==> ListedRules(names, rs)[i] == Read(ShownRuleOf(names, rs[i]))
  {
    if rs != [] { ShownRulesAt(names, rs[1..]); }
  }

  lemma {:induction false} ShownRoutesAt(rs: seq<Route>)
    ensures |ShownRoutes(rs)| == |ListedRoutes(rs)| == |rs|
    ensures forall i :: 0 <= i < |rs| ==> ShownRoutes(rs)[i] == ShownRouteOf(rs[i])
    ensures forall i :: 0 <= i < |rs| ==> ListedRoutes(rs)[i] == TableRoute(rs[i].destination, rs[i].device)
  {
    if rs != [] { ShownRoutesAt(rs[1..]); }
  }

  /** Parsing what `ip rule show` prints gives the installed rules, in order. */
  lemma RuleListingReadsBack(names: TableNames, rs: seq<Rule>)
    requires PrintableRules(names, rs)
    ensures RulesOfLines(Split(ShowRules(ShownRules(names, rs)))) == ListedRules(names, rs)
  {
    ShownRulesAt(names, rs);
    ShownRulesReadBack(ShownRules(names, rs));
  }

  lemma RouteListingReadsBack(rs: seq<Route>)
    requires PrintableRoutes(rs)
    ensures RoutesOfLines(Split(ShowRoutes(ShownRoutes(rs)))) == ListedRoutes(rs)
  {
    ShownRoutesAt(rs);
    ShownRoutesReadBack(ShownRoutes(rs));
  }

  // ---- attribution: the listing covers what we own -----------------------------------------

  predicate OurRule(c: RouterConfig, r: PolicyRule) { MatchesTable(r.table, c.table) && Owns(c, r.oif) }
  function IsOurRule(c: RouterConfig): PolicyRule -> bool { (r: PolicyRule) => OurRule(c, r) }
  function ForDevice(oif: string): PolicyRule -> bool { (r: PolicyRule) => r.oif == oif }
  function IsOurRoute(c: RouterConfig): TableRoute -> bool { (r: TableRoute) => Owns(c, r.device) }
  function IsForeignRoute(c: RouterConfig): TableRoute -> bool { (r: TableRoute) => !Owns(c, r.device) }
  function ForRoute(destination: string, device: string): TableRoute -> bool {
    (r: TableRoute) => r.destination == destination && r.device == device
  }

  /** Every own rule is listed under its device at least as often as it is installed. */
  lemma {:induction false} ListingCoversRules(c: RouterConfig, names: TableNames, rs: seq<Rule>, oif: string)
    requires Recognised(c, names) && Owns(c, oif)
    ensures Count(rs, RuleOn(oif, c.table)) <= Count(Filter(ListedRules(names, rs), IsOurRule(c)), ForDevice(oif))
  {
    if rs != [] {
      ListingCoversRules(c, names, rs[1..], oif);
      var listed, first := ListedRules(names, rs[1..]), Read(ShownRuleOf(names, rs[0]));
      assert ListedRules(names, rs)[1..] == listed;
      if OurRule(c, first) {
        assert ([first] + Filter(listed, IsOurRule(c)))[1..] == Filter(listed, IsOurRule(c));
      }
    }
  }

  lemma {:induction false} ListingCoversRoutes(c: RouterConfig, rs: seq<Route>, destination: string, device: string)
    requires Owns(c, device)
    ensures Count(rs, RouteOn(destination, device, c.table))
         <= Count(Filter(ListedRoutes(Filter(rs, InTable(c.table))), IsOurRoute(c)), ForRoute(destination, device))
  {
    if rs != [] {
      ListingCoversRoutes(c, rs[1..], destination, device);
      var rest := Filter(rs[1..], InTable(c.table));
      var first := TableRoute(rs[0].destination, rs[0].device);
      if rs[0].table == c.table {
        assert Filter(rs, InTable(c.table)) == [rs[0]] + rest;
        assert ListedRoutes([rs[0]] + rest) == [first] + ListedRoutes(rest);
        assert ([first] + ListedRoutes(rest))[1..] == ListedRoutes(rest);
        if Owns(c, first.device) {
          var ours := Filter(ListedRoutes(rest), IsOurRoute(c));
          assert ([first] + ours)[1..] == ours;
        }
      }
    }
  }

  /** Every own rule is among the deletions still to come. */
  ghost predicate RulesCovered(c: RouterConfig, rs: seq<Rule>, left: seq<PolicyRule>) {
    forall d :: Owns(c, d) ==> Count(rs, RuleOn(d, c.table)) <= Count(left, ForDevice(d))
  }

  ghost predicate RoutesCovered(c: RouterConfig, rs: seq<Route>, left: seq<TableRoute>) {
    forall t, d :: Owns(c, d) ==> Count(rs, RouteOn(t, d, c.table)) <= Count(left, ForRoute(t, d))
  }

  lemma DeletedRuleCovered(c: RouterConfig, rs: seq<Rule>, left: seq<PolicyRule>)
    requires left != [] && RulesCovered(c, rs, left)
    ensures RulesCovered(c, RemoveFirst(rs, RuleOn(left[0].oif, c.table)), left[1..])
  {
    var oif := left[0].oif;
    RemoveCountsDown(rs, RuleOn(oif, c.table));
    forall d | d != oif
      ensures Count(RemoveFirst(rs, RuleOn(oif, c.table)), RuleOn(d, c.table)) == Count(rs, RuleOn(d, c.table))
    {
      RemoveElsewhere(rs, RuleOn(oif, c.table), RuleOn(d, c.table));
    }
  }

  lemma DeletedRouteCovered(c: RouterConfig, rs: seq<Route>, left: seq<TableRoute>)
    requires left != [] && RoutesCovered(c, rs, left)
    ensures RoutesCovered(c, RemoveFirst(rs, RouteOn(left[0].destination, left[0].device, c.table)), left[1..])
  {
    var to, dev := left[0].destination, left[0].device;
    RemoveCountsDown(rs, RouteOn(to, dev, c.table));
    forall t, d | t != to || d != dev
      ensures Count(RemoveFirst(rs, RouteOn(to, dev, c.table)), RouteOn(t, d, c.table))
           == Count(rs, RouteOn(t, d, c.table))
    {
      RemoveElsewhere(rs, RouteOn(to, dev, c.table), RouteOn(t, d, c.table));
    }
  }

  lemma NoOwnRulesLeft(c: RouterConfig, rs: seq<Rule>)
    requires forall d :: Owns(c, d) ==> Count(rs, RuleOn(d, c.table)) == 0
    ensures Filter(rs, IsOtherRule(c)) == rs
  {
    forall r | r in rs ensures !OwnRule(c, r) {
      if Owns(c, r.oif) { NoneCounted(rs, RuleOn(r.oif, c.table)); }
    }
    FilterAll(rs, IsOtherRule(c));
  }

  lemma NoOwnRoutesLeft(c: RouterConfig, rs: seq<Route>)
    requires forall t, d :: Owns(c, d) ==> Count(rs, RouteOn(t, d, c.table)) == 0
    ensures Filter(rs, IsOtherRoute(c)) == rs
  {
    forall r | r in rs ensures !OwnRoute(c, r) {
      if Owns(c, r.device) { NoneCounted(rs, RouteOn(r.destination, r.device, c.table)); }
    }
    FilterAll(rs, IsOtherRoute(c));
  }

  // ---- the flush -----------------------------------------------------------------------------

  /** The routes a cleanup leaves. A failed `ip route show` reads as an empty table, so it flushes. */
  function RoutesAfterCleanup(c: RouterConfig, rs: seq<Route>, shown: bool): seq<Route> {
    Filter(rs, if shown then IsOtherRoute(c) else OutsideTable(c.table))
  }

  /** The table holds no entry of another program. */
  ghost predicate NoForeign(c: RouterConfig, rs: seq<Route>) { forall r <- rs :: r.table == c.table ==> OwnRoute(c, r) }

  /** What removing our routes makes of rs. `shown`: the listing was read; `cleared`: the flush, or every delete, went
      through. With neither, nothing has changed; with the listing alone, only routes of ours may be gone. */
  ghost predicate RoutesRemoved(c: RouterConfig, rs: seq<Route>, after: seq<Route>, shown: bool, cleared: bool) {
    if cleared then after == RoutesAfterCleanup(c, rs, shown)
    else if shown then Filter(after, IsOtherRoute(c)) == Filter(rs, IsOtherRoute(c))
    else after == rs
  }

  /** The documentation promises that entries on devices we do not own are strictly untouched. A cleanup leaves
      them alone exactly when its `ip route show` worked, or its flush failed too, or the table held none. */
  lemma ForeignRoutesSurvive(c: RouterConfig, rs: seq<Route>, after: seq<Route>, shown: bool, cleared: bool)
    requires RoutesRemoved(c, rs, after, shown, cleared)
    ensures Filter(after, IsOtherRoute(c)) == Filter(rs, IsOtherRoute(c)) <==> shown || !cleared || NoForeign(c, rs)
  {
    if shown {
      FilterAll(Filter(rs, IsOtherRoute(c)), IsOtherRoute(c));
    } else if NoForeign(c, rs) {
      FilterSame(rs, OutsideTable(c.table), IsOtherRoute(c));
      FilterAll(Filter(rs, IsOtherRoute(c)), IsOtherRoute(c));
    } else if cleared {
      var r :| r in rs && r.table == c.table && !OwnRoute(c, r);
      assert IsOtherRoute(c)(r) && !OutsideTable(c.table)(r);
      FilterShrinks(rs, OutsideTable(c.table), IsOtherRoute(c));
    }
  }

  // ---- the kernel ----------------------------------------------------------------------------

  class Kernel {
    const names: TableNames
    var rules: seq<Rule>
    var routes: seq<Route>
    var rpFilter: map<string, string>
    ghost var ipFaults: nat
    ghost var refused: nat    // adds that failed
    ghost var unwritten: nat  // rp_filter writes that failed

    /** What is installed can be printed: kernel names hold no white space, and no rule selects a device "oif". */
    ghost predicate Valid()
      reads this
    {
      && (forall t :: t in names ==> IsToken(names[t]))
      && PrintableRules(names, rules) && PrintableRoutes(routes)
    }

    constructor (names: TableNames, rules: seq<Rule>, routes: seq<Route>, rpFilter: map<string, string>)
      ensures this.names == names && this.rules == rules && this.routes == routes && this.rpFilter == rpFilter
    {
      this.names, this.rules, this.routes, this.rpFilter := names, rules, routes, rpFilter;
      ipFaults, refused, unwritten := 0, 0, 0;
    }

    method RuleShow() returns (ok: bool, output: string)
      modifies this`ipFaults
      ensures ipFaults == old(ipFaults) + (if ok || rules == [] then 0 else 1)
      ensures ok ==> output == ShowRules(ShownRules(names, rules))
    {
      ok := *;
      if !ok && rules != [] { ipFaults := ipFaults + 1; }
      output := if ok then ShowRules(ShownRules(names, rules)) else "";
    }

    /** Showing a table that does not exist fails, which reads like an empty one. */
    method RouteShow(table: int) returns (ok: bool, output: string)
      modifies this`ipFaults
      ensures ipFaults == old(ipFaults) + (if ok || Filter(routes, InTable(table)) == [] then 0 else 1)
      ensures ok ==> output == ShowRoutes(ShownRoutes(Filter(routes, InTable(table))))
    {
      ok := *;
      if !ok && Filter(routes, InTable(table)) != [] { ipFaults := ipFaults + 1; }
      output := if ok then ShowRoutes(ShownRoutes(Filter(routes, InTable(table)))) else "";
    }

    method RuleDel(oif: string, table: int) returns (ghost ok: bool)
      requires Valid()
      modifies this`rules, this`ipFaults
      ensures Valid() && ipFaults == old(ipFaults) + (if ok then 0 else 1)
      ensures rules == if ok then RemoveFirst(old(rules), RuleOn(oif, table)) else old(rules)
    {
      var works: bool := *;
      ok := works || RemoveFirst(rules, RuleOn(oif, table)) == rules;
      if works { rules := RemoveFirst(rules, RuleOn(oif, table)); }
      if !ok { ipFaults := ipFaults + 1; }
    }

    method RouteDel(destination: string, device: string, table: int) returns (ghost ok: bool)
      requires Valid()
      modifies this`routes, this`ipFaults
      ensures Valid() && ipFaults == old(ipFaults) + (if ok then 0 else 1)
      ensures routes == if ok then RemoveFirst(old(routes), RouteOn(destination, device, table)) else old(routes)
    {
      var works: bool := *;
      ok := works || RemoveFirst(routes, RouteOn(destination, device, table)) == routes;
      if works { routes := RemoveFirst(routes, RouteOn(destination, device, table)); }
      if !ok { ipFaults := ipFaults + 1; }
    }

    method RouteFlush(table: int) returns (ghost ok: bool)
      requires Valid()
      modifies this`routes, this`ipFaults
      ensures Valid() && ipFaults == old(ipFaults) + (if ok then 0 else 1)
      ensures routes == if ok then Filter(old(routes), OutsideTable(table)) else old(routes)
    {
      var works: bool := *;
      ok := works || Filter(routes, OutsideTable(table)) == routes;
      if works { routes := Filter(routes, OutsideTable(table)); }
      if !ok { ipFaults := ipFaults + 1; }
    }

    /** Accepted or refused: a refused add changes nothing. */
    method RouteAddDefault(device: string, table: int) returns (ok: bool)
      requires Valid()
      modifies this`routes, this`refused
      ensures Valid() && routes == if ok then old(routes) + [NewRoute(device, table)] else old(routes)
      ensures refused == old(refused) + (if ok then 0 else 1)
    {
      ok := *;
      if !IsToken(device) { ok := false; }
      if ok { routes := routes + [NewRoute(device, table)]; } else { refused := refused + 1; }
    }

    method RuleAdd(device: string, table: int) returns (ok: bool)
      requires Valid()
      modifies this`rules, this`refused
      ensures Valid() && rules == if ok then old(rules) + [NewRule(device, table)] else old(rules)
      ensures refused == old(refused) + (if ok then 0 else 1)
    {
      ok := *;
      if !IsToken(device) || device == "oif" { ok := false; }
      if ok {
        NewRulePrints(names, device, table);
        rules := rules + [NewRule(device, table)];
      } else {
        refused := refused + 1;
      }
    }

    method SysctlRead(device: string) returns (ok: bool, value: string)
      ensures ok ==> device in rpFilter && value == rpFilter[device]
    {
      ok := *;
      if device !in rpFilter { ok := false; }
      value := if ok then rpFilter[device] else "";
    }

    method SysctlWrite(device: string, value: string) returns (ok: bool)
      modifies this`rpFilter, this`unwritten
      ensures ok ==> device in old(rpFilter)
      ensures unwritten == old(unwritten) + (if ok then 0 else 1)
      ensures rpFilter == if ok then old(rpFilter)[device := value] else old(rpFilter)
    {
      ok := *;
      if device !in rpFilter { ok := false; }
      if ok { rpFilter := rpFilter[device := value]; } else { unwritten := unwritten + 1; }
    }
  }

  lemma TableTextIsToken(names: TableNames, t: int)
    requires forall u :: u in names ==> IsToken(names[u])
    ensures IsToken(TableText(names, t))
  {
    var digits := DecimalNat(if t < 0 then -t else t);
    assert forall i :: 0 <= i < |digits| ==> IsDigit(digits[i]);
    assert t < 0 ==> Itoa(t) == "-" + digits;
  }

  lemma NewRulePrints(names: TableNames, device: string, table: int)
    requires IsToken(device) && forall u :: u in names ==> IsToken(names[u])
    ensures Printable(ShownRuleOf(names, NewRule(device, table)))
  {
    TableTextIsToken(names, table);
  }

  // ---- outcomes of the two public calls --------------------------------------------------------

  /** Everything the router can change. `saved` holds the rp_filter values it must put back. */
  datatype World = World(
    rules: seq<Rule>, routes: seq<Route>, rpFilter: map<string, string>, saved: map<string, string>)
  {
    /** The rp_filter values a cleanup would leave. */
    function Baseline(): map<string, string> { rpFilter + saved }
  }

  ghost predicate OthersUntouched(c: RouterConfig, a: World, b: World) {
    && Filter(b.rules, IsOtherRule(c)) == Filter(a.rules, IsOtherRule(c))
    && Filter(b.routes, IsOtherRoute(c)) == Filter(a.routes, IsOtherRoute(c))
  }

  /** `clean`: no command of the call failed that had something to show or remove; `restored`: every rp_filter
      value was written back. */
  ghost predicate CleanupOutcome(c: RouterConfig, names: TableNames, a: World, b: World, clean: bool, restored: bool) {
    && Filter(b.rules, IsOtherRule(c)) == Filter(a.rules, IsOtherRule(c))
    && Filter(b.routes, OutsideTable(c.table)) == Filter(a.routes, OutsideTable(c.table))
    && (clean || NoForeign(c, a.routes) ==> Filter(b.routes, IsOtherRoute(c)) == Filter(a.routes, IsOtherRoute(c)))
    && (clean && Recognised(c, names) ==> b.rules == Filter(a.rules, IsOtherRule(c)))
    && (clean ==> b.routes == Filter(a.routes, IsOtherRoute(c)))
    && b.saved == map[]
    && (restored ==> b.rpFilter == a.Baseline())
  }

  /** The rp_filter step of an attempt: the old value was read, the new one was written. */
  datatype RpStep = RpStep(known: bool, written: bool)

  /** A successful setup has its rule installed, whatever else failed; with faithful commands it is the only own one. */
  ghost predicate RulesSet(c: RouterConfig, names: TableNames, a: World, b: World, device: string, ok: bool,
                           clean: bool)
  {
    && (ok ==> NewRule(device, c.table) in b.rules)
    && (Owns(c, device) ==> Filter(b.rules, IsOtherRule(c)) == Filter(a.rules, IsOtherRule(c)))
    && (Owns(c, device) && clean && Recognised(c, names) ==>
          Filter(b.rules, IsOwnRule(c)) == if ok then [NewRule(device, c.table)] else [])
  }

  ghost predicate RoutesSet(c: RouterConfig, a: World, b: World, device: string, ok: bool, clean: bool) {
    && (ok ==> NewRoute(device, c.table) in b.routes)
    && Filter(b.routes, OutsideTable(c.table)) == Filter(a.routes, OutsideTable(c.table))
    && (Owns(c, device) && clean ==>
          && Filter(b.routes, IsOtherRoute(c)) == Filter(a.routes, IsOtherRoute(c))
          && Filter(b.routes, IsOwnRoute(c)) == if ok then [NewRoute(device, c.table)] else [])
  }

  /** `base` is what a cleanup would have left before the call. */
  ghost predicate RpSet(c: RouterConfig, base: map<string, string>, b: World, device: string, ok: bool, rp: RpStep,
                        restored: bool)
  {
    && (ok ==> rp.written || !c.strictRPF)
    && (!ok ==> b.saved == map[])
    && (restored && !ok ==> b.rpFilter == base)
    && (restored && ok ==>
          && (rp.known || rp.written ==> device in base)
          && b.rpFilter == (if rp.written then base[device := "2"] else base)
          && b.saved == if rp.known && device in base then map[device := base[device]] else map[])
  }

  ghost predicate SetupOutcome(c: RouterConfig, names: TableNames, a: World, b: World, device: string, ok: bool,
                               rp: RpStep, clean: bool, restored: bool)
  {
    && RulesSet(c, names, a, b, device, ok, clean)
    && RoutesSet(c, a, b, device, ok, clean)
    && RpSet(c, a.Baseline(), b, device, ok, rp, restored)
  }

  lemma OwnEntriesGone(c: RouterConfig, names: TableNames, a: World, b: World, clean: bool, restored: bool)
    requires CleanupOutcome(c, names, a, b, clean, restored)
    ensures clean && Recognised(c, names) ==> Filter(b.rules, IsOwnRule(c)) == []
    ensures clean ==> Filter(b.routes, IsOwnRoute(c)) == []
    ensures clean ==> Filter(b.routes, IsOtherRoute(c)) == Filter(a.routes, IsOtherRoute(c))
  {
    if clean {
      if Recognised(c, names) { FilterNone(b.rules, IsOwnRule(c)); }
      FilterAll(b.routes, IsOtherRoute(c));
      FilterNone(b.routes, IsOwnRoute(c));
    }
  }

  /** After a cleanup whose commands went through our route is not installed. */
  lemma OwnRouteGone(c: RouterConfig, names: TableNames, a: World, b: World, restored: bool)
    requires CleanupOutcome(c, names, a, b, true, restored) && c.iface != ""
    ensures NewRoute(c.iface, c.table) !in b.routes
  {
    assert OwnRoute(c, NewRoute(c.iface, c.table));
  }

  // ---- the rp_filter pair ------------------------------------------------------------------------

  /** setupOnce's rp_filter step on one device: read, remember, write 2. */
  function RpConfigured(w: World, device: string, rp: RpStep): World {
    w.(saved := if rp.known && device in w.rpFilter then w.saved[device := w.rpFilter[device]] else w.saved,
       rpFilter := if rp.written then w.rpFilter[device := "2"] else w.rpFilter)
  }

  /** A setup and then a cleanup that can write: every rp_filter value is what it was before the setup, exactly
      when the setup failed, or its last attempt read the old value, or could not write the new one, or that was
      the old one already. */
  lemma RpFilterRestored(c: RouterConfig, names: TableNames, a: World, b: World, d: World, device: string, ok: bool,
        rp: RpStep, clean: bool, cleanAfter: bool)
    requires SetupOutcome(c, names, a, b, device, ok, rp, clean, true)
    requires CleanupOutcome(c, names, b, d, cleanAfter, true)
    ensures d.rpFilter == a.Baseline()
       <==> (!ok || rp.known || !rp.written || (device in a.Baseline() && a.Baseline()[device] == "2"))
  {
    RpRestored(c, a.Baseline(), b, d.rpFilter, device, ok, rp);
  }

  lemma RpRestored(c: RouterConfig, base: map<string, string>, b: World, after: map<string, string>, device: string,
        ok: bool, rp: RpStep)
    requires RpSet(c, base, b, device, ok, rp, true) && after == b.Baseline()
    ensures after == base <==> (!ok || rp.known || !rp.written || (device in base && base[device] == "2"))
  {
    if !ok || rp.known || !rp.written || (device in base && base[device] == "2") {
      assert after == base;
    } else {
      assert after[device] == "2" && base[device] != "2";
    }
  }

  lemma RestoreOne(rp: map<string, string>, left: map<string, string>, target: string)
    requires target in left
    ensures rp[target := left[target]] + (left - {target}) == rp + left
  {
    var a, b := rp[target := left[target]] + (left - {target}), rp + left;
    forall d ensures (d in a <==> d in b) && (d in a ==> a[d] == b[d]) {}
  }

  method AttributedRules(c: RouterConfig, rules: seq<PolicyRule>) returns (ours: seq<PolicyRule>)
    ensures ours == Filter(rules, IsOurRule(c))
  {
    ours := [];
    for k := 0 to |rules|
      invariant ours == Filter(rules[..k], IsOurRule(c))
    {
      FilterStep(rules, k, IsOurRule(c));
      if !MatchesTable(rules[k].table, c.table) || !Owns(c, rules[k].oif) { continue; }
      ours := ours + [rules[k]];
    }
    assert rules[..|rules|] == rules;
  }

  method AttributedRoutes(c: RouterConfig, routes: seq<TableRoute>)
    returns (ours: seq<TableRoute>, foreign: seq<TableRoute>)
    ensures ours == Filter(routes, IsOurRoute(c)) && foreign == Filter(routes, IsForeignRoute(c))
  {
    ours, foreign := [], [];
    for k := 0 to |routes|
      invariant ours == Filter(routes[..k], IsOurRoute(c)) && foreign == Filter(routes[..k], IsForeignRoute(c))
    {
      FilterStep(routes, k, IsOurRoute(c));
      FilterStep(routes, k, IsForeignRoute(c));
      if Owns(c, routes[k].device) { ours := ours + [routes[k]]; } else { foreign := foreign + [routes[k]]; }
    }
    assert routes[..|routes|] == routes;
  }

  // ---- the router ----------------------------------------------------------------------------------

  class PolicyRouter {
    const kernel: Kernel
    const config: RouterConfig
    const setupRetries: nat
    var rpFilterOriginal: map<string, string>
    ghost var restoreFaults: nat

    constructor (kernel: Kernel, table: int, iface: string, devicePrefix: string, retries: int, strictRPF: bool)
      ensures this.kernel == kernel && rpFilterOriginal == map[] && setupRetries >= 1
      ensures config ==
        RouterConfig(table, iface, if devicePrefix == "" then DEVICE_PREFIX else devicePrefix, strictRPF)
    {
      this.kernel := kernel;
      config := RouterConfig(table, iface, if devicePrefix == "" then DEVICE_PREFIX else devicePrefix, strictRPF);
      setupRetries := if retries < 1 then 1 else retries;
      rpFilterOriginal, restoreFaults := map[], 0;
    }

    ghost function Abstract(): World
      reads this, kernel
    { World(kernel.rules, kernel.routes, kernel.rpFilter, rpFilterOriginal) }

    /** `shown`: the listing tells what there is. */
    method OurRules() returns (ours: seq<PolicyRule>, ghost shown: bool)
      requires kernel.Valid()
      modifies kernel`ipFaults
      ensures kernel.Valid() && kernel.ipFaults == old(kernel.ipFaults) + (if shown then 0 else 1)
      ensures ours == if shown then Filter(ListedRules(kernel.names, kernel.rules), IsOurRule(config)) else []
    {
      var ok, output := kernel.RuleShow();
      shown := ok || kernel.rules == [];
      if !ok { return [], shown; }
      var rules := ParsePolicyRules(output);
      RuleListingReadsBack(kernel.names, kernel.rules);
      ours := AttributedRules(config, rules);
    }

    method TableRoutes() returns (ours: seq<TableRoute>, foreign: seq<TableRoute>, ghost shown: bool)
      requires kernel.Valid()
      modifies kernel`ipFaults
      ensures kernel.Valid() && kernel.ipFaults == old(kernel.ipFaults) + (if shown then 0 else 1)
      ensures var listed := ListedRoutes(Filter(kernel.routes, InTable(config.table)));
        && ours == (if shown then Filter(listed, IsOurRoute(config)) else [])
        && foreign == (if shown then Filter(listed, IsForeignRoute(config)) else [])
    {
      var ok, output := kernel.RouteShow(config.table);
      shown := ok || Filter(kernel.routes, InTable(config.table)) == [];
      if !ok { return [], [], shown; }
      var routes := ParseTableRoutes(output);
      RouteListingReadsBack(Filter(kernel.routes, InTable(config.table)));
      ours, foreign := AttributedRoutes(config, routes);
    }

    method RemoveOurRules()
      requires kernel.Valid()
      modifies kernel`ipFaults, kernel`rules
      ensures kernel.Valid() && kernel.ipFaults >= old(kernel.ipFaults)
      ensures Filter(kernel.rules, IsOtherRule(config)) == Filter(old(kernel.rules), IsOtherRule(config))
      ensures kernel.ipFaults == old(kernel.ipFaults) && Recognised(config, kernel.names) ==>
        kernel.rules == Filter(old(kernel.rules), IsOtherRule(config))
    {
      var ours, shown := OurRules();
      if shown && Recognised(config, kernel.names) {
        forall d | Owns(config, d) ensures Count(kernel.rules, RuleOn(d, config.table)) <= Count(ours, ForDevice(d)) {
          ListingCoversRules(config, kernel.names, kernel.rules, d);
        }
      }
      DeleteRules(ours);
    }

    method DeleteRules(ours: seq<PolicyRule>)
      requires kernel.Valid() && forall r <- ours :: Owns(config, r.oif)
      modifies kernel`ipFaults, kernel`rules
      ensures kernel.Valid() && kernel.ipFaults >= old(kernel.ipFaults)
      ensures Filter(kernel.rules, IsOtherRule(config)) == Filter(old(kernel.rules), IsOtherRule(config))
      ensures old(RulesCovered(config, kernel.rules, ours)) && kernel.ipFaults == old(kernel.ipFaults) ==>
        kernel.rules == Filter(old(kernel.rules), IsOtherRule(config))
    {
      ghost var covered := RulesCovered(config, kernel.rules, ours);
      assert ours[0..] == ours;
      for k := 0 to |ours|
        invariant kernel.Valid() && kernel.ipFaults >= old(kernel.ipFaults)
        invariant Filter(kernel.rules, IsOtherRule(config)) == Filter(old(kernel.rules), IsOtherRule(config))
        invariant covered && kernel.ipFaults == old(kernel.ipFaults) ==> RulesCovered(config, kernel.rules, ours[k..])
      {
        ghost var before, r := kernel.rules, ours[k];
        assert r in ours && ours[k..][1..] == ours[k + 1..];
        ghost var ok := kernel.RuleDel(ours[k].oif, config.table);
        RemoveOutsideFilter(before, RuleOn(r.oif, config.table), IsOtherRule(config));
        if RulesCovered(config, before, ours[k..]) { DeletedRuleCovered(config, before, ours[k..]); }
      }
      if covered && kernel.ipFaults == old(kernel.ipFaults) { NoOwnRulesLeft(config, kernel.rules); }
    }

    /** `shown`: the listing was read; `cleared`: every delete, or the flush, went through. */
    method RemoveOurRoutes() returns (ghost shown: bool, ghost cleared: bool)
      requires kernel.Valid()
      modifies kernel`ipFaults, kernel`routes
      ensures kernel.Valid() && kernel.ipFaults >= old(kernel.ipFaults)
      ensures kernel.ipFaults == old(kernel.ipFaults) <==> shown && cleared
      ensures Filter(kernel.routes, OutsideTable(config.table)) ==
        Filter(old(kernel.routes), OutsideTable(config.table))
      ensures Filter(kernel.routes, IsOtherRoute(config)) == Filter(old(kernel.routes), IsOtherRoute(config))
         <==> shown || !cleared || NoForeign(config, old(kernel.routes))
      ensures RoutesRemoved(config, old(kernel.routes), kernel.routes, shown, cleared)
    {
      var ours, foreign;
      ours, foreign, shown := TableRoutes();
      if |foreign| == 0 {
        FlushIsCleanup(kernel.routes, shown);
        cleared := kernel.RouteFlush(config.table);
      } else {
        cleared := DeleteRoutes(ours);
      }
      ForeignRoutesSurvive(config, old(kernel.routes), kernel.routes, shown, cleared);
    }

    method DeleteRoutes(ours: seq<TableRoute>) returns (ghost cleared: bool)
      requires kernel.Valid()
      requires ours == Filter(ListedRoutes(Filter(kernel.routes, InTable(config.table))), IsOurRoute(config))
      modifies kernel`ipFaults, kernel`routes
      ensures kernel.Valid() && kernel.ipFaults >= old(kernel.ipFaults)
      ensures kernel.ipFaults == old(kernel.ipFaults) <==> cleared
      ensures Filter(kernel.routes, OutsideTable(config.table)) ==
        Filter(old(kernel.routes), OutsideTable(config.table))
      ensures Filter(kernel.routes, IsOtherRoute(config)) == Filter(old(kernel.routes), IsOtherRoute(config))
      ensures cleared ==> kernel.routes == RoutesAfterCleanup(config, old(kernel.routes), true)
    {
      cleared := true;
      forall t, d | Owns(config, d)
        ensures Count(kernel.routes, RouteOn(t, d, config.table)) <= Count(ours, ForRoute(t, d))
      {
        ListingCoversRoutes(config, kernel.routes, t, d);
      }
      assert ours[0..] == ours;
      for k := 0 to |ours|
        invariant kernel.Valid() && kernel.ipFaults >= old(kernel.ipFaults)
        invariant kernel.ipFaults == old(kernel.ipFaults) <==> cleared
        invariant Filter(kernel.routes, IsOtherRoute(config)) == Filter(old(kernel.routes), IsOtherRoute(config))
        invariant cleared ==> RoutesCovered(config, kernel.routes, ours[k..])
      {
        ghost var before, r := kernel.routes, ours[k];
        assert ours[k] in ours && ours[k..][1..] == ours[k + 1..];
        ghost var ok := kernel.RouteDel(ours[k].destination, ours[k].device, config.table);
        RemoveOutsideFilter(before, RouteOn(r.destination, r.device, config.table), IsOtherRoute(config));
        if cleared { DeletedRouteCovered(config, before, ours[k..]); }
        cleared := cleared && ok;
      }
      FilterTwice(kernel.routes, IsOtherRoute(config), OutsideTable(config.table));
      FilterTwice(old(kernel.routes), IsOtherRoute(config), OutsideTable(config.table));
      if cleared { NoOwnRoutesLeft(config, kernel.routes); }
    }

    lemma FlushIsCleanup(rs: seq<Route>, shown: bool)
      requires shown ==> Filter(ListedRoutes(Filter(rs, InTable(config.table))), IsForeignRoute(config)) == []
      ensures var n := Filter(rs, OutsideTable(config.table));
        && n == RoutesAfterCleanup(config, rs, shown)
        && Filter(n, OutsideTable(config.table)) == n
        && (shown ==> Filter(n, IsOtherRoute(config)) == Filter(rs, IsOtherRoute(config)))
    {
      var n := Filter(rs, OutsideTable(config.table));
      if shown {
        OnlyOwnListed(rs);
        ForeignRoutesSurvive(config, rs, n, true, true);
      }
      FilterTwice(rs, OutsideTable(config.table), OutsideTable(config.table));
    }

    lemma OnlyOwnListed(rs: seq<Route>)
      requires Filter(ListedRoutes(Filter(rs, InTable(config.table))), IsForeignRoute(config)) == []
      ensures Filter(rs, OutsideTable(config.table)) == RoutesAfterCleanup(config, rs, true)
    {
      var mine := Filter(rs, InTable(config.table));
      ShownRoutesAt(mine);
      forall r | r in rs ensures OutsideTable(config.table)(r) == IsOtherRoute(config)(r) {
        if r.table == config.table {
          assert r in mine;
          var i :| 0 <= i < |mine| && mine[i] == r;
          assert ListedRoutes(mine)[i] in ListedRoutes(mine);
          assert TableRoute(r.destination, r.device) !in Filter(ListedRoutes(mine), IsForeignRoute(config));
        }
      }
      FilterSame(rs, OutsideTable(config.table), IsOtherRoute(config));
    }

    method RestoreRpFilter()
      modifies this`rpFilterOriginal, this`restoreFaults, kernel`rpFilter, kernel`unwritten
      ensures rpFilterOriginal == map[] && restoreFaults >= old(restoreFaults)
      ensures kernel.unwritten >= old(kernel.unwritten)
      ensures restoreFaults == old(restoreFaults) ==> kernel.rpFilter == old(kernel.rpFilter) + old(rpFilterOriginal)
    {
      var left := rpFilterOriginal;
      while left != map[]
        invariant restoreFaults >= old(restoreFaults) && kernel.unwritten >= old(kernel.unwritten)
        invariant restoreFaults == old(restoreFaults) ==>
          kernel.rpFilter + left == old(kernel.rpFilter) + old(rpFilterOriginal)
        decreases |left|
      {
        var target :| target in left;
        ghost var rp := kernel.rpFilter;
        var ok := kernel.SysctlWrite(target, left[target]);
        if !ok { restoreFaults := restoreFaults + 1; }
        RestoreOne(rp, left, target);
        left := left - {target};
      }
      rpFilterOriginal := map[];
    }

    /** No ip command since then failed that had something to show or remove. */
    ghost predicate CleanSince(ipFaults: nat)
      reads this, kernel
    { kernel.ipFaults == ipFaults }

    /** Every rp_filter value since then could be written back. */
    ghost predicate RestoredSince(restoreFaults: nat)
      reads this
    { this.restoreFaults == restoreFaults }

    ghost predicate NoFewerFaults(ipFaults: nat, restoreFaults: nat)
      reads this, kernel
    { kernel.ipFaults >= ipFaults && this.restoreFaults >= restoreFaults }

    method Cleanup()
      requires kernel.Valid()
      modifies this`rpFilterOriginal, this`restoreFaults, kernel
      ensures kernel.Valid() && NoFewerFaults(old(kernel.ipFaults), old(restoreFaults))
      ensures CleanupOutcome(config, kernel.names, old(Abstract()), Abstract(),
                             CleanSince(old(kernel.ipFaults)), RestoredSince(old(restoreFaults)))
      ensures kernel.refused == old(kernel.refused) && kernel.unwritten >= old(kernel.unwritten)
    {
      RemoveOurRules();
      ghost var shown, cleared := RemoveOurRoutes();
      FilterAll(Filter(old(kernel.routes), IsOtherRoute(config)), IsOtherRoute(config));
      RestoreRpFilter();
    }

    /** The route, and then the rule; the rule is not tried without the route. */
    method AddEntries(device: string) returns (routeAdded: bool, ruleAdded: bool)
      requires kernel.Valid()
      modifies kernel`rules, kernel`routes, kernel`refused
      ensures kernel.Valid() && (ruleAdded ==> routeAdded)
      ensures kernel.refused == old(kernel.refused) + (if ruleAdded then 0 else 1)
      ensures Abstract() == WithEntries(config, old(Abstract()), device, routeAdded, ruleAdded)
    {
      ruleAdded := false;
      routeAdded := kernel.RouteAddDefault(device, config.table);
      if routeAdded { ruleAdded := kernel.RuleAdd(device, config.table); }
    }

    method RelaxRpFilter(device: string) returns (written: bool, ghost rp: RpStep)
      modifies this`rpFilterOriginal, kernel`rpFilter, kernel`unwritten
      ensures kernel.unwritten == old(kernel.unwritten) + (if written then 0 else 1)
      ensures rp.written == written && (rp.known || rp.written ==> device in old(kernel.rpFilter))
      ensures Abstract() == RpConfigured(old(Abstract()), device, rp)
    {
      var known, value := kernel.SysctlRead(device);
      if known { rpFilterOriginal := rpFilterOriginal[device := value]; }
      written := kernel.SysctlWrite(device, "2");
      rp := RpStep(known, written);
    }

    /** The commands that failed and that a setup cannot do without. */
    ghost function Troubles(): nat
      reads this, kernel
    { kernel.refused + if config.strictRPF then kernel.unwritten else 0 }

    /** The first half of an attempt: clean up, add the entries. A rule the kernel refused is cleaned up after; one
        whose command could not be run is left to the caller. */
    method ReplaceEntries(device: string) returns (ok: bool, ghost cleaned: World)
      requires kernel.Valid()
      modifies this`rpFilterOriginal, this`restoreFaults, kernel
      ensures kernel.Valid() && NoFewerFaults(old(kernel.ipFaults), old(restoreFaults))
      ensures ok ==>
        && CleanupOutcome(config, kernel.names, old(Abstract()), cleaned,
                          CleanSince(old(kernel.ipFaults)), RestoredSince(old(restoreFaults)))
        && Abstract() == WithEntries(config, cleaned, device, true, true)
      ensures !ok ==> HalfDone(config, old(Abstract()), Abstract(), device,
                               CleanSince(old(kernel.ipFaults)), RestoredSince(old(restoreFaults)))
      ensures Troubles() >= old(Troubles()) + (if ok then 0 else 1)
    {
      Cleanup();
      cleaned := Abstract();
      ghost var isClean, isRestored := CleanSince(old(kernel.ipFaults)), RestoredSince(old(restoreFaults));
      var routeAdded;
      routeAdded, ok := AddEntries(device);
      if !ok {
        EntriesHalfDone(config, kernel.names, old(Abstract()), cleaned, device, routeAdded, isClean, isRestored);
        var ranAndFailed: bool := *;
        if routeAdded && ranAndFailed {
          CleanHalf(old(Abstract()), device, old(kernel.ipFaults), old(restoreFaults));
        }
      }
    }

    method CleanHalf(ghost before: World, ghost device: string, ghost ipFaults: nat, ghost restoreFaults: nat)
      requires kernel.Valid() && NoFewerFaults(ipFaults, restoreFaults)
      requires HalfDone(config, before, Abstract(), device, CleanSince(ipFaults), RestoredSince(restoreFaults))
      modifies this`rpFilterOriginal, this`restoreFaults, kernel
      ensures kernel.Valid() && NoFewerFaults(ipFaults, restoreFaults)
      ensures HalfDone(config, before, Abstract(), device, CleanSince(ipFaults), RestoredSince(restoreFaults))
      ensures kernel.refused == old(kernel.refused) && kernel.unwritten >= old(kernel.unwritten)
    {
      ghost var half := Abstract();
      Cleanup();
      HalfDoneThenClean(config, kernel.names, before, half, Abstract(), device, CleanSince(ipFaults),
                        RestoredSince(restoreFaults));
    }

    /** One attempt. On failure the caller cleans up. */
    method SetupOnce(device: string) returns (ok: bool, ghost rp: RpStep)
      requires kernel.Valid()
      modifies this`rpFilterOriginal, this`restoreFaults, kernel
      ensures kernel.Valid() && NoFewerFaults(old(kernel.ipFaults), old(restoreFaults))
      ensures ok ==> SetupOutcome(config, kernel.names, old(Abstract()), Abstract(), device, true, rp,
                                  CleanSince(old(kernel.ipFaults)), RestoredSince(old(restoreFaults)))
      ensures !ok ==> HalfDone(config, old(Abstract()), Abstract(), device,
                               CleanSince(old(kernel.ipFaults)), RestoredSince(old(restoreFaults)))
      ensures Troubles() >= old(Troubles()) + (if ok then 0 else 1)
    {
      rp := RpStep(false, false);
      var added, cleaned := ReplaceEntries(device);
      if !added { return false, rp; }
      var written;
      written, rp := RelaxRpFilter(device);
      Installed(config, kernel.names, old(Abstract()), cleaned, device, rp,
                CleanSince(old(kernel.ipFaults)), RestoredSince(old(restoreFaults)));
      ok := written || !config.strictRPF;
    }

    /** One attempt, cleaned up when it fails. */
    method Attempt(device: string) returns (ok: bool, ghost rp: RpStep)
      requires kernel.Valid()
      modifies this`rpFilterOriginal, this`restoreFaults, kernel
      ensures kernel.Valid() && NoFewerFaults(old(kernel.ipFaults), old(restoreFaults))
      ensures SetupOutcome(config, kernel.names, old(Abstract()), Abstract(), device, ok, rp,
                           CleanSince(old(kernel.ipFaults)), RestoredSince(old(restoreFaults)))
      ensures Troubles() >= old(Troubles()) + (if ok then 0 else 1)
    {
      ok, rp := SetupOnce(device);
      if !ok {
        ghost var half := Abstract();
        Cleanup();
        FailedThenClean(config, kernel.names, old(Abstract()), half, Abstract(), device, rp,
                        CleanSince(old(kernel.ipFaults)), RestoredSince(old(restoreFaults)));
      }
    }

    method Setup(iface: string) returns (ok: bool, ghost rp: RpStep)
      requires kernel.Valid() && setupRetries >= 1
      modifies this`rpFilterOriginal, this`restoreFaults, kernel
      ensures kernel.Valid() && NoFewerFaults(old(kernel.ipFaults), old(restoreFaults))
      ensures SetupOutcome(config, kernel.names, old(Abstract()), Abstract(),
                           if iface == "" then config.iface else iface, ok, rp,
                           CleanSince(old(kernel.ipFaults)), RestoredSince(old(restoreFaults)))
      ensures ok ==>
        && NewRule(if iface == "" then config.iface else iface, config.table) in kernel.rules
        && NewRoute(if iface == "" then config.iface else iface, config.table) in kernel.routes
      // it gives up only when each of its attempts met a failing command
      ensures !ok ==> Troubles() >= old(Troubles()) + setupRetries
    {
      var device := if iface == "" then config.iface else iface;
      ghost var start := Abstract();
      ok, rp := Attempt(device);
      var attempt := 2;
      while !ok && attempt <= setupRetries
        invariant kernel.Valid() && NoFewerFaults(old(kernel.ipFaults), old(restoreFaults))
        invariant SetupOutcome(config, kernel.names, start, Abstract(), device, ok, rp,
                               CleanSince(old(kernel.ipFaults)), RestoredSince(old(restoreFaults)))
        invariant 2 <= attempt <= setupRetries + 1 && (!ok ==> Troubles() >= old(Troubles()) + attempt - 1)
      {
        ghost var before, failed := Abstract(), rp;
        ok, rp := Attempt(device);
        SetupAfterFailure(config, kernel.names, start, before, Abstract(), device, failed, ok, rp,
                          CleanSince(old(kernel.ipFaults)), RestoredSince(old(restoreFaults)));
        attempt := attempt + 1;
      }
    }
  }

  /** The entries an attempt got to add. */
  function WithEntries(c: RouterConfig, w: World, device: string, routeAdded: bool, ruleAdded: bool): World {
    w.(routes := if routeAdded then w.routes + [NewRoute(device, c.table)] else w.routes,
       rules := if ruleAdded then w.rules + [NewRule(device, c.table)] else w.rules)
  }

  /** A failed attempt before its cleanup: our own entries may linger, nothing else moved. */
  ghost predicate HalfDone(c: RouterConfig, a: World, b: World, device: string, clean: bool, restored: bool) {
    && Filter(b.routes, OutsideTable(c.table)) == Filter(a.routes, OutsideTable(c.table))
    && (Owns(c, device) ==> Filter(b.rules, IsOtherRule(c)) == Filter(a.rules, IsOtherRule(c)))
    && (Owns(c, device) && clean ==> Filter(b.routes, IsOtherRoute(c)) == Filter(a.routes, IsOtherRoute(c)))
    && (restored ==> b.Baseline() == a.Baseline())
  }

  lemma CleanHalfDone(c: RouterConfig, names: TableNames, a: World, b: World, device: string, clean: bool,
        restored: bool)
    requires CleanupOutcome(c, names, a, b, clean, restored)
    ensures HalfDone(c, a, b, device, clean, restored)
  {
    assert b.Baseline() == b.rpFilter;
  }

  lemma HalfDoneTwice(c: RouterConfig, a: World, mid: World, b: World, device: string, clean: bool, restored: bool)
    requires HalfDone(c, a, mid, device, clean, restored) && HalfDone(c, mid, b, device, clean, restored)
    ensures HalfDone(c, a, b, device, clean, restored)
  {}

  lemma HalfDoneThenClean(c: RouterConfig, names: TableNames, a: World, half: World, b: World, device: string,
        clean: bool, restored: bool)
    requires HalfDone(c, a, half, device, clean, restored) && CleanupOutcome(c, names, half, b, clean, restored)
    ensures HalfDone(c, a, b, device, clean, restored)
  {
    CleanHalfDone(c, names, half, b, device, clean, restored);
    HalfDoneTwice(c, a, half, b, device, clean, restored);
  }

  lemma FailedThenClean(c: RouterConfig, names: TableNames, a: World, half: World, b: World, device: string, rp: RpStep,
        clean: bool, restored: bool)
    requires HalfDone(c, a, half, device, clean, restored) && CleanupOutcome(c, names, half, b, clean, restored)
    ensures SetupOutcome(c, names, a, b, device, false, rp, clean, restored)
  {
    HalfDoneThenClean(c, names, a, half, b, device, clean, restored);
    OwnEntriesGone(c, names, half, b, clean, restored);
    assert b.Baseline() == b.rpFilter;
  }

  lemma SetupAfterFailure(c: RouterConfig, names: TableNames, a: World, mid: World, b: World, device: string,
        failed: RpStep, ok: bool, rp: RpStep, clean: bool, restored: bool)
    requires SetupOutcome(c, names, a, mid, device, false, failed, clean, restored)
    requires SetupOutcome(c, names, mid, b, device, ok, rp, clean, restored)
    ensures SetupOutcome(c, names, a, b, device, ok, rp, clean, restored)
  {
    assert mid.Baseline() == mid.rpFilter;
  }

  lemma FilterTwice(rs: seq<Route>, p: Route -> bool, q: Route -> bool)
    requires forall r :: q(r) ==> p(r)
    ensures Filter(Filter(rs, p), q) == Filter(rs, q)
  {
    if rs != [] {
      FilterTwice(rs[1..], p, q);
      if p(rs[0]) { assert ([rs[0]] + Filter(rs[1..], p))[1..] == Filter(rs[1..], p); }
    }
  }

  lemma RouteKeepsOthers(c: RouterConfig, rs: seq<Route>, device: string)
    ensures var n := rs + [NewRoute(device, c.table)];
      && Filter(n, OutsideTable(c.table)) == Filter(rs, OutsideTable(c.table))
      && (Owns(c, device) ==> Filter(n, IsOtherRoute(c)) == Filter(rs, IsOtherRoute(c)))
  {
    var added := [NewRoute(device, c.table)];
    FilterAppend(rs, added, OutsideTable(c.table));
    FilterAppend(rs, added, IsOtherRoute(c));
    FilterNone(added, OutsideTable(c.table));
    if Owns(c, device) { FilterNone(added, IsOtherRoute(c)); }
  }

  lemma RuleKeepsOthers(c: RouterConfig, rs: seq<Rule>, device: string)
    ensures Owns(c, device) ==> Filter(rs + [NewRule(device, c.table)], IsOtherRule(c)) == Filter(rs, IsOtherRule(c))
  {
    var added := [NewRule(device, c.table)];
    FilterAppend(rs, added, IsOtherRule(c));
    if Owns(c, device) { FilterNone(added, IsOtherRule(c)); }
  }

  /** After the cleanup at most a route was added. */
  lemma EntriesHalfDone(c: RouterConfig, names: TableNames, a: World, cleaned: World, device: string, routeAdded: bool,
        clean: bool, restored: bool)
    requires CleanupOutcome(c, names, a, cleaned, clean, restored)
    ensures HalfDone(c, a, WithEntries(c, cleaned, device, routeAdded, false), device, clean, restored)
  {
    CleanHalfDone(c, names, a, cleaned, device, clean, restored);
    RouteKeepsOthers(c, cleaned.routes, device);
    assert WithEntries(c, cleaned, device, routeAdded, false).Baseline() == cleaned.Baseline();
  }

  lemma RulesInstalled(c: RouterConfig, names: TableNames, a: World, cleaned: World, b: World, device: string,
        clean: bool, restored: bool)
    requires CleanupOutcome(c, names, a, cleaned, clean, restored)
      && b.rules == cleaned.rules + [NewRule(device, c.table)]
    ensures RulesSet(c, names, a, b, device, true, clean)
  {
    RuleKeepsOthers(c, cleaned.rules, device);
    FilterAppend(cleaned.rules, [NewRule(device, c.table)], IsOwnRule(c));
    if clean { OwnEntriesGone(c, names, a, cleaned, clean, restored); }
  }

  lemma RoutesInstalled(c: RouterConfig, names: TableNames, a: World, cleaned: World, b: World, device: string,
        clean: bool, restored: bool)
    requires CleanupOutcome(c, names, a, cleaned, clean, restored)
      && b.routes == cleaned.routes + [NewRoute(device, c.table)]
    ensures RoutesSet(c, a, b, device, true, clean)
  {
    RouteKeepsOthers(c, cleaned.routes, device);
    FilterAppend(cleaned.routes, [NewRoute(device, c.table)], IsOwnRoute(c));
    if clean { OwnEntriesGone(c, names, a, cleaned, clean, restored); }
  }

  /** The rp_filter step, and a step that did not write taken back by its baseline. */
  lemma RpInstalled(c: RouterConfig, a: World, w: World, device: string, rp: RpStep, restored: bool)
    requires w.saved == map[] && (restored ==> w.rpFilter == a.Baseline())
    requires rp.known || rp.written ==> device in w.rpFilter
    ensures var b := RpConfigured(w, device, rp);
      && (rp.written || !c.strictRPF ==> RpSet(c, a.Baseline(), b, device, true, rp, restored))
      && (restored && !rp.written ==> b.Baseline() == a.Baseline())
  {
    var b := RpConfigured(w, device, rp);
    if restored && !rp.written { assert b.Baseline() == w.rpFilter; }
  }

  /** Route, rule and rp_filter step were all carried out after the cleanup. */
  lemma Installed(c: RouterConfig, names: TableNames, a: World, cleaned: World, device: string, rp: RpStep,
        clean: bool, restored: bool)
    requires CleanupOutcome(c, names, a, cleaned, clean, restored)
    requires rp.known || rp.written ==> device in cleaned.rpFilter
    ensures var b := RpConfigured(WithEntries(c, cleaned, device, true, true), device, rp);
      && (rp.written || !c.strictRPF ==> SetupOutcome(c, names, a, b, device, true, rp, clean, restored))
      && (!rp.written ==> HalfDone(c, a, b, device, clean, restored))
  {
    var w := WithEntries(c, cleaned, device, true, true);
    var b := RpConfigured(w, device, rp);
    RulesInstalled(c, names, a, cleaned, b, device, clean, restored);
    RoutesInstalled(c, names, a, cleaned, b, device, clean, restored);
    RpInstalled(c, a, w, device, rp, restored);
  }

  // ---- any sequence of calls ---------------------------------------------------------------------

  datatype Call = CleanupCall | SetupCall(device: string, ok: bool, rp: RpStep)

  /** A call whose commands were faithful. A setup's rp_filter step either read the old value or wrote nothing. */
  ghost predicate Linked(c: RouterConfig, names: TableNames, call: Call, a: World, b: World) {
    match call
    case CleanupCall => CleanupOutcome(c, names, a, b, true, true)
    case SetupCall(device, ok, rp) =>
      Owns(c, device) && (rp.known || !rp.written) && SetupOutcome(c, names, a, b, device, ok, rp, true, true)
  }

  /** The own rule and route a call leaves. */
  function OwnRuleAfter(c: RouterConfig, call: Call): seq<Rule> {
    if call.SetupCall? && call.ok then [NewRule(call.device, c.table)] else []
  }
  function OwnRouteAfter(c: RouterConfig, call: Call): seq<Route> {
    if call.SetupCall? && call.ok then [NewRoute(call.device, c.table)] else []
  }

  lemma SetupBaseline(c: RouterConfig, base: map<string, string>, b: World, device: string, ok: bool, rp: RpStep)
    requires RpSet(c, base, b, device, ok, rp, true) && (rp.known || !rp.written)
    ensures b.Baseline() == base
  {
    if ok && rp.known {
      assert b.Baseline() == base;
    } else {
      assert b.saved == map[] && b.rpFilter == base;
    }
  }

  lemma LinkedKeeps(c: RouterConfig, names: TableNames, call: Call, a: World, b: World)
    requires Recognised(c, names) && Linked(c, names, call, a, b)
    ensures OthersUntouched(c, a, b)
      && Filter(b.routes, OutsideTable(c.table)) == Filter(a.routes, OutsideTable(c.table))
    ensures b.Baseline() == a.Baseline()
    ensures Filter(b.rules, IsOwnRule(c)) == OwnRuleAfter(c, call)
      && Filter(b.routes, IsOwnRoute(c)) == OwnRouteAfter(c, call)
    ensures call.CleanupCall? ==> b.rpFilter == a.Baseline()
  {
    match call
    case CleanupCall =>
      OwnEntriesGone(c, names, a, b, true, true);
      assert b.Baseline() == b.rpFilter;
    case SetupCall(device, ok, rp) =>
      SetupBaseline(c, a.Baseline(), b, device, ok, rp);
  }

  /** Over any sequence of setups and cleanups, with faithful listings and working sysctl: foreign rules and
      routes and every other table keep their entries, and the original rp_filter values are never lost. After
      each call what we own is exactly the last setup's rule and route, or nothing after a cleanup or a failed
      setup; and after a cleanup the original values are back. */
  lemma {:induction false} AnyCallSequence(c: RouterConfig, names: TableNames, worlds: seq<World>, calls: seq<Call>)
    requires Recognised(c, names) && |worlds| == |calls| + 1 && worlds[0].saved == map[]
    requires forall i :: 0 <= i < |calls| ==> Linked(c, names, calls[i], worlds[i], worlds[i + 1])
    ensures var n := worlds[|calls|];
      && OthersUntouched(c, worlds[0], n)
      && Filter(n.routes, OutsideTable(c.table)) == Filter(worlds[0].routes, OutsideTable(c.table))
      && n.Baseline() == worlds[0].rpFilter
      && (calls != [] ==>
            && Filter(n.rules, IsOwnRule(c)) == OwnRuleAfter(c, calls[|calls| - 1])
            && Filter(n.routes, IsOwnRoute(c)) == OwnRouteAfter(c, calls[|calls| - 1])
            && (calls[|calls| - 1].CleanupCall? ==> n.rpFilter == worlds[0].rpFilter))
  {
    if calls != [] {
      var n := |calls| - 1;
      AnyCallSequence(c, names, worlds[..|calls|], calls[..n]);
      assert Linked(c, names, calls[n], worlds[n], worlds[n + 1]);
      LinkedKeeps(c, names, calls[n], worlds[n], worlds[n + 1]);
    } else {
      assert worlds[0].Baseline() == worlds[0].rpFilter;
    }
  }

  // ---- in terms of device names ---------------------------------------------------------------------

  /** A device this project may create: the configured interface, or the configured prefix and a decimal number. */
  ghost predicate OurDevice(c: RouterConfig, device: string) {
    device != "" && (device == c.iface || (c.devicePrefix != "" && Numbered(c.devicePrefix, device)))
  }

  /** Everything but the table's entries on such a device. */
  ghost function ForeignRule(c: RouterConfig): Rule -> bool {
    (r: Rule) => r.table != c.table || !OurDevice(c, r.oif)
  }
  ghost function ForeignRoute(c: RouterConfig): Route -> bool {
    (r: Route) => r.table != c.table || !OurDevice(c, r.device)
  }

  lemma OwnsMeans(c: RouterConfig)
    ensures forall device :: Owns(c, device) <==> OurDevice(c, device)
  {
    forall device ensures Owns(c, device) <==> OurDevice(c, device) { DevicePrefixMeans(device, c.devicePrefix); }
  }

  lemma ForeignMeans(c: RouterConfig, w: World)
    ensures Filter(w.rules, IsOtherRule(c)) == Filter(w.rules, ForeignRule(c))
    ensures Filter(w.routes, IsOtherRoute(c)) == Filter(w.routes, ForeignRoute(c))
  {
    OwnsMeans(c);
    FilterSame(w.rules, IsOtherRule(c), ForeignRule(c));
    FilterSame(w.routes, IsOtherRoute(c), ForeignRoute(c));
  }

  /** No route of the table is on a device that is not ours. */
  ghost predicate TableIsOurs(c: RouterConfig, w: World) {
    forall r <- w.routes :: r.table == c.table ==> OurDevice(c, r.device)
  }

  /** iproute2 prints our table by its number, or under the registered name. */
  ghost predicate ShownAsOurs(c: RouterConfig, names: TableNames) {
    c.table !in names || names[c.table] == Itoa(c.table) || names[c.table] == "free_proxy"
  }

  lemma ShownAsOursMeans(c: RouterConfig, names: TableNames)
    ensures Recognised(c, names) <==> ShownAsOurs(c, names)
  {}

  /** A cleanup, by device names: rules on other devices stay, in order, always; so do routes, unless a command failed
      while the table held one; and if no command failed nothing of ours is left in the table, neither on the
      interface nor on any numbered device of the prefix. */
  lemma CleanupByDevice(c: RouterConfig, names: TableNames, a: World, b: World, clean: bool, restored: bool)
    requires CleanupOutcome(c, names, a, b, clean, restored)
    ensures Filter(b.rules, ForeignRule(c)) == Filter(a.rules, ForeignRule(c))
    ensures clean || TableIsOurs(c, a) ==> Filter(b.routes, ForeignRoute(c)) == Filter(a.routes, ForeignRoute(c))
    ensures clean && ShownAsOurs(c, names) ==> b.rules == Filter(a.rules, ForeignRule(c))
    ensures clean ==> b.routes == Filter(a.routes, ForeignRoute(c))
  {
    OwnsMeans(c);
    ForeignMeans(c, a);
    ForeignMeans(c, b);
    ShownAsOursMeans(c, names);
  }

  lemma OurNames(c: RouterConfig, i: nat)
    ensures c.iface != "" ==> OurDevice(c, c.iface)
    ensures c.devicePrefix != "" ==> OurDevice(c, DeviceName(c.devicePrefix, i))
  {
    DeviceNameInPool(c.devicePrefix, i);
    DevicePrefixMeans(DeviceName(c.devicePrefix, i), c.devicePrefix);
  }

  /** So after a cleanup whose commands worked the table holds no rule and no route on the interface or on the
      prefix's device i. */
  lemma OurDevicesAreClear(c: RouterConfig, names: TableNames, a: World, b: World, restored: bool, device: string,
        i: nat)
    requires CleanupOutcome(c, names, a, b, true, restored) && ShownAsOurs(c, names)
    requires device != "" && (device == c.iface || (c.devicePrefix != "" && device == c.devicePrefix + Itoa(i)))
    ensures forall r <- b.rules :: r.table == c.table ==> r.oif != device
    ensures forall r <- b.routes :: r.table == c.table ==> r.device != device
  {
    OurNames(c, i);
    CleanupByDevice(c, names, a, b, true, restored);
  }

  /** A setup on one of our devices, by device names: everything else stays, in order; a success has the rule and the
      default route on the device, and with commands that worked they are the only ones of ours in the table. */
  lemma SetupByDevice(c: RouterConfig, names: TableNames, a: World, b: World, device: string, ok: bool, rp: RpStep,
        clean: bool, restored: bool)
    requires SetupOutcome(c, names, a, b, device, ok, rp, clean, restored)
    ensures OurDevice(c, device) ==> Filter(b.rules, ForeignRule(c)) == Filter(a.rules, ForeignRule(c))
    ensures OurDevice(c, device) && clean ==> Filter(b.routes, ForeignRoute(c)) == Filter(a.routes, ForeignRoute(c))
    ensures ok ==> exists r <- b.rules :: r.oif == device && r.table == c.table
    ensures ok ==> exists r <- b.routes :: r.destination == "default" && r.device == device && r.table == c.table
    ensures OurDevice(c, device) && clean && ShownAsOurs(c, names) ==>
      forall r <- b.rules :: r.table == c.table && OurDevice(c, r.oif) ==> ok && r.oif == device
    ensures OurDevice(c, device) && clean ==>
      forall r <- b.routes :: r.table == c.table && OurDevice(c, r.device) ==> ok && r.device == device
  {
    OwnsMeans(c);
    ForeignMeans(c, a);
    ForeignMeans(c, b);
    ShownAsOursMeans(c, names);
    forall r | r in b.rules && OwnRule(c, r) ensures r in Filter(b.rules, IsOwnRule(c)) {}
    forall r | r in b.routes && OwnRoute(c, r) ensures r in Filter(b.routes, IsOwnRoute(c)) {}
  }

  /** Over any sequence of setups on our devices and cleanups, with faithful commands, the entries on other devices
      and in other tables keep their order and contents. */
  lemma ForeignDevicesSurvive(c: RouterConfig, names: TableNames, worlds: seq<World>, calls: seq<Call>)
    requires ShownAsOurs(c, names) && |worlds| == |calls| + 1 && worlds[0].saved == map[]
    requires forall i :: 0 <= i < |calls| ==> Linked(c, names, calls[i], worlds[i], worlds[i + 1])
    ensures Filter(worlds[|calls|].rules, ForeignRule(c)) == Filter(worlds[0].rules, ForeignRule(c))
    ensures Filter(worlds[|calls|].routes, ForeignRoute(c)) == Filter(worlds[0].routes, ForeignRoute(c))
  {
    ShownAsOursMeans(c, names);
    AnyCallSequence(c, names, worlds, calls);
    ForeignMeans(c, worlds[0]);
    ForeignMeans(c, worlds[|calls|]);
  }
}

/** Reading the output of `ip rule show` and `ip route show table N` (internal/netx/routing.go). */
module RouterText {
  import opened Lists
  import opened Text

  datatype PolicyRule = PolicyRule(priority: string, oif: string, table: string)
  datatype TableRoute = TableRoute(destination: string, device: string)

  // ---- rules ---------------------------------------------------------------------------

  /** One field of a rule line: `oif` and `lookup` take the field that follows. */
  function NoteField(rule: PolicyRule, field: string, next: string): PolicyRule {
    if field == "oif" then rule.(oif := next)
    else if field == "lookup" then rule.(table := next)
    else rule
  }

  function ScanRule(fields: seq<string>, i: nat, rule: PolicyRule): PolicyRule
    decreases |fields| - i
  {
    if i + 1 >= |fields| then rule else ScanRule(fields, i + 1, NoteField(rule, fields[i], fields[i + 1]))
  }

  function Priority(field: string): string {
    if field != "" && field[|field| - 1] == ':' then field[..|field| - 1] else ""
  }

  /** What one line contributes: nothing when it is blank or names no table. */
  function RuleOfFields(fields: seq<string>): seq<PolicyRule> {
    if fields == [] then [] else
      var rule := ScanRule(fields, 0, PolicyRule(Priority(fields[0]), "", ""));
      if rule.table == "" then [] else [rule]
  }

  function RuleOfLine(): string -> seq<PolicyRule> { (line: string) => RuleOfFields(Fields(line)) }
  function RulesOfLines(lines: seq<string>): seq<PolicyRule> { FlatMap(lines, RuleOfLine()) }

  method ReadRule(fields: seq<string>) returns (rule: PolicyRule)
    requires fields != []
    ensures rule == ScanRule(fields, 0, PolicyRule(Priority(fields[0]), "", ""))
  {
    rule := PolicyRule(Priority(fields[0]), "", "");
    var i := 0;
    while i + 1 < |fields|
      invariant 0 <= i < |fields|
      invariant ScanRule(fields, i, rule) == ScanRule(fields, 0, PolicyRule(Priority(fields[0]), "", ""))
    {
      rule := NoteField(rule, fields[i], fields[i + 1]);
      i := i + 1;
    }
  }

  method ParsePolicyRules(output: string) returns (rules: seq<PolicyRule>)
    ensures rules == RulesOfLines(Split(output))
  {
    rules := [];
    var lines := Split(output);
    for k := 0 to |lines|
      invariant rules == RulesOfLines(lines[..k])
    {
      FlatMapStep(lines, k, RuleOfLine());
      var fields := Fields(lines[k]);
      if |fields| == 0 { continue; }
      var rule := ReadRule(fields);
      if rule.table == "" { continue; }
      rules := rules + [rule];
    }
    assert lines[..|lines|] == lines;
  }

  // ---- routes --------------------------------------------------------------------------

  /** The field after the first `dev` that has one after it. */
  function DeviceOfFields(fields: seq<string>, i: nat): string
    decreases |fields| - i
  {
    if i + 1 >= |fields| then ""
    else if fields[i] == "dev" then fields[i + 1]
    else DeviceOfFields(fields, i + 1)
  }

  function RouteOfFields(fields: seq<string>): seq<TableRoute> {
    if fields == [] then [] else [TableRoute(fields[0], DeviceOfFields(fields, 0))]
  }

  function RouteOfLine(): string -> seq<TableRoute> { (line: string) => RouteOfFields(Fields(line)) }
  function RoutesOfLines(lines: seq<string>): seq<TableRoute> { FlatMap(lines, RouteOfLine()) }

  method FindDevice(fields: seq<string>) returns (device: string)
    ensures device == DeviceOfFields(fields, 0)
  {
    for i := 0 to |fields|
      invariant DeviceOfFields(fields, i) == DeviceOfFields(fields, 0)
    {
      if fields[i] == "dev" && i + 1 < |fields| { return fields[i + 1]; }
    }
    device := "";
  }

  method ParseTableRoutes(output: string) returns (routes: seq<TableRoute>)
    ensures routes == RoutesOfLines(Split(output))
  {
    routes := [];
    var lines := Split(output);
    for k := 0 to |lines|
      invariant routes == RoutesOfLines(lines[..k])
    {
      FlatMapStep(lines, k, RouteOfLine());
      var fields := Fields(lines[k]);
      if |fields| == 0 { continue; }
      var device := FindDevice(fields);
      routes := routes + [TableRoute(fields[0], device)];
    }
    assert lines[..|lines|] == lines;
  }

  // ---- what iproute2 prints --------------------------------------------------------------

  /** A rule as shown: priority, selectors, the device it selects if any ("" otherwise) with what follows it
      ("[detached]"), its table, and what follows that. */
  datatype ShownRule = ShownRule(
    priority: string, selectors: seq<string>, oif: string, state: seq<string>, table: string, suffix: seq<string>)

  predicate Tokens(ts: seq<string>) { forall i :: 0 <= i < |ts| ==> IsToken(ts[i]) }

  predicate Plain(ts: seq<string>) { Tokens(ts) && "oif" !in ts && "lookup" !in ts }

  /** Keywords stand only where they are keywords; a table called like one could not be told from it. */
  predicate Printable(r: ShownRule) {
    && IsToken(r.priority) && Plain(r.selectors) && Plain(r.state) && Plain(r.suffix)
    && (r.oif == "" || IsToken(r.oif)) && IsToken(r.table)
    && (r.suffix == [] || (r.table != "oif" && r.table != "lookup"))
  }

  function DeviceTokens(r: ShownRule): seq<string> { if r.oif == "" then [] else ["oif", r.oif] }

  function RuleTokens(r: ShownRule): seq<string> {
    [r.priority + ":"] + r.selectors + DeviceTokens(r) + r.state + ["lookup", r.table] + r.suffix
  }

  function RuleLines(rs: seq<ShownRule>): seq<string> {
    seq(|rs|, i requires 0 <= i < |rs| => JoinTokens(RuleTokens(rs[i])))
  }

  function Read(r: ShownRule): PolicyRule { PolicyRule(r.priority, r.oif, r.table) }

  lemma {:induction false} ScanSkips(fields: seq<string>, i: nat, j: nat, rule: PolicyRule)
    requires i <= j < |fields|
    requires forall k :: i <= k < j ==> fields[k] != "oif" && fields[k] != "lookup"
    ensures ScanRule(fields, i, rule) == ScanRule(fields, j, rule)
    decreases j - i
  {
    if i < j { ScanSkips(fields, i + 1, j, rule); }
  }

  /** The tail of a rule line: state, table, suffix. The table is read, and the device when nothing was there. */
  lemma TailReads(r: ShownRule, m: nat, rule: PolicyRule)
    requires Printable(r) && m == 1 + |r.selectors| + |DeviceTokens(r)|
    ensures ScanRule(RuleTokens(r), m, rule) == rule.(table := r.table)
  {
    var fields, n := RuleTokens(r), m + |r.state|;
    assert forall k :: m <= k < n ==> fields[k] == r.state[k - m];
    ScanSkips(fields, m, n, rule);
    assert fields[n] == "lookup" && fields[n + 1] == r.table && |fields| == n + 2 + |r.suffix|;
    var read := rule.(table := r.table);
    assert ScanRule(fields, n, rule) == ScanRule(fields, n + 1, read);
    if r.suffix != [] {
      assert forall k :: n + 2 <= k < |fields| ==> fields[k] == r.suffix[k - n - 2];
      ScanSkips(fields, n + 1, |fields| - 1, read);
    }
  }

  /** A printed rule reads back as itself - except that a device called "oif" is taken for the keyword. */
  lemma RuleReadsBack(r: ShownRule)
    requires Printable(r)
    ensures Tokens(RuleTokens(r))
    ensures RuleOfFields(RuleTokens(r)) == [Read(r)] <==> r.oif != "oif"
  {
    var fields := RuleTokens(r);
    var start := PolicyRule(Priority(fields[0]), "", "");
    var n := 1 + |r.selectors|;
    assert fields[0] == r.priority + ":" && Priority(fields[0]) == r.priority;
    assert IsToken(fields[0]);
    RuleTokensAre(r);
    assert fields[0] != "oif" && fields[0] != "lookup" by { assert fields[0][|fields[0]| - 1] == ':'; }
    ScanSkips(fields, 0, n, start);
    if r.oif == "" {
      TailReads(r, n, start);
    } else {
      DeviceReads(r, start);
    }
  }

  lemma RuleTokensAre(r: ShownRule)
    requires Printable(r)
    ensures var fields := RuleTokens(r);
      Tokens(fields[1..]) && forall k :: 1 <= k < 1 + |r.selectors| ==> fields[k] == r.selectors[k - 1]
  {
    assert Tokens(DeviceTokens(r)) && Tokens(["lookup", r.table]);
    assert RuleTokens(r)[1..] == r.selectors + DeviceTokens(r) + r.state + ["lookup", r.table] + r.suffix;
  }

  lemma DeviceReads(r: ShownRule, start: PolicyRule)
    requires Printable(r) && r.oif != "" && start.oif == ""
    ensures ScanRule(RuleTokens(r), 1 + |r.selectors|, start).table == r.table
    ensures ScanRule(RuleTokens(r), 1 + |r.selectors|, start).priority == start.priority
    ensures ScanRule(RuleTokens(r), 1 + |r.selectors|, start).oif == r.oif <==> r.oif != "oif"
  {
    var fields, n := RuleTokens(r), 1 + |r.selectors|;
    assert fields[n] == "oif" && fields[n + 1] == r.oif;
    var next := if r.state == [] then "lookup" else r.state[0];
    assert fields[n + 2] == next && next != "oif";
    var afterOif := start.(oif := r.oif);
    assert ScanRule(fields, n, start) == ScanRule(fields, n + 1, afterOif);
    var afterDevice := NoteField(afterOif, r.oif, next);
    assert ScanRule(fields, n + 1, afterOif) == ScanRule(fields, n + 2, afterDevice);
    TailReads(r, n + 2, afterDevice);
  }

  lemma {:induction false} JoinedTokensOneLine(ts: seq<string>)
    requires Tokens(ts)
    ensures '\n' !in JoinTokens(ts)
  {
    if |ts| > 0 {
      assert '\n' !in ts[0] by { assert forall i :: 0 <= i < |ts[0]| ==> !IsSpace(ts[0][i]); }
      if |ts| > 1 { JoinedTokensOneLine(ts[1..]); }
    }
  }

  lemma RuleLineReads(r: ShownRule)
    requires Printable(r) && r.oif != "oif"
    ensures var line := JoinTokens(RuleTokens(r)); '\n' !in line && RuleOfFields(Fields(line)) == [Read(r)]
  {
    RuleReadsBack(r);
    FieldsOfJoin(RuleTokens(r));
    JoinedTokensOneLine(RuleTokens(r));
  }

  /** A whole `ip rule show` listing reads back entry by entry. */
  lemma RulesReadBack(rs: seq<ShownRule>)
    requires forall r <- rs :: Printable(r) && r.oif != "oif"
    ensures RulesOfLines(RuleLines(rs)) == seq(|rs|, i requires 0 <= i < |rs| => Read(rs[i]))
    ensures forall l <- RuleLines(rs) :: '\n' !in l
  {
    var lines, rules := RuleLines(rs), seq(|rs|, i requires 0 <= i < |rs| => Read(rs[i]));
    forall i | 0 <= i < |rs| ensures '\n' !in lines[i] && RuleOfFields(Fields(lines[i])) == [rules[i]] {
      RuleLineReads(rs[i]);
    }
    FlatMapSingles(lines, RuleOfLine(), rules);
  }

  /** Every line ends in a newline. */
  function ShowRules(rs: seq<ShownRule>): string { Join(RuleLines(rs) + [""]) }

  lemma ShownRulesReadBack(rs: seq<ShownRule>)
    requires forall r <- rs :: Printable(r) && r.oif != "oif"
    ensures RulesOfLines(Split(ShowRules(rs))) == seq(|rs|, i requires 0 <= i < |rs| => Read(rs[i]))
  {
    RulesReadBack(rs);
    var lines := RuleLines(rs) + [""];
    SplitOfJoin(lines);
    assert lines[..|lines| - 1] == RuleLines(rs);
    assert Fields("") == [] && RulesOfLines(lines) == RulesOfLines(RuleLines(rs)) + RuleOfLine()("");
  }

  /** A route as shown: destination, optional `via` part, device if any, further attributes. */
  datatype ShownRoute = ShownRoute(destination: string, via: seq<string>, device: string, attributes: seq<string>)

  predicate PrintableRoute(r: ShownRoute) {
    && IsToken(r.destination) && r.destination != "dev" && Tokens(r.via) && "dev" !in r.via && Tokens(r.attributes)
    && (if r.device == "" then "dev" !in r.attributes else IsToken(r.device))
  }

  function RouteTokens(r: ShownRoute): seq<string> {
    [r.destination] + r.via + (if r.device == "" then [] else ["dev", r.device]) + r.attributes
  }

  function RouteLines(rs: seq<ShownRoute>): seq<string> {
    seq(|rs|, i requires 0 <= i < |rs| => JoinTokens(RouteTokens(rs[i])))
  }

  function ReadRoute(r: ShownRoute): TableRoute { TableRoute(r.destination, r.device) }

  lemma {:induction false} DeviceSkips(fields: seq<string>, i: nat, j: nat)
    requires i <= j <= |fields| && forall k :: i <= k < j ==> fields[k] != "dev"
    ensures DeviceOfFields(fields, i) == DeviceOfFields(fields, j)
    decreases j - i
  {
    if i < j { DeviceSkips(fields, i + 1, j); }
  }

  lemma RouteReadsBack(r: ShownRoute)
    requires PrintableRoute(r)
    ensures Tokens(RouteTokens(r)) && RouteOfFields(RouteTokens(r)) == [ReadRoute(r)]
  {
    var fields := RouteTokens(r);
    var n := 1 + |r.via|;
    assert fields[0] == r.destination;
    assert forall k :: 1 <= k < n ==> fields[k] == r.via[k - 1];
    if r.device == "" {
      assert forall k :: n <= k < |fields| ==> fields[k] == r.attributes[k - n];
      DeviceSkips(fields, 0, |fields|);
    } else {
      assert fields[n] == "dev" && fields[n + 1] == r.device;
      assert forall k :: n + 2 <= k < |fields| ==> fields[k] == r.attributes[k - n - 2];
      DeviceSkips(fields, 0, n);
    }
  }

  lemma RouteLineReads(r: ShownRoute)
    requires PrintableRoute(r)
    ensures var line := JoinTokens(RouteTokens(r)); '\n' !in line && RouteOfFields(Fields(line)) == [ReadRoute(r)]
  {
    RouteReadsBack(r);
    FieldsOfJoin(RouteTokens(r));
    JoinedTokensOneLine(RouteTokens(r));
  }

  lemma RoutesReadBack(rs: seq<ShownRoute>)
    requires forall r <- rs :: PrintableRoute(r)
    ensures RoutesOfLines(RouteLines(rs)) == seq(|rs|, i requires 0 <= i < |rs| => ReadRoute(rs[i]))
    ensures forall l <- RouteLines(rs) :: '\n' !in l
  {
    var lines, routes := RouteLines(rs), seq(|rs|, i requires 0 <= i < |rs| => ReadRoute(rs[i]));
    forall i | 0 <= i < |rs| ensures '\n' !in lines[i] && RouteOfFields(Fields(lines[i])) == [routes[i]] {
      RouteLineReads(rs[i]);
    }
    FlatMapSingles(lines, RouteOfLine(), routes);
  }

  function ShowRoutes(rs: seq<ShownRoute>): string { Join(RouteLines(rs) + [""]) }

  lemma ShownRoutesReadBack(rs: seq<ShownRoute>)
    requires forall r <- rs :: PrintableRoute(r)
    ensures RoutesOfLines(Split(ShowRoutes(rs))) == seq(|rs|, i requires 0 <= i < |rs| => ReadRoute(rs[i]))
  {
    RoutesReadBack(rs);
    var lines := RouteLines(rs) + [""];
    SplitOfJoin(lines);
    assert lines[..|lines| - 1] == RouteLines(rs);
    assert Fields("") == [] && RoutesOfLines(lines) == RoutesOfLines(RouteLines(rs)) + RouteOfLine()("");
  }
}

/** Identifiers placed in host-global namespaces (internal/naming), and the start-up
    resolution of the configured ones (internal/config). */
module Naming {
  import opened Text

  const DEVICE_PREFIX := "fpx"
  const MAX_DEVICE_NAME_LENGTH := 15
  const DEFAULT_ROUTING_TABLE := 9527
  const POOL_ROUTING_TABLE_BASE := 9528
  const ROUTING_TABLE_ALIAS := "free_proxy"

  function DeviceName(prefix: string, i: int): string { prefix + Itoa(i) }

  predicate HasDevicePrefix(device: string, prefix: string) {
    prefix != "" && prefix <= device && device != prefix && AllDigits(device[|prefix|..])
  }

  /** The device is the prefix followed by one or more decimal digits. */
  ghost predicate Numbered(prefix: string, device: string) {
    exists digits: string :: digits != "" && (forall c <- digits :: '0' <= c <= '9') && device == prefix + digits
  }

  /** What belongs to a prefix's pool: nothing for the empty prefix, otherwise the prefix and digits, and nothing
      else. */
  lemma DevicePrefixMeans(device: string, prefix: string)
    ensures HasDevicePrefix(device, prefix) <==> prefix != "" && Numbered(prefix, device)
  {
    if HasDevicePrefix(device, prefix) {
      var digits := device[|prefix|..];
      assert device == prefix + digits && forall c <- digits :: '0' <= c <= '9';
    }
    if prefix != "" && Numbered(prefix, device) {
      var digits: string :|
        digits != "" && (forall c <- digits :: '0' <= c <= '9') && device == prefix + digits;
      assert device[|prefix|..] == digits && forall i :: 0 <= i < |digits| ==> digits[i] in digits;
    }
  }

  /** The documented cases: an index is needed, all of it decimal, right behind the prefix. */
  lemma PoolExamples()
    ensures HasDevicePrefix("fpx0", "fpx") && HasDevicePrefix("fpx42", "fpx")
    ensures !HasDevicePrefix("fpx", "fpx") && !HasDevicePrefix("fpxa", "fpx") && !HasDevicePrefix("fpx0x1", "fpx")
    ensures !HasDevicePrefix("tun0", "fpx") && !HasDevicePrefix("myfpx0", "fpx") && !HasDevicePrefix("fpx0", "")
    ensures !HasDevicePrefix("tunl0", "tun")
  {
    assert "fpx0" == "fpx" + "0" && "fpx42" == "fpx" + "42" && "tunl0" == "tun" + "l0";
    assert "fpxa" == "fpx" + "a" && "fpx0x1" == "fpx" + "0x1" && "0x1"[1] == 'x';
    assert "l0"[0] == 'l' && "a"[0] == 'a' && "fpx" <= "fpx" && "tun0"[0] != 'f' && "myfpx0"[0] != 'f';
  }

  /** The form our names take: a device is in a prefix pool exactly when it is the
      prefix followed by a decimal numeral. */
  lemma DeviceNameInPool(prefix: string, i: nat)
    ensures HasDevicePrefix(DeviceName(prefix, i), prefix) <==> prefix != ""
    ensures DeviceName(prefix, i)[|prefix|..] == Itoa(i)
  {}

  lemma DeviceNameInjective(prefix: string, i: int, j: int)
    ensures DeviceName(prefix, i) == DeviceName(prefix, j) <==> i == j
  {
    if DeviceName(prefix, i) == DeviceName(prefix, j) {
      assert DeviceName(prefix, i)[|prefix|..] == Itoa(i);
      assert DeviceName(prefix, j)[|prefix|..] == Itoa(j);
      ItoaInjective(i, j);
    }
  }

  datatype NameError = EmptyName | TooLong | RejectedCharacter

  function ValidateDeviceName(name: string): Option<NameError> {
    if name == "" then Some(EmptyName)
    else if ByteLength(name) > MAX_DEVICE_NAME_LENGTH then Some(TooLong)
    else if (exists i :: 0 <= i < |name| && name[i] in " /:\t\n") || name == "." || name == ".."
    then Some(RejectedCharacter)
    else None
  }

  function ValidateDevicePrefix(prefix: string): Option<NameError> {
    if prefix == "" then Some(EmptyName)
    else if ValidateDeviceName(prefix + "000").Some? then Some(TooLong)
    else None
  }

  predicate ValidRoutingTable(table: int) { table > 0 && table !in {253, 254, 255} }

  // ---- configuration ---------------------------------------------------------------

  datatype Config = Config(
    probeDevicePrefix: string, tunnelInterface: string, policyRoutingTable: int,
    testTunStart: int, testTunEnd: int)

  datatype ConfigError =
    BadPrefix(reason: NameError) | BadInterface(reason: NameError) | BadTable | NegativeStart | EmptyRange
    | InterfaceInsideRange | NoDeviceAbove

  datatype Result<+T> = Ok(value: T) | Err(error: ConfigError)

  /** The pool index of a device, when it belongs to the prefix. */
  function ProbeIndex(device: string, prefix: string): Option<int> {
    if HasDevicePrefix(device, prefix) then Atoi(device[|prefix|..]) else None
  }

  function WithDefaults(c: Config): Config {
    c.(probeDevicePrefix := if c.probeDevicePrefix == "" then DEVICE_PREFIX else c.probeDevicePrefix,
       tunnelInterface := if c.tunnelInterface == "" then DeviceName(DEVICE_PREFIX, 0) else c.tunnelInterface,
       policyRoutingTable := if c.policyRoutingTable == 0 then DEFAULT_ROUTING_TABLE else c.policyRoutingTable)
  }

  /** finalizeNaming: fills defaults, validates, and moves the probe range off the active device. */
  method FinalizeNaming(c: Config) returns (r: Result<Config>)
    ensures r == Finalized(c)
  {
    var prefix, iface, table, start := c.probeDevicePrefix, c.tunnelInterface, c.policyRoutingTable, c.testTunStart;
    if prefix == "" { prefix := DEVICE_PREFIX; }
    var badPrefix := ValidateDevicePrefix(prefix);
    if badPrefix.Some? { return Err(BadPrefix(badPrefix.value)); }
    if iface == "" { iface := DeviceName(DEVICE_PREFIX, 0); }
    var badIface := ValidateDeviceName(iface);
    if badIface.Some? { return Err(BadInterface(badIface.value)); }
    if table == 0 { table := DEFAULT_ROUTING_TABLE; }
    if !ValidRoutingTable(table) { return Err(BadTable); }
    if start < 0 { return Err(NegativeStart); }
    if start > c.testTunEnd { return Err(EmptyRange); }
    r := ClearRange(Config(prefix, iface, table, start, c.testTunEnd));
  }

  method ClearRange(d: Config) returns (r: Result<Config>)
    ensures r == Cleared(d)
  {
    var start, idx := d.testTunStart, ProbeIndex(d.tunnelInterface, d.probeDevicePrefix);
    if idx.Some? && start <= idx.value <= d.testTunEnd {
      if idx.value != start { return Err(InterfaceInsideRange); }
      start := idx.value + 1;
      if start > d.testTunEnd { return Err(NoDeviceAbove); }
    }
    return Ok(d.(testTunStart := start));
  }

  /** Moves the probe range off the active device. */
  function Cleared(d: Config): Result<Config> {
    var idx := ProbeIndex(d.tunnelInterface, d.probeDevicePrefix);
    if idx.None? || !(d.testTunStart <= idx.value <= d.testTunEnd) then Ok(d)
    else if idx.value != d.testTunStart then Err(InterfaceInsideRange)
    else if idx.value + 1 > d.testTunEnd then Err(NoDeviceAbove)
    else Ok(d.(testTunStart := idx.value + 1))
  }

  function Finalized(c: Config): Result<Config> {
    var d := WithDefaults(c);
    var badPrefix, badIface := ValidateDevicePrefix(d.probeDevicePrefix), ValidateDeviceName(d.tunnelInterface);
    if badPrefix.Some? then Err(BadPrefix(badPrefix.value))
    else if badIface.Some? then Err(BadInterface(badIface.value))
    else if !ValidRoutingTable(d.policyRoutingTable) then Err(BadTable)
    else if d.testTunStart < 0 then Err(NegativeStart)
    else if d.testTunStart > d.testTunEnd then Err(EmptyRange)
    else Cleared(d)
  }

  // ---- which configurations are accepted ---------------------------------------------

  /** Nothing the kernel rejects in an interface name. */
  predicate PlainName(name: string) {
    forall c <- name :: c != ' ' && c != '/' && c != ':' && c != '\t' && c != '\n'
  }

  /** The device is prefix number idx, however many leading zeros are printed. */
  ghost predicate IsNumber(prefix: string, device: string, idx: int) {
    exists digits: string ::
      digits != "" && AllDigits(digits) && device == prefix + digits && DigitsValue(digits) == idx
  }

  lemma ByteLengthAppend(s: string, t: string)
    ensures ByteLength(s + t) == ByteLength(s) + ByteLength(t)
  {
    if t == "" {
      assert s + t == s;
    } else {
      assert (s + t)[..|s + t| - 1] == s + t[..|t| - 1];
      ByteLengthAppend(s, t[..|t| - 1]);
    }
  }

  lemma ProbeIndexMeans(device: string, prefix: string, idx: int)
    requires prefix != "" && ByteLength(device) <= 15
    ensures ProbeIndex(device, prefix) == Some(idx) <==> IsNumber(prefix, device, idx)
  {
    if prefix <= device {
      var digits := device[|prefix|..];
      assert device == prefix + digits;
      ByteLengthIsLongest(device);
      if AllDigits(digits) {
        DigitsValueBound(digits);
        FifteenDigitsFit(|digits|);
      }
    }
    if IsNumber(prefix, device, idx) {
      var digits: string :|
        digits != "" && AllDigits(digits) && device == prefix + digits && DigitsValue(digits) == idx;
      assert device[|prefix|..] == digits;
    }
  }

  lemma PrefixAccepted(prefix: string)
    ensures ValidateDevicePrefix(prefix) == None <==> prefix != "" && PlainName(prefix) && ByteLength(prefix) <= 12
  {
    ByteLengthAppend(prefix, "000");
    assert ByteLength("000") == 3 by { ByteLengthIsLongest("000"); }
    NameAccepted(prefix + "000");
    assert PlainName(prefix + "000") <==> PlainName(prefix) by {
      forall c | c in "000" ensures c == '0' {}
      assert forall c :: c in prefix + "000" <==> c in prefix || c in "000";
    }
  }

  lemma NameAccepted(name: string)
    ensures ValidateDeviceName(name) == None <==>
      name != "" && PlainName(name) && ByteLength(name) <= 15 && name != "." && name != ".."
  {
    forall i | 0 <= i < |name|
      ensures name[i] in " /:\t\n" <==>
        name[i] == ' ' || name[i] == '/' || name[i] == ':' || name[i] == '\t' || name[i] == '\n'
    {
      assert " /:\t\n" == [' ', '/', ':', '\t', '\n'];
    }
    if forall i :: 0 <= i < |name| ==> name[i] !in " /:\t\n" {
      forall c | c in name ensures c != ' ' && c != '/' && c != ':' && c != '\t' && c != '\n' {
        var i :| 0 <= i < |name| && name[i] == c;
      }
    } else {
      var i :| 0 <= i < |name| && name[i] in " /:\t\n";
      assert name[i] in name;
    }
  }

  /** The active device is not in the probe range, or is the first of several. */
  ghost predicate Clear(p: string, d: string, start: int, end: int) {
    forall idx: int :: start <= idx <= end && IsNumber(p, d, idx) ==> idx == start < end
  }

  lemma ClearMeans(p: string, d: string, start: int, end: int)
    requires p != "" && ByteLength(d) <= 15
    ensures var idx := ProbeIndex(d, p);
      && (Clear(p, d, start, end) <==> (idx.Some? && start <= idx.value <= end ==> idx.value == start < end))
      && (IsNumber(p, d, start) <==> idx == Some(start))
  {
    forall idx: int ensures ProbeIndex(d, p) == Some(idx) <==> IsNumber(p, d, idx) { ProbeIndexMeans(d, p, idx); }
    var idx := ProbeIndex(d, p);
    if idx.Some? { assert IsNumber(p, d, idx.value); }
  }

  lemma FinalizedMeans(c: Config)
    ensures var w := WithDefaults(c); var idx := ProbeIndex(w.tunnelInterface, w.probeDevicePrefix);
      && (Finalized(c).Ok? <==>
            && ValidateDevicePrefix(w.probeDevicePrefix) == None && ValidateDeviceName(w.tunnelInterface) == None
            && ValidRoutingTable(w.policyRoutingTable) && 0 <= c.testTunStart <= c.testTunEnd
            && (idx.Some? && c.testTunStart <= idx.value <= c.testTunEnd ==>
                  idx.value == c.testTunStart < c.testTunEnd))
      && (Finalized(c).Ok? ==> Finalized(c) == Ok(w.(testTunStart :=
            if idx == Some(c.testTunStart) then c.testTunStart + 1 else c.testTunStart)))
  {}

  /** Start-up accepts exactly these configurations, after defaults: a prefix that leaves room for three digits, an
      interface name the kernel takes, a table it does not reserve, a range, and an active device that is not in the
      range, or is the first of several. What it resolves to is what was asked for, with the range moved past the
      active device. */
  lemma AcceptedExactly(c: Config)
    ensures var p := if c.probeDevicePrefix == "" then "fpx" else c.probeDevicePrefix;
      var d := if c.tunnelInterface == "" then "fpx" + "0" else c.tunnelInterface;
      var t := if c.policyRoutingTable == 0 then 9527 else c.policyRoutingTable;
      && (Finalized(c).Ok? <==>
            && PlainName(p) && ByteLength(p) <= 12
            && PlainName(d) && ByteLength(d) <= 15 && d != "." && d != ".."
            && t > 0 && t != 253 && t != 254 && t != 255 && 0 <= c.testTunStart <= c.testTunEnd
            && Clear(p, d, c.testTunStart, c.testTunEnd))
      && (Finalized(c).Ok? ==> Finalized(c) == Ok(Config(
            p, d, t, if IsNumber(p, d, c.testTunStart) then c.testTunStart + 1 else c.testTunStart, c.testTunEnd)))
  {
    assert Itoa(0) == "0";
    var w := WithDefaults(c);
    FinalizedMeans(c);
    PrefixAccepted(w.probeDevicePrefix);
    NameAccepted(w.tunnelInterface);
    if ByteLength(w.tunnelInterface) <= 15 {
      ClearMeans(w.probeDevicePrefix, w.tunnelInterface, c.testTunStart, c.testTunEnd);
    }
  }

  /** The shipped defaults lie in the project's own namespace, with the first probe device behind the active one. */
  lemma DefaultsArePrivate(end: int)
    requires end >= 1
    ensures Finalized(Config("", "", 0, 0, end)) == Ok(Config("fpx", "fpx" + "0", 9527, 1, end))
    ensures !HasDevicePrefix("fpx" + "0", "tun")
  {
    var c := Config("", "", 0, 0, end);
    AcceptedExactly(c);
    assert ByteLength("fpx") == 3 by { ByteLengthIsLongest("fpx"); }
    assert ByteLength("fpx" + "0") == 4 by { ByteLengthIsLongest("fpx" + "0"); }
    assert IsNumber("fpx", "fpx" + "0", 0) by { assert "fpx" + "0" == "fpx" + Itoa(0) && DigitsValue("0") == 0; }
    forall idx: int | IsNumber("fpx", "fpx" + "0", idx) ensures idx == 0 {
      var digits: string :|
        digits != "" && AllDigits(digits) && "fpx" + "0" == "fpx" + digits && DigitsValue(digits) == idx;
      assert digits == ("fpx" + digits)[3..] == ("fpx" + "0")[3..] == "0";
    }
    assert ("fpx" + "0")[0] == 'f';
  }

  function Power10(n: nat): nat { if n == 0 then 1 else 10 * Power10(n - 1) }

  lemma {:induction false} DigitsValueBound(s: string)
    requires AllDigits(s)
    ensures DigitsValue(s) < Power10(|s|)
  {
    if s != [] { DigitsValueBound(s[..|s| - 1]); }
  }

  lemma {:induction false} FifteenDigitsFit(n: nat)
    requires n <= 15
    ensures Power10(n) <= MAX_INT
    decreases 15 - n
  {
    assert Power10(3) == 1_000;
    assert Power10(6) == 1_000_000;
    assert Power10(9) == 1_000_000_000;
    assert Power10(12) == 1_000_000_000_000;
    assert Power10(15) == 1_000_000_000_000_000;
    if n < 15 { FifteenDigitsFit(n + 1); }
  }

  /** Printing then parsing a device name the kernel accepts gives its index back. */
  lemma ProbeIndexOfDeviceName(prefix: string, i: nat)
    requires prefix != "" && ByteLength(DeviceName(prefix, i)) <= MAX_DEVICE_NAME_LENGTH
    ensures ProbeIndex(DeviceName(prefix, i), prefix) == Some(i)
  {
    DeviceNameInPool(prefix, i);
    ByteLengthIsLongest(DeviceName(prefix, i));
    DigitsOfDecimal(i);
    DigitsValueBound(Itoa(i));
    FifteenDigitsFit(|Itoa(i)|);
    AtoiItoa(i);
  }

  /** After a successful start-up no index of the probe range names the active tunnel's device,
      and nothing the operator chose validly is dropped from the range beyond that one index. */
  lemma ProbeRangeAvoidsActiveDevice(c: Config)
    requires Finalized(c).Ok?
    ensures var f := Finalized(c).value;
      && 0 <= f.testTunStart <= f.testTunEnd
      && (forall i :: f.testTunStart <= i <= f.testTunEnd ==> DeviceName(f.probeDevicePrefix, i) != f.tunnelInterface)
      && (forall i :: c.testTunStart <= i <= c.testTunEnd && i < f.testTunStart ==>
            ProbeIndex(f.tunnelInterface, f.probeDevicePrefix) == Some(i))
  {
    FinalizedMeans(c);
    var f := Finalized(c).value;
    forall i | f.testTunStart <= i <= f.testTunEnd
      ensures DeviceName(f.probeDevicePrefix, i) == f.tunnelInterface ==>
        ProbeIndex(f.tunnelInterface, f.probeDevicePrefix) == Some(i)
    {
      if DeviceName(f.probeDevicePrefix, i) == f.tunnelInterface { ProbeIndexOfDeviceName(f.probeDevicePrefix, i); }
    }
  }

  /** Start-up does not compare the probe range with the multi-port pool's devices
      (prefix, base .. base+ports-1). The two families share no name exactly when the index ranges are disjoint. */
  lemma ProbeAndPoolDevicesDisjoint(f: Config, base: int, ports: nat)
    ensures (forall i, j :: f.testTunStart <= i <= f.testTunEnd && base <= j < base + ports
               ==> DeviceName(f.probeDevicePrefix, i) != DeviceName(f.probeDevicePrefix, j))
       <==> (f.testTunStart > f.testTunEnd || ports == 0 || f.testTunEnd < base || base + ports <= f.testTunStart)
  {
    var p := f.probeDevicePrefix;
    forall i, j ensures DeviceName(p, i) == DeviceName(p, j) <==> i == j { DeviceNameInjective(p, i, j); }
    if !(f.testTunStart > f.testTunEnd || ports == 0 || f.testTunEnd < base || base + ports <= f.testTunStart) {
      var k := if f.testTunStart < base then base else f.testTunStart;
      assert DeviceName(p, k) == DeviceName(p, k);
    }
  }
}

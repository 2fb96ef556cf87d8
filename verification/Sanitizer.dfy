/** The pool's clean-up of an OpenVPN configuration (internal/tunnel/pooldev.go). */
module Sanitizer {
  import opened Lists
  import Store
  import opened Text
  import opened VpnGateParser

  const FALLBACK_CIPHER: string := "cipher" + " " + "AES-256-CBC"
  const IGNORE_REDIRECT: string := "pull-filter" + " " + "ignore \"redirect-gateway\""
  const IGNORE_DHCP: string := "pull-filter" + " " + "ignore \"dhcp-option\""

  /** The first word of an active line; none on a comment or an empty line. */
  function Directive(line: string): Option<string> {
    var w := Words(line);
    if w == [] then None else Some(w[0])
  }

  predicate Removed(word: string) {
    word == "redirect-gateway" || word == "redirect-private" || word == "data-ciphers"
    || word == "data-ciphers-fallback"
  }

  predicate Keeps(line: string) { Directive(line).Some? ==> !Removed(Directive(line).value) }
  predicate SetsCipher(line: string) { Directive(line) == Some("cipher") }

  function IsKept(): string -> bool { (line: string) => Keeps(line) }

  function Appended(lines: seq<string>): seq<string> {
    (if HasCipher(lines) then [] else [FALLBACK_CIPHER]) + [IGNORE_REDIRECT, IGNORE_DHCP]
  }

  function IsCipher(): string -> bool { (line: string) => SetsCipher(line) }
  predicate HasCipher(lines: seq<string>) { Filter(lines, IsCipher()) != [] }

  function Sanitized(text: string): string {
    Join(Filter(Split(text), IsKept()) + Appended(Split(text)))
  }

  /** sanitizePoolConfig's decision on one line. */
  method Judge(line: string) returns (keep: bool, cipher: bool)
    ensures keep == Keeps(line) && cipher == SetsCipher(line)
  {
    var t := TrimSpace(line);
    if Inactive(t) { return true, false; }
    var fields := Fields(t);
    if |fields| == 0 { return true, false; }
    keep, cipher := !Removed(fields[0]), fields[0] == "cipher";
  }

  method SanitizePoolConfig(text: string) returns (sanitized: string)
    ensures sanitized == Sanitized(text)
  {
    var lines := Split(text);
    var out, hasCipher := KeptLines(lines);
    if !hasCipher { out := out + [FALLBACK_CIPHER]; }
    out := out + [IGNORE_REDIRECT];
    out := out + [IGNORE_DHCP];
    assert out == Filter(lines, IsKept()) + Appended(lines);
    sanitized := Join(out);
  }

  method KeptLines(lines: seq<string>) returns (out: seq<string>, hasCipher: bool)
    ensures out == Filter(lines, IsKept()) && hasCipher == HasCipher(lines)
  {
    out, hasCipher := [], false;
    for k := 0 to |lines|
      invariant out == Filter(lines[..k], IsKept()) && hasCipher == HasCipher(lines[..k])
    {
      FilterStep(lines, k, IsKept());
      FilterStep(lines, k, IsCipher());
      var keep, cipher := Judge(lines[k]);
      if cipher { hasCipher := true; }
      if !keep { continue; }
      out := out + [lines[k]];
    }
    assert lines[..|lines|] == lines;
  }

  // ---- the appended lines ---------------------------------------------------------------------

  lemma FirstWord(word: string, rest: string)
    requires IsToken(word) && word[0] != '#' && word[0] != ';'
    ensures Directive(word + " " + rest) == Some(word)
  {
    FirstField(word, rest);
  }

  lemma CipherLine()
    ensures Directive(FALLBACK_CIPHER) == Some("cipher")
  {
    FirstWord("cipher", "AES-256-CBC");
  }

  lemma RedirectLine()
    ensures Directive(IGNORE_REDIRECT) == Some("pull-filter")
  {
    FirstWord("pull-filter", "ignore \"redirect-gateway\"");
  }

  lemma DhcpLine()
    ensures Directive(IGNORE_DHCP) == Some("pull-filter")
  {
    FirstWord("pull-filter", "ignore \"dhcp-option\"");
  }

  lemma AppendedIsOneLine(line: string)
    requires IsAppended(line)
    ensures '\n' !in line
  {
    assert '\n' !in "cipher" && '\n' !in "AES-256-CBC" && '\n' !in "pull-filter" && '\n' !in " ";
    assert '\n' !in "ignore \"redirect-gateway\"" && '\n' !in "ignore \"dhcp-option\"";
  }

  predicate IsAppended(line: string) { line == FALLBACK_CIPHER || line == IGNORE_REDIRECT || line == IGNORE_DHCP }

  /** An appended directive is neither removed nor an endpoint. */
  lemma AppendedLine(line: string)
    requires IsAppended(line)
    ensures Directive(line).Some? && Keeps(line)
    ensures ToLower(Directive(line).value) != "proto" && ToLower(Directive(line).value) != "remote"
  {
    if line == FALLBACK_CIPHER {
      CipherLine();
      assert ToLower("cipher")[0] == 'c';
    } else {
      if line == IGNORE_REDIRECT { RedirectLine(); } else { DhcpLine(); }
      assert |ToLower("pull-filter")| == 11;
    }
  }

  // ---- what sanitising keeps ------------------------------------------------------------------

  /** Read back line by line: the lines that were kept, in order, and then the appended ones. */
  lemma SanitizedLines(text: string)
    ensures Split(Sanitized(text)) == Filter(Split(text), IsKept()) + Appended(Split(text))
  {
    var kept, added := Filter(Split(text), IsKept()), Appended(Split(text));
    forall line | line in kept + added ensures '\n' !in line {
      if line in kept { assert line in Split(text); } else { AppendedIsOneLine(line); }
    }
    SplitOfJoin(kept + added);
  }

  /** No active line of the result starts with a removed directive, and one sets a cipher. */
  lemma NothingRemovedRemains(text: string)
    ensures forall line <- Split(Sanitized(text)) :: Keeps(line)
    ensures HasCipher(Split(Sanitized(text)))
  {
    SanitizedLines(text);
    var lines, all := Split(text), Split(Sanitized(text));
    forall line | line in all ensures Keeps(line) {
      if line !in Filter(lines, IsKept()) { AppendedLine(line); }
    }
    var line := if HasCipher(lines) then Filter(lines, IsCipher())[0] else FALLBACK_CIPHER;
    if HasCipher(lines) {
      assert line in Filter(lines, IsCipher());
      assert line in Filter(lines, IsKept());
    } else {
      CipherLine();
      assert line in Appended(lines);
    }
    assert line in Filter(all, IsCipher());
  }

  /** The directives of a pool's configuration that would take over the host's routing or that older clients reject. */
  function Harmless(): string -> bool {
    (line: string) =>
      match Directive(line)
      case None => true
      case Some(word) =>
        word != "redirect-gateway" && word != "redirect-private"
        && word != "data-ciphers" && word != "data-ciphers-fallback"
  }

  /** Line by line: what is not one of those four, in order; a cipher unless there is one; and the two filters. */
  lemma SanitizedExactly(text: string)
    ensures Split(Sanitized(text)) == Filter(Split(text), Harmless())
      + CipherLines(Split(text))
      + ["pull-filter" + " " + "ignore \"redirect-gateway\"", "pull-filter" + " " + "ignore \"dhcp-option\""]
  {
    SanitizedLines(text);
    KeptAreHarmless(Split(text));
    AppendedMeans(Split(text));
    Regroup(Filter(Split(text), Harmless()), CipherLines(Split(text)),
            ["pull-filter" + " " + "ignore \"redirect-gateway\"", "pull-filter" + " " + "ignore \"dhcp-option\""]);
  }

  lemma Regroup<T>(a: seq<T>, b: seq<T>, c: seq<T>)
    ensures a + (b + c) == a + b + c
  {}

  /** The cipher that is appended. */
  ghost function CipherLines(lines: seq<string>): seq<string> {
    if exists line <- lines :: Directive(line) == Some("cipher") then [] else ["cipher" + " " + "AES-256-CBC"]
  }

  lemma KeptAreHarmless(lines: seq<string>)
    ensures Filter(lines, IsKept()) == Filter(lines, Harmless())
  {
    forall line | line in lines ensures IsKept()(line) == Harmless()(line) { KeepsMeans(line); }
    FilterSame(lines, IsKept(), Harmless());
  }

  lemma KeepsMeans(line: string)
    ensures Keeps(line) == Harmless()(line)
  {}

  lemma AppendedMeans(lines: seq<string>)
    ensures Appended(lines) ==
      CipherLines(lines)
      + ["pull-filter" + " " + "ignore \"redirect-gateway\"", "pull-filter" + " " + "ignore \"dhcp-option\""]
  {
    CipherMeans(lines);
  }

  lemma CipherMeans(lines: seq<string>)
    ensures HasCipher(lines) <==> exists line <- lines :: Directive(line) == Some("cipher")
  {
    if line :| line in lines && SetsCipher(line) {
      assert line in Filter(lines, IsCipher());
    } else {
      FilterNone(lines, IsCipher());
    }
  }

  /** The directive of a line is its first word, wherever the line starts; a comment has none. */
  lemma DirectiveMeans(word: string, rest: string)
    requires IsToken(word)
    ensures Directive(word + " " + rest) == if word[0] == '#' || word[0] == ';' then None else Some(word)
    ensures forall line: string, c: char :: IsSpace(c) ==> Directive([c] + line) == Directive(line)
  {
    FirstField(word, rest);
    forall line: string, c: char | IsSpace(c) ensures Directive([c] + line) == Directive(line) {
      assert ([c] + line)[1..] == line;
    }
  }

  lemma OtherDirective(line: string)
    requires Directive(line).Some? && ToLower(Directive(line).value) != "proto"
      && ToLower(Directive(line).value) != "remote"
    ensures Neutral(ReadLine, line)
  {
    forall r ensures ReadLine(r, line) == r { LineEffect(r, line); }
  }

  lemma RemovedIsNeutral(line: string)
    requires !Keeps(line)
    ensures Neutral(ReadLine, line)
  {
    var word := Directive(line).value;
    assert |ToLower(word)| == |word| > 6;
    OtherDirective(line);
  }

  lemma AppendedAreNeutral(lines: seq<string>)
    ensures forall line <- Appended(lines) :: Neutral(ReadLine, line)
  {
    forall line | line in Appended(lines) ensures Neutral(ReadLine, line) {
      AppendedLine(line);
      OtherDirective(line);
    }
  }

  /** Sanitising never changes where a configuration connects. */
  lemma SanitizingKeepsRemote(text: string, fallbackHost: string)
    ensures RemoteOf(Sanitized(text), fallbackHost) == RemoteOf(text, fallbackHost)
  {
    var lines, start := Split(text), Remote(fallbackHost, 0, Store.Unknown);
    SanitizedLines(text);
    AppendedAreNeutral(lines);
    FoldNeutral(ReadLine, start, Filter(lines, IsKept()), Appended(lines));
    forall line | line in lines && !IsKept()(line) ensures Neutral(ReadLine, line) { RemovedIsNeutral(line); }
    FoldFilter(ReadLine, start, lines, IsKept());
  }
}

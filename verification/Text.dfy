/** The string operations every text-facing component shares: white space, fields, lines,
    decimal numbers. Strings are sequences of Unicode characters. */
module Text {

  datatype Option<+T> = None | Some(value: T) {
    function GetOr(default: T): T { if Some? then value else default }
  }

  // ---- white space -----------------------------------------------------------------

  /** unicode.IsSpace, which TrimSpace and Fields both use. */
  predicate IsSpace(c: char) {
    || '\t' <= c <= '\r' || c == ' ' || c == '\U{85}' || c == '\U{A0}' || c == '\U{1680}'
    || '\U{2000}' <= c <= '\U{200A}' || c == '\U{2028}' || c == '\U{2029}' || c == '\U{202F}'
    || c == '\U{205F}' || c == '\U{3000}'
  }

  predicate IsToken(s: string) {
    s != [] && forall i :: 0 <= i < |s| ==> !IsSpace(s[i])
  }

  // ---- length in bytes -------------------------------------------------------------

  /** The length of a character in UTF-8. */
  function CharBytes(c: char): nat {
    if c < '\U{80}' then 1 else if c < '\U{800}' then 2 else if c < '\U{10000}' then 3 else 4
  }

  /** Go's len: strings are measured in bytes. */
  function ByteLength(s: string): nat { if s == [] then 0 else ByteLength(s[..|s| - 1]) + CharBytes(s[|s| - 1]) }

  lemma {:induction false} ByteLengthIsLongest(s: string)
    ensures ByteLength(s) >= |s|
    ensures ByteLength(s) == |s| <==> forall i :: 0 <= i < |s| ==> s[i] < '\U{80}'
  {
    if s != [] { ByteLengthIsLongest(s[..|s| - 1]); }
  }

  // ---- fields ----------------------------------------------------------------------

  function TrimLeft(s: string): (r: string)
    ensures |r| <= |s| && (r != [] ==> !IsSpace(r[0]))
  {
    if s != [] && IsSpace(s[0]) then TrimLeft(s[1..]) else s
  }

  function TrimRight(s: string): (r: string)
    ensures r <= s && (r != [] ==> !IsSpace(r[|r| - 1]))
    ensures forall i :: |r| <= i < |s| ==> IsSpace(s[i])
  {
    if s != [] && IsSpace(s[|s| - 1]) then TrimRight(s[..|s| - 1]) else s
  }

  function TrimSpace(s: string): string { TrimRight(TrimLeft(s)) }

  /** Length of the leading run of non-space characters. */
  function WordLength(s: string): (n: nat)
    ensures n <= |s| && (forall i :: 0 <= i < n ==> !IsSpace(s[i])) && (n < |s| ==> IsSpace(s[n]))
  {
    if s == [] || IsSpace(s[0]) then 0 else 1 + WordLength(s[1..])
  }

  lemma {:induction false} WordLengthIs(s: string, n: nat)
    requires n <= |s| && (n < |s| ==> IsSpace(s[n]))
    requires forall i :: 0 <= i < n ==> !IsSpace(s[i])
    ensures WordLength(s) == n
  {
    if n > 0 { WordLengthIs(s[1..], n - 1); }
  }

  function Fields(s: string): (r: seq<string>)
    ensures forall i :: 0 <= i < |r| ==> IsToken(r[i])
    decreases |s|
  {
    var t := TrimLeft(s);
    if t == [] then [] else
      var n := WordLength(t);
      [t[..n]] + Fields(t[n..])
  }

  /** A line that opens with a token followed by a space has that token as its first field. */
  lemma FirstField(word: string, rest: string)
    requires IsToken(word)
    ensures var t := TrimSpace(word + " " + rest);
            word <= t && Fields(t) != [] && Fields(t)[0] == word
  {
    var line := word + " " + rest;
    assert TrimLeft(line) == line;
    var t := TrimRight(line);
    assert !IsSpace(line[|word| - 1]);
    assert word <= t;
    assert TrimLeft(t) == t;
    WordLengthIs(t, |word|);
    assert t[..|word|] == word;
  }

  /** Tokens separated by single spaces. */
  function JoinTokens(ts: seq<string>): string {
    if ts == [] then "" else if |ts| == 1 then ts[0] else ts[0] + " " + JoinTokens(ts[1..])
  }

  lemma {:induction false} FieldsOfJoin(ts: seq<string>)
    requires forall i :: 0 <= i < |ts| ==> IsToken(ts[i])
    ensures Fields(JoinTokens(ts)) == ts
  {
    if ts != [] {
      var s := JoinTokens(ts);
      assert s[0] == ts[0][0] && TrimLeft(s) == s;
      var n := |ts[0]|;
      WordLengthIs(s, n);
      if |ts| == 1 {
        assert s[n..] == [] && s[..n] == ts[0];
        assert Fields(s[n..]) == [];
      } else {
        assert s[..n] == ts[0] && s[n..] == " " + JoinTokens(ts[1..]);
        FieldsOfJoin(ts[1..]);
        LeadingSpace(JoinTokens(ts[1..]));
      }
    }
  }

  lemma {:induction false} JoinEnds(ts: seq<string>)
    requires ts != [] && forall i :: 0 <= i < |ts| ==> IsToken(ts[i])
    ensures var s := JoinTokens(ts); s != [] && !IsSpace(s[0]) && !IsSpace(s[|s| - 1])
  {
    if |ts| > 1 {
      JoinEnds(ts[1..]);
      var s, rest := JoinTokens(ts), JoinTokens(ts[1..]);
      assert s[0] == ts[0][0] && s[|s| - 1] == rest[|rest| - 1];
    }
  }

  lemma TrimmedJoin(ts: seq<string>)
    requires ts != [] && forall i :: 0 <= i < |ts| ==> IsToken(ts[i])
    ensures TrimSpace(JoinTokens(ts)) == JoinTokens(ts)
  {
    JoinEnds(ts);
  }

  /** The ASCII white space: tab to carriage return, and the space. */
  lemma AsciiSpace(c: char)
    requires c < '\U{80}'
    ensures IsSpace(c) <==> c == ' ' || c == '\t' || c == '\n' || c == '\U{0B}' || c == '\U{0C}' || c == '\r'
  {}

  lemma LeadingSpace(s: string)
    ensures Fields(" " + s) == Fields(s)
  {
    assert (" " + s)[1..] == s;
    assert TrimLeft(" " + s) == TrimLeft(s);
  }

  // ---- lines -----------------------------------------------------------------------

  /** strings.Split(s, "\n"). */
  function Split(s: string): (r: seq<string>)
    ensures |r| > 0 && forall i :: 0 <= i < |r| ==> '\n' !in r[i]
  {
    if s == [] then [""]
    else
      var r := Split(s[1..]);
      if s[0] == '\n' then [""] + r else [[s[0]] + r[0]] + r[1..]
  }

  /** strings.Join(ls, "\n"). */
  function Join(ls: seq<string>): string {
    if ls == [] then "" else if |ls| == 1 then ls[0] else ls[0] + "\n" + Join(ls[1..])
  }

  lemma {:induction false} SplitFirst(a: string, rest: string)
    requires '\n' !in a
    ensures Split(a + "\n" + rest) == [a] + Split(rest)
  {
    var s := a + "\n" + rest;
    if a == [] {
      assert s[1..] == rest;
    } else {
      assert s[1..] == a[1..] + "\n" + rest;
      SplitFirst(a[1..], rest);
      assert [a[0]] + a[1..] == a;
    }
  }

  lemma {:induction false} SplitSingle(a: string)
    requires '\n' !in a
    ensures Split(a) == [a]
  {
    if a != [] { SplitSingle(a[1..]); assert [a[0]] + a[1..] == a; }
  }

  lemma {:induction false} SplitOfJoin(ls: seq<string>)
    requires ls != [] && forall i :: 0 <= i < |ls| ==> '\n' !in ls[i]
    ensures Split(Join(ls)) == ls
  {
    if |ls| == 1 {
      SplitSingle(ls[0]);
    } else {
      SplitOfJoin(ls[1..]);
      SplitFirst(ls[0], Join(ls[1..]));
    }
  }

  // ---- decimal numbers -------------------------------------------------------------

  predicate IsDigit(c: char) { '0' <= c <= '9' }

  predicate AllDigits(s: string) { forall i :: 0 <= i < |s| ==> IsDigit(s[i]) }

  function DigitValue(c: char): (d: nat)
    requires IsDigit(c)
    ensures d < 10
  { c as int - '0' as int }

  function DigitChar(d: nat): (c: char)
    requires d < 10
    ensures IsDigit(c) && DigitValue(c) == d
  { ('0' as int + d) as char }

  function DecimalNat(n: nat): (s: string)
    ensures s != [] && AllDigits(s)
  {
    if n < 10 then [DigitChar(n)] else DecimalNat(n / 10) + [DigitChar(n % 10)]
  }

  /** strconv.Itoa. */
  function Itoa(n: int): (s: string)
    ensures s != [] && (n >= 0 ==> AllDigits(s))
  { if n < 0 then "-" + DecimalNat(-n) else DecimalNat(n) }

  function DigitsValue(s: string): nat
    requires AllDigits(s)
  {
    if s == [] then 0 else 10 * DigitsValue(s[..|s| - 1]) + DigitValue(s[|s| - 1])
  }

  const MIN_INT: int := -0x8000_0000_0000_0000
  const MAX_INT: int := 0x7FFF_FFFF_FFFF_FFFF

  /** strconv.Atoi with a 64-bit int: None where it reports an error. */
  function Atoi(s: string): (r: Option<int>) {
    var signed := s != [] && (s[0] == '-' || s[0] == '+');
    var digits := if signed then s[1..] else s;
    if digits == [] || !AllDigits(digits) then None else
      var v: int := DigitsValue(digits);
      var n := if signed && s[0] == '-' then -v else v;
      if MIN_INT <= n <= MAX_INT then Some(n) else None
  }

  lemma {:induction false} DigitsOfDecimal(n: nat)
    ensures DigitsValue(DecimalNat(n)) == n
  {
    var s := DecimalNat(n);
    if n < 10 {
      assert s[..0] == [];
    } else {
      DigitsOfDecimal(n / 10);
      assert s[..|s| - 1] == DecimalNat(n / 10);
    }
  }

  lemma AtoiItoa(n: int)
    ensures Atoi(Itoa(n)) == if MIN_INT <= n <= MAX_INT then Some(n) else None
  {
    if n < 0 {
      DigitsOfDecimal(-n);
      assert Itoa(n)[1..] == DecimalNat(-n);
    } else {
      DigitsOfDecimal(n);
      assert !(Itoa(n)[0] == '-' || Itoa(n)[0] == '+') by { assert IsDigit(Itoa(n)[0]); }
    }
  }

  lemma ItoaSign(n: int)
    ensures if n >= 0 then IsDigit(Itoa(n)[0]) && DigitsValue(Itoa(n)) == n
      else Itoa(n)[0] == '-' && DigitsValue(Itoa(n)[1..]) == -n
  {
    if n >= 0 {
      DigitsOfDecimal(n);
    } else {
      DigitsOfDecimal(-n);
      assert Itoa(n)[1..] == DecimalNat(-n);
    }
  }

  lemma ItoaInjective(m: int, n: int)
    requires Itoa(m) == Itoa(n)
    ensures m == n
  {
    ItoaSign(m);
    ItoaSign(n);
  }

  // ---- comparison and case -----------------------------------------------------------

  /** Lower case on ASCII letters. No other character lower-cases to a letter of the words compared here. */
  function ToLower(s: string): (r: string)
    ensures |r| == |s| && forall i :: 0 <= i < |s| ==> r[i] == LowerChar(s[i])
  { seq(|s|, i requires 0 <= i < |s| => LowerChar(s[i])) }

  function LowerChar(c: char): char {
    if 'A' <= c <= 'Z' then (c as int + 32) as char else c
  }

  predicate Contains(s: string, sub: string) {
    exists i | 0 <= i <= |s| :: sub <= s[i..]
  }

  /** Lexicographic order, the order of Go strings. */
  predicate StringLess(a: string, b: string) {
    b != [] && (a == [] || a[0] < b[0] || (a[0] == b[0] && StringLess(a[1..], b[1..])))
  }

  lemma {:induction false} StringLessTotal(a: string, b: string)
    ensures (StringLess(a, b) && a != b && !StringLess(b, a))
         || (a == b && !StringLess(a, b))
         || (StringLess(b, a) && a != b && !StringLess(a, b))
  {
    if a != [] && b != [] && a[0] == b[0] {
      StringLessTotal(a[1..], b[1..]);
      assert a == [a[0]] + a[1..] && b == [b[0]] + b[1..];
    }
  }

  lemma {:induction false} StringLessTransitive(a: string, b: string, c: string)
    requires StringLess(a, b) && StringLess(b, c)
    ensures StringLess(a, c)
  {
    if a != [] && b != [] && c != [] && a[0] == b[0] == c[0] {
      StringLessTransitive(a[1..], b[1..], c[1..]);
    }
  }
}

/** Character-level helpers: the library calls the repository makes on byte ranges
    (std::find, std::search, isspace, std::stoi, decimal printing).
    A C `char` is a Dafny `char`; no definition here depends on the size of the alphabet. */
module Text {
  import opened Wrappers

  const CRLF: string := "\r\n"
  const NUL: char := '\0'

  /** std::find: the index of the first `c`, or |s| when there is none. */
  function Find(s: string, c: char): (i: nat)
    ensures i <= |s|
    ensures c !in s[..i]
    ensures i < |s| ==> s[i] == c
    ensures i < |s| <==> c in s
  {
    if s == [] || s[0] == c then 0
    else
      var i := 1 + Find(s[1..], c);
      assert s[..i] == [s[0]] + s[1..][..i - 1];
      i
  }

  /** The first occurrence is determined by its two defining facts. */
  lemma FindIs(s: string, c: char, i: nat)
    requires i <= |s| && c !in s[..i]
    requires i < |s| ==> s[i] == c
    ensures Find(s, c) == i
  {
    var j := Find(s, c);
    assert forall k :: 0 <= k < i ==> s[k] in s[..i];
    assert forall k :: 0 <= k < j ==> s[k] in s[..j];
  }

  ghost predicate CrlfAt(s: string, i: int) {
    0 <= i && i + 1 < |s| && s[i] == '\r' && s[i + 1] == '\n'
  }

  ghost predicate NoCRLF(s: string) {
    forall i :: !CrlfAt(s, i)
  }

  /** std::search for CRLF: the index of the first match, or |s| when there is none. */
  function SearchCRLF(s: string): (i: nat)
    ensures i <= |s|
    ensures i < |s| ==> CrlfAt(s, i)
    ensures forall j :: 0 <= j < i ==> !CrlfAt(s, j)
  {
    if |s| < 2 then |s|
    else if s[0] == '\r' && s[1] == '\n' then 0
    else
      var i := 1 + SearchCRLF(s[1..]);
      assert forall j :: 1 <= j ==> (CrlfAt(s, j) <==> CrlfAt(s[1..], j - 1));
      i
  }

  lemma SearchIs(s: string, i: nat)
    requires i <= |s|
    requires i < |s| ==> CrlfAt(s, i)
    requires forall j :: 0 <= j < i ==> !CrlfAt(s, j)
    ensures SearchCRLF(s) == i
  {
    var k := SearchCRLF(s);
    assert k < |s| ==> CrlfAt(s, k);
  }

  lemma SearchNone(s: string)
    ensures SearchCRLF(s) == |s| <==> NoCRLF(s)
  {
    if SearchCRLF(s) < |s| {
      assert CrlfAt(s, SearchCRLF(s));
    }
  }

  /** A match found in a prefix is the match of every extension. */
  lemma SearchExtend(s: string, t: string)
    requires SearchCRLF(s) < |s|
    ensures SearchCRLF(s + t) == SearchCRLF(s)
  {
    var i := SearchCRLF(s);
    assert CrlfAt(s, i);
    assert CrlfAt(s + t, i);
    forall j | 0 <= j < i ensures !CrlfAt(s + t, j) {
      assert !CrlfAt(s, j);
    }
    SearchIs(s + t, i);
  }

  /** The text up to and including the first CRLF determines the first match, whatever follows. */
  lemma CutLine(s: string, t: string)
    requires SearchCRLF(s) < |s|
    ensures SearchCRLF(s) + 2 <= |s| && s == s[..SearchCRLF(s)] + CRLF + s[SearchCRLF(s) + 2..]
    ensures NoCRLF(s[..SearchCRLF(s)])
    ensures var u := s[..SearchCRLF(s) + 2] + t;
      SearchCRLF(u) == SearchCRLF(s) && u[..SearchCRLF(s)] == s[..SearchCRLF(s)] && u[SearchCRLF(s) + 2..] == t
  {
    var i := SearchCRLF(s);
    assert CrlfAt(s, i);
    assert s[i..i + 2] == CRLF;
    forall j ensures !CrlfAt(s[..i], j) {
      assert 0 <= j < i ==> !CrlfAt(s, j);
    }
    assert s[..i + 2] + t == s[..i] + CRLF + t;
    SearchLine(s[..i], t);
  }

  /** A CRLF-free line followed by CRLF is found as that line. */
  lemma SearchLine(line: string, t: string)
    requires NoCRLF(line)
    ensures SearchCRLF(line + CRLF + t) == |line|
  {
    var s := line + CRLF + t;
    assert CrlfAt(s, |line|);
    forall j | 0 <= j < |line| ensures !CrlfAt(s, j) {
      assert !CrlfAt(line, j);
    }
    SearchIs(s, |line|);
  }

  lemma NoCRLFSlice(s: string, i: nat, j: nat)
    requires NoCRLF(s) && i <= j <= |s|
    ensures NoCRLF(s[i..j])
  {
    forall k ensures !CrlfAt(s[i..j], k) {
      assert !CrlfAt(s, i + k);
    }
  }

  /** Joining two CRLF-free pieces creates no CRLF unless one ends in CR and the next starts with LF. */
  lemma NoCRLFJoin(s: string, t: string)
    requires NoCRLF(s) && NoCRLF(t)
    requires s == [] || t == [] || s[|s| - 1] != '\r' || t[0] != '\n'
    ensures NoCRLF(s + t)
  {
    forall k ensures !CrlfAt(s + t, k) {
      assert !CrlfAt(s, k);
      assert !CrlfAt(t, k - |s|);
    }
  }

  /** isspace in the C locale. */
  predicate IsSpace(c: char) {
    c == ' ' || c == '\t' || c == '\n' || c == '\U{0B}' || c == '\U{0C}' || c == '\r'
  }

  function TrimLeft(s: string): string {
    if s != [] && IsSpace(s[0]) then TrimLeft(s[1..]) else s
  }

  function TrimRight(s: string): string {
    if s != [] && IsSpace(s[|s| - 1]) then TrimRight(s[..|s| - 1]) else s
  }

  function Trim(s: string): string {
    TrimRight(TrimLeft(s))
  }

  predicate Trimmed(s: string) {
    s == [] || (!IsSpace(s[0]) && !IsSpace(s[|s| - 1]))
  }

  /** Trimming strips white space only, and strips all of it at both ends. */
  lemma {:induction false} TrimSplits(s: string) returns (pre: string, post: string)
    ensures s == pre + Trim(s) + post
    ensures forall c :: c in pre + post ==> IsSpace(c)
    ensures Trimmed(Trim(s))
  {
    if s != [] && IsSpace(s[0]) {
      var p, q := TrimSplits(s[1..]);
      pre, post := [s[0]] + p, q;
      assert s == [s[0]] + s[1..];
    } else {
      pre := [];
      post := TrimRightSplits(s);
    }
  }

  lemma {:induction false} TrimRightSplits(s: string) returns (post: string)
    ensures s == TrimRight(s) + post
    ensures forall c :: c in post ==> IsSpace(c)
    ensures TrimRight(s) == [] || !IsSpace(TrimRight(s)[|TrimRight(s)| - 1])
  {
    if s != [] && IsSpace(s[|s| - 1]) {
      var q := TrimRightSplits(s[..|s| - 1]);
      post := q + [s[|s| - 1]];
      assert s == s[..|s| - 1] + [s[|s| - 1]];
    } else {
      post := [];
    }
  }

  /** What trimming leaves, for any white space around a trimmed text. */
  lemma TrimIs(pre: string, s: string, post: string)
    requires AllSpace(pre) && AllSpace(post) && Trimmed(s)
    ensures Trim(pre + s + post) == s
  {
    if s == [] {
      assert AllSpace(pre + s + post);
      TrimLeftIs(pre + s + post, []);
      assert pre + s + post + [] == pre + s + post;
    } else {
      assert pre + s + post == pre + (s + post);
      TrimLeftIs(pre, s + post);
      TrimRightIs(s, post);
    }
  }

  lemma {:induction false} TrimRightIs(s: string, post: string)
    requires AllSpace(post) && s != [] && !IsSpace(s[|s| - 1])
    ensures TrimRight(s + post) == s
    decreases |post|
  {
    if post == [] {
      assert s + post == s;
    } else {
      assert (s + post)[..|s + post| - 1] == s + post[..|post| - 1];
      TrimRightIs(s, post[..|post| - 1]);
    }
  }

  // ---- decimal numbers ----

  predicate IsDigit(c: char) {
    '0' as int <= c as int <= '9' as int
  }

  predicate AllDigits(s: string) { forall i :: 0 <= i < |s| ==> IsDigit(s[i]) }

  function DigitsPrefix(s: string): (d: string)
    ensures d <= s
    ensures AllDigits(d)
  {
    if s != [] && IsDigit(s[0]) then [s[0]] + DigitsPrefix(s[1..]) else []
  }

  function DigitsValue(d: string): nat
    requires AllDigits(d)
  {
    if d == [] then 0
    else 10 * DigitsValue(d[..|d| - 1]) + (d[|d| - 1] as int - '0' as int)
  }

  const INT_MAX: int := 0x7fff_ffff
  const INT_MIN: int := -0x8000_0000

  function SignOf(t: string): (sign: string)
    ensures sign <= t
  {
    if t != [] && (t[0] == '-' || t[0] == '+') then t[..1] else ""
  }

  /** What strtol reads, unbounded: leading white space, an optional sign, digits; what follows is ignored.
      None when there are no digits. */
  function ReadInt(s: string): Option<int> {
    var t := TrimLeft(s);
    var d := DigitsPrefix(t[|SignOf(t)|..]);
    if d == [] then None
    else Some(if SignOf(t) == "-" then 0 - DigitsValue(d) else DigitsValue(d))
  }

  /** std::stoi. None is an exception (invalid_argument or out_of_range). */
  function Stoi(s: string): Option<int> {
    var v := ReadInt(s);
    if v.Some? && INT_MIN <= v.value <= INT_MAX then v else None
  }

  predicate AllSpace(s: string) { forall i :: 0 <= i < |s| ==> IsSpace(s[i]) }

  /** The text of an integer as strtol reads it: white space, a sign, digits, and something that is no digit. */
  ghost predicate Numeral(s: string, pre: string, sign: string, d: string, rest: string) {
    && s == pre + sign + d + rest
    && AllSpace(pre) && (sign == "" || sign == "+" || sign == "-") && AllDigits(d)
    && (rest == [] || !IsDigit(rest[0]))
  }

  lemma {:induction false} TrimLeftIs(pre: string, t: string)
    requires AllSpace(pre) && (t == [] || !IsSpace(t[0]))
    ensures TrimLeft(pre + t) == t
    decreases |pre|
  {
    if pre == [] {
      assert pre + t == t;
    } else {
      assert (pre + t)[1..] == pre[1..] + t;
      TrimLeftIs(pre[1..], t);
    }
  }

  lemma {:induction false} DigitsPrefixIs(d: string, rest: string)
    requires AllDigits(d) && (rest == [] || !IsDigit(rest[0]))
    ensures DigitsPrefix(d + rest) == d
    decreases |d|
  {
    if d == [] {
      assert d + rest == rest;
    } else {
      assert (d + rest)[1..] == d[1..] + rest;
      DigitsPrefixIs(d[1..], rest);
    }
  }

  /** The sign and the digits in front of a text. */
  lemma SignedDigits(sign: string, d: string, rest: string)
    requires (sign == "" || sign == "+" || sign == "-") && AllDigits(d) && d != [] && (rest == [] || !IsDigit(rest[0]))
    ensures var t := sign + d + rest;
      t != [] && !IsSpace(t[0]) && SignOf(t) == sign && DigitsPrefix(t[|sign|..]) == d
  {
    var t := sign + d + rest;
    assert t[|sign|..] == d + rest;
    DigitsPrefixIs(d, rest);
    assert t[|sign|] == d[0] && IsDigit(d[0]);
    assert sign != "" ==> t[..1] == sign;
  }

  /** The value of a numeral is that of its digits, negated by '-'. */
  lemma ReadIntIs(s: string, pre: string, sign: string, d: string, rest: string)
    requires Numeral(s, pre, sign, d, rest) && d != []
    ensures ReadInt(s) == Some(if sign == "-" then 0 - DigitsValue(d) else DigitsValue(d))
  {
    var t := sign + d + rest;
    assert s == pre + t;
    SignedDigits(sign, d, rest);
    TrimLeftIs(pre, t);
    hide TrimLeft, DigitsPrefix, DigitsValue, SignOf;
  }

  /** A text that is read as an integer is a numeral. */
  lemma NumeralOf(s: string) returns (pre: string, sign: string, d: string, rest: string)
    requires ReadInt(s).Some?
    ensures Numeral(s, pre, sign, d, rest) && d != []
  {
    var t := TrimLeft(s);
    pre := LeadingSpace(s);
    sign := SignOf(t);
    assert sign == "" || sign == "+" || sign == "-";
    d, rest := SplitDigits(t[|sign|..]);
    hide TrimLeft, DigitsPrefix, DigitsValue, SignOf, AllSpace, AllDigits;
    assert t == sign + t[|sign|..];
    Joined(s, pre, sign, d, rest);
  }

  lemma Joined(s: string, a: string, b: string, c: string, d: string)
    requires s == a + (b + (c + d))
    ensures s == a + b + c + d
  {
  }

  lemma SplitDigits(u: string) returns (d: string, rest: string)
    ensures d == DigitsPrefix(u) && u == d + rest && AllDigits(d) && (rest == [] || !IsDigit(rest[0]))
  {
    d := DigitsPrefix(u);
    rest := u[|d|..];
    DigitsMaximal(u);
  }

  lemma {:induction false} LeadingSpace(s: string) returns (pre: string)
    ensures s == pre + TrimLeft(s) && AllSpace(pre)
  {
    if s != [] && IsSpace(s[0]) {
      var p := LeadingSpace(s[1..]);
      pre := [s[0]] + p;
      assert s == [s[0]] + s[1..];
    } else {
      pre := [];
    }
  }

  lemma {:induction false} DigitsMaximal(s: string)
    ensures var d := DigitsPrefix(s); |d| == |s| || !IsDigit(s[|d|])
  {
    if s != [] && IsDigit(s[0]) {
      DigitsMaximal(s[1..]);
    }
  }

  /** stoi, exactly: it returns v if and only if the text is a numeral with digits whose value v is an int. */
  lemma StoiExact(s: string, v: int)
    ensures Stoi(s) == Some(v) <==>
      INT_MIN <= v <= INT_MAX
      && exists pre: string, sign: string, d: string, rest: string ::
           Numeral(s, pre, sign, d, rest) && d != [] && HasValue(sign, d, v)
  {
    if Stoi(s) == Some(v) {
      var pre, sign, d, rest := NumeralOf(s);
      ReadIntIs(s, pre, sign, d, rest);
    }
    if pre: string, sign: string, d: string, rest: string :| Numeral(s, pre, sign, d, rest) && d != [] && HasValue(sign, d, v) {
      ReadIntIs(s, pre, sign, d, rest);
    }
  }

  ghost predicate HasValue(sign: string, d: string, v: int) {
    AllDigits(d) && v == if sign == "-" then 0 - DigitsValue(d) else DigitsValue(d)
  }

  /** printf("%d") of a non-negative number. */
  function Decimal(n: nat): (s: string)
    ensures s != [] && AllDigits(s)
  {
    if n < 10 then [('0' as int + n) as char]
    else Decimal(n / 10) + [('0' as int + n % 10) as char]
  }

  lemma {:induction false} DecimalValue(n: nat)
    ensures DigitsValue(Decimal(n)) == n
  {
    if n < 10 {
      assert Decimal(n)[..0] == [];
    } else {
      DecimalValue(n / 10);
      assert Decimal(n)[..|Decimal(n)| - 1] == Decimal(n / 10);
    }
  }

  lemma {:induction false} DigitsPrefixAll(d: string)
    requires AllDigits(d)
    ensures DigitsPrefix(d) == d
  {
    if d != [] {
      DigitsPrefixAll(d[1..]);
    }
  }

  /** Printing a length and reading it back with stoi is the identity up to INT_MAX. */
  lemma StoiDecimal(n: nat)
    ensures Stoi(Decimal(n)) == if n <= INT_MAX then Some(n) else None
  {
    var s := Decimal(n);
    assert TrimLeft(s) == s;
    DigitsPrefixAll(s);
    DecimalValue(n);
  }

  function Pow10(k: nat): nat {
    if k == 0 then 1 else 10 * Pow10(k - 1)
  }

  lemma {:induction false} DecimalLength(n: nat, k: nat)
    requires 0 < k && n < Pow10(k)
    ensures |Decimal(n)| <= k
  {
    if n >= 10 {
      DecimalLength(n / 10, k - 1);
    }
  }

  lemma DecimalTrimmed(n: nat)
    ensures Trimmed(Decimal(n)) && NoCRLF(Decimal(n))
  {
    var s := Decimal(n);
    forall i ensures !CrlfAt(s, i) {
    }
  }
}

/** The ordering of client versions (src/CVersion.cxx). */
module Version {
  import opened Framing

  /** The characters of a C string, without the terminator. */
  ghost predicate CString(s: string) {
    forall i :: 0 <= i < |s| ==> 0 < s[i] as int < 0x100
  }

  // ---- strtoul() with base ten ----

  const ULONG_MAX: nat := 0xffff_ffff_ffff_ffff

  predicate IsSpace(c: char) {
    c == ' ' || 9 <= c as int <= 13
  }

  predicate IsDigit(c: char) {
    '0' <= c <= '9'
  }

  function SkipSpaces(s: string): (n: nat)
    ensures n <= |s|
  {
    if s != "" && IsSpace(s[0]) then 1 + SkipSpaces(s[1..]) else 0
  }

  function CountDigits(s: string): (n: nat)
    ensures n <= |s| && forall i :: 0 <= i < n ==> IsDigit(s[i])
  {
    if s != "" && IsDigit(s[0]) then 1 + CountDigits(s[1..]) else 0
  }

  function DigitValue(c: char): nat {
    if IsDigit(c) then c as int - '0' as int else 0
  }

  function DigitsValue(s: string): nat {
    if s == "" then 0 else DigitsValue(s[..|s| - 1]) * 10 + DigitValue(s[|s| - 1])
  }

  /** A number at the start of a string, and how many characters were used. */
  datatype Number = Number(value: nat, used: nat)

  /** A value that is out of range becomes the largest one; a minus sign negates
      modulo 2^64; without a digit nothing is used. */
  function Strtoul(s: string): (r: Number)
    ensures r.used <= |s|
  {
    var spaces := SkipSpaces(s);
    var signed := spaces < |s| && (s[spaces] == '-' || s[spaces] == '+');
    var start := if signed then spaces + 1 else spaces;
    var n := CountDigits(s[start..]);
    if n == 0 then Number(0, 0)
    else Number(Converted(DigitsValue(s[start..start + n]), signed && s[spaces] == '-'), start + n)
  }

  function Converted(value: nat, negative: bool): nat {
    if value > ULONG_MAX then ULONG_MAX else if negative && value > 0 then ULONG_MAX + 1 - value else value
  }

  // ---- Tokens ----

  /** A number with the character behind it, as a signed char; zero stands for
      the end of the string. */
  datatype Token = Token(value: nat, delimiter: int)

  function SignedChar(c: char): int {
    if c as int < 0x80 then c as int else c as int - 0x100
  }

  function Delimiter(s: string, i: nat): int
    requires i <= |s|
  {
    if i == |s| then 0 else SignedChar(s[i])
  }

  /** A function that reads a number, such as strtoul(). What follows holds for
      every one. */
  type Scanner = f: string -> Number | forall s: string :: f(s).used <= |s| witness (s => Number(0, 0))

  function Tokens(scan: Scanner, s: string): (ts: seq<Token>)
    decreases |s|
  {
    var n := scan(s);
    [Token(n.value, Delimiter(s, n.used))] + if n.used == |s| then [] else Tokens(scan, s[n.used + 1..])
  }

  predicate Less(x: Token, y: Token) {
    x.value < y.value || (x.value == y.value && x.delimiter < y.delimiter)
  }

  /** The lexicographic order: at the first difference, x is less. */
  ghost predicate Precedes(x: seq<Token>, y: seq<Token>) {
    exists k :: 0 <= k < |x| && k < |y| && x[..k] == y[..k] && Less(x[k], y[k])
  }

  /** Only the last token ends the string. */
  ghost predicate Terminated(ts: seq<Token>) {
    ts != [] && ts[|ts| - 1].delimiter == 0 && forall i :: 0 <= i < |ts| - 1 ==> ts[i].delimiter != 0
  }

  lemma {:induction false} TokensTerminated(scan: Scanner, s: string)
    requires CString(s)
    ensures Terminated(Tokens(scan, s))
    decreases |s|
  {
    var n := scan(s);
    if n.used < |s| {
      TokensTerminated(scan, s[n.used + 1..]);
    }
  }

  lemma PrecedesIrreflexive(x: seq<Token>)
    ensures !Precedes(x, x)
  {
  }

  lemma PrecedesTransitive(x: seq<Token>, y: seq<Token>, z: seq<Token>)
    requires Precedes(x, y) && Precedes(y, z)
    ensures Precedes(x, z)
  {
    var j :| 0 <= j < |x| && j < |y| && x[..j] == y[..j] && Less(x[j], y[j]);
    var k :| 0 <= k < |y| && k < |z| && y[..k] == z[..k] && Less(y[k], z[k]);
    var m := if j < k then j else k;
    assert x[..m] == y[..j][..m] == y[..m] == y[..k][..m] == z[..m];
    assert j < k ==> y[..k][j] == z[..k][j];
    assert k < j ==> x[..j][k] == y[..j][k];
    assert Less(x[m], z[m]);
  }

  lemma PrecedesLonger(t: Token, x: seq<Token>, y: seq<Token>)
    requires Precedes(x, y)
    ensures Precedes([t] + x, [t] + y)
  {
    var k :| 0 <= k < |x| && k < |y| && x[..k] == y[..k] && Less(x[k], y[k]);
    var a, b := [t] + x, [t] + y;
    assert a[..k + 1] == [t] + x[..k] && b[..k + 1] == [t] + y[..k];
    assert Less(a[k + 1], b[k + 1]);
  }

  lemma FrontOfCons(t: Token, x: seq<Token>, k: nat)
    requires 0 < k <= |x| + 1
    ensures ([t] + x)[..k][1..] == x[..k - 1]
  {
  }

  lemma PrecedesShorter(t: Token, x: seq<Token>, y: seq<Token>)
    requires Precedes([t] + x, [t] + y)
    ensures Precedes(x, y)
  {
    var a, b := [t] + x, [t] + y;
    var k :| 0 <= k < |a| && k < |b| && a[..k] == b[..k] && Less(a[k], b[k]);
    assert k > 0;
    FrontOfCons(t, x, k);
    FrontOfCons(t, y, k);
    assert Less(x[k - 1], y[k - 1]);
  }

  lemma PrecedesCons(t: Token, x: seq<Token>, y: seq<Token>)
    ensures Precedes([t] + x, [t] + y) <==> Precedes(x, y)
  {
    if Precedes(x, y) {
      PrecedesLonger(t, x, y);
    } else if Precedes([t] + x, [t] + y) {
      PrecedesShorter(t, x, y);
    }
  }

  lemma PrecedesFirst(x: seq<Token>, y: seq<Token>)
    requires x != [] && y != [] && x[0] != y[0]
    ensures Precedes(x, y) <==> Less(x[0], y[0])
  {
    if Less(x[0], y[0]) {
      assert x[..0] == y[..0];
    }
    if Precedes(x, y) {
      var k :| 0 <= k < |x| && k < |y| && x[..k] == y[..k] && Less(x[k], y[k]);
    }
  }

  /** No list of tokens continues another one, so one of two different ones comes
      first. */
  lemma {:induction false} Trichotomy(x: seq<Token>, y: seq<Token>)
    requires Terminated(x) && Terminated(y)
    ensures x == y || Precedes(x, y) || Precedes(y, x)
    ensures !(Precedes(x, y) && Precedes(y, x))
  {
    if x[0] != y[0] {
      PrecedesFirst(x, y);
      PrecedesFirst(y, x);
    } else if |x| > 1 && |y| > 1 {
      Trichotomy(x[1..], y[1..]);
      assert x == [x[0]] + x[1..] && y == [x[0]] + y[1..];
      PrecedesCons(x[0], x[1..], y[1..]);
      PrecedesCons(x[0], y[1..], x[1..]);
    } else {
      assert |x| == 1 && |y| == 1;
      PrecedesIrreflexive(x);
    }
  }

  // ---- The comparison ----

  /** Less than, equal to or greater than zero. */
  function TokenOrder(x: seq<Token>, y: seq<Token>): int {
    if x == [] || y == [] then 0
    else if Less(x[0], y[0]) then -1
    else if Less(y[0], x[0]) then 1
    else TokenOrder(x[1..], y[1..])
  }

  /** This is the lexicographic order. */
  lemma {:induction false} TokenOrderIs(x: seq<Token>, y: seq<Token>)
    requires Terminated(x) && Terminated(y)
    ensures TokenOrder(x, y) == if x == y then 0 else if Precedes(x, y) then -1 else 1
  {
    if x[0] != y[0] {
      PrecedesFirst(x, y);
    } else if |x| > 1 && |y| > 1 {
      TokenOrderIs(x[1..], y[1..]);
      assert x == [x[0]] + x[1..] && y == [x[0]] + y[1..];
      PrecedesCons(x[0], x[1..], y[1..]);
    } else {
      assert |x| == 1 && |y| == 1;
    }
  }

  ghost function Order(scan: Scanner, a: string, b: string): int {
    TokenOrder(Tokens(scan, a), Tokens(scan, b))
  }

  lemma OrderFirst(x: seq<Token>, y: seq<Token>)
    requires Terminated(x) && Terminated(y)
    ensures Less(x[0], y[0]) ==> TokenOrder(x, y) == -1
    ensures Less(y[0], x[0]) ==> TokenOrder(x, y) == 1
    ensures x[0] == y[0] && x[0].delimiter == 0 ==> TokenOrder(x, y) == 0
    ensures x[0] == y[0] && x[0].delimiter != 0 ==> TokenOrder(x, y) == TokenOrder(x[1..], y[1..])
  {
    if x[0] == y[0] && x[0].delimiter == 0 {
      assert |x| == 1;
    }
  }

  lemma TokensParts(scan: Scanner, s: string, first: Token, rest: seq<Token>)
    requires Tokens(scan, s) == [first] + rest
    ensures Tokens(scan, s)[0] == first && Tokens(scan, s)[1..] == rest
  {
  }

  lemma DelimiterIsZero(s: string, i: nat)
    requires CString(s) && i <= |s|
    ensures Delimiter(s, i) == 0 <==> i == |s|
  {
  }

  /** Reads the first token of a string. */
  method ParseNumber(scan: Scanner, s: string) returns (n: Number)
    requires CString(s)
    ensures n.used <= |s| && Terminated(Tokens(scan, s))
    ensures Tokens(scan, s)[0] == Token(n.value, Delimiter(s, n.used)) && (Delimiter(s, n.used) == 0 <==> n.used == |s|)
    ensures Tokens(scan, s)[1..] == if n.used == |s| then [] else Tokens(scan, s[n.used + 1..])
  {
    TokensTerminated(scan, s);
    n := scan(s);
    DelimiterIsZero(s, n.used);
    TokensParts(scan, s, Token(n.value, Delimiter(s, n.used)), if n.used == |s| then [] else Tokens(scan, s[n.used + 1..]));
  }

  /** One round of the comparison: it is decided, or the rest decides. */
  method CompareFirst(scan: Scanner, a: string, b: string) returns (done: bool, r: int, a': string, b': string)
    requires CString(a) && CString(b)
    ensures done ==> r == Order(scan, a, b)
    ensures !done ==> CString(a') && CString(b') && Order(scan, a, b) == Order(scan, a', b') && |a'| < |a|
  {
    var m := ParseNumber(scan, a);
    var n := ParseNumber(scan, b);
    OrderFirst(Tokens(scan, a), Tokens(scan, b));
    var c, d := Delimiter(a, m.used), Delimiter(b, n.used);
    if m.value < n.value || (m.value == n.value && c < d) {
      return true, -1, a, b;
    }
    if m.value > n.value || c > d {
      return true, 1, a, b;
    }
    if c == 0 {
      return true, 0, a, b;
    }
    return false, 0, a[m.used + 1..], b[n.used + 1..];
  }

  /** The program's comparison computes the lexicographic order of the tokens. */
  method ClientVersionCompare(scan: Scanner, a: string, b: string) returns (r: int)
    requires CString(a) && CString(b)
    ensures r == Order(scan, a, b)
  {
    var a', b' := a, b;
    while true
      invariant CString(a') && CString(b') && Order(scan, a, b) == Order(scan, a', b')
      decreases |a'|
    {
      var done, order, restA, restB := CompareFirst(scan, a', b');
      if done {
        return order;
      }
      a', b' := restA, restB;
    }
  }

  lemma TokenOrderIsTotalPreorder(x: seq<Token>, y: seq<Token>, z: seq<Token>)
    requires Terminated(x) && Terminated(y) && Terminated(z)
    ensures TokenOrder(x, x) == 0 && TokenOrder(y, x) == -TokenOrder(x, y)
    ensures TokenOrder(x, y) <= 0 && TokenOrder(y, z) <= 0 ==> TokenOrder(x, z) <= 0
  {
    TokenOrderIs(x, x);
    TokenOrderIs(x, y);
    TokenOrderIs(y, x);
    TokenOrderIs(y, z);
    TokenOrderIs(x, z);
    Trichotomy(x, y);
    if Precedes(x, y) && Precedes(y, z) {
      PrecedesTransitive(x, y, z);
    }
  }

  /** A total preorder on all strings. */
  lemma OrderIsTotalPreorder(scan: Scanner, a: string, b: string, c: string)
    requires CString(a) && CString(b) && CString(c)
    ensures Order(scan, a, a) == 0 && Order(scan, b, a) == -Order(scan, a, b)
    ensures Order(scan, a, b) <= 0 && Order(scan, b, c) <= 0 ==> Order(scan, a, c) <= 0
  {
    TokensTerminated(scan, a);
    TokensTerminated(scan, b);
    TokensTerminated(scan, c);
    TokenOrderIsTotalPreorder(Tokens(scan, a), Tokens(scan, b), Tokens(scan, c));
  }

  // ---- The protocol version ----

  function Rank(p: ProtocolVersion): nat {
    match p
    case UNKNOWN => 0
    case V5 => 1
    case V6 => 2
    case V6_0_5 => 3
    case V6_0_14 => 4
    case V7 => 5
  }

  /** The first client version of each protocol but the unknown one. */
  datatype Firsts = Firsts(v5: string, v6: string, v6_0_5: string, v6_0_14: string, v7: string)
  {
    function Of(p: ProtocolVersion): string {
      match p
      case UNKNOWN => ""
      case V5 => v5
      case V6 => v6
      case V6_0_5 => v6_0_5
      case V6_0_14 => v6_0_14
      case V7 => v7
    }

    ghost predicate CStrings() {
      CString(v5) && CString(v6) && CString(v6_0_5) && CString(v6_0_14) && CString(v7)
    }
  }

  const FIRSTS: Firsts := Firsts("1", "6.0.1.7", "6.0.5", "6.0.14", "7")

  /** The version is not before the first one with this protocol. */
  ghost predicate Reaches(scan: Scanner, version: string, firsts: Firsts, p: ProtocolVersion) {
    p == UNKNOWN || Order(scan, version, firsts.Of(p)) >= 0
  }

  /** The highest protocol that the version reaches. */
  ghost predicate Determined(scan: Scanner, version: string, firsts: Firsts, p: ProtocolVersion) {
    Reaches(scan, version, firsts, p) && forall q :: Rank(q) > Rank(p) ==> !Reaches(scan, version, firsts, q)
  }

  ghost predicate AreReached(scan: Scanner, version: string, firsts: Firsts, reached: set<ProtocolVersion>) {
    forall q {:trigger Reaches(scan, version, firsts, q)} :: q in reached <==> Reaches(scan, version, firsts, q)
  }

  method CheckReached(scan: Scanner, version: string, firsts: Firsts, p: ProtocolVersion, ghost reached: set<ProtocolVersion>)
    returns (r: bool)
    requires CString(version) && firsts.CStrings() && AreReached(scan, version, firsts, reached) && p != UNKNOWN
    ensures r == (p in reached)
  {
    assert p in reached <==> Reaches(scan, version, firsts, p);
    var c := ClientVersionCompare(scan, version, firsts.Of(p));
    r := c >= 0;
  }

  method ChooseProtocol(scan: Scanner, version: string, firsts: Firsts, ghost reached: set<ProtocolVersion>)
    returns (p: ProtocolVersion)
    requires CString(version) && firsts.CStrings() && AreReached(scan, version, firsts, reached)
    ensures p == UNKNOWN || p in reached
    ensures forall q :: Rank(q) > Rank(p) ==> q !in reached
  {
    var r := CheckReached(scan, version, firsts, V7, reached);
    if r {
      return V7;
    }
    r := CheckReached(scan, version, firsts, V6_0_14, reached);
    if r {
      return V6_0_14;
    }
    r := CheckReached(scan, version, firsts, V6_0_5, reached);
    if r {
      return V6_0_5;
    }
    r := CheckReached(scan, version, firsts, V6, reached);
    if r {
      return V6;
    }
    r := CheckReached(scan, version, firsts, V5, reached);
    if r {
      return V5;
    }
    return UNKNOWN;
  }

  method DetermineProtocolVersion(scan: Scanner, version: string, firsts: Firsts) returns (p: ProtocolVersion)
    requires CString(version) && firsts.CStrings()
    ensures Determined(scan, version, firsts, p)
  {
    ghost var reached := set q | Reaches(scan, version, firsts, q);
    p := ChooseProtocol(scan, version, firsts, reached);
    assert p in reached ==> Reaches(scan, version, firsts, p);
  }

  /** A later version never gets a lower protocol, whatever the first versions. */
  lemma ProtocolIsMonotone(scan: Scanner, a: string, b: string, firsts: Firsts, p: ProtocolVersion, q: ProtocolVersion)
    requires CString(a) && CString(b) && firsts.CStrings() && Order(scan, a, b) <= 0
    requires Determined(scan, a, firsts, p) && Determined(scan, b, firsts, q)
    ensures Rank(p) <= Rank(q)
  {
    if p != UNKNOWN {
      var first := firsts.Of(p);
      assert CString(first);
      OrderIsTotalPreorder(scan, a, first, b);
      OrderIsTotalPreorder(scan, b, a, first);
      OrderIsTotalPreorder(scan, first, a, b);
      OrderIsTotalPreorder(scan, b, first, a);
      assert Reaches(scan, b, firsts, p);
    }
  }

  /** There is one highest protocol. */
  lemma DeterminedUnique(scan: Scanner, version: string, firsts: Firsts, p: ProtocolVersion, q: ProtocolVersion)
    requires Determined(scan, version, firsts, p) && Determined(scan, version, firsts, q)
    ensures p == q
  {
    assert Rank(p) == Rank(q);
  }

  // ---- Versions as they are written ----

  function Digit(n: nat): (c: char)
    requires n < 10
    ensures IsDigit(c) && DigitValue(c) == n
  {
    (n + '0' as int) as char
  }

  function Decimal(n: nat): (s: string)
    ensures s != "" && forall i :: 0 <= i < |s| ==> IsDigit(s[i])
  {
    if n < 10 then [Digit(n)] else Decimal(n / 10) + [Digit(n % 10)]
  }

  /** Numbers with dots between them. */
  function Dotted(ns: seq<nat>): string
    requires ns != []
  {
    if |ns| == 1 then Decimal(ns[0]) else Decimal(ns[0]) + "." + Dotted(ns[1..])
  }

  lemma {:induction false} DecimalValue(n: nat)
    ensures DigitsValue(Decimal(n)) == n
  {
    var s := Decimal(n);
    if n >= 10 {
      DecimalValue(n / 10);
      assert s[..|s| - 1] == Decimal(n / 10);
    } else {
      assert s[..|s| - 1] == "";
    }
  }

  lemma {:induction false} CountDigitsOf(s: string, rest: string)
    requires forall i :: 0 <= i < |s| ==> IsDigit(s[i])
    requires rest == "" || !IsDigit(rest[0])
    ensures CountDigits(s + rest) == |s|
  {
    if s == "" {
      assert s + rest == rest;
    } else {
      CountDigitsOf(s[1..], rest);
      assert (s + rest)[1..] == s[1..] + rest;
    }
  }

  lemma StrtoulOf(n: nat, rest: string)
    requires n <= ULONG_MAX && (rest == "" || !IsDigit(rest[0]))
    ensures Strtoul(Decimal(n) + rest) == Number(n, |Decimal(n)|)
  {
    var d := Decimal(n);
    var s := d + rest;
    assert s[0] == d[0] && IsDigit(d[0]);
    assert SkipSpaces(s) == 0;
    CountDigitsOf(d, rest);
    assert s[0..] == s && s[0..|d|] == d;
    DecimalValue(n);
  }

  lemma {:induction false} SkipSpacesOf(blanks: string, rest: string)
    requires forall i :: 0 <= i < |blanks| ==> IsSpace(blanks[i])
    requires rest == "" || !IsSpace(rest[0])
    ensures SkipSpaces(blanks + rest) == |blanks|
  {
    if blanks == "" {
      assert blanks + rest == rest;
    } else {
      SkipSpacesOf(blanks[1..], rest);
      assert (blanks + rest)[1..] == blanks[1..] + rest;
    }
  }

  lemma {:induction false} StrtoulAt(s: string, spaces: nat, start: nat, digits: string, negative: bool)
    requires SkipSpaces(s) == spaces < |s| && digits != "" && negative == (s[spaces] == '-')
    requires start == if negative || s[spaces] == '+' then spaces + 1 else spaces
    requires start + |digits| <= |s| && CountDigits(s[start..]) == |digits| && s[start..start + |digits|] == digits
    ensures Strtoul(s) == Number(Converted(DigitsValue(digits), negative), start + |digits|)
  {
  }

  lemma ThirdPart(a: string, b: string, c: string, d: string, s: string)
    requires s == a + (b + (c + d)) && c != ""
    ensures s[|a|] == if b == "" then c[0] else b[0]
    ensures s[|a| + |b|..] == c + d && s[|a| + |b|..|a| + |b| + |c|] == c
  {
    var bcd := b + (c + d);
    assert bcd[0] == if b == "" then c[0] else b[0];
    assert s[|a|] == bcd[0] && s[|a|..] == bcd;
    assert bcd[|b|..] == c + d && bcd[|b|..|b| + |c|] == c;
    assert s[|a| + |b|..] == bcd[|b|..] && s[|a| + |b|..|a| + |b| + |c|] == bcd[|b|..|b| + |c|];
  }

  /** Blanks, a sign and digits, in front of something else. */
  ghost predicate Numeral(blanks: string, sign: string, digits: string, rest: string) {
    && (forall i :: 0 <= i < |blanks| ==> IsSpace(blanks[i]))
    && (sign == "" || sign == "+" || sign == "-")
    && digits != "" && (forall i :: 0 <= i < |digits| ==> IsDigit(digits[i]))
    && (rest == "" || !IsDigit(rest[0]))
  }

  lemma {:induction false} NumeralParts(blanks: string, sign: string, digits: string, rest: string, s: string)
    requires Numeral(blanks, sign, digits, rest) && s == blanks + (sign + (digits + rest))
    ensures |s| == |blanks| + |sign| + |digits| + |rest| && SkipSpaces(s) == |blanks|
    ensures s[|blanks|] == if sign == "" then digits[0] else sign[0]
    ensures var start := |blanks| + |sign|; CountDigits(s[start..]) == |digits| && s[start..start + |digits|] == digits
  {
    SkipSpacesOf(blanks, sign + (digits + rest));
    CountDigitsOf(digits, rest);
    ThirdPart(blanks, sign, digits, rest, s);
  }

  /** The whole numeral is used. A number that is too large becomes the largest one; a
      negative one wraps around. */
  lemma {:induction false} StrtoulSigned(blanks: string, sign: string, digits: string, rest: string, s: string)
    requires Numeral(blanks, sign, digits, rest) && s == blanks + (sign + (digits + rest))
    ensures var n, r := DigitsValue(digits), Strtoul(s);
            && r.used == |blanks| + |sign| + |digits|
            && (if n > ULONG_MAX then r.value == ULONG_MAX
                else if sign == "-" && n > 0 then r.value + n == ULONG_MAX + 1
                else r.value == n)
  {
    NumeralParts(blanks, sign, digits, rest, s);
    StrtoulAt(s, |blanks|, |blanks| + |sign|, digits, sign == "-");
  }

  /** Without a digit there is no number. */
  lemma {:induction false} StrtoulNothing(blanks: string, sign: string, rest: string)
    requires forall i :: 0 <= i < |blanks| ==> IsSpace(blanks[i])
    requires sign == "" || sign == "+" || sign == "-"
    requires rest == "" || (!IsDigit(rest[0]) && (sign == "" ==> !IsSpace(rest[0]) && rest[0] != '+' && rest[0] != '-'))
    ensures Strtoul(blanks + (sign + rest)) == Number(0, 0)
  {
    var s := blanks + (sign + rest);
    SkipSpacesOf(blanks, sign + rest);
    assert s[|blanks|..] == sign + rest && s[|blanks| + |sign|..] == rest;
  }

  const STRTOUL: Scanner := Strtoul

  /** A number at the start of a text. */
  function Written(n: nat, rest: string): string {
    Decimal(n) + rest
  }

  ghost predicate ReadsDecimals(scan: Scanner) {
    forall n: nat, rest: string | n <= ULONG_MAX && (rest == "" || !IsDigit(rest[0])) ::
      scan(Written(n, rest)) == Number(n, |Decimal(n)|)
  }

  lemma StrtoulReadsDecimals()
    ensures ReadsDecimals(STRTOUL)
  {
    forall n: nat, rest: string | n <= ULONG_MAX && (rest == "" || !IsDigit(rest[0]))
      ensures STRTOUL(Written(n, rest)) == Number(n, |Decimal(n)|)
    {
      StrtoulOf(n, rest);
    }
  }

  /** The tokens of a written version. */
  function VersionTokens(ns: seq<nat>): seq<Token>
    requires ns != []
  {
    if |ns| == 1 then [Token(ns[0], 0)] else [Token(ns[0], '.' as int)] + VersionTokens(ns[1..])
  }

  lemma ScanDecimal(scan: Scanner, n: nat, rest: string)
    requires ReadsDecimals(scan) && n <= ULONG_MAX && (rest == "" || !IsDigit(rest[0]))
    ensures scan(Decimal(n) + rest) == Number(n, |Decimal(n)|)
  {
    assert Written(n, rest) == Decimal(n) + rest;
  }

  lemma {:induction false} TokensOfVersion(scan: Scanner, ns: seq<nat>)
    requires ReadsDecimals(scan) && ns != [] && forall i :: 0 <= i < |ns| ==> ns[i] <= ULONG_MAX
    ensures Tokens(scan, Dotted(ns)) == VersionTokens(ns)
  {
    var d := Decimal(ns[0]);
    if |ns| == 1 {
      assert d + "" == d;
      ScanDecimal(scan, ns[0], "");
    } else {
      var tail := Dotted(ns[1..]);
      var s := Dotted(ns);
      assert s == d + ("." + tail);
      ScanDecimal(scan, ns[0], "." + tail);
      assert s[|d|] == '.' && s[|d| + 1..] == tail;
      TokensOfVersion(scan, ns[1..]);
    }
  }

  /** The order of versions as numbers; a version that goes on is later. */
  predicate Earlier(x: seq<nat>, y: seq<nat>) {
    y != [] && (x == [] || x[0] < y[0] || (x[0] == y[0] && Earlier(x[1..], y[1..])))
  }

  lemma {:induction false} EarlierPrecedes(x: seq<nat>, y: seq<nat>)
    requires x != [] && y != []
    ensures Precedes(VersionTokens(x), VersionTokens(y)) <==> Earlier(x, y)
  {
    var s, t := VersionTokens(x), VersionTokens(y);
    if s[0] != t[0] {
      PrecedesFirst(s, t);
    } else if |x| == 1 {
      PrecedesIrreflexive(s);
    } else {
      EarlierPrecedes(x[1..], y[1..]);
      PrecedesCons(s[0], VersionTokens(x[1..]), VersionTokens(y[1..]));
    }
  }

  lemma {:induction false} VersionTokensTerminated(ns: seq<nat>)
    requires ns != []
    ensures Terminated(VersionTokens(ns))
  {
    if |ns| > 1 {
      VersionTokensTerminated(ns[1..]);
    }
  }

  /** Written versions are compared number by number. */
  lemma WrittenVersionsCompare(x: seq<nat>, y: seq<nat>)
    requires x != [] && forall i :: 0 <= i < |x| ==> x[i] <= ULONG_MAX
    requires y != [] && forall i :: 0 <= i < |y| ==> y[i] <= ULONG_MAX
    ensures Order(STRTOUL, Dotted(x), Dotted(y)) < 0 <==> Earlier(x, y)
  {
    StrtoulReadsDecimals();
    TokensOfVersion(STRTOUL, x);
    TokensOfVersion(STRTOUL, y);
    EarlierPrecedes(x, y);
    VersionTokensTerminated(x);
    VersionTokensTerminated(y);
    TokenOrderIs(VersionTokens(x), VersionTokens(y));
    PrecedesIrreflexive(VersionTokens(x));
  }

  lemma DelimiterToken(n: nat, c: char, x: string, s: string)
    requires n <= ULONG_MAX && !IsDigit(c) && CString([c] + x) && s == Decimal(n) + ([c] + x)
    ensures c as int < 0x100
    ensures Terminated(Tokens(STRTOUL, s)) && Tokens(STRTOUL, s)[0] == Token(n, SignedChar(c))
  {
    var d := Decimal(n);
    StrtoulOf(n, [c] + x);
    assert ([c] + x)[0] == c;
    assert s[|d|] == c;
    assert CString(s) by {
      forall i | 0 <= i < |s| ensures 0 < s[i] as int < 0x100 {
        assert s[i] == if i < |d| then d[i] else ([c] + x)[i - |d|];
      }
    }
    TokensTerminated(STRTOUL, s);
  }

  lemma SignedOrder(c: char, d: char)
    requires c as int < 0x100 && d as int < 0x100
    ensures SignedChar(c) < SignedChar(d) <==> (c as int + 0x80) % 0x100 < (d as int + 0x80) % 0x100
    ensures SignedChar(c) == SignedChar(d) ==> c == d
  {
  }

  lemma FirstDecides(x: seq<Token>, y: seq<Token>)
    requires Terminated(x) && Terminated(y) && x[0].value == y[0].value && x[0].delimiter != y[0].delimiter
    ensures TokenOrder(x, y) < 0 <==> x[0].delimiter < y[0].delimiter
  {
  }

  /** If the numbers are equal, what follows them decides; characters are signed bytes. */
  lemma DelimitersCompare(n: nat, c: char, d: char, x: string, y: string, a: string, b: string)
    requires n <= ULONG_MAX && c != d && !IsDigit(c) && !IsDigit(d) && CString([c] + x) && CString([d] + y)
    requires a == Decimal(n) + ([c] + x) && b == Decimal(n) + ([d] + y)
    ensures Order(STRTOUL, a, b) < 0 <==> (c as int + 0x80) % 0x100 < (d as int + 0x80) % 0x100
  {
    DelimiterToken(n, c, x, a);
    DelimiterToken(n, d, y, b);
    SignedOrder(c, d);
    FirstDecides(Tokens(STRTOUL, a), Tokens(STRTOUL, b));
  }

  lemma FirstsAreWritten()
    ensures FIRSTS == Firsts(Dotted([1]), Dotted([6, 0, 1, 7]), Dotted([6, 0, 5]), Dotted([6, 0, 14]), Dotted([7]))
  {
  }

  /** The first version of each protocol in numbers. */
  function FirstNumbers(p: ProtocolVersion): (ns: seq<nat>)
    requires p != UNKNOWN
    ensures ns != [] && forall i :: 0 <= i < |ns| ==> ns[i] <= ULONG_MAX
  {
    match p
    case V5 => [1]
    case V6 => [6, 0, 1, 7]
    case V6_0_5 => [6, 0, 5]
    case V6_0_14 => [6, 0, 14]
    case V7 => [7]
  }

  lemma FirstIsWritten(p: ProtocolVersion)
    requires p != UNKNOWN
    ensures FIRSTS.Of(p) == Dotted(FirstNumbers(p))
  {
    FirstsAreWritten();
  }

  lemma WrittenReaches(x: seq<nat>, p: ProtocolVersion)
    requires x != [] && (forall i :: 0 <= i < |x| ==> x[i] <= ULONG_MAX) && p != UNKNOWN
    ensures Reaches(STRTOUL, Dotted(x), FIRSTS, p) <==> !Earlier(x, FirstNumbers(p))
  {
    FirstIsWritten(p);
    WrittenVersionsCompare(x, FirstNumbers(p));
  }

  /** The highest of the protocols that are reached. */
  function Highest(v5: bool, v6: bool, v6_0_5: bool, v6_0_14: bool, v7: bool): ProtocolVersion {
    if v7 then V7 else if v6_0_14 then V6_0_14 else if v6_0_5 then V6_0_5 else if v6 then V6 else if v5 then V5 else UNKNOWN
  }

  /** The version reaches exactly the protocols that these numbers reach. */
  ghost predicate ReachesAs(scan: Scanner, version: string, firsts: Firsts, x: seq<nat>) {
    forall p {:trigger Reaches(scan, version, firsts, p)} :: p != UNKNOWN ==>
      (Reaches(scan, version, firsts, p) <==> !Earlier(x, FirstNumbers(p)))
  }

  lemma WrittenReachesAs(x: seq<nat>)
    requires x != [] && forall i :: 0 <= i < |x| ==> x[i] <= ULONG_MAX
    ensures ReachesAs(STRTOUL, Dotted(x), FIRSTS, x)
  {
    forall p | p != UNKNOWN ensures Reaches(STRTOUL, Dotted(x), FIRSTS, p) <==> !Earlier(x, FirstNumbers(p)) {
      WrittenReaches(x, p);
    }
  }

  lemma DeterminedIs(scan: Scanner, version: string, firsts: Firsts, x: seq<nat>, p: ProtocolVersion)
    requires ReachesAs(scan, version, firsts, x)
    ensures Determined(scan, version, firsts, p) <==>
            p == Highest(!Earlier(x, [1]), !Earlier(x, [6, 0, 1, 7]), !Earlier(x, [6, 0, 5]), !Earlier(x, [6, 0, 14]), !Earlier(x, [7]))
  {
    var q := Highest(Reaches(scan, version, firsts, V5), Reaches(scan, version, firsts, V6), Reaches(scan, version, firsts, V6_0_5),
                     Reaches(scan, version, firsts, V6_0_14), Reaches(scan, version, firsts, V7));
    assert Determined(scan, version, firsts, q);
    if Determined(scan, version, firsts, p) {
      DeterminedUnique(scan, version, firsts, p, q);
    }
  }

  /** The protocol of every version that is written in numbers: 7 and later, from
      6.0.14, from 6.0.5, from 6.0.1.7 on, and from 1 on. */
  lemma WrittenProtocol(x: seq<nat>, p: ProtocolVersion)
    requires x != [] && forall i :: 0 <= i < |x| ==> x[i] <= ULONG_MAX
    ensures Determined(STRTOUL, Dotted(x), FIRSTS, p) <==>
            p == Highest(!Earlier(x, [1]), !Earlier(x, [6, 0, 1, 7]), !Earlier(x, [6, 0, 5]), !Earlier(x, [6, 0, 14]), !Earlier(x, [7]))
  {
    WrittenReachesAs(x);
    DeterminedIs(STRTOUL, Dotted(x), FIRSTS, x, p);
  }
}

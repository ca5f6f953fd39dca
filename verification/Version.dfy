/** Versions and version requirements (`src/ruxen_cli/src/version.rs`): precedence as in section 11 of
    SemVer 2.0.0, for versions without pre-release or build parts. */
module Version {
  import opened Common
  import opened Text

  const MAX_U64: nat := 0xFFFF_FFFF_FFFF_FFFF

  datatype SemVer = SemVer(major: nat, minor: nat, patch: nat)

  datatype Comparator =
    | Caret(base: SemVer)
    | Tilde(base: SemVer)
    | Exact(base: SemVer)
    | Gte(base: SemVer)
    | Gt(base: SemVer)
    | Lte(base: SemVer)
    | Lt(base: SemVer)
    | Wildcard

  datatype VersionReq = VersionReq(comparators: seq<Comparator>)

  /** The fields fit the 64-bit words they are kept in. */
  predicate Fits(v: SemVer) {
    v.major <= MAX_U64 && v.minor <= MAX_U64 && v.patch <= MAX_U64
  }

  predicate ComparatorFits(c: Comparator) {
    !c.Wildcard? ==> Fits(c.base)
  }

  // ---------------------------------------------------------------------------------------
  // Order and matching.
  // ---------------------------------------------------------------------------------------

  predicate Less(a: SemVer, b: SemVer) {
    || a.major < b.major
    || (a.major == b.major && a.minor < b.minor)
    || (a.major == b.major && a.minor == b.minor && a.patch < b.patch)
  }

  predicate AtMost(a: SemVer, b: SemVer) {
    a == b || Less(a, b)
  }

  /** `Comparator::matches`, branch for branch. */
  predicate Matches(c: Comparator, ver: SemVer) {
    match c
    case Caret(base) =>
      if Less(ver, base) then false
      else if base.major > 0 then ver.major == base.major
      else if base.minor > 0 then ver.major == 0 && ver.minor == base.minor
      else ver.major == 0 && ver.minor == 0 && ver.patch == base.patch
    case Tilde(base) => if Less(ver, base) then false else ver.major == base.major && ver.minor == base.minor
    case Exact(base) => ver == base
    case Gte(base) => AtMost(base, ver)
    case Gt(base) => Less(base, ver)
    case Lte(base) => AtMost(ver, base)
    case Lt(base) => Less(ver, base)
    case Wildcard => true
  }

  predicate ReqMatches(req: VersionReq, ver: SemVer) {
    forall i :: 0 <= i < |req.comparators| ==> Matches(req.comparators[i], ver)
  }

  /** Where a caret requirement stops: the next major version, or the next minor one below 1.0.0, or
      the next patch below 0.1.0. */
  function CaretBump(base: SemVer): SemVer {
    if base.major > 0 then SemVer(base.major + 1, 0, 0)
    else if base.minor > 0 then SemVer(0, base.minor + 1, 0)
    else SemVer(0, 0, base.patch + 1)
  }

  function TildeBump(base: SemVer): SemVer {
    SemVer(base.major, base.minor + 1, 0)
  }

  /** A strict total order. */
  lemma TotalOrder(a: SemVer, b: SemVer, c: SemVer)
    ensures !Less(a, a)
    ensures Less(a, b) || a == b || Less(b, a)
    ensures Less(a, b) && Less(b, c) ==> Less(a, c)
  {
  }

  /** Caret and tilde are half-open intervals. */
  lemma CaretIsInterval(base: SemVer, ver: SemVer)
    ensures Matches(Caret(base), ver) <==> AtMost(base, ver) && Less(ver, CaretBump(base))
    ensures Matches(Tilde(base), ver) <==> AtMost(base, ver) && Less(ver, TildeBump(base))
  {
  }

  /** `a` is older than `b`, as section 11 of SemVer 2.0.0 has it: the first of the three numbers in which they
      differ decides. */
  ghost predicate Precedes(a: SemVer, b: SemVer) {
    exists i :: 0 <= i < 3 && Number(a, i) < Number(b, i) && forall j :: 0 <= j < i ==> Number(a, j) == Number(b, j)
  }

  function Number(v: SemVer, i: nat): nat {
    if i == 0 then v.major else if i == 1 then v.minor else v.patch
  }

  lemma LessIsPrecedes(a: SemVer, b: SemVer)
    ensures Less(a, b) <==> Precedes(a, b)
  {
    if Less(a, b) {
      var i := if a.major < b.major then 0 else if a.minor < b.minor then 1 else 2;
      assert Number(a, i) < Number(b, i) && forall j :: 0 <= j < i ==> Number(a, j) == Number(b, j);
    }
    if i :| 0 <= i < 3 && Number(a, i) < Number(b, i) && forall j :: 0 <= j < i ==> Number(a, j) == Number(b, j) {
      assert i > 0 ==> Number(a, 0) == Number(b, 0);
      assert i > 1 ==> Number(a, 1) == Number(b, 1);
    }
  }

  /** What each comparator asks for, in terms of that order. */
  lemma ComparatorsMean(base: SemVer, ver: SemVer)
    ensures Matches(Lt(base), ver) <==> Precedes(ver, base)
    ensures Matches(Gt(base), ver) <==> Precedes(base, ver)
    ensures Matches(Gte(base), ver) <==> !Precedes(ver, base)
    ensures Matches(Lte(base), ver) <==> !Precedes(base, ver)
    ensures Matches(Exact(base), ver) <==> !Precedes(ver, base) && !Precedes(base, ver)
    ensures Matches(Caret(base), ver) <==> !Precedes(ver, base) && Precedes(ver, CaretBump(base))
    ensures Matches(Tilde(base), ver) <==> !Precedes(ver, base) && Precedes(ver, TildeBump(base))
    ensures Matches(Wildcard, ver)
  {
    hide Precedes;
    LessIsPrecedes(ver, base);
    LessIsPrecedes(base, ver);
    LessIsPrecedes(ver, CaretBump(base));
    LessIsPrecedes(ver, TildeBump(base));
  }

  /** How they relate: two pairs of opposites, and the others made of those. */
  lemma ComparatorLaws(base: SemVer, ver: SemVer)
    ensures Matches(Gte(base), ver) <==> !Matches(Lt(base), ver)
    ensures Matches(Lte(base), ver) <==> !Matches(Gt(base), ver)
    ensures Matches(Exact(base), ver) <==> Matches(Gte(base), ver) && Matches(Lte(base), ver)
    ensures Matches(Gte(base), base) && Matches(Lte(base), base) && Matches(Exact(base), ver) == (ver == base)
    ensures Matches(Caret(base), ver) <==> Matches(Gte(base), ver) && Matches(Lt(CaretBump(base)), ver)
    ensures Matches(Tilde(base), ver) <==> Matches(Gte(base), ver) && Matches(Lt(TildeBump(base)), ver)
  {
  }

  /** Requirements put together ask for all that each asks for; one that asks for nothing takes anything. */
  lemma RequirementsConjoin(a: seq<Comparator>, c: Comparator, ver: SemVer)
    ensures ReqMatches(VersionReq([]), ver)
    ensures ReqMatches(VersionReq(a + [c]), ver) <==> ReqMatches(VersionReq(a), ver) && Matches(c, ver)
  {
    assert (a + [c])[|a|] == c && forall i :: 0 <= i < |a| ==> (a + [c])[i] == a[i];
  }

  /** What matches a requirement has no gaps. */
  lemma MatchesAreConvex(req: VersionReq, low: SemVer, mid: SemVer, high: SemVer)
    requires AtMost(low, mid) && AtMost(mid, high) && ReqMatches(req, low) && ReqMatches(req, high)
    ensures ReqMatches(req, mid)
  {
    forall i | 0 <= i < |req.comparators| ensures Matches(req.comparators[i], mid) {
      OneIsConvex(req.comparators[i], low, mid, high);
    }
  }

  lemma OneIsConvex(c: Comparator, low: SemVer, mid: SemVer, high: SemVer)
    requires AtMost(low, mid) && AtMost(mid, high) && Matches(c, low) && Matches(c, high)
    ensures Matches(c, mid)
  {
  }

  // ---------------------------------------------------------------------------------------
  // Text.
  // ---------------------------------------------------------------------------------------

  function Split(s: string, sep: char): (parts: seq<string>)
    ensures parts != []
  {
    if s == "" then [""]
    else
      var rest := Split(s[1..], sep);
      if s[0] == sep then [""] + rest else [[s[0]] + rest[0]] + rest[1..]
  }

  function Join(parts: seq<string>, sep: string): string {
    if parts == [] then "" else if |parts| == 1 then parts[0] else parts[0] + sep + Join(parts[1..], sep)
  }

  /** `strip_prefix`. */
  function Strip(s: string, prefix: string): Option<string> {
    if prefix <= s then Some(s[|prefix|..]) else None
  }

  // ---------------------------------------------------------------------------------------
  // Numbers and versions.
  // ---------------------------------------------------------------------------------------

  predicate IsDigit(c: char) {
    '0' <= c <= '9'
  }

  function DigitValue(c: char): nat
    requires IsDigit(c)
  {
    c as int - '0' as int
  }

  function Value(s: string): nat
    requires forall i :: 0 <= i < |s| ==> IsDigit(s[i])
  {
    if s == "" then 0 else Value(s[..|s| - 1]) * 10 + DigitValue(s[|s| - 1])
  }

  predicate AllDigits(s: string) {
    forall i :: 0 <= i < |s| ==> IsDigit(s[i])
  }

  /** `parse::<u64>`: an optional plus sign, at least one digit, and a value that fits. */
  function ParseU64(s: string): (r: Option<nat>)
    ensures r.Some? ==> r.value <= MAX_U64
  {
    var digits := if s != "" && s[0] == '+' then s[1..] else s;
    if digits != "" && AllDigits(digits) && Value(digits) <= MAX_U64 then Some(Value(digits)) else None
  }

  /** `SemVer::parse`: one to three numbers; missing ones are zero. */
  function ParseVersion(s: string): (r: Option<SemVer>)
    ensures r.Some? ==> Fits(r.value)
  {
    var parts := Split(s, '.');
    if |parts| == 1 then
      match ParseU64(parts[0])
      case Some(major) => Some(SemVer(major, 0, 0))
      case None => None
    else if |parts| == 2 then
      match (ParseU64(parts[0]), ParseU64(parts[1]))
      case (Some(major), Some(minor)) => Some(SemVer(major, minor, 0))
      case _ => None
    else if |parts| == 3 then
      match (ParseU64(parts[0]), ParseU64(parts[1]), ParseU64(parts[2]))
      case (Some(major), Some(minor), Some(patch)) => Some(SemVer(major, minor, patch))
      case _ => None
    else None
  }

  function Digit(d: nat): char
    requires d < 10
  {
    '0' + d as char
  }

  function ShowNat(n: nat): string {
    if n < 10 then [Digit(n)] else ShowNat(n / 10) + [Digit(n % 10)]
  }

  function ShowVersion(v: SemVer): string {
    ShowNat(v.major) + "." + ShowNat(v.minor) + "." + ShowNat(v.patch)
  }

  lemma {:induction false} ShowNatInverts(n: nat)
    ensures AllDigits(ShowNat(n)) && ShowNat(n) != "" && Value(ShowNat(n)) == n
  {
    if n >= 10 {
      ShowNatInverts(n / 10);
      assert ShowNat(n)[..|ShowNat(n)| - 1] == ShowNat(n / 10);
    }
  }

  lemma ParseShownNat(n: nat)
    requires n <= MAX_U64
    ensures ParseU64(ShowNat(n)) == Some(n)
  {
    ShowNatInverts(n);
    assert IsDigit(ShowNat(n)[0]);
  }

  lemma {:induction false} SplitNone(s: string, sep: char)
    requires sep !in s
    ensures Split(s, sep) == [s]
  {
    if s != "" {
      assert s == [s[0]] + s[1..];
      SplitNone(s[1..], sep);
    }
  }

  lemma {:induction false} SplitFirst(a: string, sep: char, b: string)
    requires sep !in a
    ensures Split(a + [sep] + b, sep) == [a] + Split(b, sep)
  {
    var s := a + [sep] + b;
    if a == "" {
      assert s[1..] == b;
    } else {
      assert s[1..] == a[1..] + [sep] + b;
      assert a == [a[0]] + a[1..];
      SplitFirst(a[1..], sep, b);
    }
  }

  /** Printing a version and parsing it gives it back. */
  lemma VersionRoundTrip(v: SemVer)
    requires Fits(v)
    ensures ParseVersion(ShowVersion(v)) == Some(v)
  {
    hide ShowNat, Split, ParseU64;
    NoDot(v.major);
    NoDot(v.minor);
    NoDot(v.patch);
    var a, b, c := ShowNat(v.major), ShowNat(v.minor), ShowNat(v.patch);
    assert ShowVersion(v) == a + ['.'] + (b + ['.'] + c);
    SplitFirst(a, '.', b + ['.'] + c);
    SplitFirst(b, '.', c);
    SplitNone(c, '.');
    assert [a] + ([b] + [c]) == [a, b, c];
    ParseShownNat(v.major);
    ParseShownNat(v.minor);
    ParseShownNat(v.patch);
  }

  /** Missing numbers are zero, a fourth is refused. */
  lemma ShorterAndLonger(a: nat, b: nat, v: SemVer, rest: string)
    requires a <= MAX_U64 && b <= MAX_U64
    ensures ParseVersion(ShowNat(a)) == Some(SemVer(a, 0, 0))
    ensures ParseVersion(ShowNat(a) + "." + ShowNat(b)) == Some(SemVer(a, b, 0))
    ensures ParseVersion(ShowVersion(v) + "." + rest) == None
  {
    hide ShowNat, Split, ParseU64;
    NoDot(a);
    NoDot(b);
    ParseShownNat(a);
    ParseShownNat(b);
    SplitNone(ShowNat(a), '.');
    SplitFirst(ShowNat(a), '.', ShowNat(b));
    SplitNone(ShowNat(b), '.');
    var x, y, z := ShowNat(v.major), ShowNat(v.minor), ShowNat(v.patch);
    NoDot(v.major);
    NoDot(v.minor);
    NoDot(v.patch);
    assert ShowVersion(v) + "." + rest == x + ['.'] + (y + ['.'] + (z + ['.'] + rest));
    SplitFirst(x, '.', y + ['.'] + (z + ['.'] + rest));
    SplitFirst(y, '.', z + ['.'] + rest);
    SplitFirst(z, '.', rest);
  }

  /** A number parses with a plus sign in front, and exactly if it fits 64 bits. */
  lemma NumbersParseIff(n: nat)
    ensures ParseU64(ShowNat(n)).Some? <==> n <= MAX_U64
    ensures ParseU64("+" + ShowNat(n)) == ParseU64(ShowNat(n))
    ensures ParseU64("") == ParseU64("+") == None
  {
    ShowNatInverts(n);
    assert IsDigit(ShowNat(n)[0]);
    assert ("+" + ShowNat(n))[1..] == ShowNat(n);
  }

  /** The exact texts that parse as a number: maybe a plus sign, maybe zeros, and then the number as printed. */
  lemma TextsOfNumberIff(s: string, n: nat)
    ensures ParseU64(s) == Some(n) <==>
            n < 0x1_0000_0000_0000_0000 && exists plus, k: nat :: IsNumeral(s, plus, k, n)
  {
    hide ParseU64, IsNumeral;
    if ParseU64(s) == Some(n) {
      var plus, k := ParsedIsNumeral(s);
    }
    if plus, k: nat :| n <= MAX_U64 && IsNumeral(s, plus, k, n) {
      NumeralParses(s, plus, k, n);
    }
  }

  lemma NumeralParses(s: string, plus: bool, k: nat, n: nat)
    requires n <= MAX_U64 && IsNumeral(s, plus, k, n)
    ensures ParseU64(s) == Some(n)
  {
    hide ShowNat, Value, AllDigits, IsDigit;
    ShowNatInverts(n);
    ZerosDoNotCount(k, ShowNat(n));
    var digits := Zeros(k) + ShowNat(n);
    FirstIsDigit(digits);
    assert if plus then s[1..] == digits else s == digits;
  }

  lemma ParsedIsNumeral(s: string) returns (plus: bool, k: nat)
    requires ParseU64(s).Some?
    ensures IsNumeral(s, plus, k, ParseU64(s).value)
  {
    plus := s != "" && s[0] == '+';
    k := DigitsAreNumeral(if plus then s[1..] else s);
  }

  ghost predicate IsNumeral(s: string, plus: bool, k: nat, n: nat) {
    s == (if plus then "+" else "") + (Zeros(k) + ShowNat(n))
  }

  function Zeros(k: nat): string {
    seq(k, _ => '0')
  }

  lemma FirstIsDigit(s: string)
    requires s != "" && AllDigits(s)
    ensures IsDigit(s[0]) && s[0] != '+'
  {
  }

  lemma {:induction false} ZerosDoNotCount(k: nat, s: string)
    requires AllDigits(s)
    ensures AllDigits(Zeros(k) + s) && Value(Zeros(k) + s) == Value(s)
  {
    if s == "" {
      if k > 0 {
        ZerosDoNotCount(k - 1, s);
        assert (Zeros(k) + s)[..k - 1] == Zeros(k - 1) + s;
      } else {
        assert Zeros(k) + s == s;
      }
    } else {
      var z := Zeros(k) + s;
      ZerosDoNotCount(k, s[..|s| - 1]);
      assert z[..|z| - 1] == Zeros(k) + s[..|s| - 1];
    }
  }

  lemma {:induction false} DigitsAreNumeral(s: string) returns (k: nat)
    requires s != "" && AllDigits(s)
    ensures s == Zeros(k) + ShowNat(Value(s))
  {
    hide ShowNat;
    var front, c := s[..|s| - 1], s[|s| - 1];
    assert s == front + [c];
    if front == "" {
      OneMoreDigit(0, c);
      k := 0;
    } else {
      k := DigitsAreNumeral(front);
      OneMoreDigit(Value(front), c);
      if Value(front) == 0 {
        assert Zeros(k) + "0" == Zeros(k + 1);
        k := k + 1;
      }
    }
  }

  lemma OneMoreDigit(n: nat, c: char)
    requires IsDigit(c)
    ensures ShowNat(n * 10 + DigitValue(c)) == (if n == 0 then [c] else ShowNat(n) + [c])
    ensures ShowNat(0) == "0"
  {
  }

  /** A text of two or three numbers is as good as each of them. */
  lemma EveryPartMustParse(a: string, b: string, c: string)
    requires '.' !in a && '.' !in b && '.' !in c
    ensures ParseVersion(a).Some? <==> ParseU64(a).Some?
    ensures ParseVersion(a + "." + b).Some? <==> ParseU64(a).Some? && ParseU64(b).Some?
    ensures ParseVersion(a + "." + b + "." + c).Some? <==>
            ParseU64(a).Some? && ParseU64(b).Some? && ParseU64(c).Some?
  {
    hide ParseU64, Split;
    assert a + "." + b + "." + c == a + ['.'] + (b + ['.'] + c);
    SplitNone(a, '.');
    SplitNone(b, '.');
    SplitNone(c, '.');
    SplitFirst(a, '.', b);
    SplitFirst(b, '.', c);
    SplitFirst(a, '.', b + ['.'] + c);
  }

  lemma NoDot(n: nat)
    ensures '.' !in ShowNat(n)
  {
    ShowNatInverts(n);
  }

  // ---------------------------------------------------------------------------------------
  // Requirements.
  // ---------------------------------------------------------------------------------------

  function WithVersion(s: string, make: SemVer -> Comparator): Option<Comparator> {
    match ParseVersion(Trim(s))
    case Some(v) => Some(make(v))
    case None => None
  }

  /** `parse_single_comparator`: the prefixes are tried in this order. */
  function ParseComparator(text: string): Option<Comparator> {
    var s := Trim(text);
    if s == "*" then Some(Wildcard)
    else if Strip(s, "^").Some? then WithVersion(Strip(s, "^").value, v => Caret(v))
    else if Strip(s, "~").Some? then WithVersion(Strip(s, "~").value, v => Tilde(v))
    else if Strip(s, ">=").Some? then WithVersion(Strip(s, ">=").value, v => Gte(v))
    else if Strip(s, ">").Some? then WithVersion(Strip(s, ">").value, v => Gt(v))
    else if Strip(s, "<=").Some? then WithVersion(Strip(s, "<=").value, v => Lte(v))
    else if Strip(s, "<").Some? then WithVersion(Strip(s, "<").value, v => Lt(v))
    else if Strip(s, "=").Some? then WithVersion(Strip(s, "=").value, v => Exact(v))
    else
      match ParseVersion(s)
      case Some(v) => Some(Caret(v))
      case None => None
  }

  function ParseParts(parts: seq<string>): (r: Option<seq<Comparator>>)
    ensures r.Some? ==> |r.value| == |parts|
  {
    if parts == [] then Some([])
    else
      match (ParseComparator(Trim(parts[0])), ParseParts(parts[1..]))
      case (Some(c), Some(cs)) => Some([c] + cs)
      case _ => None
  }

  /** `VersionReq::parse`. */
  function ParseReq(text: string): Option<VersionReq> {
    var s := Trim(text);
    if s == "*" then Some(VersionReq([Wildcard]))
    else
      match ParseParts(Split(s, ','))
      case Some(cs) => Some(VersionReq(cs))
      case None => None
  }

  function Symbol(c: Comparator): string {
    match c
    case Caret(_) => "^"
    case Tilde(_) => "~"
    case Exact(_) => "="
    case Gte(_) => ">="
    case Gt(_) => ">"
    case Lte(_) => "<="
    case Lt(_) => "<"
    case Wildcard => "*"
  }

  function Show(c: Comparator): string {
    if c.Wildcard? then "*" else Symbol(c) + ShowVersion(c.base)
  }

  function ShowAll(cs: seq<Comparator>): seq<string> {
    seq(|cs|, i requires 0 <= i < |cs| => Show(cs[i]))
  }

  function ShowReq(req: VersionReq): string {
    Join(ShowAll(req.comparators), ", ")
  }

  /** No white space and no comma. */
  predicate Plain(s: string) {
    forall i :: 0 <= i < |s| ==> !IsSpace(s[i]) && s[i] != ','
  }

  lemma TrimPlain(s: string)
    requires Plain(s)
    ensures Trim(s) == s
    ensures s != "" ==> Trim(" " + s) == s
  {
    if s != "" {
      var t := " " + s;
      assert t[|t| - 1] == s[|s| - 1];
      assert TrimEnd(t) == t;
      assert t[1..] == s;
      assert TrimStart(t) == TrimStart(s) == s;
    }
  }

  lemma ShownVersionIsPlain(v: SemVer)
    ensures Plain(ShowVersion(v)) && ShowVersion(v) != "" && IsDigit(ShowVersion(v)[0])
  {
    ShowNatInverts(v.major);
    ShowNatInverts(v.minor);
    ShowNatInverts(v.patch);
    assert IsDigit(ShowNat(v.major)[0]);
  }

  lemma ShownIsPlain(c: Comparator)
    ensures Plain(Show(c)) && Show(c) != ""
  {
    if !c.Wildcard? { ShownVersionIsPlain(c.base); }
  }

  /** Printing a comparator and parsing it gives it back, although the prefixes overlap. */
  lemma ComparatorRoundTrip(c: Comparator)
    requires ComparatorFits(c)
    ensures ParseComparator(Show(c)) == Some(c)
  {
    hide ShowVersion, ParseVersion, Trim, Strip, Plain;
    ShownIsPlain(c);
    TrimPlain(Show(c));
    if !c.Wildcard? {
      var v, s := ShowVersion(c.base), Show(c);
      ShownVersionIsPlain(c.base);
      TrimPlain(v);
      VersionRoundTrip(c.base);
      Prefixed(Symbol(c), v);
      StripOne(s, '^');
      StripOne(s, '~');
      StripTwo(s, '>', '=');
      StripOne(s, '>');
      StripTwo(s, '<', '=');
      StripOne(s, '<');
      StripOne(s, '=');
    }
  }

  /** A bare version means caret. */
  lemma BareMeansCaret(v: SemVer)
    requires Fits(v)
    ensures ParseComparator(ShowVersion(v)) == Some(Caret(v))
  {
    hide ParseVersion, Trim, Strip, Plain, ShowVersion;
    var s := ShowVersion(v);
    ShownVersionIsPlain(v);
    TrimPlain(s);
    VersionRoundTrip(v);
    StripOne(s, '^');
    StripOne(s, '~');
    StripOne(s, '>');
    StripOne(s, '<');
    StripOne(s, '=');
    if |s| >= 2 {
      StripTwo(s, '>', '=');
      StripTwo(s, '<', '=');
    } else {
      StripLong(s);
    }
  }

  /** How each is written, and so read. */
  lemma SymbolsMean(v: SemVer)
    requires Fits(v)
    ensures var s := ShowVersion(v);
            && Show(Caret(v)) == "^" + s && ParseComparator("^" + s) == Some(Caret(v))
            && Show(Tilde(v)) == "~" + s && ParseComparator("~" + s) == Some(Tilde(v))
            && Show(Exact(v)) == "=" + s && ParseComparator("=" + s) == Some(Exact(v))
            && Show(Gte(v)) == ">=" + s && ParseComparator(">=" + s) == Some(Gte(v))
            && Show(Gt(v)) == ">" + s && ParseComparator(">" + s) == Some(Gt(v))
            && Show(Lte(v)) == "<=" + s && ParseComparator("<=" + s) == Some(Lte(v))
            && Show(Lt(v)) == "<" + s && ParseComparator("<" + s) == Some(Lt(v))
    ensures Show(Wildcard) == "*" && ParseComparator("*") == Some(Wildcard)
  {
    hide ParseComparator, ShowVersion;
    ComparatorRoundTrip(Caret(v));
    ComparatorRoundTrip(Tilde(v));
    ComparatorRoundTrip(Exact(v));
    ComparatorRoundTrip(Gte(v));
    ComparatorRoundTrip(Gt(v));
    ComparatorRoundTrip(Lte(v));
    ComparatorRoundTrip(Lt(v));
    ComparatorRoundTrip(Wildcard);
  }

  /** White space around a comparator, and between its symbol and its version, does not matter. */
  lemma SpacesDoNotMatter(c: Comparator, a: string, b: string, d: string)
    requires ComparatorFits(c) && AllSpace(a) && AllSpace(b) && AllSpace(d)
    ensures c.Wildcard? ==> ParseComparator(a + "*" + d) == Some(c)
    ensures !c.Wildcard? ==> ParseComparator(a + (Symbol(c) + b + ShowVersion(c.base)) + d) == Some(c)
  {
    hide ShowVersion, ParseVersion, Trim, Strip, Plain, IsSpace, AllSpace;
    if c.Wildcard? {
      StarIsNoSpace();
      TrimPadded(a, "*", d);
    } else {
      var v := ShowVersion(c.base);
      var s := Symbol(c) + b + v;
      SpacedVersion(c, b);
      TrimPadded(a, s, d);
      Prefixed(Symbol(c), b + v);
      assert s == Symbol(c) + (b + v);
      VersionRoundTrip(c.base);
      StripOne(s, '^');
      StripOne(s, '~');
      StripTwo(s, '>', '=');
      StripOne(s, '>');
      StripTwo(s, '<', '=');
      StripOne(s, '<');
      StripOne(s, '=');
    }
  }

  lemma StarIsNoSpace()
    ensures !IsSpace('*')
  {
  }

  lemma SpacedVersion(c: Comparator, b: string)
    requires !c.Wildcard? && AllSpace(b)
    ensures var v := ShowVersion(c.base); var s := Symbol(c) + b + v;
            && !IsSpace(s[0]) && !IsSpace(s[|s| - 1]) && Trim(b + v) == v
            && s != "*" && v != "" && |b + v| > 0 && (b + v)[0] != '='
  {
    hide ShowVersion, Trim;
    var v := ShowVersion(c.base);
    ShownVersionIsPlain(c.base);
    TrimPadded(b, v, "");
    assert b + v + "" == b + v;
    assert (b + v)[0] == if b == "" then v[0] else b[0];
  }

  lemma StripLong(s: string)
    requires |s| < 2
    ensures Strip(s, ">=") == None && Strip(s, "<=") == None
  {
  }

  lemma Prefixed(symbol: string, v: string)
    requires symbol != "" && v != ""
    ensures var s := symbol + v;
            && s[0] == symbol[0] && |s| >= 2 && s[1] == (if |symbol| == 1 then v[0] else symbol[1])
            && s[|symbol|..] == v
  {
  }

  lemma StripOne(s: string, c: char)
    requires s != ""
    ensures Strip(s, [c]) == if s[0] == c then Some(s[1..]) else None
  {
  }

  lemma StripTwo(s: string, c: char, d: char)
    requires |s| >= 2
    ensures Strip(s, [c, d]) == if s[0] == c && s[1] == d then Some(s[2..]) else None
  {
  }

  ghost predicate AllFit(cs: seq<Comparator>) {
    forall i :: 0 <= i < |cs| ==> ComparatorFits(cs[i])
  }

  lemma ParseCons(part: string, parts: seq<string>, c: Comparator, cs: seq<Comparator>)
    requires ParseComparator(Trim(part)) == Some(c) && ParseParts(parts) == Some(cs)
    ensures ParseParts([part] + parts) == Some([c] + cs)
  {
    assert ([part] + parts)[1..] == parts;
  }

  lemma ShowCons(cs: seq<Comparator>)
    requires cs != []
    ensures |cs| == 1 ==> Join(ShowAll(cs), ", ") == Show(cs[0])
    ensures |cs| > 1 ==> Join(ShowAll(cs), ", ") == Show(cs[0]) + [','] + (" " + Join(ShowAll(cs[1..]), ", "))
    ensures |cs| > 1 ==>
              " " + Join(ShowAll(cs), ", ") == (" " + Show(cs[0])) + [','] + (" " + Join(ShowAll(cs[1..]), ", "))
  {
    hide Show, ShowAll;
    ShowAllTail(cs);
  }

  lemma ShowAllTail(cs: seq<Comparator>)
    requires cs != []
    ensures |ShowAll(cs)| == |cs| && ShowAll(cs)[0] == Show(cs[0]) && ShowAll(cs)[1..] == ShowAll(cs[1..])
  {
  }

  lemma ParseNone()
    ensures ParseParts([]) == Some([])
  {
  }

  lemma NoComma(s: string)
    requires Plain(s)
    ensures ',' !in s && ',' !in " " + s
  {
  }

  /** The printed comparators, as the comma splits them, with or without a blank in front. */
  lemma {:induction false} PartsRoundTrip(cs: seq<Comparator>, blank: string)
    requires cs != [] && AllFit(cs) && (blank == "" || blank == " ")
    ensures ParseParts(Split(blank + Join(ShowAll(cs), ", "), ',')) == Some(cs)
    decreases |cs|
  {
    hide Split, Join, ShowAll, Show, ParseComparator, ParseParts, Trim, Plain;
    var first := Show(cs[0]);
    assert "" + first == first && "" + Join(ShowAll(cs), ", ") == Join(ShowAll(cs), ", ");
    ShownIsPlain(cs[0]);
    TrimPlain(first);
    NoComma(first);
    ComparatorRoundTrip(cs[0]);
    ShowCons(cs);
    ParseNone();
    if |cs| == 1 {
      SplitNone(blank + first, ',');
      ParseCons(blank + first, [], cs[0], []);
      assert [blank + first] + [] == [blank + first] && [cs[0]] + [] == cs;
    } else {
      var rest := " " + Join(ShowAll(cs[1..]), ", ");
      PartsRoundTrip(cs[1..], " ");
      SplitFirst(blank + first, ',', rest);
      ParseCons(blank + first, Split(rest, ','), cs[0], cs[1..]);
      assert [cs[0]] + cs[1..] == cs;
    }
  }

  lemma {:induction false} JoinEnds(cs: seq<Comparator>)
    requires cs != []
    ensures var s := Join(ShowAll(cs), ", ");
            s != "" && !IsSpace(s[0]) && !IsSpace(s[|s| - 1])
  {
    ShownIsPlain(cs[0]);
    ShowCons(cs);
    if |cs| > 1 { JoinEnds(cs[1..]); }
  }

  lemma ShownStar(c: Comparator)
    ensures Show(c) == "*" <==> c.Wildcard?
  {
    if !c.Wildcard? {
      ShownVersionIsPlain(c.base);
      assert |Show(c)| >= 2;
    }
  }

  lemma StarAlone(cs: seq<Comparator>)
    requires cs != []
    ensures Join(ShowAll(cs), ", ") == "*" ==> cs == [Wildcard]
  {
    ShownIsPlain(cs[0]);
    ShownStar(cs[0]);
    ShowCons(cs);
  }

  /** Printing a requirement and parsing it gives it back, exactly if it has a comparator. */
  lemma ReqRoundTripIff(req: VersionReq)
    requires AllFit(req.comparators)
    ensures ParseReq(ShowReq(req)) == Some(req) <==> req.comparators != []
  {
    hide Split, Join, ShowAll, ParseParts, IsSpace;
    var cs := req.comparators;
    if cs != [] {
      JoinEnds(cs);
      assert "" + ShowReq(req) == ShowReq(req);
      assert Trim(ShowReq(req)) == ShowReq(req);
      PartsRoundTrip(cs, "");
      StarAlone(cs);
    } else {
      EmptyIsRefused();
    }
  }

  /** The empty requirement prints as nothing, which does not parse. */
  lemma EmptyIsRefused()
    ensures ShowReq(VersionReq([])) == "" && ParseReq("") == None
  {
    assert ShowAll([]) == [];
    assert Split("", ',') == [""] && Split("", '.') == [""];
    assert ParseVersion("") == None;
    assert Strip("", "^") == Strip("", "~") == Strip("", ">=") == Strip("", ">") == None;
    assert ParseComparator("") == None;
  }

  lemma OneParsedFits(text: string)
    ensures ParseComparator(text).Some? ==> ComparatorFits(ParseComparator(text).value)
  {
  }

  lemma {:induction false} ParsedFit(parts: seq<string>)
    requires ParseParts(parts).Some?
    ensures AllFit(ParseParts(parts).value)
  {
    hide Trim, Split, Strip;
    if parts != [] {
      ParsedFit(parts[1..]);
      OneParsedFits(Trim(parts[0]));
    }
  }

  /** So whatever a requirement was written as, its printed form means the same. */
  lemma PrintedMeansTheSame(text: string)
    requires ParseReq(text).Some?
    ensures ParseReq(ShowReq(ParseReq(text).value)) == ParseReq(text)
  {
    if Trim(text) != "*" { ParsedFit(Split(Trim(text), ',')); }
    ReqRoundTripIff(ParseReq(text).value);
  }

  // ---------------------------------------------------------------------------------------
  // Requirements part by part.
  // ---------------------------------------------------------------------------------------

  /** White space around the parts does not matter. */
  lemma {:induction false} SameParts(ps: seq<string>, qs: seq<string>)
    requires |ps| == |qs| && forall i :: 0 <= i < |ps| ==> Trim(ps[i]) == Trim(qs[i])
    ensures ParseParts(ps) == ParseParts(qs)
  {
    hide ParseComparator, Trim;
    if ps != [] { SameParts(ps[1..], qs[1..]); }
  }

  lemma {:induction false} SplitSnoc(s: string, c: char, sep: char)
    requires c != sep
    ensures var ps := Split(s, sep); Split(s + [c], sep) == ButLast(ps) + [Last(ps) + [c]]
  {
    if s == "" {
      SplitNone([c], sep);
      assert "" + [c] == [c] && ButLast([""]) == [];
    } else {
      assert (s + [c])[1..] == s[1..] + [c];
      SplitSnoc(s[1..], c, sep);
      var rest := Split(s[1..], sep);
      if s[0] == sep { LastOfMore("", rest, c); } else { FirstAndLast(s[0], rest, c); }
    }
  }

  lemma LastOfMore(p: string, rest: seq<string>, c: char)
    requires rest != []
    ensures ButLast([p] + rest) + [Last([p] + rest) + [c]] == [p] + (ButLast(rest) + [Last(rest) + [c]])
  {
  }

  lemma FirstAndLast(d: char, rest: seq<string>, c: char)
    requires rest != []
    ensures var ps, more := [[d] + rest[0]] + rest[1..], ButLast(rest) + [Last(rest) + [c]];
            ButLast(ps) + [Last(ps) + [c]] == [[d] + more[0]] + more[1..]
  {
    if |rest| == 1 { assert [d] + (rest[0] + [c]) == ([d] + rest[0]) + [c]; }
  }

  lemma {:induction false} PartsStart(s: string)
    ensures ParseParts(Split(TrimStart(s), ',')) == ParseParts(Split(s, ','))
  {
    hide ParseParts, Trim, IsSpace;
    if s != "" && IsSpace(s[0]) {
      PartsStart(s[1..]);
      CommaIsNoSpace();
      var rest := Split(s[1..], ',');
      TrimMore(s[0], rest[0]);
      SameParts(Split(s, ','), rest);
    }
  }

  lemma {:induction false} PartsEnd(s: string)
    ensures ParseParts(Split(TrimEnd(s), ',')) == ParseParts(Split(s, ','))
  {
    hide ParseParts, Trim, IsSpace, Split;
    if s != "" && IsSpace(s[|s| - 1]) {
      var front, c := s[..|s| - 1], s[|s| - 1];
      assert s == front + [c];
      PartsEnd(front);
      CommaIsNoSpace();
      SplitSnoc(front, c, ',');
      TrimMore(c, Last(Split(front, ',')));
      SameParts(Split(s, ','), Split(front, ','));
    }
  }

  lemma CommaIsNoSpace()
    ensures !IsSpace(',')
  {
  }

  lemma ReqIsItsParts(s: string)
    ensures ParseReq(s) == match ParseParts(Split(s, ','))
                           case Some(cs) => Some(VersionReq(cs))
                           case None => None
  {
    hide ParseParts, Split, TrimStart, TrimEnd;
    PartsEnd(s);
    PartsStart(TrimEnd(s));
    if Trim(s) == "*" { StarIsOnePart(); }
  }

  lemma StarIsOnePart()
    ensures ParseParts(Split("*", ',')) == Some([Wildcard])
  {
    SplitNone("*", ',');
    StarIsNoSpace();
    TrimPadded("", "*", "");
    assert "" + "*" + "" == "*";
    ParseNone();
    ParseCons("*", [], Wildcard, []);
    assert ["*"] + [] == ["*"] && [Wildcard] + [] == [Wildcard];
  }

  /** A requirement is read comma by comma: it is good exactly if every part is, and asks for what they ask for. */
  lemma PartByPart(a: string, b: string)
    requires ',' !in a
    ensures ParseReq(a) == if ParseComparator(a).Some? then Some(VersionReq([ParseComparator(a).value])) else None
    ensures ParseReq(a + "," + b) ==
            if ParseComparator(a).Some? && ParseReq(b).Some?
              then Some(VersionReq([ParseComparator(a).value] + ParseReq(b).value.comparators))
            else None
  {
    hide Split, Trim, ParseComparator, ParseReq;
    ReqIsItsParts(a);
    ReqIsItsParts(b);
    ReqIsItsParts(a + "," + b);
    SplitNone(a, ',');
    SplitFirst(a, ',', b);
    SameComparator(a);
    ParseNone();
    assert ([a] + Split(b, ','))[1..] == Split(b, ',') && [a][1..] == [];
    assert forall c: Comparator :: [c] + [] == [c];
  }

  lemma SameComparator(s: string)
    ensures ParseComparator(Trim(s)) == ParseComparator(s)
  {
    TrimAgain(s);
  }
}

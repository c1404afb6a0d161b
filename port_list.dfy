/**
 * `port_list_from_string` of portscanner.py: the command line's port list,
 * sections separated by commas, each a port or a hyphenated range, becomes
 * a list of distinct ports. A section that does not parse is a syntax
 * error, and a range whose lower end exceeds its upper end is invalid; the
 * first such section in the list stops the conversion.
 */
module PortList {
  import opened Wrappers
  import opened Sampling

  datatype PortListError = SyntaxError(section: string) | InvalidRange(section: string)

  /** Joins the pieces with the separator between consecutive ones. */
  function Join(pieces: seq<string>, sep: char): string {
    if |pieces| == 0 then []
    else if |pieces| == 1 then pieces[0]
    else pieces[0] + [sep] + Join(pieces[1..], sep)
  }

  /**
   * `s.split(sep)`: the maximal runs of s between separators, empty runs
   * included, so there is always at least one piece.
   */
  function Split(s: string, sep: char): (r: seq<string>)
    ensures |r| >= 1
    ensures forall i :: 0 <= i < |r| ==> sep !in r[i]
    ensures sep !in s ==> r == [s]
    ensures sep in s ==> |r| >= 2
  {
    if s == [] then [[]]
    else
      var rest := Split(s[1..], sep);
      if s[0] == sep then
        [[]] + rest
      else
        assert s == [s[0]] + s[1..];
        [[s[0]] + rest[0]] + rest[1..]
  }

  /** Joining the pieces with the separator gives back the string split. */
  lemma {:induction false} JoinSplit(s: string, sep: char)
    ensures Join(Split(s, sep), sep) == s
  {
    if s != [] {
      JoinSplit(s[1..], sep);
      var rest := Split(s[1..], sep);
      if s[0] == sep {
        assert s == [sep] + s[1..];
      } else {
        JoinConsHead(s[0], rest, sep);
        assert s == [s[0]] + s[1..];
      }
    }
  }

  lemma JoinConsHead(c: char, pieces: seq<string>, sep: char)
    requires |pieces| >= 1
    ensures Join([[c] + pieces[0]] + pieces[1..], sep) == [c] + Join(pieces, sep)
  {
    var q := [[c] + pieces[0]] + pieces[1..];
    assert q[1..] == pieces[1..];
  }

  /** Splitting undoes joining pieces that do not contain the separator. */
  lemma {:induction false} SplitJoin(pieces: seq<string>, sep: char)
    requires |pieces| >= 1
    requires forall i :: 0 <= i < |pieces| ==> sep !in pieces[i]
    ensures Split(Join(pieces, sep), sep) == pieces
  {
    if |pieces| == 1 {
      assert Join(pieces, sep) == pieces[0];
    } else {
      SplitJoin(pieces[1..], sep);
      SplitPiece(pieces[0], Join(pieces[1..], sep), sep);
      assert pieces == [pieces[0]] + pieces[1..];
    }
  }

  /** A piece free of the separator, then the separator, is split off first. */
  lemma {:induction false} SplitPiece(p: string, s: string, sep: char)
    requires sep !in p
    ensures Split(p + [sep] + s, sep) == [p] + Split(s, sep)
  {
    if p == [] {
      assert p + [sep] + s == [sep] + s;
      assert ([sep] + s)[1..] == s;
    } else {
      SplitPiece(p[1..], s, sep);
      assert (p + [sep] + s)[1..] == p[1..] + [sep] + s;
      assert [p[0]] + p[1..] == p;
    }
  }

  /** The characters Python's `int()` strips: space, tab, newline, \v, \f, \r. */
  predicate IsSpace(c: char) {
    c == ' ' || ('\t' <= c <= '\r')
  }

  predicate IsDigit(c: char) {
    '0' <= c <= '9'
  }

  /** Whitespace only (possibly nothing). */
  predicate SpaceRun(w: string) {
    forall i :: 0 <= i < |w| ==> IsSpace(w[i])
  }

  /** One or more decimal digits. */
  predicate DigitRun(d: string) {
    d != [] && forall i :: 0 <= i < |d| ==> IsDigit(d[i])
  }

  function TrimLeft(s: string): (r: string)
    ensures r == [] || !IsSpace(r[0])
    ensures |r| <= |s| && r == s[|s| - |r|..]
    ensures SpaceRun(s[..|s| - |r|])
  {
    if s != [] && IsSpace(s[0]) then TrimLeft(s[1..]) else s
  }

  function TrimRight(s: string): (r: string)
    ensures r == [] || !IsSpace(r[|r| - 1])
    ensures |r| <= |s| && r == s[..|r|]
    ensures SpaceRun(s[|r|..])
  {
    if s != [] && IsSpace(s[|s| - 1]) then TrimRight(s[..|s| - 1]) else s
  }

  /** `s.strip()` for the ASCII whitespace `int()` accepts around a number. */
  function Strip(s: string): (r: string)
    ensures r == [] || (!IsSpace(r[0]) && !IsSpace(r[|r| - 1]))
    ensures forall c :: c in r ==> c in s
  {
    var l := TrimLeft(s);
    var r := TrimRight(l);
    assert forall c :: c in r ==> c in l;
    r
  }

  /** The value of a string of decimal digits, most significant first. */
  function DigitsValue(d: string): nat
    requires forall i :: 0 <= i < |d| ==> IsDigit(d[i])
  {
    if d == [] then 0
    else
      assert IsDigit(d[|d| - 1]);
      DigitsValue(d[..|d| - 1]) * 10 + (d[|d| - 1] as int - '0' as int)
  }

  /** A base-10 digit string without sign: at least one digit, nothing else. */
  function ParseDigits(d: string): (r: Option<nat>)
    ensures r.Some? <==> d != [] && forall i :: 0 <= i < |d| ==> IsDigit(d[i])
  {
    if d != [] && forall i :: 0 <= i < |d| ==> IsDigit(d[i]) then Some(DigitsValue(d)) else None
  }

  /**
   * Python's `int(s)`: surrounding whitespace, an optional sign, then one or
   * more decimal digits; None where `int` raises ValueError.
   */
  function ParseInt(s: string): (r: Option<int>)
    ensures r.Some? ==> exists c :: c in s && IsDigit(c)
    ensures '-' !in s && r.Some? ==> r.value >= 0
  {
    ParseSigned(Strip(s))
  }

  /** An optional sign followed by one or more digits, nothing around them. */
  function ParseSigned(t: string): (r: Option<int>)
    ensures r.Some? ==> exists c :: c in t && IsDigit(c)
    ensures '-' !in t && r.Some? ==> r.value >= 0
  {
    if t != [] && (t[0] == '+' || t[0] == '-') then
      match ParseDigits(t[1..])
      case None => None
      case Some(n) =>
        assert t[1] in t;
        Some(if t[0] == '-' then -(n as int) else n as int)
    else
      match ParseDigits(t)
      case None => None
      case Some(n) =>
        assert t[0] in t;
        Some(n)
  }

  /** The decimal digits of n, as `str(n)` writes them. */
  function NatToString(n: nat): (r: string)
    ensures r != []
    ensures forall i :: 0 <= i < |r| ==> IsDigit(r[i])
  {
    var last := ['0' + (n % 10) as char];
    if n < 10 then last else NatToString(n / 10) + last
  }

  lemma {:induction false} DigitsOfNat(n: nat)
    ensures DigitsValue(NatToString(n)) == n
  {
    var s := NatToString(n);
    if n >= 10 {
      DigitsOfNat(n / 10);
      assert s[..|s| - 1] == NatToString(n / 10);
    }
  }

  /** `int(str(n)) == n`, with or without whitespace around the digits. */
  lemma ParseNatToString(n: nat, pad1: string, pad2: string)
    requires SpaceRun(pad1) && SpaceRun(pad2)
    ensures ParseInt(NatToString(n)) == Some(n)
    ensures ParseInt(pad1 + NatToString(n) + pad2) == Some(n)
  {
    var s := NatToString(n);
    DigitsOfNat(n);
    ParseIntComplete(pad1, [], s, pad2);
    NoSign(pad1, s, pad2);
    ParseIntComplete([], [], s, []);
    NoSign([], s, []);
  }

  /** The sign prefixes `int()` accepts. */
  predicate IsSign(sign: string) {
    sign == [] || sign == "+" || sign == "-"
  }

  function SignedValue(sign: string, d: string): int
    requires DigitRun(d)
  {
    if sign == "-" then -(DigitsValue(d) as int) else DigitsValue(d)
  }

  /**
   * s is the literal w1 + sign + d + w2 of v: whitespace, an optional sign,
   * digits worth v with that sign, whitespace.
   */
  predicate IntLiteral(s: string, w1: string, sign: string, d: string, w2: string, v: int) {
    && s == w1 + sign + d + w2
    && SpaceRun(w1) && SpaceRun(w2) && IsSign(sign) && DigitRun(d)
    && v == SignedValue(sign, d)
  }

  /**
   * `int()` accepts exactly the integer literals: it reads v from s if and
   * only if s is whitespace, an optional sign, digits worth v and whitespace.
   */
  lemma ParseIntIff(s: string, v: int)
    ensures ParseInt(s) == Some(v) <==> exists w1, sign, d, w2 :: IntLiteral(s, w1, sign, d, w2, v)
  {
    if ParseInt(s) == Some(v) {
      ParseIntSound(s);
    }
    if exists w1, sign, d, w2 :: IntLiteral(s, w1, sign, d, w2, v) {
      var w1, sign, d, w2 :| IntLiteral(s, w1, sign, d, w2, v);
      ParseIntComplete(w1, sign, d, w2);
    }
  }

  /** Every literal is read as its value. */
  lemma ParseIntComplete(w1: string, sign: string, d: string, w2: string)
    requires SpaceRun(w1) && SpaceRun(w2) && IsSign(sign) && DigitRun(d)
    ensures ParseInt(w1 + sign + d + w2) == Some(SignedValue(sign, d))
  {
    var t := sign + d;
    SignedLiteral(sign, d);
    Regroup(w1, sign, d, w2);
    StripPadded(w1, t, w2);
  }

  /** Whatever `int()` reads is a literal of the value read. */
  lemma ParseIntSound(s: string)
    requires ParseInt(s).Some?
    ensures exists w1, sign, d, w2 :: IntLiteral(s, w1, sign, d, w2, ParseInt(s).value)
  {
    var t := Strip(s);
    var w1, w2 := StripSplits(s);
    var sign, d := SignedSound(t);
    Regroup(w1, sign, d, w2);
    assert IntLiteral(s, w1, sign, d, w2, ParseInt(s).value);
  }

  lemma NoSign(w1: string, d: string, w2: string)
    ensures w1 + [] + d + w2 == w1 + d + w2
    ensures [] + [] + d + [] == d
  {
    assert [] + d == d;
  }

  lemma Regroup(w1: string, sign: string, d: string, w2: string)
    ensures w1 + sign + d + w2 == w1 + (sign + d) + w2
  {
  }

  /** A sign and digits read as their signed value. */
  lemma SignedLiteral(sign: string, d: string)
    requires IsSign(sign) && DigitRun(d)
    ensures var t := sign + d; t != [] && !IsSpace(t[0]) && !IsSpace(t[|t| - 1])
    ensures ParseSigned(sign + d) == Some(SignedValue(sign, d))
  {
    var t := sign + d;
    assert IsDigit(d[0]) && IsDigit(d[|d| - 1]);
    assert t[|t| - 1] == d[|d| - 1];
    if sign != [] {
      assert t[0] == sign[0] && t[1..] == d;
    } else {
      assert t == d;
    }
  }

  /** What ParseSigned reads is a sign and digits worth the value read. */
  lemma SignedSound(t: string) returns (sign: string, d: string)
    requires ParseSigned(t).Some?
    ensures t == sign + d && IsSign(sign) && DigitRun(d)
    ensures ParseSigned(t).value == SignedValue(sign, d)
  {
    if t[0] == '+' || t[0] == '-' {
      sign, d := t[..1], t[1..];
      assert t == sign + d;
    } else {
      sign, d := [], t;
      assert t == sign + d;
    }
  }

  /** A string is its stripped core between two runs of whitespace. */
  lemma StripSplits(s: string) returns (w1: string, w2: string)
    ensures s == w1 + Strip(s) + w2 && SpaceRun(w1) && SpaceRun(w2)
  {
    var l := TrimLeft(s);
    var t := TrimRight(l);
    w1, w2 := s[..|s| - |l|], l[|t|..];
    SplitAround(s, l, t);
  }

  /** s cut at a suffix l, and l cut at a prefix t. */
  lemma SplitAround(s: string, l: string, t: string)
    requires |l| <= |s| && l == s[|s| - |l|..] && |t| <= |l| && t == l[..|t|]
    ensures s == s[..|s| - |l|] + t + l[|t|..]
  {
    assert s == s[..|s| - |l|] + l;
    assert l == t + l[|t|..];
  }

  lemma {:induction false} StripPadded(pad1: string, s: string, pad2: string)
    requires SpaceRun(pad1) && SpaceRun(pad2)
    requires s != [] && !IsSpace(s[0]) && !IsSpace(s[|s| - 1])
    ensures Strip(pad1 + s + pad2) == s
  {
    TrimLeftPad(pad1, s + pad2);
    assert pad1 + s + pad2 == pad1 + (s + pad2);
    TrimRightPad(s, pad2);
  }

  lemma {:induction false} TrimLeftPad(pad: string, s: string)
    requires forall i :: 0 <= i < |pad| ==> IsSpace(pad[i])
    requires s != [] && !IsSpace(s[0])
    ensures TrimLeft(pad + s) == s
  {
    if pad != [] {
      var t := pad + s;
      assert t[0] == pad[0] && IsSpace(pad[0]);
      assert t[1..] == pad[1..] + s;
      TrimLeftPad(pad[1..], s);
    } else {
      assert pad + s == s;
    }
  }

  lemma {:induction false} TrimRightPad(s: string, pad: string)
    requires forall i :: 0 <= i < |pad| ==> IsSpace(pad[i])
    requires s != [] && !IsSpace(s[|s| - 1])
    ensures TrimRight(s + pad) == s
  {
    if pad != [] {
      var p := pad[..|pad| - 1];
      TrimRightPad(s, p);
      assert (s + pad)[..|s + pad| - 1] == s + p;
    } else {
      assert s + pad == s;
    }
  }

  /** The ports `range(lower, upper + 1)` contributes. */
  function RangePorts(lower: int, upper: int): (r: seq<int>)
    ensures |r| == if lower <= upper then upper - lower + 1 else 0
    ensures forall i :: 0 <= i < |r| ==> r[i] == lower + i
  {
    if lower <= upper then seq(upper - lower + 1, i => lower + i) else []
  }

  /**
   * What one comma-separated section contributes: without a hyphen, the one
   * port `int(section)`; with one, the range from the integer before the
   * first hyphen to the integer after it (anything after a second hyphen is
   * ignored).
   */
  function SectionPorts(section: string): Result<set<int>, PortListError> {
    if '-' !in section then
      match ParseInt(section)
      case None => Failure(SyntaxError(section))
      case Some(port) => Success({port})
    else
      var lowerAndUpper := Split(section, '-');
      var lower := ParseInt(lowerAndUpper[0]);
      var upper := ParseInt(lowerAndUpper[1]);
      if lower.None? || upper.None? then Failure(SyntaxError(section))
      else if lower.value > upper.value then Failure(InvalidRange(section))
      else Success(Elems(RangePorts(lower.value, upper.value)))
  }

  /**
   * The ports of the sections in order; the first section that fails
   * decides the error.
   */
  function ParsedPorts(sections: seq<string>): Result<set<int>, PortListError> {
    if sections == [] then Success({})
    else
      match ParsedPorts(sections[..|sections| - 1])
      case Failure(e) => Failure(e)
      case Success(earlier) =>
        match SectionPorts(sections[|sections| - 1])
        case Failure(e) => Failure(e)
        case Success(ports) => Success(earlier + ports)
  }

  /**
   * `port_list_from_string`: the distinct ports of every section, in no
   * particular order (the source returns `list(set(port_list))`), or the
   * error of the first section that fails.
   */
  method PortListFromString(portString: string) returns (r: Result<seq<int>, PortListError>)
    ensures r.Failure? <==> ParsedPorts(Split(portString, ',')).Failure?
    ensures r.Failure? ==> r.error == ParsedPorts(Split(portString, ',')).error
    ensures r.Success? ==> Distinct(r.value) && Elems(r.value) == ParsedPorts(Split(portString, ',')).value
  {
    var portList: seq<int> := [];
    var commaSeparated := Split(portString, ',');
    assert commaSeparated[..0] == [] && Elems(portList) == {};
    for i := 0 to |commaSeparated|
      invariant ParsedPorts(commaSeparated[..i]) == Success(Elems(portList))
    {
      var section := commaSeparated[i];
      ParsedPortsExtend(commaSeparated, i, Elems(portList));
      var added: seq<int>;
      if '-' !in section {
        var portNum := ParseInt(section);
        if portNum.None? {
          return Failure(SyntaxError(section));
        }
        added := [portNum.value];
        assert Elems(added) == {portNum.value};
      } else {
        var lowerAndUpper := Split(section, '-');
        var lower := ParseInt(lowerAndUpper[0]);
        var upper := ParseInt(lowerAndUpper[1]);
        if lower.None? || upper.None? {
          return Failure(SyntaxError(section));
        }
        if lower.value > upper.value {
          return Failure(InvalidRange(section));
        }
        added := RangePorts(lower.value, upper.value);
        HyphenSection(section, lowerAndUpper[0], lowerAndUpper[1], lower.value, upper.value);
      }
      ElemsConcat(portList, added);
      portList := portList + added;
    }
    assert commaSeparated[..|commaSeparated|] == commaSeparated;
    var unique := ListOfSet(Elems(portList));
    r := Success(unique);
  }

  lemma ElemsConcat(a: seq<int>, b: seq<int>)
    ensures Elems(a + b) == Elems(a) + Elems(b)
  {
  }

  /**
   * One more section: its failure is the failure of the whole list, its
   * ports join those of the sections before it.
   */
  lemma ParsedPortsExtend(sections: seq<string>, i: int, earlier: set<int>)
    requires 0 <= i < |sections| && ParsedPorts(sections[..i]) == Success(earlier)
    ensures SectionPorts(sections[i]).Failure? ==>
              ParsedPorts(sections) == Failure(SectionPorts(sections[i]).error)
    ensures SectionPorts(sections[i]).Success? ==>
              ParsedPorts(sections[..i + 1]) == Success(earlier + SectionPorts(sections[i]).value)
  {
    assert sections[..i + 1][..i] == sections[..i];
    if SectionPorts(sections[i]).Failure? {
      ParsedPortsFailureSticks(sections, i + 1);
    }
  }

  /** Once a section fails, later sections change nothing. */
  lemma {:induction false} ParsedPortsFailureSticks(sections: seq<string>, k: int)
    requires 0 <= k <= |sections| && ParsedPorts(sections[..k]).Failure?
    ensures ParsedPorts(sections) == ParsedPorts(sections[..k])
    decreases |sections|
  {
    if k < |sections| {
      var init := sections[..|sections| - 1];
      assert init[..k] == sections[..k];
      ParsedPortsFailureSticks(init, k);
    } else {
      assert sections[..k] == sections;
    }
  }

  lemma RangePortsAreInterval(lower: int, upper: int)
    ensures forall p :: p in Elems(RangePorts(lower, upper)) <==> lower <= p <= upper
  {
    var r := RangePorts(lower, upper);
    forall p | lower <= p <= upper ensures p in r {
      assert r[p - lower] == p;
    }
  }

  /** A section that is a plain number is that one port. */
  lemma SinglePortSection(n: nat)
    ensures SectionPorts(NatToString(n)) == Success({n})
  {
    ParseNatToString(n, [], []);
  }

  /**
   * Two runs of digits joined by a hyphen are every port from the first
   * number to the second, or an invalid range when the first is larger.
   */
  lemma RangeSection(x: string, y: string)
    requires x != [] && forall i :: 0 <= i < |x| ==> IsDigit(x[i])
    requires y != [] && forall i :: 0 <= i < |y| ==> IsDigit(y[i])
    ensures var a, b := DigitsValue(x), DigitsValue(y);
      var r := SectionPorts(x + "-" + y);
      && (r.Success? <==> a <= b)
      && (r.Success? ==> forall p :: p in r.value <==> a <= p <= b)
      && (r.Failure? ==> r.error == InvalidRange(x + "-" + y))
  {
    ReadDigits(x);
    ReadDigits(y);
    RangeOfNumbers(x, y, DigitsValue(x), DigitsValue(y));
  }

  /** A run of digits reads as its value and holds no hyphen. */
  lemma ReadDigits(d: string)
    requires d != [] && forall i :: 0 <= i < |d| ==> IsDigit(d[i])
    ensures ParseInt(d) == Some(DigitsValue(d)) && '-' !in d
  {
    ParseIntComplete([], [], d, []);
    NoSign([], d, []);
    assert forall c :: c in d ==> IsDigit(c);
  }

  /** "x-y" where x reads as a and y as b, neither holding a hyphen. */
  lemma RangeOfNumbers(x: string, y: string, a: int, b: int)
    requires '-' !in x && '-' !in y
    requires ParseInt(x) == Some(a) && ParseInt(y) == Some(b)
    ensures var r := SectionPorts(x + "-" + y);
      && (r.Success? <==> a <= b)
      && (r.Success? ==> forall p :: p in r.value <==> a <= p <= b)
      && (r.Failure? ==> r.error == InvalidRange(x + "-" + y))
  {
    var s := x + "-" + y;
    HyphenatedPair(x, y);
    assert s[|x|] == '-';
    HyphenSection(s, x, y, a, b);
    RangePortsAreInterval(a, b);
  }

  /** A section with a hyphen whose first two pieces read as lower and upper. */
  lemma HyphenSection(section: string, x: string, y: string, lower: int, upper: int)
    requires '-' in section
    requires Split(section, '-')[0] == x && Split(section, '-')[1] == y
    requires ParseInt(x) == Some(lower) && ParseInt(y) == Some(upper)
    ensures SectionPorts(section)
            == if lower <= upper then Success(Elems(RangePorts(lower, upper))) else Failure(InvalidRange(section))
  {
  }

  /**
   * Anything after a second hyphen is ignored: "x-y-rest" gives the ports
   * of "x-y", or fails the same way.
   */
  lemma ExtraHyphenIgnored(x: string, y: string, rest: string)
    requires '-' !in x && '-' !in y
    ensures var long := SectionPorts(x + "-" + y + "-" + rest);
      var short := SectionPorts(x + "-" + y);
      && (long.Success? <==> short.Success?)
      && (long.Success? ==> long.value == short.value)
      && (long.Failure? ==> long.error.InvalidRange? == short.error.InvalidRange?)
  {
    HyphenatedTriple(x, y, rest);
    HyphenatedPair(x, y);
    assert (x + "-" + y + "-" + rest)[|x|] == '-';
    assert (x + "-" + y)[|x|] == '-';
    SameLeadingPieces(x + "-" + y + "-" + rest, x + "-" + y);
  }

  /** A hyphenated section is decided by its first two pieces alone. */
  lemma SameLeadingPieces(s: string, t: string)
    requires '-' in s && '-' in t
    requires Split(s, '-')[0] == Split(t, '-')[0] && Split(s, '-')[1] == Split(t, '-')[1]
    ensures SectionPorts(s).Success? <==> SectionPorts(t).Success?
    ensures SectionPorts(s).Success? ==> SectionPorts(s).value == SectionPorts(t).value
    ensures SectionPorts(s).Failure? ==> SectionPorts(s).error.InvalidRange? == SectionPorts(t).error.InvalidRange?
  {
  }

  /** "x-y" splits into x and y when neither holds a hyphen. */
  lemma HyphenatedPair(x: string, y: string)
    requires '-' !in x && '-' !in y
    ensures Split(x + "-" + y, '-') == [x, y]
  {
    SplitPiece(x, y, '-');
    assert x + "-" + y == x + ['-'] + y;
  }

  /** "x-y-rest" starts with the pieces x and y when neither holds a hyphen. */
  lemma HyphenatedTriple(x: string, y: string, rest: string)
    requires '-' !in x && '-' !in y
    ensures var r := Split(x + "-" + y + "-" + rest, '-'); |r| >= 2 && r[0] == x && r[1] == y
  {
    SplitPiece(x, y + "-" + rest, '-');
    SplitPiece(y, rest, '-');
    assert x + "-" + y + "-" + rest == x + ['-'] + (y + ['-'] + rest);
  }

  /** A hyphen with no number on one side, or no number at all, is a syntax error. */
  lemma MissingNumberIsSyntaxError(n: nat)
    ensures SectionPorts("") == Failure(SyntaxError(""))
    ensures SectionPorts("-" + NatToString(n)) == Failure(SyntaxError("-" + NatToString(n)))
    ensures SectionPorts(NatToString(n) + "-") == Failure(SyntaxError(NatToString(n) + "-"))
  {
    HyphenatedPair([], NatToString(n));
    HyphenatedPair(NatToString(n), []);
    assert "-" + NatToString(n) == [] + "-" + NatToString(n);
    assert NatToString(n) + "-" == NatToString(n) + "-" + [];
  }

  /** An empty port string is one empty section, hence a syntax error. */
  lemma EmptyPortStringFails()
    ensures ParsedPorts(Split("", ',')) == Failure(SyntaxError(""))
  {
    MissingNumberIsSyntaxError(0);
    assert Split("", ',') == [""];
    assert [""][..0] == [];
  }

  /**
   * No port comes out negative: a minus sign always counts as the range
   * hyphen, so it never reaches `int()`.
   */
  lemma {:induction false} ParsedPortsNonNegative(sections: seq<string>)
    ensures ParsedPorts(sections).Success? ==> forall p :: p in ParsedPorts(sections).value ==> p >= 0
  {
    if sections != [] {
      ParsedPortsNonNegative(sections[..|sections| - 1]);
      SectionPortsNonNegative(sections[|sections| - 1]);
    }
  }

  lemma SectionPortsNonNegative(section: string)
    ensures SectionPorts(section).Success? ==> forall p :: p in SectionPorts(section).value ==> p >= 0
  {
    if '-' in section && SectionPorts(section).Success? {
      var pieces := Split(section, '-');
      var lower := ParseInt(pieces[0]).value;
      RangePortsAreInterval(lower, ParseInt(pieces[1]).value);
    }
  }
}

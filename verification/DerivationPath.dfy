/** Derivation paths of hierarchical deterministic wallets, as text and as lists of 32-bit numbers.
    Numbers from 2^31 on are the hardened ones of BIP-32, and are written with a quote mark. */
module DerivationPaths {
  import opened Options

  const HARDENED: nat := 0x8000_0000
  const MAX_UINT32: nat := 0xFFFF_FFFF

  type Component = n: nat | n <= MAX_UINT32
  type Path = seq<Component>

  const DEFAULT_ROOT: Path := [HARDENED + 44, HARDENED + 60, HARDENED + 0, 0]

  // ---- splitting and joining -----------------------------------------------------------------------

  function Split(s: string): (r: seq<string>)
    ensures r != []
  {
    if s == [] then [[]]
    else if s[0] == '/' then [[]] + Split(s[1..])
    else var t := Split(s[1..]); [[s[0]] + t[0]] + t[1..]
  }

  function Join(parts: seq<string>): string
    requires parts != []
  {
    if |parts| == 1 then parts[0] else parts[0] + ['/'] + Join(parts[1..])
  }

  lemma {:induction false} SplitNone(s: string)
    requires '/' !in s
    ensures Split(s) == [s]
  {
    if s != [] {
      SplitNone(s[1..]);
      assert s == [s[0]] + s[1..];
    }
  }

  lemma {:induction false} SplitFirst(a: string, b: string)
    requires '/' !in a
    ensures Split(a + ['/'] + b) == [a] + Split(b)
  {
    var s := a + ['/'] + b;
    if a == [] {
      assert s[1..] == b;
    } else {
      assert s[1..] == a[1..] + ['/'] + b;
      SplitFirst(a[1..], b);
      assert a == [a[0]] + a[1..];
    }
  }

  lemma {:induction false} SplitJoin(parts: seq<string>)
    requires parts != [] && forall p :: p in parts ==> '/' !in p
    ensures Split(Join(parts)) == parts
    decreases |parts|
  {
    assert parts[0] in parts;
    if |parts| == 1 {
      SplitNone(parts[0]);
    } else {
      forall p | p in parts[1..] ensures '/' !in p { assert p in parts; }
      SplitJoin(parts[1..]);
      SplitFirst(parts[0], Join(parts[1..]));
    }
  }

  lemma {:induction false} JoinAppend(parts: seq<string>, last: string)
    requires parts != []
    ensures Join(parts + [last]) == Join(parts) + ['/'] + last
  {
    var longer := parts + [last];
    if |parts| == 1 {
      assert longer[1..] == [last];
    } else {
      assert longer[1..] == parts[1..] + [last];
      JoinAppend(parts[1..], last);
    }
  }

  // ---- white space -------------------------------------------------------------------------------

  /** The characters with Unicode's white space property. */
  predicate IsSpace(c: char) {
    var n := c as int;
    9 <= n <= 13 || n in {0x20, 0x85, 0xA0, 0x1680, 0x2028, 0x2029, 0x202F, 0x205F, 0x3000} || 0x2000 <= n <= 0x200A
  }

  function TrimLeft(s: string): string {
    if s != [] && IsSpace(s[0]) then TrimLeft(s[1..]) else s
  }

  function TrimRight(s: string): string {
    if s != [] && IsSpace(s[|s| - 1]) then TrimRight(s[..|s| - 1]) else s
  }

  function TrimSpace(s: string): string { TrimRight(TrimLeft(s)) }

  lemma TrimNothing(s: string)
    requires s != [] ==> !IsSpace(s[0]) && !IsSpace(s[|s| - 1])
    ensures TrimSpace(s) == s
  {}

  // ---- numbers -----------------------------------------------------------------------------------

  function DigitValue(c: char): nat {
    if '0' <= c <= '9' then c as int - '0' as int
    else if 'a' <= c <= 'z' then c as int - 'a' as int + 10
    else if 'A' <= c <= 'Z' then c as int - 'A' as int + 10
    else 99
  }

  predicate AllDigits(s: string, base: nat) { forall c :: c in s ==> DigitValue(c) < base }

  function Value(s: string, base: nat): nat {
    if s == [] then 0 else Value(s[..|s| - 1], base) * base + DigitValue(s[|s| - 1])
  }

  /** A number without sign; the base is 16, 2 or 8 after the prefix 0x, 0b or 0, and else 10. */
  function ParseNat(s: string): Option<nat> {
    if |s| >= 2 && s[0] == '0' then
      var base := if s[1] == 'x' || s[1] == 'X' then 16 else if s[1] == 'b' || s[1] == 'B' then 2 else 8;
      var digits := if base == 8 then s[1..] else s[2..];
      if digits != [] && AllDigits(digits, base) then Some(Value(digits, base)) else None
    else if s != [] && AllDigits(s, 10) then Some(Value(s, 10)) else None
  }

  function ParseInt(s: string): Option<int> {
    if s != [] && (s[0] == '-' || s[0] == '+') then
      match ParseNat(s[1..])
      case None => None
      case Some(n) => Some(if s[0] == '-' then 0 - (n as int) else n)
    else
      match ParseNat(s)
      case None => None
      case Some(n) => Some(n)
  }

  function Digit(n: nat): char
    requires n < 10
  {
    ('0' as int + n) as char
  }

  function Decimal(n: nat): string {
    if n < 10 then [Digit(n)] else Decimal(n / 10) + [Digit(n % 10)]
  }

  /** Decimal notation has only digits, and no superfluous zero in front. */
  lemma {:induction false} DecimalDigits(n: nat)
    ensures Decimal(n) != [] && forall c :: c in Decimal(n) ==> '0' <= c <= '9'
    ensures Decimal(n)[0] == '0' <==> n == 0
    ensures n == 0 ==> Decimal(n) == "0"
  {
    if n >= 10 { DecimalDigits(n / 10); }
  }

  lemma {:induction false} DecimalValue(n: nat)
    ensures Value(Decimal(n), 10) == n
  {
    if n < 10 {
      assert Decimal(n)[..0] == [];
    } else {
      DecimalValue(n / 10);
      var d := Decimal(n);
      assert d[..|d| - 1] == Decimal(n / 10);
    }
  }

  lemma ParseDecimal(n: nat)
    ensures ParseInt(Decimal(n)) == Some(n)
  {
    var d := Decimal(n);
    DecimalDigits(n);
    DecimalValue(n);
    assert d[0] in d;
    assert AllDigits(d, 10);
  }

  function Figure(n: nat, upper: bool): char
    requires n < 16
  {
    if n < 10 then ('0' as int + n) as char
    else ((if upper then 'A' as int else 'a' as int) + n - 10) as char
  }

  lemma FigureValue(n: nat, upper: bool)
    requires n < 16
    ensures DigitValue(Figure(n, upper)) == n
  {}

  lemma QuotientIsLess(q: nat, r: nat, base: nat)
    requires base >= 2
    ensures q * base + r > 0 ==> q < q * base + r
  {
    assert q * base == q + q * (base - 1);
    if q > 0 { assert q * (base - 1) >= 1; }
  }

  function Quotient(n: nat, base: nat): (q: nat)
    requires base >= 2
    ensures n > 0 ==> q < n
  {
    QuotientIsLess(n / base, n % base, base);
    n / base
  }

  function Remainder(n: nat, base: nat): (r: nat)
    requires base >= 2
    ensures r < base && (n < base ==> r == n)
  {
    n % base
  }

  /** A number in any base up to 16, with small or capital letters. */
  function Notation(n: nat, base: nat, upper: bool): string
    requires 2 <= base <= 16
  {
    if n < base then [Figure(n, upper)]
    else Notation(Quotient(n, base), base, upper) + [Figure(Remainder(n, base), upper)]
  }

  lemma OneDigitMore(s: string, c: char, base: nat)
    ensures Value(s + [c], base) == Value(s, base) * base + DigitValue(c)
    ensures AllDigits(s, base) && DigitValue(c) < base ==> AllDigits(s + [c], base)
  {
    hide DigitValue;
    assert (s + [c])[..|s|] == s;
  }

  lemma NoDigits(base: nat)
    ensures Value([], base) == 0 && AllDigits([], base)
  {}

  lemma NotationMore(s: string, q: nat, c: char, base: nat)
    requires AllDigits(s, base) && Value(s, base) == q && DigitValue(c) < base
    ensures AllDigits(s + [c], base) && Value(s + [c], base) == q * base + DigitValue(c)
  {
    hide DigitValue, Value, AllDigits;
    OneDigitMore(s, c, base);
  }

  lemma Recomposed(n: nat, base: nat)
    requires base >= 2
    ensures Quotient(n, base) * base + Remainder(n, base) == n
  {}

  lemma {:induction false} NotationValue(n: nat, base: nat, upper: bool)
    requires 2 <= base <= 16
    ensures var s := Notation(n, base, upper); s != [] && AllDigits(s, base) && Value(s, base) == n
  {
    hide DigitValue, Figure, Value, AllDigits, Quotient, Remainder;
    Recomposed(n, base);
    var q, r := Quotient(n, base), Remainder(n, base);
    var c := Figure(r, upper);
    FigureValue(r, upper);
    if n < base {
      NoDigits(base);
      NotationMore([], 0, c, base);
      assert [] + [c] == [c] && r == n;
    } else {
      NotationValue(q, base, upper);
      NotationMore(Notation(q, base, upper), q, c, base);
    }
  }

  lemma ParseOctal(s: string)
    requires s != [] && AllDigits(s, 8)
    ensures ParseInt("0" + s) == Some(Value(s, 8))
  {
    hide Value;
    var text := "0" + s;
    assert text[1..] == s && text[1] == s[0] && s[0] in s;
  }

  lemma ParseBase(c: char, s: string, base: nat)
    requires s != [] && AllDigits(s, base)
    requires (base == 16 && (c == 'x' || c == 'X')) || (base == 2 && (c == 'b' || c == 'B'))
    ensures ParseInt(['0', c] + s) == Some(Value(s, base))
  {
    hide Value, DigitValue;
    var text := ['0', c] + s;
    assert text[2..] == s && text[0] == '0' && text[1] == c;
  }

  /** Hexadecimal, binary and octal notation are read back as the number. */
  lemma ParsePrefixed(n: nat, upper: bool)
    ensures ParseInt("0x" + Notation(n, 16, upper)) == ParseInt("0X" + Notation(n, 16, upper)) == Some(n)
    ensures ParseInt("0b" + Notation(n, 2, upper)) == ParseInt("0B" + Notation(n, 2, upper)) == Some(n)
    ensures ParseInt("0" + Notation(n, 8, upper)) == Some(n)
  {
    hide ParseInt, Value, DigitValue, AllDigits, Notation;
    NotationValue(n, 16, upper);
    NotationValue(n, 2, upper);
    NotationValue(n, 8, upper);
    ParseBase('x', Notation(n, 16, upper), 16);
    ParseBase('X', Notation(n, 16, upper), 16);
    ParseBase('b', Notation(n, 2, upper), 2);
    ParseBase('B', Notation(n, 2, upper), 2);
    ParseOctal(Notation(n, 8, upper));
    assert "0x" == ['0', 'x'] && "0X" == ['0', 'X'] && "0b" == ['0', 'b'] && "0B" == ['0', 'B'];
  }

  /** A sign in front of a number without one. */
  lemma ParseSigned(s: string)
    requires s != [] && s[0] != '-' && s[0] != '+'
    ensures ParseInt("+" + s) == ParseInt(s)
    ensures ParseInt("-" + s) == match ParseInt(s) case None => None case Some(n) => Some(-n)
  {
    assert ("+" + s)[1..] == s && ("-" + s)[1..] == s;
  }

  /** Without a digit, or with one that the base does not have, there is no number. */
  lemma ParseRefuses()
    ensures ParseInt("") == ParseInt("-") == ParseInt("0x") == ParseInt("0b") == None
    ensures ParseInt("0xg") == ParseInt("0b2") == ParseInt("08") == ParseInt("1a") == ParseInt("--1") == None
  {
    assert "0xg"[2..] == "g" && 'g' in "g";
    assert "0b2"[2..] == "2" && '2' in "2";
    assert "08"[1..] == "8" && '8' in "8";
    assert 'a' in "1a";
    assert "--1"[1..] == "-1" && '-' in "-1";
    assert "-"[1..] == "" && "0x"[2..] == "" && "0b"[2..] == "";
  }

  // ---- parsing and printing ----------------------------------------------------------------------

  datatype Error = Ambiguous | Empty | Invalid | OutOfRange

  datatype Result<T> = Ok(value: T) | Err(error: Error)

  predicate Quoted(s: string) { s != [] && s[|s| - 1] == '\'' }

  function ParseComponent(s: string): Result<Component> {
    var t := TrimSpace(s);
    var base := if Quoted(t) then HARDENED else 0;
    match ParseInt(if Quoted(t) then TrimSpace(t[..|t| - 1]) else t)
    case None => Err(Invalid)
    case Some(v) => if v < 0 || v > MAX_UINT32 - base then Err(OutOfRange) else Ok(base + v)
  }

  function Extend(r: Result<Path>, c: Result<Component>): Result<Path> {
    if r.Err? then r else if c.Err? then Err(c.error) else Ok(r.value + [c.value])
  }

  /** All components, or the first error. */
  function ParseAll(components: seq<string>): Result<Path> {
    if components == [] then Ok([])
    else
      Extend(ParseAll(components[..|components| - 1]), ParseComponent(components[|components| - 1]))
  }

  function Under(root: Path, r: Result<Path>): Result<Path> {
    if r.Err? then r else Ok(root + r.value)
  }

  /** Absolute paths start with m; to others the default root is put in front. */
  function Parse(text: string): Result<Path> {
    var components := Split(text);
    var first := TrimSpace(components[0]);
    if first == "" then Err(Ambiguous)
    else if first == "m" then
      if |components| == 1 then Err(Empty) else ParseAll(components[1..])
    else Under(DEFAULT_ROOT, ParseAll(components))
  }

  function Show(c: Component): string {
    if c >= HARDENED then Decimal(c - HARDENED) + ['\''] else Decimal(c)
  }

  function Shows(path: Path): seq<string> { seq(|path|, i requires 0 <= i < |path| => Show(path[i])) }

  function Print(path: Path): string {
    if path == [] then "m" else Print(path[..|path| - 1]) + ['/'] + Show(path[|path| - 1])
  }

  lemma ParseAllNone()
    ensures ParseAll([]) == Ok([])
  {}

  /** An error among the first components is the error of all. */
  lemma {:induction false} ParseAllNext(components: seq<string>, i: nat)
    requires i < |components|
    ensures ParseAll(components[..i + 1]) == Extend(ParseAll(components[..i]), ParseComponent(components[i]))
    ensures ParseAll(components[..i + 1]).Err? ==> ParseAll(components) == ParseAll(components[..i + 1])
    decreases |components|
  {
    hide ParseComponent;
    assert components[..i + 1][..i] == components[..i];
    var n := |components| - 1;
    if i < n {
      ParseAllNext(components[..n], i);
      assert components[..n][..i + 1] == components[..i + 1] && components[..n][..i] == components[..i];
    } else {
      assert components[..i + 1] == components;
    }
  }

  /** Appends the components to a root, one by one. */
  method AppendAll(root: Path, components: seq<string>) returns (r: Result<Path>)
    ensures r == Under(root, ParseAll(components))
  {
    hide ParseInt, TrimSpace, ParseAll;
    var result := root;
    ParseAllNone();
    for i := 0 to |components|
      invariant ParseAll(components[..i]).Ok? && result == root + ParseAll(components[..i]).value
    {
      ParseAllNext(components, i);
      var component := TrimSpace(components[i]);
      var value := 0;
      if Quoted(component) {
        value := HARDENED;
        component := TrimSpace(component[..|component| - 1]);
      }
      var bigval := ParseInt(component);
      if bigval == None { return Err(Invalid); }
      if bigval.value < 0 || bigval.value > MAX_UINT32 - value { return Err(OutOfRange); }
      result := result + [value + bigval.value];
    }
    assert components[..|components|] == components;
    r := Ok(result);
  }

  lemma UnderNothing(r: Result<Path>)
    ensures Under([], r) == r
  {
    if r.Ok? { assert [] + r.value == r.value; }
  }

  method ParseDerivationPath(text: string) returns (r: Result<Path>)
    ensures r == Parse(text)
  {
    hide ParseAll, TrimSpace;
    var components := Split(text);
    var first := TrimSpace(components[0]);
    var root := [];
    if first == "" { return Err(Ambiguous); }
    if first == "m" {
      components := components[1..];
    } else {
      root := DEFAULT_ROOT;
    }
    if components == [] { return Err(Empty); }
    r := AppendAll(root, components);
    UnderNothing(ParseAll(components));
  }

  lemma ExtendUnder(root: Path, r: Result<Path>, c: Result<Component>)
    ensures Extend(Under(root, r), c) == Under(root, Extend(r, c))
  {
    if r.Ok? && c.Ok? { assert root + (r.value + [c.value]) == root + r.value + [c.value]; }
  }

  method ToString(path: Path) returns (result: string)
    ensures result == Print(path)
  {
    result := "m";
    for i := 0 to |path|
      invariant result == Print(path[..i])
    {
      var component: nat, hardened := path[i], false;
      if component >= HARDENED {
        component, hardened := component - HARDENED, true;
      }
      result := result + ['/'] + Decimal(component);
      if hardened { result := result + ['\'']; }
      assert path[..i + 1][..i] == path[..i];
    }
    assert path[..|path|] == path;
  }

  // ---- the round trip ----------------------------------------------------------------------------

  lemma ShowIsPlain(c: Component)
    ensures Show(c) != [] && '/' !in Show(c) && TrimSpace(Show(c)) == Show(c)
    ensures Quoted(Show(c)) <==> c >= HARDENED
  {
    var d := Decimal(if c >= HARDENED then c - HARDENED else c);
    DecimalDigits(if c >= HARDENED then c - HARDENED else c);
    assert d[0] in d && d[|d| - 1] in d;
    TrimNothing(Show(c));
  }

  /** A printed component is read as what it was. */
  lemma ParseShow(c: Component)
    ensures ParseComponent(Show(c)) == Ok(c)
  {
    ShowIsPlain(c);
    var n := if c >= HARDENED then c - HARDENED else c;
    var d := Decimal(n);
    DecimalDigits(n);
    assert d[0] in d && d[|d| - 1] in d;
    TrimNothing(d);
    ParseDecimal(n);
    if c >= HARDENED { assert Show(c)[..|Show(c)| - 1] == d; }
  }

  lemma {:induction false} ParseShows(path: Path)
    ensures ParseAll(Shows(path)) == Ok(path)
  {
    hide ParseComponent, Show;
    if path != [] {
      var n := |path| - 1;
      ParseShows(path[..n]);
      assert Shows(path)[..n] == Shows(path[..n]);
      ParseShow(path[n]);
      assert path == path[..n] + [path[n]];
    }
  }

  lemma {:induction false} PrintIsJoin(path: Path)
    ensures Print(path) == Join(["m"] + Shows(path))
  {
    if path != [] {
      var n := |path| - 1;
      PrintIsJoin(path[..n]);
      assert ["m"] + Shows(path) == (["m"] + Shows(path[..n])) + [Show(path[n])];
      JoinAppend(["m"] + Shows(path[..n]), Show(path[n]));
    }
  }

  lemma NoSlash(path: Path)
    ensures forall p :: p in ["m"] + Shows(path) ==> '/' !in p
  {
    forall p | p in ["m"] + Shows(path) ensures '/' !in p {
      if p in Shows(path) {
        var i :| 0 <= i < |path| && Show(path[i]) == p;
        ShowIsPlain(path[i]);
      }
    }
  }

  /** Parsing what was printed gives the path back, exactly if there is something in it. */
  lemma RoundTrip(path: Path)
    ensures Parse(Print(path)) == if path == [] then Err(Empty) else Ok(path)
  {
    var parts := ["m"] + Shows(path);
    PrintIsJoin(path);
    NoSlash(path);
    SplitJoin(parts);
    TrimNothing("m");
    ParseShows(path);
    assert parts[1..] == Shows(path);
  }

  // ---- spellings ---------------------------------------------------------------------------------

  predicate Blank(s: string) { forall c :: c in s ==> IsSpace(c) }

  lemma {:induction false} TrimLeftBlank(a: string, s: string)
    requires Blank(a)
    ensures TrimLeft(a + s) == TrimLeft(s)
  {
    if a == [] {
      assert a + s == s;
    } else {
      assert a[0] in a && (a + s)[1..] == a[1..] + s;
      TrimLeftBlank(a[1..], s);
    }
  }

  lemma {:induction false} TrimRightBlank(s: string, b: string)
    requires Blank(b)
    ensures TrimRight(s + b) == TrimRight(s)
  {
    if b == [] {
      assert s + b == s;
    } else {
      var n := |b| - 1;
      assert b[n] in b && (s + b)[..|s| + n] == s + b[..n];
      TrimRightBlank(s, b[..n]);
    }
  }

  lemma {:induction false} TrimLeftBefore(s: string, b: string)
    ensures TrimLeft(s + b) == if TrimLeft(s) == [] then TrimLeft(b) else TrimLeft(s) + b
  {
    if s == [] {
      assert s + b == b;
    } else if IsSpace(s[0]) {
      assert (s + b)[1..] == s[1..] + b;
      TrimLeftBefore(s[1..], b);
    }
  }

  lemma NothingToTrim()
    ensures TrimLeft([]) == TrimRight([]) == []
  {}

  lemma TrimPadding(a: string, s: string, b: string)
    requires Blank(a) && Blank(b)
    ensures TrimSpace(a + s + b) == TrimSpace(s)
  {
    hide TrimLeft, TrimRight;
    assert a + s + b == a + (s + b);
    TrimLeftBlank(a, s + b);
    TrimLeftBefore(s, b);
    if TrimLeft(s) == [] {
      TrimLeftBlank(b, []);
      assert b + [] == b;
      NothingToTrim();
    } else {
      TrimRightBlank(TrimLeft(s), b);
    }
  }

  /** White space around a component is ignored. */
  lemma PaddingIsIgnored(a: string, s: string, b: string)
    requires Blank(a) && Blank(b)
    ensures ParseComponent(a + s + b) == ParseComponent(s)
  {
    hide TrimSpace, ParseInt;
    TrimPadding(a, s, b);
  }

  /** A quote mark is not the only way to write a hardened component: the number with 2^31 added is
      read as the same one. */
  lemma TwoSpellings(n: nat)
    requires n < HARDENED
    ensures ParseComponent(Decimal(n + HARDENED)) == ParseComponent(Decimal(n) + ['\'']) == Ok(n + HARDENED)
  {
    var d := Decimal(n + HARDENED);
    ParseShow(n + HARDENED);
    DecimalDigits(n + HARDENED);
    ParseDecimal(n + HARDENED);
    assert d[0] in d && d[|d| - 1] in d;
    TrimNothing(d);
  }

  lemma {:induction false} ParseAllAppend(a: seq<string>, b: seq<string>)
    requires ParseAll(a).Ok?
    ensures ParseAll(a + b) == Under(ParseAll(a).value, ParseAll(b))
    decreases |b|
  {
    hide ParseComponent;
    if b == [] {
      assert a + b == a && ParseAll(a).value + [] == ParseAll(a).value;
    } else {
      var n := |b| - 1;
      assert (a + b)[..|a| + n] == a + b[..n];
      ParseAllAppend(a, b[..n]);
      ExtendUnder(ParseAll(a).value, ParseAll(b[..n]), ParseComponent(b[n]));
    }
  }

  lemma {:induction false} SplitAfter(parts: seq<string>, s: string)
    requires parts != [] && forall p :: p in parts ==> '/' !in p
    ensures Split(Join(parts) + ['/'] + s) == parts + Split(s)
    decreases |parts|
  {
    hide Split;
    assert parts[0] in parts;
    if |parts| == 1 {
      SplitFirst(parts[0], s);
    } else {
      forall p | p in parts[1..] ensures '/' !in p { assert p in parts; }
      SplitAfter(parts[1..], s);
      assert Join(parts) + ['/'] + s == parts[0] + ['/'] + (Join(parts[1..]) + ['/'] + s);
      SplitFirst(parts[0], Join(parts[1..]) + ['/'] + s);
    }
  }

  /** A relative path means the same as the absolute one that starts with the default root. */
  lemma RelativeToRoot(text: string)
    requires TrimSpace(Split(text)[0]) != "" && TrimSpace(Split(text)[0]) != "m"
    ensures Parse(text) == Parse(Print(DEFAULT_ROOT) + ['/'] + text)
  {
    hide TrimSpace, ParseAll, Print, Show, ParseInt;
    var parts := ["m"] + Shows(DEFAULT_ROOT);
    PrintIsJoin(DEFAULT_ROOT);
    NoSlash(DEFAULT_ROOT);
    SplitAfter(parts, text);
    TrimNothing("m");
    ParseShows(DEFAULT_ROOT);
    assert (parts + Split(text))[1..] == Shows(DEFAULT_ROOT) + Split(text);
    ParseAllAppend(Shows(DEFAULT_ROOT), Split(text));
  }

  // ---- what is read in the end ---------------------------------------------------------------------

  lemma WhatIsSpace()
    ensures IsSpace(' ') && IsSpace('\t') && IsSpace('\n') && IsSpace('\r')
    ensures !IsSpace('/') && !IsSpace('\'') && !IsSpace('-') && !IsSpace('+')
    ensures forall c :: '0' <= c <= '9' || 'a' <= c <= 'z' || 'A' <= c <= 'Z' ==> !IsSpace(c)
  {}

  /** A component is its number if that is in range, with a quote mark 2^31 more. */
  lemma ComponentOf(s: string, n: int)
    requires ParseInt(s) == Some(n) && s != [] && s[|s| - 1] != '\''
    requires !IsSpace(s[0]) && !IsSpace(s[|s| - 1])
    ensures ParseComponent(s) == if 0 <= n < 0x1_0000_0000 then Ok(n) else Err(OutOfRange)
    ensures ParseComponent(s + ['\'']) == if 0 <= n < 0x8000_0000 then Ok(0x8000_0000 + n) else Err(OutOfRange)
  {
    hide ParseInt, IsSpace;
    WhatIsSpace();
    var q := s + ['\''];
    TrimNothing(s);
    TrimNothing(q);
    assert q[..|q| - 1] == s && q[|q| - 1] == '\'';
  }

  lemma FigureIsDigit(n: nat, upper: bool)
    requires n < 16
    ensures var c := Figure(n, upper); !IsSpace(c) && c != '\''
  {}

  lemma NotationEnds(n: nat, base: nat, upper: bool)
    requires 2 <= base <= 16
    ensures var s := Notation(n, base, upper); s != [] && !IsSpace(s[|s| - 1]) && s[|s| - 1] != '\''
  {
    hide IsSpace;
    FigureIsDigit(Remainder(n, base), upper);
  }

  /** Hexadecimal components, hardened or not. */
  lemma HexadecimalComponent(n: nat, upper: bool)
    ensures var s := "0x" + Notation(n, 16, upper);
            && ParseComponent(s) == (if n < 0x1_0000_0000 then Ok(n) else Err(OutOfRange))
            && ParseComponent(s + ['\'']) == if n < 0x8000_0000 then Ok(0x8000_0000 + n) else Err(OutOfRange)
  {
    hide ParseInt, IsSpace, Notation, ParseComponent;
    var d := Notation(n, 16, upper);
    var s := "0x" + d;
    ParsePrefixed(n, upper);
    NotationEnds(n, 16, upper);
    WhatIsSpace();
    assert s[0] == '0' && s[|s| - 1] == d[|d| - 1];
    ComponentOf(s, n);
  }

  /** Negative components are refused. */
  lemma NegativeComponent(n: nat)
    requires n > 0
    ensures ParseComponent(['-'] + Decimal(n)) == Err(OutOfRange)
    ensures ParseComponent(['-'] + Decimal(n) + ['\'']) == Err(OutOfRange)
  {
    hide IsSpace, Decimal, ParseComponent;
    var d := Decimal(n);
    DecimalDigits(n);
    ParseDecimal(n);
    WhatIsSpace();
    var s := ['-'] + d;
    assert d[0] in d && d[|d| - 1] in d && s[|s| - 1] == d[|d| - 1];
    assert ParseInt(s) == Some(0 - (n as int)) by { ParseSigned(d); assert "-" == ['-']; }
    ComponentOf(s, 0 - (n as int));
  }

  /** The default root, and which error is which. */
  lemma RootAndErrors()
    ensures DEFAULT_ROOT == [0x8000_002C, 0x8000_003C, 0x8000_0000, 0]
    ensures Parse("") == Parse("/0") == Err(Ambiguous)
    ensures Parse("m") == Err(Empty)
    ensures ParseComponent("") == ParseComponent("x") == Err(Invalid)
  {
    WhatIsSpace();
    TrimNothing("");
    TrimNothing("m");
    TrimNothing("x");
    assert Split("/0")[0] == "";
    SplitNone("m");
    assert 'x' in "x";
  }
}

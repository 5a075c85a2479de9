/** The page cursor: a position and the scope of its query, as JSON in base64url. */
module PageCursor {
  import opened Records
  import opened Decimals
  import opened HistorySearch

  const MAX_CURSOR := 1024

  type Byte = b: int | 0 <= b < 256
  type Sextet = v: int | 0 <= v < 64

  // ---------------------------------------------------------------- base64url

  function CodeOf(v: Sextet): char {
    if v < 26 then ('A' as int + v) as char
    else if v < 52 then ('a' as int + v - 26) as char
    else if v < 62 then ('0' as int + v - 52) as char
    else if v == 62 then '-' else '_'
  }

  function SextetOf(c: char): Option<Sextet> {
    if 'A' <= c <= 'Z' then Some(c as int - 'A' as int)
    else if 'a' <= c <= 'z' then Some(c as int - 'a' as int + 26)
    else if '0' <= c <= '9' then Some(c as int - '0' as int + 52)
    else if c == '-' then Some(62)
    else if c == '_' then Some(63)
    else None
  }

  function Base64(b: seq<Byte>): string {
    if b == [] then ""
    else if |b| == 1 then [CodeOf(b[0] / 4), CodeOf(b[0] % 4 * 16)]
    else if |b| == 2 then [CodeOf(b[0] / 4), CodeOf(b[0] % 4 * 16 + b[1] / 16), CodeOf(b[1] % 16 * 4)]
    else [CodeOf(b[0] / 4), CodeOf(b[0] % 4 * 16 + b[1] / 16), CodeOf(b[1] % 16 * 4 + b[2] / 64),
      CodeOf(b[2] % 64)] + Base64(b[3..])
  }

  function Sextets(s: string): Option<seq<Sextet>> {
    if s == "" then Some([])
    else
      var first, rest := SextetOf(s[0]), Sextets(s[1..]);
      if first.None? || rest.None? then None else Some([first.value] + rest.value)
  }

  /** The first, second and third byte of a group of four characters. */
  function Byte1(a: Sextet, b: Sextet): Byte { (a as int) * 4 + b / 16 }
  function Byte2(b: Sextet, c: Sextet): Byte { (b % 16) as int * 16 + c / 4 }
  function Byte3(c: Sextet, d: Sextet): Byte { (c % 4) as int * 64 + d }

  /** Left-over bits at the end are dropped. */
  function Bytes(v: seq<Sextet>): seq<Byte> {
    if |v| < 2 then []
    else if |v| == 2 then [Byte1(v[0], v[1])]
    else if |v| == 3 then [Byte1(v[0], v[1]), Byte2(v[1], v[2])]
    else [Byte1(v[0], v[1]), Byte2(v[1], v[2]), Byte3(v[2], v[3])] + Bytes(v[4..])
  }

  function Unbase64(s: string): Option<seq<Byte>> {
    var v := Sextets(s);
    if v.None? then None else Some(Bytes(v.value))
  }

  lemma SextetsStep(v: Sextet, rest: string)
    requires Sextets(rest).Some?
    ensures Sextets([CodeOf(v)] + rest) == Some([v] + Sextets(rest).value)
  {
    assert ([CodeOf(v)] + rest)[1..] == rest;
    assert SextetOf(CodeOf(v)) == Some(v);
  }

  lemma SextetsOfTwo(a: Sextet, b: Sextet, rest: string)
    requires Sextets(rest).Some?
    ensures Sextets([CodeOf(a), CodeOf(b)] + rest) == Some([a, b] + Sextets(rest).value)
  {
    SextetsStep(b, rest);
    SextetsStep(a, [CodeOf(b)] + rest);
    assert [CodeOf(a)] + ([CodeOf(b)] + rest) == [CodeOf(a), CodeOf(b)] + rest;
    var v := Sextets(rest).value;
    assert [a] + ([b] + v) == [a, b] + v;
  }

  lemma SextetsOfThree(a: Sextet, b: Sextet, c: Sextet)
    ensures Sextets([CodeOf(a), CodeOf(b), CodeOf(c)]) == Some([a, b, c])
  {
    SextetsStep(c, "");
    SextetsOfTwo(a, b, [CodeOf(c)]);
    assert [CodeOf(c)] + "" == [CodeOf(c)];
    assert [CodeOf(a), CodeOf(b)] + [CodeOf(c)] == [CodeOf(a), CodeOf(b), CodeOf(c)];
    var none: seq<Sextet> := [];
    assert [c] + none == [c] && [a, b] + [c] == [a, b, c];
  }

  lemma SextetsOfFour(a: Sextet, b: Sextet, c: Sextet, d: Sextet, rest: string)
    requires Sextets(rest).Some?
    ensures Sextets([CodeOf(a), CodeOf(b), CodeOf(c), CodeOf(d)] + rest) == Some([a, b, c, d] + Sextets(rest).value)
  {
    SextetsOfTwo(c, d, rest);
    SextetsOfTwo(a, b, [CodeOf(c), CodeOf(d)] + rest);
    assert [CodeOf(a), CodeOf(b)] + ([CodeOf(c), CodeOf(d)] + rest)
      == [CodeOf(a), CodeOf(b), CodeOf(c), CodeOf(d)] + rest;
    var v := Sextets(rest).value;
    assert [a, b] + ([c, d] + v) == [a, b, c, d] + v;
  }

  lemma BytesOfFour(a: Sextet, b: Sextet, c: Sextet, d: Sextet, rest: seq<Sextet>)
    ensures Bytes([a, b, c, d] + rest) == [Byte1(a, b), Byte2(b, c), Byte3(c, d)] + Bytes(rest)
  {
    var v := [a, b, c, d] + rest;
    assert v[4..] == rest && v[0] == a && v[1] == b && v[2] == c && v[3] == d;
  }

  lemma BitsRoundTrip(x: Byte, y: Byte, z: Byte)
    ensures Byte1(x / 4, x % 4 * 16 + y / 16) == x
    ensures Byte2(x % 4 * 16 + y / 16, y % 16 * 4 + z / 64) == y
    ensures Byte3(y % 16 * 4 + z / 64, z % 64) == z
  {
  }

  lemma OneRoundTrip(x: Byte)
    ensures Unbase64(Base64([x])) == Some([x])
  {
    BitsRoundTrip(x, 0, 0);
    SextetsOfTwo(x / 4, x % 4 * 16, "");
    assert Base64([x]) == Base64([x]) + "";
    var none: seq<Sextet> := [];
    var v: seq<Sextet> := [x / 4, x % 4 * 16];
    assert v + none == v;
  }

  lemma TwoRoundTrip(x: Byte, y: Byte)
    ensures Unbase64(Base64([x, y])) == Some([x, y])
  {
    BitsRoundTrip(x, y, 0);
    SextetsOfThree(x / 4, x % 4 * 16 + y / 16, y % 16 * 4);
    assert Bytes([x / 4, x % 4 * 16 + y / 16, y % 16 * 4]) == [x, y];
  }

  lemma {:induction false} Base64RoundTrip(b: seq<Byte>)
    ensures Unbase64(Base64(b)) == Some(b)
    decreases |b|
  {
    if |b| == 1 {
      OneRoundTrip(b[0]);
      assert b == [b[0]];
    } else if |b| == 2 {
      TwoRoundTrip(b[0], b[1]);
      assert b == [b[0], b[1]];
    } else if |b| > 2 {
      Base64RoundTrip(b[3..]);
      GroupRoundTrip(b[0], b[1], b[2], b[3..]);
      assert b == [b[0], b[1], b[2]] + b[3..];
    }
  }

  lemma Base64OfGroup(x: Byte, y: Byte, z: Byte, rest: seq<Byte>)
    ensures Base64([x, y, z] + rest)
         == [CodeOf(x / 4), CodeOf(x % 4 * 16 + y / 16), CodeOf(y % 16 * 4 + z / 64), CodeOf(z % 64)] + Base64(rest)
  {
    var b := [x, y, z] + rest;
    assert b[3..] == rest && b[0] == x && b[1] == y && b[2] == z;
  }

  lemma GroupRoundTrip(x: Byte, y: Byte, z: Byte, rest: seq<Byte>)
    requires Unbase64(Base64(rest)) == Some(rest)
    ensures Unbase64(Base64([x, y, z] + rest)) == Some([x, y, z] + rest)
  {
    Base64OfGroup(x, y, z, rest);
    BitsRoundTrip(x, y, z);
    SextetsOfFour(x / 4, x % 4 * 16 + y / 16, y % 16 * 4 + z / 64, z % 64, Base64(rest));
    BytesOfFour(x / 4, x % 4 * 16 + y / 16, y % 16 * 4 + z / 64, z % 64, Sextets(Base64(rest)).value);
  }

  lemma {:induction false} Base64Length(b: seq<Byte>)
    ensures |Base64(b)| <= |b| / 3 * 4 + 4
    decreases |b|
  {
    if |b| > 2 {
      Base64Length(b[3..]);
      Base64OfGroup(b[0], b[1], b[2], b[3..]);
      assert b == [b[0], b[1], b[2]] + b[3..];
    }
  }

  // ---------------------------------------------------------------- the JSON text

  function Json(scope: string, p: Position): string {
    "{\"scope\":\"" + (scope + ("\",\"sourceOrder\":" + (Digits(p.sourceOrder) + (",\"position\":" + (Digits(p.position)
    + (",\"rowid\":" + (Digits(p.rowid) + "}")))))))
  }

  function After(lit: string, s: string): Option<string> {
    if lit <= s then Some(s[|lit|..]) else None
  }

  /** Up to the closing quote; a scope has nothing that JSON would escape. */
  function PlainPrefix(s: string): (t: string)
    ensures t <= s
  {
    if s == "" || !Plain(s[0]) then "" else [s[0]] + PlainPrefix(s[1..])
  }

  predicate Plain(c: char) { ' ' <= c <= '~' && c != '"' && c != '\\' }

  datatype Parsed = Parsed(scope: string, at: Position)

  /** A JSON number without sign, fraction or exponent. */
  function Number(s: string): Option<(nat, string)> {
    var d := LeadingDigits(s);
    if d == "" || (|d| > 1 && d[0] == '0') then None else Some((ValueOf(d), s[|d|..]))
  }

  function Field(lit: string, s: string): Option<(nat, string)> {
    var rest := After(lit, s);
    if rest.None? then None else Number(rest.value)
  }

  function Parse(s: string): Option<Parsed> {
    var start := After("{\"scope\":\"", s);
    if start.None? then None
    else
      var scope := PlainPrefix(start.value);
      var a := Field("\",\"sourceOrder\":", start.value[|scope|..]);
      if a.None? then None
      else
        var b := Field(",\"position\":", a.value.1);
        if b.None? then None
        else
          var c := Field(",\"rowid\":", b.value.1);
          if c.None? || c.value.1 != "}" then None else Some(Parsed(scope, Position(a.value.0, b.value.0, c.value.0)))
  }

  lemma AfterOf(lit: string, rest: string)
    ensures After(lit, lit + rest) == Some(rest)
  {
  }

  lemma {:induction false} PlainPrefixOf(t: string, rest: string)
    requires (forall c <- t :: Plain(c)) && rest != "" && !Plain(rest[0])
    ensures PlainPrefix(t + rest) == t
  {
    if t == "" {
      assert t + rest == rest;
    } else {
      assert (t + rest)[1..] == t[1..] + rest;
      PlainPrefixOf(t[1..], rest);
    }
  }

  lemma FieldOf(lit: string, n: nat, rest: string)
    requires rest != "" && !IsDigit(rest[0])
    ensures Field(lit, lit + (Digits(n) + rest)) == Some((n, rest))
  {
    AfterOf(lit, Digits(n) + rest);
    LeadingDigitsOf(Digits(n), rest);
    ValueOfDigits(n);
    assert (Digits(n) + rest)[|Digits(n)|..] == rest;
    if n == 0 {
      assert |Digits(n)| == 1;
    }
  }

  lemma JsonRoundTrip(scope: string, p: Position)
    requires forall c <- scope :: Plain(c)
    ensures Parse(Json(scope, p)) == Some(Parsed(scope, p))
  {
    var last := ",\"rowid\":" + (Digits(p.rowid) + "}");
    var second := ",\"position\":" + (Digits(p.position) + last);
    var first := "\",\"sourceOrder\":" + (Digits(p.sourceOrder) + second);
    AfterOf("{\"scope\":\"", scope + first);
    PlainPrefixOf(scope, first);
    assert (scope + first)[|scope|..] == first;
    FieldOf("\",\"sourceOrder\":", p.sourceOrder, second);
    FieldOf(",\"position\":", p.position, last);
    FieldOf(",\"rowid\":", p.rowid, "}");
  }

  lemma AfterIs(lit: string, s: string)
    requires After(lit, s).Some?
    ensures s == lit + After(lit, s).value
  {
  }

  lemma NumberIs(s: string)
    requires Number(s).Some?
    ensures s == Digits(Number(s).value.0) + Number(s).value.1
  {
    DigitsOfValue(LeadingDigits(s));
  }

  lemma FieldIs(lit: string, s: string)
    requires Field(lit, s).Some?
    ensures s == lit + (Digits(Field(lit, s).value.0) + Field(lit, s).value.1)
  {
    NumberIs(s[|lit|..]);
  }

  lemma {:induction false} PlainPrefixIsPlain(s: string)
    ensures forall c <- PlainPrefix(s) :: Plain(c)
  {
    if s != "" {
      PlainPrefixIsPlain(s[1..]);
    }
  }

  /** Only what is written for a scope and a position is read as them. */
  lemma ParsedIsWritten(s: string)
    requires Parse(s).Some?
    ensures s == Json(Parse(s).value.scope, Parse(s).value.at) && forall c <- Parse(s).value.scope :: Plain(c)
  {
    var start, first, a, b, c := ParsedParts(s);
    AfterIs("{\"scope\":\"", s);
    PlainPrefixIsPlain(start);
    assert start == PlainPrefix(start) + first;
    FieldIs("\",\"sourceOrder\":", first);
    FieldIs(",\"position\":", a.1);
    FieldIs(",\"rowid\":", b.1);
    JsonFrom(s, start, PlainPrefix(start), first, a, b, c);
  }

  lemma ParsedParts(s: string) returns (start: string, first: string, a: (nat, string), b: (nat, string), c: nat)
    requires Parse(s).Some?
    ensures After("{\"scope\":\"", s) == Some(start) && first == start[|PlainPrefix(start)|..]
    ensures Field("\",\"sourceOrder\":", first) == Some(a) && Field(",\"position\":", a.1) == Some(b)
    ensures Field(",\"rowid\":", b.1) == Some((c, "}"))
    ensures Parse(s).value == Parsed(PlainPrefix(start), Position(a.0, b.0, c))
  {
    start := After("{\"scope\":\"", s).value;
    first := start[|PlainPrefix(start)|..];
    a := Field("\",\"sourceOrder\":", first).value;
    b := Field(",\"position\":", a.1).value;
    c := Field(",\"rowid\":", b.1).value.0;
  }

  lemma JsonFrom(s: string, start: string, scope: string, first: string, a: (nat, string), b: (nat, string), c: nat)
    requires s == "{\"scope\":\"" + start && start == scope + first
    requires first == "\",\"sourceOrder\":" + (Digits(a.0) + a.1)
    requires a.1 == ",\"position\":" + (Digits(b.0) + b.1)
    requires b.1 == ",\"rowid\":" + (Digits(c) + "}")
    ensures s == Json(scope, Position(a.0, b.0, c))
  {
  }

  // ---------------------------------------------------------------- the cursor

  predicate Ascii(s: string) { forall i :: 0 <= i < |s| ==> s[i] as int < 128 }

  function Utf8(s: string): (b: seq<Byte>)
    requires Ascii(s)
    ensures |b| == |s|
  {
    if s == "" then [] else [s[0] as int] + Utf8(s[1..])
  }

  /** Text outside ASCII never is a cursor of this form. */
  function FromUtf8(b: seq<Byte>): Option<string> {
    if b == [] then Some("")
    else if b[0] >= 128 then None
    else
      var rest := FromUtf8(b[1..]);
      if rest.None? then None else Some([b[0] as char] + rest.value)
  }

  lemma {:induction false} Utf8RoundTrip(s: string)
    requires Ascii(s)
    ensures FromUtf8(Utf8(s)) == Some(s)
  {
    if s != "" {
      Utf8RoundTrip(s[1..]);
      assert s == [s[0]] + s[1..];
    }
  }

  predicate Safe(p: Position) {
    p.sourceOrder <= MAX_SAFE_INTEGER && p.position <= MAX_SAFE_INTEGER && p.rowid <= MAX_SAFE_INTEGER
  }

  /** A sha256 digest in hexadecimal. */
  predicate IsScope(scope: string) {
    |scope| == 64 && forall c <- scope :: '0' <= c <= '9' || 'a' <= c <= 'f'
  }

  lemma AsciiConcat(s: string, t: string)
    requires Ascii(s) && Ascii(t)
    ensures Ascii(s + t)
  {
  }

  lemma AsciiDigits(n: nat)
    ensures Ascii(Digits(n))
  {
    var d := Digits(n);
    forall i | 0 <= i < |d| ensures d[i] as int < 128 {
      assert d[i] in d && IsDigit(d[i]);
    }
  }

  lemma AsciiField(lit: string, n: nat, rest: string)
    requires Ascii(lit) && Ascii(rest)
    ensures Ascii(lit + (Digits(n) + rest))
  {
    AsciiDigits(n);
    AsciiConcat(Digits(n), rest);
    AsciiConcat(lit, Digits(n) + rest);
  }

  lemma JsonIsAscii(scope: string, p: Position)
    requires IsScope(scope)
    ensures Ascii(Json(scope, p))
  {
    var last := ",\"rowid\":" + (Digits(p.rowid) + "}");
    var second := ",\"position\":" + (Digits(p.position) + last);
    var first := "\",\"sourceOrder\":" + (Digits(p.sourceOrder) + second);
    AsciiField(",\"rowid\":", p.rowid, "}");
    AsciiField(",\"position\":", p.position, last);
    AsciiField("\",\"sourceOrder\":", p.sourceOrder, second);
    assert Ascii(scope) by {
      forall i | 0 <= i < |scope| ensures scope[i] as int < 128 {
        assert scope[i] in scope;
      }
    }
    AsciiConcat(scope, first);
    AsciiConcat("{\"scope\":\"", scope + first);
  }

  /** `historyPageCursor`. */
  function Write(scope: string, p: Position): string
    requires IsScope(scope)
  {
    JsonIsAscii(scope, p);
    Base64(Utf8(Json(scope, p)))
  }

  datatype ReadResult = Ok(at: Position) | Invalid | Expired

  /** `readHistoryPageCursor`. */
  function Read(cursor: string, scope: string): ReadResult {
    if |cursor| > MAX_CURSOR then Invalid
    else
      var bytes := Unbase64(cursor);
      if bytes.None? then Invalid
      else
        var text := FromUtf8(bytes.value);
        if text.None? then Invalid
        else
          var parsed := Parse(text.value);
          if parsed.None? || !Safe(parsed.value.at) then Invalid
          else if parsed.value.scope != scope then Expired
          else Ok(parsed.value.at)
  }

  /** A cursor that is too long is refused, and one that is read names a position that is safe and
      good for one scope alone. */
  lemma ReadIsStrict(cursor: string, scope: string, other: string)
    ensures |cursor| > 1024 ==> Read(cursor, scope) == Invalid
    ensures Read(cursor, scope).Ok? ==> Safe(Read(cursor, scope).at)
    ensures Read(cursor, scope).Ok? && other != scope ==> Read(cursor, other) == Expired
    ensures Read(cursor, scope).Invalid? ==> Read(cursor, other).Invalid?
  {
  }

  /** A cursor is read as a position under a scope if and only if it is short, the position is safe,
      and its text is the one that is written for them. */
  lemma ReadIffWritten(cursor: string, scope: string, p: Position)
    ensures Read(cursor, scope) == Ok(p)
            <==> && |cursor| <= 1024 && Safe(p) && (forall c <- scope :: Plain(c))
                 && Unbase64(cursor).Some? && FromUtf8(Unbase64(cursor).value) == Some(Json(scope, p))
  {
    if Read(cursor, scope) == Ok(p) {
      ParsedIsWritten(FromUtf8(Unbase64(cursor).value).value);
    }
    if forall c <- scope :: Plain(c) {
      JsonRoundTrip(scope, p);
    }
  }

  /** A cursor is called expired only if some other scope can still read it. */
  lemma ExpiredIsReadable(cursor: string, scope: string) returns (other: string)
    requires Read(cursor, scope).Expired?
    ensures other != scope && Read(cursor, other).Ok?
  {
    other := Parse(FromUtf8(Unbase64(cursor).value).value).value.scope;
  }

  lemma SafeDigits(n: nat)
    requires n <= MAX_SAFE_INTEGER
    ensures |Digits(n)| <= 16
  {
    assert Power10(4) == 10000;
    assert Power10(8) == 100000000 by { assert Power10(6) == 1000000; }
    assert Power10(12) == 1000000000000 by { assert Power10(10) == 10000000000; }
    assert Power10(16) == 10000000000000000 by { assert Power10(14) == 100000000000000; }
    DigitsLength(n, 16);
  }

  lemma CursorIsShort(scope: string, p: Position)
    requires IsScope(scope) && Safe(p)
    ensures |Write(scope, p)| <= MAX_CURSOR
  {
    SafeDigits(p.sourceOrder);
    SafeDigits(p.position);
    SafeDigits(p.rowid);
    assert |Json(scope, p)| <= 300;
    JsonIsAscii(scope, p);
    Base64Length(Utf8(Json(scope, p)));
  }

  /** A cursor gives back its position under its own scope, and expires under every other. */
  lemma CursorRoundTrip(scope: string, p: Position, reading: string)
    requires IsScope(scope) && Safe(p)
    ensures Read(Write(scope, p), reading) == if reading == scope then Ok(p) else Expired
  {
    CursorIsShort(scope, p);
    JsonIsAscii(scope, p);
    Base64RoundTrip(Utf8(Json(scope, p)));
    Utf8RoundTrip(Json(scope, p));
    JsonRoundTrip(scope, p);
  }

  /** No two positions or scopes share a cursor. */
  lemma CursorsAreDistinct(scope: string, p: Position, scope': string, p': Position)
    requires IsScope(scope) && IsScope(scope') && Safe(p) && Safe(p') && Write(scope, p) == Write(scope', p')
    ensures scope == scope' && p == p'
  {
    CursorRoundTrip(scope, p, scope);
    CursorRoundTrip(scope', p', scope);
  }
}

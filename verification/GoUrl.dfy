/**
 Percent-encoding and URL parsing as Go's net/url does it. Strings are byte sequences: a Python
 string is its UTF-8 encoding, and decoding checks that a result is UTF-8 again.
 */
module GoUrl {
  import opened Wrappers

  type Byte = b: int | 0 <= b < 256
  type Text = seq<Byte>

  // ---------- Bytes ----------

  const PERCENT: Byte := 0x25
  const PLUS: Byte := 0x2B
  const SPACE: Byte := 0x20
  const COLON: Byte := 0x3A
  const SLASH: Byte := 0x2F
  const QUESTION: Byte := 0x3F
  const HASH: Byte := 0x23
  const AT: Byte := 0x40
  const AMPERSAND: Byte := 0x26
  const SEMICOLON: Byte := 0x3B
  const EQUALS: Byte := 0x3D
  const LEFT: Byte := 0x5B
  const RIGHT: Byte := 0x5D

  predicate IsDigit(b: Byte) {
    0x30 <= b <= 0x39
  }

  predicate IsLetter(b: Byte) {
    0x61 <= b <= 0x7A || 0x41 <= b <= 0x5A
  }

  predicate IsHex(b: Byte) {
    IsDigit(b) || 0x41 <= b <= 0x46 || 0x61 <= b <= 0x66
  }

  function Unhex(b: Byte): (n: int)
    requires IsHex(b)
    ensures 0 <= n < 16
  {
    if b <= 0x39 then b - 0x30 else if b <= 0x46 then b - 0x41 + 10 else b - 0x61 + 10
  }

  function HexDigit(n: int): (b: Byte)
    requires 0 <= n < 16
    ensures IsHex(b) && Unhex(b) == n && !(0x61 <= b)
  {
    if n < 10 then 0x30 + n else 0x41 + n - 10
  }

  predicate IsControl(b: Byte) {
    b < 0x20 || b == 0x7F
  }

  /** Well-formed UTF-8: shortest forms, no surrogates, nothing above U+10FFFF. */
  predicate ValidUtf8(s: Text) {
    if s == [] then true
    else if s[0] < 0x80 then ValidUtf8(s[1..])
    else if 0xC2 <= s[0] <= 0xDF then |s| >= 2 && IsTrail(s[1]) && ValidUtf8(s[2..])
    else if 0xE0 <= s[0] <= 0xEF then
      && |s| >= 3 && IsTrail(s[1]) && IsTrail(s[2])
      && (s[0] == 0xE0 ==> s[1] >= 0xA0) && (s[0] == 0xED ==> s[1] < 0xA0)
      && ValidUtf8(s[3..])
    else if 0xF0 <= s[0] <= 0xF4 then
      && |s| >= 4 && IsTrail(s[1]) && IsTrail(s[2]) && IsTrail(s[3])
      && (s[0] == 0xF0 ==> s[1] >= 0x90) && (s[0] == 0xF4 ==> s[1] < 0x90)
      && ValidUtf8(s[4..])
    else false
  }

  predicate IsTrail(b: Byte) {
    0x80 <= b < 0xC0
  }

  // ---------- Escaping ----------

  datatype Mode = Path | PathSegment | Host | Zone | UserPassword | QueryComponent | Fragment

  /** One of $ & + , / : ; = ? @ */
  predicate IsReserved(c: Byte) {
    c in {0x24, 0x26, 0x2B, 0x2C, 0x2F, 0x3A, 0x3B, 0x3D, 0x3F, 0x40}
  }

  /** One of ! $ & ' ( ) * + , ; = : [ ] < > " */
  predicate KeptInHost(c: Byte) {
    c in {0x21, 0x24, 0x26, 0x27, 0x28, 0x29, 0x2A, 0x2B, 0x2C, 0x3B, 0x3D, 0x3A, 0x5B, 0x5D, 0x3C, 0x3E, 0x22}
  }

  predicate ShouldEscape(c: Byte, mode: Mode) {
    if IsLetter(c) || IsDigit(c) then false
    else if (mode.Host? || mode.Zone?) && KeptInHost(c) then false
    else if c in {0x2D, 0x5F, 0x2E, 0x7E} then false
    else if IsReserved(c) && mode.Path? then c == QUESTION
    else if IsReserved(c) && mode.PathSegment? then c in {SLASH, SEMICOLON, 0x2C, QUESTION}
    else if IsReserved(c) && mode.UserPassword? then c in {AT, SLASH, QUESTION, COLON}
    else if IsReserved(c) && mode.QueryComponent? then true
    else if IsReserved(c) && mode.Fragment? then false
    else !(mode.Fragment? && c in {0x21, 0x28, 0x29, 0x2A})
  }

  function EscapeByte(b: Byte, mode: Mode): (e: Text)
    ensures |e| >= 1
  {
    if mode.QueryComponent? && b == SPACE then [PLUS]
    else if ShouldEscape(b, mode) then [PERCENT, HexDigit(b / 16), HexDigit(b % 16)]
    else [b]
  }

  function Escape(s: Text, mode: Mode): Text {
    if s == [] then [] else EscapeByte(s[0], mode) + Escape(s[1..], mode)
  }

  /** The result of unescaping: text, a malformed escape, or bytes that are not UTF-8. */
  datatype Unescaped = Plain(text: Text) | BadEscape | BadUtf8

  predicate BadTriple(s: Text, mode: Mode)
    requires s != [] && s[0] == PERCENT
  {
    || |s| < 3 || !IsHex(s[1]) || !IsHex(s[2])
    || (mode.Host? && Unhex(s[1]) < 8 && s[1..3] != [0x32, 0x35])
  }

  function Cons(b: Byte, r: Option<Text>): Option<Text> {
    if r.Some? then Some([b] + r.value) else None
  }

  /** The length of the escape or byte that a text starts with. */
  function TokenLength(s: Text): nat
    requires s != []
  {
    if s[0] == PERCENT then 3 else 1
  }

  predicate BadToken(s: Text, mode: Mode)
    requires s != []
  {
    if s[0] == PERCENT then BadTriple(s, mode)
    else (mode.Host? || mode.Zone?) && s[0] < 0x80 && s[0] != PLUS && ShouldEscape(s[0], mode)
  }

  function TokenByte(s: Text, mode: Mode): Byte
    requires s != [] && !BadToken(s, mode)
  {
    if s[0] == PERCENT then Unhex(s[1]) * 16 + Unhex(s[2])
    else if s[0] == PLUS && mode.QueryComponent? then SPACE
    else s[0]
  }

  function Decode(s: Text, mode: Mode): Option<Text> {
    if s == [] then Some([])
    else if BadToken(s, mode) then None
    else Cons(TokenByte(s, mode), Decode(s[TokenLength(s)..], mode))
  }

  function Unescape(s: Text, mode: Mode): Unescaped {
    match Decode(s, mode)
    case None => BadEscape
    case Some(t) => if ValidUtf8(t) then Plain(t) else BadUtf8
  }

  /** The loop of _escape. */
  method EscapeLoop(s: Text, mode: Mode) returns (out: Text)
    ensures out == Escape(s, mode)
  {
    out := [];
    assert s[0..] == s;
    for i := 0 to |s|
      invariant out + Escape(s[i..], mode) == Escape(s, mode)
    {
      EscapeStep(s, i, mode, out);
      out := out + EscapeByte(s[i], mode);
    }
    assert s[|s|..] == [];
  }

  lemma EscapeStep(s: Text, i: nat, mode: Mode, out: Text)
    requires i < |s|
    ensures out + Escape(s[i..], mode) == out + EscapeByte(s[i], mode) + Escape(s[i + 1..], mode)
  {
    assert s[i..][0] == s[i] && s[i..][1..] == s[i + 1..];
  }

  /** What is left to decode after `done`: fails if the rest fails, else continues `done`. */
  ghost function After(done: Text, r: Option<Text>): Option<Text> {
    if r.Some? then Some(done + r.value) else None
  }

  lemma AfterCons(done: Text, b: Byte, r: Option<Text>)
    ensures After(done, Cons(b, r)) == After(done + [b], r)
  {
    if r.Some? {
      assert done + ([b] + r.value) == done + [b] + r.value;
    }
  }

  /** One turn of the decoding loop, in terms of what is left. */
  lemma DecodeTurn(s: Text, i: nat, mode: Mode, out: Text)
    requires i < |s|
    ensures var rest := s[i..];
            After(out, Decode(rest, mode)) ==
            if BadToken(rest, mode) then None
            else After(out + [TokenByte(rest, mode)], Decode(rest[TokenLength(rest)..], mode))
  {
    var rest := s[i..];
    if !BadToken(rest, mode) {
      AfterCons(out, TokenByte(rest, mode), Decode(rest[TokenLength(rest)..], mode));
    }
  }

  /** The loop's own test of an escape is the test on the remaining text. */
  lemma TripleTest(s: Text, i: nat, mode: Mode)
    requires i < |s| && s[i] == PERCENT
    ensures BadToken(s[i..], mode) <==>
            || i + 2 >= |s| || !IsHex(s[i + 1]) || !IsHex(s[i + 2])
            || (mode.Host? && Unhex(s[i + 1]) < 8 && s[i..i + 3] != [PERCENT, 0x32, 0x35])
  {
    if i + 2 < |s| {
      assert s[i..][1..3] == s[i + 1..i + 3] && s[i..i + 3] == [PERCENT] + s[i + 1..i + 3];
    }
  }

  /** The loop of _unescape. */
  method UnescapeLoop(s: Text, mode: Mode) returns (r: Unescaped)
    ensures r == Unescape(s, mode)
  {
    var out: Text, i := [], 0;
    ghost var goal := Decode(s, mode);
    assert s[0..] == s && (goal.Some? ==> out + goal.value == goal.value);
    while i < |s|
      invariant 0 <= i <= |s|
      invariant After(out, Decode(s[i..], mode)) == goal
    {
      DecodeTurn(s, i, mode, out);
      var c := s[i];
      if c == PERCENT {
        TripleTest(s, i, mode);
        if i + 2 >= |s| || !IsHex(s[i + 1]) || !IsHex(s[i + 2]) {
          return BadEscape;
        }
        if mode.Host? && Unhex(s[i + 1]) < 8 && s[i..i + 3] != [PERCENT, 0x32, 0x35] {
          return BadEscape;
        }
        assert s[i..][3..] == s[i + 3..];
        out := out + [Unhex(s[i + 1]) * 16 + Unhex(s[i + 2])];
        i := i + 3;
      } else if c == PLUS {
        assert s[i..][1..] == s[i + 1..];
        out := out + [if mode.QueryComponent? then SPACE else PLUS];
        i := i + 1;
      } else {
        if (mode.Host? || mode.Zone?) && c < 0x80 && ShouldEscape(c, mode) {
          return BadEscape;
        }
        assert s[i..][1..] == s[i + 1..];
        out := out + [c];
        i := i + 1;
      }
    }
    assert s[i..] == [] && out + [] == out;
    r := if ValidUtf8(out) then Plain(out) else BadUtf8;
  }

  // ---------- Unescape after escape ----------

  /** A host byte that survives: one kept as it is, a percent sign, or a byte outside ASCII. */
  predicate HostByte(b: Byte) {
    b >= 0x80 || b == PERCENT || !ShouldEscape(b, Host)
  }

  predicate HostText(s: Text) {
    forall i :: 0 <= i < |s| ==> HostByte(s[i])
  }

  /** One escaped byte in front decodes to that byte; only host mode can refuse it. */
  lemma DecodeEscapedByte(b: Byte, rest: Text, mode: Mode)
    ensures Decode(EscapeByte(b, mode) + rest, mode) ==
            if mode.Host? && !HostByte(b) then None else Cons(b, Decode(rest, mode))
  {
    var e := EscapeByte(b, mode);
    var s := e + rest;
    if mode.QueryComponent? && b == SPACE {
      assert s[1..] == rest;
    } else if ShouldEscape(b, mode) {
      assert s[0] == PERCENT && s[1] == HexDigit(b / 16) && s[2] == HexDigit(b % 16) && s[3..] == rest;
      assert s[1..3] == [s[1], s[2]];
      assert Unhex(s[1]) * 16 + Unhex(s[2]) == b;
      if mode.Host? {
        assert s[1..3] == [0x32, 0x35] <==> b == PERCENT;
        assert BadTriple(s, mode) <==> !HostByte(b);
      }
    } else {
      assert s[1..] == rest;
    }
  }

  /** Escaping is undone by decoding: in host mode exactly for host text, in every other mode always. */
  lemma {:induction false} DecodeEscape(s: Text, mode: Mode)
    ensures Decode(Escape(s, mode), mode) == if mode.Host? && !HostText(s) then None else Some(s)
  {
    if s == [] {
    } else {
      DecodeEscape(s[1..], mode);
      DecodeEscapedByte(s[0], Escape(s[1..], mode), mode);
      assert s == [s[0]] + s[1..];
      assert HostText(s) <==> HostByte(s[0]) && HostText(s[1..]);
    }
  }

  /** Unescape after escape is the identity on text; in host mode exactly on host text. */
  lemma UnescapeEscape(s: Text, mode: Mode)
    requires ValidUtf8(s)
    ensures Unescape(Escape(s, mode), mode) == Plain(s) <==> mode.Host? ==> HostText(s)
  {
    DecodeEscape(s, mode);
  }

  /** An escaped string holds only percent signs, upper-case hex digits, bytes the mode keeps, and '+' for a space. */
  predicate EscapedByte(b: Byte, mode: Mode) {
    || b == PERCENT || (IsHex(b) && b < 0x61) || !ShouldEscape(b, mode) || (mode.QueryComponent? && b == PLUS)
  }

  lemma {:induction false} EscapedBytes(s: Text, mode: Mode)
    ensures forall i :: 0 <= i < |Escape(s, mode)| ==> EscapedByte(Escape(s, mode)[i], mode)
  {
    if s == [] {
    } else {
      EscapedBytes(s[1..], mode);
    }
  }

  // ---------- Finding bytes ----------

  /** The first position of a byte, or the length when it does not occur. */
  function Find(s: Text, b: Byte): (i: nat)
    ensures i <= |s|
    ensures i < |s| ==> s[i] == b
    ensures forall j :: 0 <= j < i ==> s[j] != b
  {
    if s == [] || s[0] == b then 0 else 1 + Find(s[1..], b)
  }

  /** The last position of a byte, or -1 when it does not occur. */
  function FindLast(s: Text, b: Byte): (i: int)
    ensures -1 <= i < |s|
    ensures i >= 0 ==> s[i] == b
    ensures forall j :: i < j < |s| ==> s[j] != b
  {
    if s == [] then -1 else if s[|s| - 1] == b then |s| - 1 else FindLast(s[..|s| - 1], b)
  }

  /** A byte that the text in front of it lacks is where a search finds it. */
  lemma CutAt(a: Text, b: Byte, rest: Text)
    requires Lacks(a, b)
    ensures var s := a + [b] + rest; Find(s, b) == |a| && s[..|a|] == a && s[|a| + 1..] == rest
  {
    var s := a + [b] + rest;
    assert forall j :: 0 <= j < |a| ==> s[j] == a[j];
    assert s[|a|] == b;
  }

  lemma CutNowhere(a: Text, b: Byte)
    requires Lacks(a, b)
    ensures Find(a, b) == |a| && FindLast(a, b) == -1 && a[..|a|] == a
  {
  }

  lemma CutAtLast(a: Text, b: Byte, rest: Text)
    requires Lacks(rest, b)
    ensures var s := a + [b] + rest; FindLast(s, b) == |a| && s[..|a|] == a && s[|a| + 1..] == rest
  {
    var s, n := a + [b] + rest, |a| + 1;
    assert s[|a|] == b;
    assert forall j :: n <= j < |s| ==> s[j] == rest[j - n];
  }

  predicate Lacks(s: Text, b: Byte) {
    forall i :: 0 <= i < |s| ==> s[i] != b
  }

  predicate NoControl(s: Text) {
    forall i :: 0 <= i < |s| ==> !IsControl(s[i])
  }

  // ---------- The pieces of a URL ----------

  datatype Userinfo = Userinfo(username: Text, password: Text, passwordSet: bool)

  datatype GoUrl = GoUrl(
    scheme: Text,
    opaque_: Text,
    user: Option<Userinfo>,
    host: Text,
    path: Text,
    rawPath: Text,
    forceQuery: bool,
    rawQuery: Text,
    fragment: Text,
    rawFragment: Text
  )

  function Lower(b: Byte): Byte {
    if 0x41 <= b <= 0x5A then b + 32 else b
  }

  function LowerAll(s: Text): (r: Text)
    ensures |r| == |s| && forall i :: 0 <= i < |s| ==> r[i] == Lower(s[i])
  {
    seq(|s|, i requires 0 <= i < |s| => Lower(s[i]))
  }

  /** How the scheme scan ends: no scheme, a colon in front, or a colon after a scheme. */
  datatype SchemeScan = NoScheme | MissingScheme | SchemeEndsAt(i: nat)

  function ScanScheme(raw: Text, i: nat): (r: SchemeScan)
    requires i <= |raw|
    ensures r.SchemeEndsAt? ==> i <= r.i < |raw| && 0 < r.i && raw[r.i] == COLON
    ensures r.SchemeEndsAt? ==> forall j :: i <= j < r.i ==> SchemeByte(raw, j)
    decreases |raw| - i
  {
    if i == |raw| then NoScheme
    else if SchemeByte(raw, i) then ScanScheme(raw, i + 1)
    else if raw[i] == COLON then if i == 0 then MissingScheme else SchemeEndsAt(i)
    else NoScheme
  }

  /** A letter, or past the first position also a digit, '+', '-' or '.'. */
  predicate SchemeByte(raw: Text, j: nat)
    requires j < |raw|
  {
    IsLetter(raw[j]) || (j > 0 && (IsDigit(raw[j]) || raw[j] in {0x2B, 0x2D, 0x2E}))
  }

  function GetScheme(raw: Text): Result<(Text, Text)> {
    match ScanScheme(raw, 0)
    case NoScheme => Ok(([], raw))
    case MissingScheme => Err
    case SchemeEndsAt(i) => Ok((LowerAll(raw[..i]), raw[i + 1..]))
  }

  /** The text before the first question mark, whether a lone trailing one forces an empty query, and the query. */
  function SplitQuery(rest: Text): (Text, bool, Text) {
    var i := Find(rest, QUESTION);
    if i == |rest| then (rest, false, [])
    else if i == |rest| - 1 then (rest[..i], true, [])
    else (rest[..i], false, rest[i + 1..])
  }

  predicate ValidOptionalPort(port: Text) {
    port == [] || (port[0] == COLON && forall i :: 1 <= i < |port| ==> IsDigit(port[i]))
  }

  /** The shape a host must have: brackets closed, and digits only after the last colon. */
  predicate HostShape(host: Text) {
    if host != [] && host[0] == LEFT then
      var i := FindLast(host, RIGHT);
      i >= 0 && ValidOptionalPort(host[i + 1..])
    else
      var i := FindLast(host, COLON);
      i >= 0 ==> ValidOptionalPort(host[i..])
  }

  function ToResult(u: Unescaped): Result<Text> {
    if u.Plain? then Ok(u.text) else Err
  }

  function ParseHost(host: Text): Result<Text> {
    if HostShape(host) then ToResult(Unescape(host, Host)) else Err
  }

  function ParseUserinfo(s: Text): Result<Userinfo> {
    var i := Find(s, COLON);
    if i == |s| then
      var name :- ToResult(Unescape(s, UserPassword));
      Ok(Userinfo(name, [], false))
    else
      var name :- ToResult(Unescape(s[..i], UserPassword));
      var word :- ToResult(Unescape(s[i + 1..], UserPassword));
      Ok(Userinfo(name, word, true))
  }

  function ParseAuthority(s: Text): Result<(Option<Userinfo>, Text)> {
    var i := FindLast(s, AT);
    if i < 0 then
      var host :- ParseHost(s);
      Ok((None, host))
    else
      var host :- ParseHost(s[i + 1..]);
      var user :- ParseUserinfo(s[..i]);
      Ok((Some(user), host))
  }

  /** What stands between the scheme and the query. */
  datatype Body = Body(opaque_: Text, user: Option<Userinfo>, host: Text, path: Text, rawPath: Text)

  function ParsePath(user: Option<Userinfo>, host: Text, rest: Text): Result<Body> {
    var path :- ToResult(Unescape(rest, Path));
    Ok(Body([], user, host, path, if Escape(path, Path) != rest then rest else []))
  }

  predicate Starts(s: Text, p: Text) {
    p <= s
  }

  function ParseBody(scheme: Text, rest: Text): Result<Body> {
    if !Starts(rest, [SLASH]) && scheme != [] then Ok(Body(rest, None, [], [], []))
    else if !Starts(rest, [SLASH]) && !Lacks(rest[..Find(rest, SLASH)], COLON) then Err
    else if (scheme != [] || !Starts(rest, [SLASH, SLASH, SLASH])) && Starts(rest, [SLASH, SLASH]) then
      var tail := rest[2..];
      var i := Find(tail, SLASH);
      var authority :- ParseAuthority(tail[..i]);
      ParsePath(authority.0, authority.1, tail[i..])
    else ParsePath(None, [], rest)
  }

  function ParseRest(rest: Text): Result<GoUrl> {
    var scheme :- GetScheme(rest);
    var (text, force, query) := SplitQuery(scheme.1);
    var body :- ParseBody(scheme.0, text);
    Ok(GoUrl(scheme.0, body.opaque_, body.user, body.host, body.path, body.rawPath, force, query, [], []))
  }

  /** Attach what follows the first hash sign, if there is one. */
  function AddFragment(u: GoUrl, frag: Option<Text>): Result<GoUrl> {
    if frag.None? then Ok(u)
    else
      var fragment :- ToResult(Unescape(frag.value, Fragment));
      Ok(u.(fragment := fragment, rawFragment := if Escape(fragment, Fragment) != frag.value then frag.value else []))
  }

  /** The text before the first hash sign, and the text after it. */
  function CutFragment(raw: Text): (Text, Option<Text>) {
    var i := Find(raw, HASH);
    (raw[..i], if i == |raw| then None else Some(raw[i + 1..]))
  }

  function Parse(raw: Text): Result<GoUrl> {
    if !NoControl(raw) then Err
    else
      var (rest, frag) := CutFragment(raw);
      var u :- ParseRest(rest);
      AddFragment(u, frag)
  }

  // ---------- Printing ----------

  function PrintUser(u: Userinfo): Text {
    Escape(u.username, UserPassword) + if u.passwordSet then [COLON] + Escape(u.password, UserPassword) else []
  }

  function EscapedPath(b: Body): Text {
    if b.rawPath != [] && Unescape(b.rawPath, Path) == Plain(b.path) then b.rawPath else Escape(b.path, Path)
  }

  function PrintAuthority(b: Body): Text {
    (if b.user.Some? then PrintUser(b.user.value) + [AT] else []) + Escape(b.host, Host)
  }

  function PrintBody(scheme: Text, b: Body): Text {
    if b.opaque_ != [] then b.opaque_
    else
      var path := EscapedPath(b);
      (if scheme != [] || b.host != [] || b.user.Some? then
         (if b.host != [] || b.path != [] || b.user.Some? then [SLASH, SLASH] else []) + PrintAuthority(b)
       else [])
      + (if path != [] && path[0] != SLASH && b.host != [] then [SLASH] else [])
      + path
  }

  function BodyOf(u: GoUrl): Body {
    Body(u.opaque_, u.user, u.host, u.path, u.rawPath)
  }

  function PrintRest(u: GoUrl): Text {
    (if u.scheme != [] then u.scheme + [COLON] else [])
    + PrintBody(u.scheme, BodyOf(u))
    + if u.forceQuery || u.rawQuery != [] then [QUESTION] + u.rawQuery else []
  }

  function EscapedFragment(u: GoUrl): Text {
    if u.rawFragment != [] && Unescape(u.rawFragment, Fragment) == Plain(u.fragment) then u.rawFragment
    else Escape(u.fragment, Fragment)
  }

  function Print(u: GoUrl): Text {
    PrintRest(u) + if u.fragment != [] then [HASH] + EscapedFragment(u) else []
  }

  // ---------- Printing what was parsed parses to the same ----------

  lemma DecodeEmpty(s: Text, mode: Mode)
    ensures Decode(s, mode) == Some([]) <==> s == []
  {
  }

  /** What escaping leaves out, by mode: no separators and no control bytes. */
  lemma EscapedLacks(s: Text, mode: Mode)
    requires mode.UserPassword? || mode.Host?
    ensures var e := Escape(s, mode);
            Lacks(e, AT) && Lacks(e, SLASH) && Lacks(e, QUESTION) && Lacks(e, HASH) && NoControl(e)
    ensures mode.UserPassword? ==> Lacks(Escape(s, mode), COLON)
  {
    EscapedBytes(s, mode);
    var e := Escape(s, mode);
    forall i | 0 <= i < |e|
      ensures e[i] !in {AT, SLASH, QUESTION, HASH} && !IsControl(e[i]) && (mode.UserPassword? ==> e[i] != COLON)
    {
      assert EscapedByte(e[i], mode);
    }
  }

  /** Userinfo printed with a password has its first colon in front of it; without one it has no colon. */
  lemma PasswordParses(u: Userinfo)
    requires u.passwordSet && ValidUtf8(u.username) && ValidUtf8(u.password)
    ensures ParseUserinfo(Escape(u.username, UserPassword) + [COLON] + Escape(u.password, UserPassword)) == Ok(u)
  {
    UnescapeEscape(u.username, UserPassword);
    UnescapeEscape(u.password, UserPassword);
    EscapedLacks(u.username, UserPassword);
    CutAt(Escape(u.username, UserPassword), COLON, Escape(u.password, UserPassword));
  }

  lemma NameParses(u: Userinfo)
    requires !u.passwordSet && u.password == [] && ValidUtf8(u.username)
    ensures ParseUserinfo(Escape(u.username, UserPassword)) == Ok(u)
  {
    UnescapeEscape(u.username, UserPassword);
    EscapedLacks(u.username, UserPassword);
    CutNowhere(Escape(u.username, UserPassword), COLON);
  }

  lemma UserStable(s: Text, u: Userinfo)
    requires ParseUserinfo(s) == Ok(u)
    ensures ParseUserinfo(PrintUser(u)) == Ok(u)
  {
    ParsedUser(s, u);
    PrintedUser(u);
    if u.passwordSet {
      PasswordParses(u);
    } else {
      NameParses(u);
    }
  }

  lemma ParsedUser(s: Text, u: Userinfo)
    requires ParseUserinfo(s) == Ok(u)
    ensures ValidUtf8(u.username) && ValidUtf8(u.password) && (!u.passwordSet ==> u.password == [])
  {
  }

  lemma PrintedUser(u: Userinfo)
    ensures var name, word := Escape(u.username, UserPassword), Escape(u.password, UserPassword);
            PrintUser(u) == if u.passwordSet then name + [COLON] + word else name
  {
  }

  lemma PrintedUserLacks(u: Userinfo)
    ensures var p := PrintUser(u);
            Lacks(p, AT) && Lacks(p, SLASH) && Lacks(p, QUESTION) && Lacks(p, HASH) && NoControl(p)
  {
    EscapedLacks(u.username, UserPassword);
    EscapedLacks(u.password, UserPassword);
  }

  // ---------- Hosts ----------

  /** A host byte that stands for itself in every form: it cannot be part of an escape. */
  predicate Separator(b: Byte) {
    b == COLON || b == RIGHT || b == LEFT
  }

  lemma HostToken(s: Text)
    requires s != [] && !BadToken(s, Host)
    ensures HostByte(TokenByte(s, Host))
    ensures EscapeByte(TokenByte(s, Host), Host) == [s[0]] || EscapeByte(TokenByte(s, Host), Host)[0] == PERCENT
    ensures s[0] == PERCENT ==> EscapeByte(TokenByte(s, Host), Host)[0] == PERCENT
  {
    if s[0] == PERCENT {
      assert s[1..3] == [s[1], s[2]];
    }
  }

  lemma {:induction false} DecodedHostText(s: Text)
    requires Decode(s, Host).Some?
    ensures HostText(Decode(s, Host).value)
  {
    if s == [] {
    } else {
      HostToken(s);
      DecodedHostText(s[TokenLength(s)..]);
    }
  }

  /** An escape does not reach over a separator. */
  lemma TokenBeforeSeparator(x: Text, b: Byte, y: Text)
    requires Separator(b) && x != [] && !BadToken(x + [b] + y, Host)
    ensures TokenLength(x) <= |x| && !BadToken(x, Host)
    ensures TokenByte(x, Host) == TokenByte(x + [b] + y, Host)
    ensures (x + [b] + y)[TokenLength(x)..] == x[TokenLength(x)..] + [b] + y
  {
    var s := x + [b] + y;
    assert s[|x|] == b && !IsHex(b);
    assert x[0] == PERCENT ==> |x| >= 3 && s[1..3] == x[1..3];
  }

  lemma ConsAround(c: Byte, x: Text, b: Byte, y: Text)
    ensures [c] + (x + [b] + y) == ([c] + x) + [b] + y
  {
  }

  /** A separator cuts a decodable host into decodable parts. */
  lemma {:induction false} DecodeSplits(x: Text, b: Byte, y: Text)
    requires Separator(b) && Decode(x + [b] + y, Host).Some?
    ensures Decode(x, Host).Some? && Decode(y, Host).Some?
    ensures Decode(x + [b] + y, Host).value == Decode(x, Host).value + [b] + Decode(y, Host).value
  {
    var s := x + [b] + y;
    if x == [] {
      assert s[0] == b && s[1..] == y;
    } else {
      TokenBeforeSeparator(x, b, y);
      var rest := x[TokenLength(x)..];
      DecodeSplits(rest, b, y);
      ConsAround(TokenByte(x, Host), Decode(rest, Host).value, b, Decode(y, Host).value);
    }
  }

  predicate AllPort(s: Text) {
    forall i :: 0 <= i < |s| ==> IsDigit(s[i]) || s[i] == COLON
  }

  /** Ports are the same escaped, decoded and as written. */
  lemma {:induction false} PortIsPlain(s: Text)
    requires AllPort(s)
    ensures Decode(s, Host) == Some(s) && Escape(s, Host) == s
  {
    if s == [] {
    } else {
      PortIsPlain(s[1..]);
      assert s == [s[0]] + s[1..];
    }
  }

  lemma {:induction false} EscapeAppend(a: Text, b: Text, mode: Mode)
    ensures Escape(a + b, mode) == Escape(a, mode) + Escape(b, mode)
  {
    if a == [] {
      assert a + b == b;
    } else {
      assert (a + b)[0] == a[0] && (a + b)[1..] == a[1..] + b;
      EscapeAppend(a[1..], b, mode);
    }
  }

  lemma EscapeAround(a: Text, b: Byte, y: Text)
    requires Separator(b)
    ensures Escape(a + [b] + y, Host) == Escape(a, Host) + [b] + Escape(y, Host)
  {
    EscapeAppend(a + [b], y, Host);
    EscapeAppend(a, [b], Host);
    assert [b][1..] == [];
    assert Escape([b], Host) == EscapeByte(b, Host) + [] == [b];
  }

  /** Rewriting a host in canonical escapes keeps a separator and the port after it in place. */
  lemma RecodedAround(x: Text, b: Byte, y: Text) returns (before: Text)
    requires Separator(b) && AllPort(y)
    requires Decode(x + [b] + y, Host).Some?
    ensures Escape(Decode(x + [b] + y, Host).value, Host) == before + [b] + y
  {
    DecodeSplits(x, b, y);
    PortIsPlain(y);
    before := Escape(Decode(x, Host).value, Host);
    EscapeAround(Decode(x, Host).value, b, y);
  }

  lemma EscapedByteLacks(c: Byte, b: Byte)
    requires Separator(b) && c != b
    ensures Lacks(EscapeByte(c, Host), b)
  {
  }

  lemma {:induction false} RecodedLacks(s: Text, b: Byte)
    requires Separator(b) && Decode(s, Host).Some? && Lacks(s, b)
    ensures Lacks(Escape(Decode(s, Host).value, Host), b)
  {
    if s == [] {
    } else {
      var h := Decode(s, Host).value;
      HostToken(s);
      assert h[0] == TokenByte(s, Host) && h[1..] == Decode(s[TokenLength(s)..], Host).value;
      RecodedLacks(s[TokenLength(s)..], b);
      assert h[0] != b;
      EscapedByteLacks(h[0], b);
    }
  }

  lemma RecodedStart(s: Text)
    requires Decode(s, Host).Some?
    ensures var e := Escape(Decode(s, Host).value, Host);
            (s == [] <==> e == []) && (s != [] && s[0] == LEFT <==> e != [] && e[0] == LEFT)
  {
    if s != [] {
      var h := Decode(s, Host).value;
      HostToken(s);
      assert Escape(h, Host)[0] == EscapeByte(h[0], Host)[0];
    }
  }

  /** The shape test looks only at what follows the last separator. */
  lemma ShapeFromTail(before: Text, b: Byte, y: Text)
    requires b == RIGHT || b == COLON
    requires Lacks(y, b) && ValidOptionalPort(if b == RIGHT then y else [COLON] + y)
    requires b == RIGHT <==> (before + [b] + y)[0] == LEFT
    ensures HostShape(before + [b] + y)
  {
    var e, n := before + [b] + y, |before|;
    CutAtLast(before, b, y);
    assert e[n..] == [b] + y;
  }

  lemma PortBytes(port: Text)
    requires ValidOptionalPort(port)
    ensures AllPort(port)
  {
  }

  /** A shapely host cut at the separator that its shape depends on. */
  lemma CutHost(s: Text, b: Byte, i: nat)
    requires i < |s| && HostShape(s) && i == FindLast(s, b)
    requires b == if s[0] == LEFT then RIGHT else COLON
    ensures s == s[..i] + [b] + s[i + 1..] && Lacks(s[i + 1..], b)
    ensures ValidOptionalPort(if b == RIGHT then s[i + 1..] else [COLON] + s[i + 1..])
    ensures AllPort(s[i + 1..])
  {
    var y := s[i + 1..];
    TailLacks(s, b, i);
    CutAround(s, b, i);
    if b == RIGHT {
      PortBytes(y);
    } else {
      PortBytes([COLON] + y);
      PortTail(y);
    }
  }

  lemma CutAround(s: Text, b: Byte, i: nat)
    requires i < |s| && s[i] == b
    ensures s == s[..i] + [b] + s[i + 1..] && s[i..] == [b] + s[i + 1..]
  {
  }

  lemma TailLacks(s: Text, b: Byte, i: nat)
    requires i < |s| && i == FindLast(s, b)
    ensures Lacks(s[i + 1..], b)
  {
    var y := s[i + 1..];
    forall j | 0 <= j < |y|
      ensures y[j] != b
    {
      assert y[j] == s[i + 1 + j];
    }
  }

  lemma PortTail(y: Text)
    requires AllPort([COLON] + y)
    ensures AllPort(y)
  {
    var port := [COLON] + y;
    assert forall j :: 0 <= j < |y| ==> y[j] == port[j + 1];
  }

  lemma RecodedShapeAt(x: Text, b: Byte, y: Text)
    requires (b == RIGHT || b == COLON) && AllPort(y) && Lacks(y, b)
    requires ValidOptionalPort(if b == RIGHT then y else [COLON] + y)
    requires Decode(x + [b] + y, Host).Some? && (b == RIGHT <==> (x + [b] + y)[0] == LEFT)
    ensures HostShape(Escape(Decode(x + [b] + y, Host).value, Host))
  {
    RecodedStart(x + [b] + y);
    var before := RecodedAround(x, b, y);
    ShapeFromTail(before, b, y);
  }

  lemma RecodedShape(s: Text)
    requires HostShape(s) && Decode(s, Host).Some?
    ensures HostShape(Escape(Decode(s, Host).value, Host))
  {
    var b := if s != [] && s[0] == LEFT then RIGHT else COLON;
    var i := FindLast(s, b);
    if i >= 0 {
      var x, y := s[..i], s[i + 1..];
      CutHost(s, b, i);
      RecodedShapeAt(x, b, y);
    } else {
      RecodedStart(s);
      RecodedLacks(s, COLON);
      ShapeWithoutColon(Escape(Decode(s, Host).value, Host));
    }
  }

  lemma ShapeWithoutColon(e: Text)
    requires Lacks(e, COLON) && (e == [] || e[0] != LEFT)
    ensures HostShape(e)
  {
    CutNowhere(e, COLON);
  }

  /** A parsed host, escaped again, parses to itself. */
  lemma HostStable(s: Text, h: Text)
    requires ParseHost(s) == Ok(h)
    ensures ParseHost(Escape(h, Host)) == Ok(h)
    ensures h == [] <==> s == []
    ensures h == [] <==> Escape(h, Host) == []
  {
    DecodedHostText(s);
    UnescapeEscape(h, Host);
    RecodedShape(s);
    RecodedStart(s);
    DecodeEmpty(s, Host);
  }

  // ---------- Authority, path and body ----------

  /** A printed piece holds none of the bytes that end it. */
  predicate Clean(s: Text) {
    Lacks(s, QUESTION) && Lacks(s, HASH) && NoControl(s)
  }

  /** The printed authority is clean and stays in its segment. */
  lemma PrintedAuthority(b: Body)
    ensures Clean(PrintAuthority(b)) && Lacks(PrintAuthority(b), SLASH)
  {
    var e := Escape(b.host, Host);
    EscapedLacks(b.host, Host);
    if b.user.Some? {
      PrintedUserLacks(b.user.value);
      var p := PrintUser(b.user.value) + [AT];
      assert Clean(p) && Lacks(p, SLASH);
      CleanAppend(p, e);
    } else {
      assert PrintAuthority(b) == e;
    }
  }

  lemma CleanAppend(p: Text, e: Text)
    requires Clean(p) && Clean(e)
    ensures Clean(p + e)
    ensures Lacks(p, SLASH) && Lacks(e, SLASH) ==> Lacks(p + e, SLASH)
  {
  }

  /** A printed host alone, and a printed host after userinfo, parse into their parts. */
  lemma HostAloneParses(e: Text, host: Text)
    requires Lacks(e, AT) && ParseHost(e) == Ok(host)
    ensures ParseAuthority(e) == Ok((None, host))
  {
    CutNowhere(e, AT);
  }

  lemma UserAndHostParse(p: Text, user: Userinfo, e: Text, host: Text)
    requires Lacks(e, AT) && ParseHost(e) == Ok(host) && ParseUserinfo(p) == Ok(user)
    ensures ParseAuthority(p + [AT] + e) == Ok((Some(user), host))
  {
    CutAtLast(p, AT, e);
  }

  lemma AuthorityStable(s: Text, b: Body)
    requires ParseAuthority(s) == Ok((b.user, b.host))
    ensures ParseAuthority(PrintAuthority(b)) == Ok((b.user, b.host))
    ensures PrintAuthority(b) == [] <==> b.user.None? && b.host == []
    ensures b.user.None? && b.host == [] ==> s == []
  {
    var i := FindLast(s, AT);
    if i < 0 {
      HostAloneStable(s, b);
    } else {
      UserAndHostStable(s[..i], s[i + 1..], b);
    }
  }

  lemma HostAloneStable(s: Text, b: Body)
    requires b.user.None? && ParseHost(s) == Ok(b.host)
    ensures ParseAuthority(PrintAuthority(b)) == Ok((b.user, b.host))
    ensures PrintAuthority(b) == [] <==> b.host == []
    ensures b.host == [] ==> s == []
  {
    EscapedLacks(b.host, Host);
    HostStable(s, b.host);
    HostAloneParses(Escape(b.host, Host), b.host);
    assert PrintAuthority(b) == Escape(b.host, Host);
  }

  lemma UserAndHostStable(u: Text, h: Text, b: Body)
    requires b.user.Some? && ParseUserinfo(u) == Ok(b.user.value) && ParseHost(h) == Ok(b.host)
    ensures ParseAuthority(PrintAuthority(b)) == Ok((b.user, b.host)) && PrintAuthority(b) != []
  {
    var e := Escape(b.host, Host);
    EscapedLacks(b.host, Host);
    HostStable(h, b.host);
    UserStable(u, b.user.value);
    UserAndHostParse(PrintUser(b.user.value), b.user.value, e, b.host);
    assert PrintAuthority(b) == PrintUser(b.user.value) + [AT] + e;
  }

  /** A parsed path prints as it was written. */
  lemma PathStable(user: Option<Userinfo>, host: Text, rest: Text, b: Body)
    requires ParsePath(user, host, rest) == Ok(b)
    ensures EscapedPath(b) == rest
    ensures b.path == [] <==> rest == []
  {
    DecodeEmpty(rest, Path);
  }

  /** A path that starts with a slash, after two slashes and an authority, is found again. */
  lemma AuthoritySplits(a: Text, path: Text)
    requires Lacks(a, SLASH) && (path == [] || path[0] == SLASH)
    ensures var s := [SLASH, SLASH] + a + path;
            && Starts(s, [SLASH, SLASH]) && Starts(s, [SLASH])
            && Find(s[2..], SLASH) == |a| && s[2..][..|a|] == a && s[2..][|a|..] == path
            && (Starts(s, [SLASH, SLASH, SLASH]) <==> a == [] && path != [])
  {
    var s := [SLASH, SLASH] + a + path;
    assert s[2..] == a + path;
    if path == [] {
      CutNowhere(a, SLASH);
      assert a + path == a;
    } else {
      CutAt(a, SLASH, path[1..]);
      assert a + path == a + [SLASH] + path[1..];
    }
    assert Starts(s, [SLASH, SLASH, SLASH]) <==> |s| >= 3 && s[2] == SLASH;
  }

  predicate HasAuthority(scheme: Text, rest: Text) {
    (scheme != [] || !Starts(rest, [SLASH, SLASH, SLASH])) && Starts(rest, [SLASH, SLASH])
  }

  /** Two slashes, an authority and a path parse into exactly these. */
  lemma AuthorityParses(scheme: Text, a: Text, path: Text, b: Body)
    requires Lacks(a, SLASH) && (path == [] || path[0] == SLASH) && (a != [] || scheme != [])
    requires ParseAuthority(a) == Ok((b.user, b.host)) && ParsePath(b.user, b.host, path) == Ok(b)
    ensures ParseBody(scheme, [SLASH, SLASH] + a + path) == Ok(b)
  {
    AuthoritySplits(a, path);
  }

  /** What a body with an authority was parsed from. */
  lemma AuthorityBodyParts(scheme: Text, rest: Text, b: Body) returns (a: Text, path: Text)
    requires HasAuthority(scheme, rest) && Clean(rest) && ParseBody(scheme, rest) == Ok(b)
    ensures ParseAuthority(a) == Ok((b.user, b.host)) && ParsePath(b.user, b.host, path) == Ok(b)
    ensures (path == [] || path[0] == SLASH) && Clean(path) && b.opaque_ == []
    ensures scheme == [] && a == [] ==> path == []
  {
    var tail := rest[2..];
    var i := Find(tail, SLASH);
    a, path := tail[..i], tail[i..];
    assert Starts(rest, [SLASH]);
    assert tail == [] || rest[2] == tail[0];
  }

  /** A body written with an authority. */
  lemma AuthorityBodyStable(scheme: Text, rest: Text, b: Body)
    requires HasAuthority(scheme, rest) && Clean(rest) && ParseBody(scheme, rest) == Ok(b)
    ensures ParseBody(scheme, PrintBody(scheme, b)) == Ok(b) && Clean(PrintBody(scheme, b))
    ensures PrintBody(scheme, b) == [] || PrintBody(scheme, b)[0] == SLASH
  {
    var a, path := AuthorityBodyParts(scheme, rest, b);
    PathStable(b.user, b.host, path, b);
    AuthorityStable(a, b);
    if b.user.Some? || b.host != [] {
      PrintedAuthority(b);
      PrintedWithAuthority(scheme, b, path);
      AuthorityParses(scheme, PrintAuthority(b), path, b);
    } else {
      NoAuthorityToPrint(scheme, b);
      EmptyAuthorityStable(scheme, path, b);
    }
  }

  lemma PrintedWithAuthority(scheme: Text, b: Body, path: Text)
    requires b.opaque_ == [] && (b.user.Some? || b.host != []) && EscapedPath(b) == path && Clean(path)
    requires (path == [] || path[0] == SLASH) && Clean(PrintAuthority(b))
    ensures PrintBody(scheme, b) == [SLASH, SLASH] + PrintAuthority(b) + path
    ensures Clean(PrintBody(scheme, b))
  {
    var p := PrintAuthority(b);
    assert PrintBody(scheme, b) == [SLASH, SLASH] + p + [] + path;
    assert [SLASH, SLASH] + p + [] == [SLASH, SLASH] + p;
    assert Clean([SLASH, SLASH]);
    CleanAppend([SLASH, SLASH], p);
    CleanAppend([SLASH, SLASH] + p, path);
  }

  lemma EmptyAuthorityStable(scheme: Text, path: Text, b: Body)
    requires ParsePath(None, [], path) == Ok(b) && (path == [] || path[0] == SLASH) && (scheme == [] ==> path == [])
    requires b.path == [] <==> path == []
    ensures ParseBody(scheme, (if scheme != [] && b.path != [] then [SLASH, SLASH] else []) + path) == Ok(b)
  {
    if path == [] {
      assert ParseBody(scheme, []) == Ok(Body([], None, [], [], []));
    } else {
      EmptyAuthorityParses(scheme, path);
    }
  }

  /** An empty authority prints as nothing, or as two slashes in front of the path. */
  lemma NoAuthorityToPrint(scheme: Text, b: Body)
    requires b.opaque_ == [] && b.user.None? && b.host == [] && (b.path == [] <==> EscapedPath(b) == [])
    ensures PrintBody(scheme, b) == (if scheme != [] && b.path != [] then [SLASH, SLASH] else []) + EscapedPath(b)
  {
    assert PrintAuthority(b) == [];
  }

  /** A body written without an authority. */
  lemma PlainBodyStable(scheme: Text, rest: Text, b: Body)
    requires !HasAuthority(scheme, rest) && Clean(rest) && ParseBody(scheme, rest) == Ok(b)
    ensures ParseBody(scheme, PrintBody(scheme, b)) == Ok(b) && Clean(PrintBody(scheme, b))
    ensures scheme == [] ==> PrintBody(scheme, b) == rest
  {
    if !Starts(rest, [SLASH]) && scheme != [] {
      if rest == [] {
        assert EscapedPath(b) == [];
        NoAuthorityToPrint(scheme, b);
      }
    } else {
      PlainPathStable(scheme, rest, b);
    }
  }

  lemma PlainPathStable(scheme: Text, rest: Text, b: Body)
    requires !HasAuthority(scheme, rest) && Clean(rest) && ParseBody(scheme, rest) == Ok(b) && (Starts(rest, [SLASH]) || scheme == [])
    ensures ParseBody(scheme, PrintBody(scheme, b)) == Ok(b) && Clean(PrintBody(scheme, b))
    ensures scheme == [] ==> PrintBody(scheme, b) == rest
  {
    PathStable(None, [], rest, b);
    NoAuthorityToPrint(scheme, b);
    if scheme != [] {
      assert PrintBody(scheme, b) == [SLASH, SLASH] + rest;
      EmptyAuthorityParses(scheme, rest);
    } else {
      assert PrintBody(scheme, b) == [] + rest == rest;
    }
  }

  lemma EmptyAuthorityParses(scheme: Text, path: Text)
    requires scheme != [] && path != [] && path[0] == SLASH
    ensures ParseBody(scheme, [SLASH, SLASH] + path) == ParsePath(None, [], path)
  {
    AuthoritySplits([], path);
    assert [SLASH, SLASH] + [] + path == [SLASH, SLASH] + path;
    assert ParseAuthority([]) == Ok((None, [])) by {
      assert HostShape([]);
      assert Unescape([], Host) == Plain([]);
    }
  }

  lemma BodyStable(scheme: Text, rest: Text, b: Body)
    requires Clean(rest) && ParseBody(scheme, rest) == Ok(b)
    ensures ParseBody(scheme, PrintBody(scheme, b)) == Ok(b) && Clean(PrintBody(scheme, b))
    ensures scheme == [] ==> var p := PrintBody(scheme, b); p == rest || p == [] || p[0] == SLASH
  {
    if HasAuthority(scheme, rest) {
      AuthorityBodyStable(scheme, rest, b);
    } else {
      PlainBodyStable(scheme, rest, b);
    }
  }

  // ---------- Scheme, query and fragment ----------

  lemma {:induction false} ScanReaches(s: Text, i: nat, n: nat)
    requires i <= n < |s| && 0 < n && s[n] == COLON
    requires forall j :: i <= j < n ==> SchemeByte(s, j)
    ensures ScanScheme(s, i) == SchemeEndsAt(n)
    decreases n - i
  {
    if i == n {
    } else {
      ScanReaches(s, i + 1, n);
    }
  }

  /** A scheme as parsing leaves it: lower case, and scanned again up to its colon. */
  predicate IsScheme(scheme: Text) {
    && scheme != []
    && (forall j :: 0 <= j < |scheme| ==> SchemeByte(scheme, j) && Lower(scheme[j]) == scheme[j])
  }

  lemma SchemeStable(scheme: Text, x: Text)
    requires IsScheme(scheme)
    ensures GetScheme(scheme + [COLON] + x) == Ok((scheme, x))
    ensures Clean(scheme)
  {
    var s, n := scheme + [COLON] + x, |scheme|;
    forall j | 0 <= j < n
      ensures SchemeByte(s, j)
    {
      assert SchemeByte(scheme, j);
    }
    ScanReaches(s, 0, n);
    assert s[..n] == scheme && s[n + 1..] == x && LowerAll(scheme) == scheme;
  }

  lemma ParsedScheme(raw: Text, scheme: Text, x: Text)
    requires GetScheme(raw) == Ok((scheme, x))
    ensures scheme == [] ==> x == raw && ScanScheme(raw, 0) == NoScheme
    ensures scheme != [] ==> IsScheme(scheme) && exists i :: 0 <= i <= |raw| && x == raw[i..]
  {
    var r := ScanScheme(raw, 0);
    if r.SchemeEndsAt? {
      forall j | 0 <= j < |scheme|
        ensures SchemeByte(scheme, j) && Lower(scheme[j]) == scheme[j]
      {
        assert SchemeByte(raw, j) && scheme[j] == Lower(raw[j]);
      }
    }
  }

  function QueryPart(force: bool, query: Text): Text {
    if force || query != [] then [QUESTION] + query else []
  }

  lemma SplitQueryIs(text: Text, force: bool, query: Text)
    requires Lacks(text, QUESTION) && (force ==> query == [])
    ensures SplitQuery(text + QueryPart(force, query)) == (text, force, query)
  {
    if force || query != [] {
      CutAt(text, QUESTION, query);
      assert text + QueryPart(force, query) == text + [QUESTION] + query;
    } else {
      CutNowhere(text, QUESTION);
      assert text + QueryPart(force, query) == text;
    }
  }

  lemma SplitQueryParts(x: Text)
    ensures var (text, force, query) := SplitQuery(x);
            && Lacks(text, QUESTION) && (force ==> query == []) && x == text + QueryPart(force, query)
  {
    var i := Find(x, QUESTION);
    if i < |x| {
      assert x == x[..i] + [QUESTION] + x[i + 1..];
    }
  }

  /** A scheme-less text that still reads as scheme-less after printing. */
  lemma NoSchemeStable(p: Text, rest: Text, force: bool, query: Text)
    requires ScanScheme(rest + QueryPart(force, query), 0) == NoScheme
    requires p == rest || p == [] || p[0] == SLASH
    ensures GetScheme(p + QueryPart(force, query)) == Ok(([], p + QueryPart(force, query)))
  {
  }

  predicate Fenced(s: Text) {
    Lacks(s, HASH) && NoControl(s)
  }

  lemma AssembledRest(s: Text, scheme: Text, x: Text, text: Text, force: bool, query: Text, b: Body)
    requires GetScheme(s) == Ok((scheme, x)) && SplitQuery(x) == (text, force, query) && ParseBody(scheme, text) == Ok(b)
    ensures ParseRest(s) == Ok(GoUrl(scheme, b.opaque_, b.user, b.host, b.path, b.rawPath, force, query, [], []))
  {
  }

  lemma RestParts(rest: Text, u: GoUrl) returns (x: Text, text: Text)
    requires Fenced(rest) && ParseRest(rest) == Ok(u)
    ensures GetScheme(rest) == Ok((u.scheme, x)) && SplitQuery(x) == (text, u.forceQuery, u.rawQuery)
    ensures ParseBody(u.scheme, text) == Ok(BodyOf(u)) && u.fragment == [] && u.rawFragment == []
    ensures Clean(text) && Fenced(u.rawQuery) && (u.forceQuery ==> u.rawQuery == [])
    ensures u.scheme != [] ==> IsScheme(u.scheme)
    ensures u.scheme == [] ==> ScanScheme(text + QueryPart(u.forceQuery, u.rawQuery), 0) == NoScheme
  {
    x := GetScheme(rest).value.1;
    text := SplitQuery(x).0;
    ParsedScheme(rest, u.scheme, x);
    SplitQueryParts(x);
    assert Fenced(x);
    PartsFenced(text, u.forceQuery, u.rawQuery);
  }

  /** The text PrintRest makes of a scheme, a printed body and a query. */
  function Joined(scheme: Text, p: Text, force: bool, query: Text): Text {
    (if scheme != [] then scheme + [COLON] else []) + p + QueryPart(force, query)
  }

  lemma JoinedSplits(scheme: Text, p: Text, force: bool, query: Text, text: Text)
    requires scheme != [] ==> IsScheme(scheme)
    requires scheme == [] ==> ScanScheme(text + QueryPart(force, query), 0) == NoScheme
    requires scheme == [] ==> p == text || p == [] || p[0] == SLASH
    ensures GetScheme(Joined(scheme, p, force, query)) == Ok((scheme, p + QueryPart(force, query)))
  {
    var q := QueryPart(force, query);
    if scheme == [] {
      NoSchemeStable(p, text, force, query);
      assert Joined(scheme, p, force, query) == [] + p + q == p + q;
    } else {
      SchemeStable(scheme, p + q);
      assert Joined(scheme, p, force, query) == scheme + [COLON] + (p + q);
    }
  }

  lemma JoinedFenced(scheme: Text, p: Text, force: bool, query: Text)
    requires scheme != [] ==> IsScheme(scheme)
    requires Clean(p) && Fenced(query)
    ensures Fenced(Joined(scheme, p, force, query))
  {
    if scheme != [] {
      SchemeStable(scheme, []);
    }
  }

  lemma RestStable(rest: Text, u: GoUrl)
    requires Fenced(rest) && ParseRest(rest) == Ok(u)
    ensures ParseRest(PrintRest(u)) == Ok(u) && Fenced(PrintRest(u))
    ensures u.fragment == [] && u.rawFragment == []
  {
    var x, text := RestParts(rest, u);
    BodyStable(u.scheme, text, BodyOf(u));
    var p := PrintBody(u.scheme, BodyOf(u));
    PrintedRestParses(u, text, p);
  }

  lemma PrintedRestParses(u: GoUrl, text: Text, p: Text)
    requires u.fragment == [] && u.rawFragment == [] && Fenced(u.rawQuery) && (u.forceQuery ==> u.rawQuery == [])
    requires u.scheme != [] ==> IsScheme(u.scheme)
    requires u.scheme == [] ==> ScanScheme(text + QueryPart(u.forceQuery, u.rawQuery), 0) == NoScheme
    requires ParseBody(u.scheme, p) == Ok(BodyOf(u)) && Clean(p)
    requires u.scheme == [] ==> p == text || p == [] || p[0] == SLASH
    ensures ParseRest(Joined(u.scheme, p, u.forceQuery, u.rawQuery)) == Ok(u)
    ensures Fenced(Joined(u.scheme, p, u.forceQuery, u.rawQuery))
  {
    JoinedSplits(u.scheme, p, u.forceQuery, u.rawQuery, text);
    JoinedFenced(u.scheme, p, u.forceQuery, u.rawQuery);
    SplitQueryIs(p, u.forceQuery, u.rawQuery);
    AssembledRest(Joined(u.scheme, p, u.forceQuery, u.rawQuery), u.scheme, p + QueryPart(u.forceQuery, u.rawQuery),
                  p, u.forceQuery, u.rawQuery, BodyOf(u));
  }

  lemma PartsFenced(text: Text, force: bool, query: Text)
    requires Fenced(text + QueryPart(force, query))
    ensures Fenced(text) && Fenced(query)
  {
    var s := text + QueryPart(force, query);
    assert forall i :: 0 <= i < |text| ==> text[i] == s[i];
    if force || query != [] {
      assert forall i :: 0 <= i < |query| ==> query[i] == s[|text| + 1 + i];
    }
  }

  /** A parsed fragment prints as it was written, unless it is empty. */
  lemma FragmentStable(v: GoUrl, frag: Option<Text>, u: GoUrl)
    requires AddFragment(v, frag) == Ok(u) && v.fragment == [] && v.rawFragment == []
    ensures u.fragment == [] ==> u == v
    ensures u.fragment != [] ==> frag == Some(EscapedFragment(u))
    ensures u.(fragment := [], rawFragment := []) == v
  {
    if frag.Some? {
      DecodeEmpty(frag.value, Fragment);
    }
  }

  lemma CutFragmentFenced(raw: Text)
    requires NoControl(raw)
    ensures var (rest, frag) := CutFragment(raw); Fenced(rest) && (frag.Some? ==> NoControl(frag.value))
  {
  }

  /** Printing a URL is printing its rest, and its fragment when it has one. */
  lemma PrintedParses(u: GoUrl, v: GoUrl, frag: Option<Text>)
    requires v == u.(fragment := [], rawFragment := []) && Fenced(PrintRest(v)) && ParseRest(PrintRest(v)) == Ok(v)
    requires u.fragment == [] ==> u == v
    requires u.fragment != [] ==> frag == Some(EscapedFragment(u)) && NoControl(frag.value) && AddFragment(v, frag) == Ok(u)
    ensures Parse(Print(u)) == Ok(u)
  {
    var p := PrintRest(v);
    assert PrintRest(u) == p;
    if u.fragment == [] {
      CutNowhere(p, HASH);
      assert Print(u) == p;
    } else {
      CutAt(p, HASH, frag.value);
      FencedWithFragment(p, frag.value);
      assert Print(u) == p + ([HASH] + frag.value) == p + [HASH] + frag.value;
    }
  }

  lemma FencedWithFragment(p: Text, frag: Text)
    requires NoControl(p) && NoControl(frag)
    ensures NoControl(p + [HASH] + frag)
  {
  }

  /** Print is stable under parse: every accepted string's URL prints to a string with the same URL. */
  lemma UrlStable(raw: Text, u: GoUrl)
    requires Parse(raw) == Ok(u)
    ensures Parse(Print(u)) == Ok(u)
  {
    var (rest, frag) := CutFragment(raw);
    CutFragmentFenced(raw);
    var v := ParseRest(rest).value;
    RestStable(rest, v);
    FragmentStable(v, frag, u);
    PrintedParses(u, v, frag);
  }
}

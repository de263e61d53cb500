/**
 What the URL functions mean in terms of the text itself: which bytes each mode escapes, which texts are
 malformed, which bytes are UTF-8, and which piece of a URL each field is read from.
 */
module UrlReading {
  import opened Wrappers
  import opened GoUrl

  // ---------- UTF-8 ----------

  /** A Unicode scalar value: a code point that is no surrogate. */
  predicate IsScalar(c: int) {
    0 <= c <= 0x10FFFF && !(0xD800 <= c <= 0xDFFF)
  }

  /** The UTF-8 form of a scalar value: six bits to a trailing byte. */
  function EncodeScalar(c: int): (s: Text)
    requires IsScalar(c)
    ensures 1 <= |s| <= 4
  {
    if c < 0x80 then [c]
    else if c < 0x800 then [0xC0 + c / 64, 0x80 + c % 64]
    else if c < 0x10000 then [0xE0 + c / 4096, 0x80 + c / 64 % 64, 0x80 + c % 64]
    else [0xF0 + c / 262144, 0x80 + c / 4096 % 64, 0x80 + c / 64 % 64, 0x80 + c % 64]
  }

  lemma EncodedIsValid(c: int, rest: Text)
    requires IsScalar(c)
    ensures ValidUtf8(EncodeScalar(c) + rest) <==> ValidUtf8(rest)
  {
    var e := EncodeScalar(c);
    var s := e + rest;
    assert s[|e|..] == rest && forall i :: 0 <= i < |e| ==> s[i] == e[i];
    if c >= 0x10000 {
      FourByteForm(c);
    } else if c >= 0x800 {
      ThreeByteForm(c);
    }
  }

  lemma ThreeByteForm(c: int)
    requires IsScalar(c) && 0x800 <= c < 0x10000
    ensures var e := EncodeScalar(c);
            && 0xE0 <= e[0] <= 0xEF && IsTrail(e[1]) && IsTrail(e[2]) && (e[0] == 0xE0 ==> e[1] >= 0xA0) && (e[0] == 0xED ==> e[1] < 0xA0)
  {
    assert c / 4096 == 0 ==> c / 64 % 64 == c / 64;
    assert c / 4096 == 13 ==> c / 64 % 64 == c / 64 - 13 * 64;
  }

  lemma FourByteForm(c: int)
    requires IsScalar(c) && 0x10000 <= c
    ensures var e := EncodeScalar(c);
            && 0xF0 <= e[0] <= 0xF4 && IsTrail(e[1]) && IsTrail(e[2]) && IsTrail(e[3])
            && (e[0] == 0xF0 ==> e[1] >= 0x90) && (e[0] == 0xF4 ==> e[1] < 0x90)
  {
    assert c / 262144 == 0 ==> c / 4096 % 64 == c / 4096;
    assert c / 262144 == 4 ==> c / 4096 % 64 == c / 4096 - 4 * 64;
  }

  lemma SixBits(a: int, b: int)
    requires 0 <= a && 0 <= b < 64
    ensures (a * 64 + b) / 64 == a && (a * 64 + b) % 64 == b
  {
  }

  lemma SplitSixBits(c: int)
    requires 0 <= c
    ensures c / 4096 == c / 64 / 64 && c / 262144 == c / 64 / 64 / 64
  {
  }

  lemma ThreeBytes(lead: Byte, x: Byte, y: Byte) returns (c: int)
    requires 0xE0 <= lead <= 0xEF && IsTrail(x) && IsTrail(y) && (lead == 0xE0 ==> x >= 0xA0) && (lead == 0xED ==> x < 0xA0)
    ensures IsScalar(c) && EncodeScalar(c) == [lead, x, y]
  {
    var a: int, b: int, d: int := lead, x, y;
    c := ((a - 0xE0) * 64 + (b - 0x80)) * 64 + (d - 0x80);
    SixBits((a - 0xE0) * 64 + (b - 0x80), d - 0x80);
    SixBits(a - 0xE0, b - 0x80);
    SplitSixBits(c);
  }

  lemma FourBytes(lead: Byte, x: Byte, y: Byte, z: Byte) returns (c: int)
    requires 0xF0 <= lead <= 0xF4 && IsTrail(x) && IsTrail(y) && IsTrail(z) && (lead == 0xF0 ==> x >= 0x90) && (lead == 0xF4 ==> x < 0x90)
    ensures IsScalar(c) && EncodeScalar(c) == [lead, x, y, z]
  {
    var a: int, b: int, d: int, e: int := lead, x, y, z;
    var top := (a - 0xF0) * 64 + (b - 0x80);
    c := (top * 64 + (d - 0x80)) * 64 + (e - 0x80);
    SixBits(top * 64 + (d - 0x80), e - 0x80);
    SixBits(top, d - 0x80);
    SixBits(a - 0xF0, b - 0x80);
    SplitSixBits(c);
  }

  /** Valid text starts with the form of some scalar value. */
  lemma FirstScalar(s: Text) returns (c: int)
    requires ValidUtf8(s) && s != []
    ensures IsScalar(c) && EncodeScalar(c) <= s && ValidUtf8(s[|EncodeScalar(c)|..])
  {
    if s[0] < 0x80 {
      c := s[0];
    } else if s[0] <= 0xDF {
      var a: int, b: int := s[0], s[1];
      c := (a - 0xC0) * 64 + (b - 0x80);
      SixBits(a - 0xC0, b - 0x80);
    } else if s[0] <= 0xEF {
      c := ThreeBytes(s[0], s[1], s[2]);
    } else {
      c := FourBytes(s[0], s[1], s[2], s[3]);
    }
  }

  ghost predicate AllScalars(cs: seq<int>) {
    forall i :: 0 <= i < |cs| ==> IsScalar(cs[i])
  }

  ghost function EncodeScalars(cs: seq<int>): Text
    requires AllScalars(cs)
  {
    if cs == [] then [] else EncodeScalar(cs[0]) + EncodeScalars(cs[1..])
  }

  lemma {:induction false} EncodedAreValid(cs: seq<int>)
    requires AllScalars(cs)
    ensures ValidUtf8(EncodeScalars(cs))
  {
    if cs == [] {
    } else {
      EncodedAreValid(cs[1..]);
      EncodedIsValid(cs[0], EncodeScalars(cs[1..]));
    }
  }

  lemma {:induction false} DecodeScalars(s: Text) returns (cs: seq<int>)
    requires ValidUtf8(s)
    ensures AllScalars(cs) && EncodeScalars(cs) == s
    decreases |s|
  {
    if s == [] {
      cs := [];
    } else {
      var c := FirstScalar(s);
      var rest := DecodeScalars(s[|EncodeScalar(c)|..]);
      cs := [c] + rest;
      assert cs[1..] == rest && s == EncodeScalar(c) + s[|EncodeScalar(c)|..];
    }
  }

  /** Bytes are UTF-8 exactly when they are the forms of some scalar values, one after another. */
  lemma Utf8Iff(s: Text)
    ensures ValidUtf8(s) <==> exists cs :: AllScalars(cs) && EncodeScalars(cs) == s
  {
    if ValidUtf8(s) {
      var cs := DecodeScalars(s);
      assert AllScalars(cs) && EncodeScalars(cs) == s;
    }
    if cs :| AllScalars(cs) && EncodeScalars(cs) == s {
      EncodedAreValid(cs);
    }
  }

  // ---------- What escaping leaves alone, and what it takes for malformed ----------

  /** The byte is one of the characters. */
  predicate OneOf(c: Byte, chars: string) {
    exists i :: 0 <= i < |chars| && chars[i] as int == c
  }

  /** The characters besides letters, digits and - _ . ~ that a mode leaves as they are. */
  function LeftAlone(mode: Mode): string {
    match mode
    case Path => "$&+,/:;=@"
    case PathSegment => "$&+:=@"
    case Host => "!$&'()*+,;=:[]<>\""
    case Zone => "!$&'()*+,;=:[]<>\""
    case UserPassword => "$&+,;="
    case QueryComponent => ""
    case Fragment => "$&+,/:;=?@!()*"
  }

  lemma EscapesAllBut(c: Byte, mode: Mode)
    ensures ShouldEscape(c, mode) <==>
            && !('a' as int <= c <= 'z' as int) && !('A' as int <= c <= 'Z' as int) && !('0' as int <= c <= '9' as int)
            && !OneOf(c, "-_.~") && !OneOf(c, LeftAlone(mode))
  {
    var kept := LeftAlone(mode);
    assert OneOf(c, "-_.~") <==> c in {0x2D, 0x5F, 0x2E, 0x7E} by {
      var s := "-_.~";
      assert s[0] as int == 0x2D && s[1] as int == 0x5F && s[2] as int == 0x2E && s[3] as int == 0x7E;
    }
    match mode
    case Path =>
      assert kept[0] as int == 0x24 && kept[1] as int == 0x26 && kept[2] as int == 0x2B && kept[3] as int == 0x2C && kept[4] as int == 0x2F;
      assert kept[5] as int == 0x3A && kept[6] as int == 0x3B && kept[7] as int == 0x3D && kept[8] as int == 0x40;
    case PathSegment =>
      assert kept[0] as int == 0x24 && kept[1] as int == 0x26 && kept[2] as int == 0x2B && kept[3] as int == 0x3A && kept[4] as int == 0x3D;
      assert kept[5] as int == 0x40;
    case UserPassword =>
      assert kept[0] as int == 0x24 && kept[1] as int == 0x26 && kept[2] as int == 0x2B && kept[3] as int == 0x2C && kept[4] as int == 0x3B;
      assert kept[5] as int == 0x3D;
    case QueryComponent =>
    case Fragment =>
      assert kept[0] as int == 0x24 && kept[1] as int == 0x26 && kept[2] as int == 0x2B && kept[3] as int == 0x2C && kept[4] as int == 0x2F;
      assert kept[5] as int == 0x3A && kept[6] as int == 0x3B && kept[7] as int == 0x3D && kept[8] as int == 0x3F && kept[9] as int == 0x40;
      assert kept[10] as int == 0x21 && kept[11] as int == 0x28 && kept[12] as int == 0x29 && kept[13] as int == 0x2A;
    case _ =>
      assert kept[0] as int == 0x21 && kept[1] as int == 0x24 && kept[2] as int == 0x26 && kept[3] as int == 0x27 && kept[4] as int == 0x28;
      assert kept[5] as int == 0x29 && kept[6] as int == 0x2A && kept[7] as int == 0x2B && kept[8] as int == 0x2C && kept[9] as int == 0x3B;
      assert kept[10] as int == 0x3D && kept[11] as int == 0x3A && kept[12] as int == 0x5B && kept[13] as int == 0x5D;
      assert kept[14] as int == 0x3C && kept[15] as int == 0x3E && kept[16] as int == 0x22;
  }

  /** A percent sign is followed by two hex digits; in a host the escape is of a byte above 0x7F or of the sign itself. */
  predicate GoodPercent(s: Text, mode: Mode, i: nat)
    requires i < |s|
  {
    && i + 2 < |s| && IsHex(s[i + 1]) && IsHex(s[i + 2])
    && (mode.Host? ==> Unhex(s[i + 1]) >= 8 || (s[i + 1] == 0x32 && s[i + 2] == 0x35))
  }

  /** A byte that a host or zone may hold as it is: not ASCII, or one that escaping leaves alone. */
  predicate GoodByte(c: Byte, mode: Mode) {
    mode.Host? || mode.Zone? ==> c >= 0x80 || IsLetter(c) || IsDigit(c) || OneOf(c, "-_.~") || OneOf(c, LeftAlone(mode))
  }

  predicate WellEscaped(s: Text, mode: Mode) {
    forall i :: 0 <= i < |s| ==> if s[i] == PERCENT then GoodPercent(s, mode, i) else GoodByte(s[i], mode)
  }

  lemma GoodToken(s: Text, mode: Mode)
    requires s != []
    ensures !BadToken(s, mode) <==> if s[0] == PERCENT then GoodPercent(s, mode, 0) else GoodByte(s[0], mode)
  {
    EscapesAllBut(s[0], mode);
    if s[0] == PLUS {
      PlusIsKept(mode);
    }
    if s[0] == PERCENT && |s| >= 3 {
      assert s[1..3] == [s[1], s[2]];
    }
  }

  lemma PlusIsKept(mode: Mode)
    ensures mode.Host? || mode.Zone? ==> OneOf(PLUS, LeftAlone(mode))
  {
    if mode.Host? || mode.Zone? {
      assert LeftAlone(mode)[7] as int == PLUS;
    }
  }

  lemma HexDigitIsGood(c: Byte, mode: Mode)
    requires IsHex(c)
    ensures c != PERCENT && GoodByte(c, mode)
  {
  }

  /** Unescaping fails on the text exactly when some percent sign is not a well-formed escape, or a host byte is not allowed. */
  lemma {:induction false} UnescapesIff(s: Text, mode: Mode)
    ensures Decode(s, mode).Some? <==> WellEscaped(s, mode)
  {
    if s == [] {
    } else {
      GoodToken(s, mode);
      if !BadToken(s, mode) {
        var n := TokenLength(s);
        UnescapesIff(s[n..], mode);
        if s[0] == PERCENT {
          HexDigitIsGood(s[1], mode);
          HexDigitIsGood(s[2], mode);
        }
        TokensSplit(s, mode, n);
      }
    }
  }

  lemma TokensSplit(s: Text, mode: Mode, n: nat)
    requires n <= |s| && forall i :: 0 <= i < n ==> if s[i] == PERCENT then GoodPercent(s, mode, i) else GoodByte(s[i], mode)
    ensures WellEscaped(s, mode) <==> WellEscaped(s[n..], mode)
  {
    forall i | n <= i < |s|
      ensures s[n..][i - n] == s[i] && (s[i] == PERCENT ==> (GoodPercent(s, mode, i) <==> GoodPercent(s[n..], mode, i - n)))
    {
    }
    if WellEscaped(s, mode) {
      forall j | 0 <= j < |s[n..]|
        ensures if s[n..][j] == PERCENT then GoodPercent(s[n..], mode, j) else GoodByte(s[n..][j], mode)
      {
        assert s[n..][j] == s[n + j];
      }
    }
    if WellEscaped(s[n..], mode) {
      forall i | n <= i < |s|
        ensures if s[i] == PERCENT then GoodPercent(s, mode, i) else GoodByte(s[i], mode)
      {
        assert s[n..][i - n] == s[i];
      }
    }
  }

  // ---------- What the fields are read from ----------

  /** A text with a control byte is refused, and only such a text is refused before it is taken apart. */
  lemma ControlIsRefused(raw: Text)
    ensures (exists i :: 0 <= i < |raw| && (raw[i] < 0x20 || raw[i] == 0x7F)) ==> Parse(raw).Err?
    ensures (forall i :: 0 <= i < |raw| ==> raw[i] >= 0x20 && raw[i] != 0x7F) ==>
              var (rest, frag) := CutFragment(raw);
              Parse(raw) == if ParseRest(rest).Ok? then AddFragment(ParseRest(rest).value, frag) else Err
  {
  }

  /** The fragment is what follows the first hash sign, unescaped. */
  lemma FragmentIsRead(raw: Text, u: GoUrl) returns (rest: Text, v: GoUrl)
    requires Parse(raw) == Ok(u)
    ensures (forall i :: 0 <= i < |raw| ==> raw[i] >= 0x20 && raw[i] != 0x7F) && Lacks(rest, HASH) && ParseRest(rest) == Ok(v) && v.fragment == [] && u == v.(fragment := u.fragment, rawFragment := u.rawFragment)
    ensures if Lacks(raw, HASH) then rest == raw && u == v
            else rest < raw && raw[|rest|] == HASH && Unescape(raw[|rest| + 1..], Fragment) == Plain(u.fragment)
  {
    rest := CutFragment(raw).0;
    v := ParseRest(rest).value;
    FragmentIsCut(raw);
    ParsedWithoutFragment(rest, v);
  }

  lemma FragmentIsCut(raw: Text)
    ensures var (rest, frag) := CutFragment(raw);
            && Lacks(rest, HASH)
            && if Lacks(raw, HASH) then rest == raw && frag.None? else rest < raw && raw[|rest|] == HASH && frag == Some(raw[|rest| + 1..])
  {
    var i := Find(raw, HASH);
    if i < |raw| {
      assert raw[i] == HASH;
    }
  }

  lemma ParsedWithoutFragment(rest: Text, v: GoUrl)
    requires ParseRest(rest) == Ok(v)
    ensures v.fragment == [] && v.rawFragment == []
  {
  }

  /** The scheme is what precedes a colon, letter by letter in lower case; it starts with a letter. */
  lemma SchemeIsRead(rest: Text, scheme: Text, x: Text)
    requires GetScheme(rest) == Ok((scheme, x))
    ensures scheme == [] ==> x == rest
    ensures scheme != [] ==>
              var n := |scheme|;
              && n < |rest| && rest[n] == COLON && x == rest[n + 1..] && IsLetter(rest[0])
              && forall i :: 0 <= i < n ==> scheme[i] == if 0x41 <= rest[i] <= 0x5A then rest[i] + 0x20 else rest[i]
  {
    var r := ScanScheme(rest, 0);
    if r.SchemeEndsAt? {
      assert SchemeByte(rest, 0);
    }
  }

  /** A letter, then letters, digits, plus signs, hyphens and dots. */
  predicate IsSchemeText(p: Text) {
    && p != [] && ('a' as int <= p[0] <= 'z' as int || 'A' as int <= p[0] <= 'Z' as int)
    && forall i :: 0 < i < |p| ==>
         || 'a' as int <= p[i] <= 'z' as int || 'A' as int <= p[i] <= 'Z' as int || '0' as int <= p[i] <= '9' as int
         || p[i] == '+' as int || p[i] == '-' as int || p[i] == '.' as int
  }

  /** A text has a scheme exactly when it starts with scheme text and a colon; only a leading colon is an error. */
  lemma HasSchemeIff(rest: Text)
    ensures GetScheme(rest).Err? <==> rest != [] && rest[0] == COLON
    ensures GetScheme(rest).Ok? ==>
              (GetScheme(rest).value.0 != [] <==> exists n :: 0 < n < |rest| && rest[n] == COLON && IsSchemeText(rest[..n]))
  {
    var r := ScanScheme(rest, 0);
    ScanStops(rest, 0);
    if r.SchemeEndsAt? {
      var p := rest[..r.i];
      forall j | 0 <= j < r.i
        ensures SchemeByte(rest, j) && p[j] == rest[j]
      {
      }
      assert SchemeByte(rest, 0) && IsSchemeText(p);
    }
    if n :| 0 < n < |rest| && rest[n] == COLON && IsSchemeText(rest[..n]) {
      forall j | 0 <= j < n
        ensures SchemeByte(rest, j)
      {
        assert rest[..n][j] == rest[j];
      }
      ScanReaches(rest, 0, n);
    }
  }

  lemma {:induction false} ScanStops(s: Text, i: nat)
    requires i <= |s|
    ensures ScanScheme(s, i).MissingScheme? <==> i == 0 && s != [] && s[0] == COLON
    decreases |s| - i
  {
    if i == |s| || !SchemeByte(s, i) {
    } else {
      ScanStops(s, i + 1);
    }
  }

  /** From `i` on there is nothing, or a colon and digits. */
  predicate PortFrom(h: Text, i: nat)
    requires i <= |h|
  {
    i < |h| ==> h[i] == COLON && forall j :: i < j < |h| ==> '0' as int <= h[j] <= '9' as int
  }

  /** The last closing bracket, with at most a port after it. */
  predicate ClosedAt(h: Text, i: int) {
    0 <= i < |h| && h[i] == RIGHT && Lacks(h[i + 1..], RIGHT) && PortFrom(h, i + 1)
  }

  /** The last colon, with digits after it. */
  predicate PortAt(h: Text, i: int) {
    0 <= i < |h| && h[i] == COLON && Lacks(h[i + 1..], COLON) && PortFrom(h, i)
  }

  lemma BracketShape(h: Text)
    requires h != [] && h[0] == LEFT
    ensures HostShape(h) <==> exists i :: ClosedAt(h, i)
  {
    var i := FindLast(h, RIGHT);
    if i >= 0 {
      PortIsSuffix(h, i + 1);
      assert HostShape(h) ==> ClosedAt(h, i);
    }
    if x :| ClosedAt(h, x) {
      LastIs(h, RIGHT, x);
    }
  }

  lemma PlainShape(h: Text)
    requires h == [] || h[0] != LEFT
    ensures HostShape(h) <==> Lacks(h, COLON) || exists i :: PortAt(h, i)
  {
    var i := FindLast(h, COLON);
    if i >= 0 {
      PortIsSuffix(h, i);
      assert HostShape(h) ==> PortAt(h, i);
    }
    if x :| PortAt(h, x) {
      LastIs(h, COLON, x);
    }
  }

  /** A host is refused for its shape exactly when a bracket is not closed, something other than a port follows its end, or a non-digit follows the last colon. */
  lemma HostShapeIff(h: Text)
    ensures HostShape(h) <==> if h != [] && h[0] == LEFT then exists i :: ClosedAt(h, i) else Lacks(h, COLON) || exists i :: PortAt(h, i)
  {
    if h != [] && h[0] == LEFT {
      BracketShape(h);
    } else {
      PlainShape(h);
    }
  }

  lemma PortIsSuffix(h: Text, i: nat)
    requires i <= |h|
    ensures ValidOptionalPort(h[i..]) <==> PortFrom(h, i)
  {
    var port := h[i..];
    assert forall j :: 0 <= j < |port| ==> port[j] == h[i + j];
    if PortFrom(h, i) && i < |h| {
      assert forall j :: 1 <= j < |port| ==> IsDigit(port[j]);
    }
    if ValidOptionalPort(port) && i < |h| {
      assert forall j :: i < j < |h| ==> h[j] == port[j - i];
    }
  }

  lemma LastIs(h: Text, b: Byte, x: nat)
    requires x < |h| && h[x] == b && Lacks(h[x + 1..], b)
    ensures FindLast(h, b) == x
  {
    assert forall j :: x < j < |h| ==> h[x + 1..][j - x - 1] == h[j];
  }

  /** The query is what follows the first question mark; a lone one at the end is remembered instead. */
  lemma QueryIsRead(x: Text)
    ensures var (text, force, query) := SplitQuery(x);
            && Lacks(text, QUESTION)
            && (Lacks(x, QUESTION) ==> text == x && !force && query == [])
            && (!Lacks(x, QUESTION) ==> text < x && x[|text|] == QUESTION && query == x[|text| + 1..] && (force <==> query == []))
  {
    var i := Find(x, QUESTION);
    if i < |x| {
      assert x[i] == QUESTION;
    }
  }

  /** A name, or a name and a password after the first colon. */
  ghost predicate ReadsAsUser(p: Text, u: Userinfo) {
    if Lacks(p, COLON) then !u.passwordSet && u.password == [] && Unescape(p, UserPassword) == Plain(u.username)
    else u.passwordSet && exists name, word :: SplitsInto(p, name, word, u)
  }

  ghost predicate SplitsInto(p: Text, name: Text, word: Text, u: Userinfo) {
    && p == name + [COLON] + word && Lacks(name, COLON)
    && Unescape(name, UserPassword) == Plain(u.username) && Unescape(word, UserPassword) == Plain(u.password)
  }

  lemma UserIsRead(p: Text, u: Userinfo)
    requires ParseUserinfo(p) == Ok(u)
    ensures ReadsAsUser(p, u)
  {
    var i := Find(p, COLON);
    if i < |p| {
      assert p[i] == COLON;
      assert SplitsInto(p, p[..i], p[i + 1..], u);
    }
  }

  lemma AroundLast(s: Text, b: Byte, i: nat)
    requires i < |s| && s[i] == b && forall j :: i < j < |s| ==> s[j] != b
    ensures s == s[..i] + [b] + s[i + 1..] && Lacks(s[i + 1..], b) && !Lacks(s, b)
  {
  }

  /** The host is what follows the last at-sign of the authority, and what precedes it is the user. */
  lemma AuthorityIsRead(s: Text, user: Option<Userinfo>, host: Text) returns (p: Text, h: Text)
    requires ParseAuthority(s) == Ok((user, host))
    ensures Lacks(h, AT) && Unescape(h, Host) == Plain(host)
    ensures if Lacks(s, AT) then user.None? && h == s else user.Some? && s == p + [AT] + h && ReadsAsUser(p, user.value)
  {
    var i := FindLast(s, AT);
    if i < 0 {
      p, h := [], s;
    } else {
      p, h := s[..i], s[i + 1..];
      AroundLast(s, AT, i);
      UserIsRead(p, user.value);
    }
  }

  /** After a scheme, text that does not start with a slash is opaque; without one, its first segment holds no colon. */
  lemma BodyWithoutSlash(scheme: Text, text: Text, b: Body)
    requires ParseBody(scheme, text) == Ok(b) && (text == [] || text[0] != SLASH)
    ensures scheme != [] ==> b == Body(text, None, [], [], [])
    ensures scheme == [] ==> b.opaque_ == [] && b.user.None? && b.host == [] && Unescape(text, Path) == Plain(b.path)
    ensures scheme == [] ==> Lacks(text[..Find(text, SLASH)], COLON)
  {
  }

  /** Two slashes, but without a scheme not three, are followed by the authority up to the next slash; all else is path. */
  lemma BodyWithSlash(scheme: Text, text: Text, b: Body) returns (a: Text, path: Text)
    requires ParseBody(scheme, text) == Ok(b) && text != [] && text[0] == SLASH
    ensures b.opaque_ == [] && Unescape(path, Path) == Plain(b.path)
    ensures if |text| >= 2 && text[1] == SLASH && (scheme != [] || |text| == 2 || text[2] != SLASH) then
              text == [SLASH, SLASH] + a + path && Lacks(a, SLASH) && (path == [] || path[0] == SLASH) && ParseAuthority(a) == Ok((b.user, b.host))
            else path == text && b.user.None? && b.host == []
  {
    StartsWith(text);
    a, path := [], text;
    if |text| >= 2 && text[1] == SLASH && (scheme != [] || |text| == 2 || text[2] != SLASH) {
      a, path := AuthorityPart(text);
      AuthorityBody(scheme, text, b, a, path);
    }
  }

  lemma AuthorityPart(text: Text) returns (a: Text, path: Text)
    requires |text| >= 2 && text[0] == SLASH && text[1] == SLASH
    ensures text == [SLASH, SLASH] + a + path && Lacks(a, SLASH) && (path == [] || path[0] == SLASH)
    ensures var i := Find(text[2..], SLASH); a == text[2..][..i] && path == text[2..][i..]
  {
    var tail := text[2..];
    var i := Find(tail, SLASH);
    a, path := tail[..i], tail[i..];
    TwoSlashes(text, a, path, i);
  }

  lemma TwoSlashes(text: Text, a: Text, path: Text, i: nat)
    requires |text| >= 2 && text[0] == SLASH && text[1] == SLASH && i <= |text| - 2 && a == text[2..][..i] && path == text[2..][i..]
    ensures text == [SLASH, SLASH] + a + path && (path != [] ==> path[0] == text[2..][i])
  {
  }

  lemma AuthorityBody(scheme: Text, text: Text, b: Body, a: Text, path: Text)
    requires HasAuthority(scheme, text) && ParseBody(scheme, text) == Ok(b)
    requires var i := Find(text[2..], SLASH); a == text[2..][..i] && path == text[2..][i..]
    ensures b.opaque_ == [] && ParseAuthority(a) == Ok((b.user, b.host)) && Unescape(path, Path) == Plain(b.path)
  {
    assert Starts(text, [SLASH]);
  }

  lemma StartsWith(text: Text)
    ensures Starts(text, [SLASH]) <==> text != [] && text[0] == SLASH
    ensures Starts(text, [SLASH, SLASH]) <==> |text| >= 2 && text[0] == SLASH && text[1] == SLASH
    ensures Starts(text, [SLASH, SLASH, SLASH]) <==> |text| >= 3 && text[0] == SLASH && text[1] == SLASH && text[2] == SLASH
  {
  }

  /** The fields of a parsed URL are these pieces of its text. */
  lemma FieldsAreRead(raw: Text, u: GoUrl) returns (rest: Text, v: GoUrl, x: Text)
    requires Parse(raw) == Ok(u)
    ensures forall i :: 0 <= i < |raw| ==> raw[i] >= 0x20 && raw[i] != 0x7F
    ensures Lacks(rest, HASH) && u == v.(fragment := u.fragment, rawFragment := u.rawFragment)
    ensures if Lacks(raw, HASH) then rest == raw && u == v
            else rest < raw && raw[|rest|] == HASH && Unescape(raw[|rest| + 1..], Fragment) == Plain(u.fragment)
    ensures GetScheme(rest) == Ok((u.scheme, x))
    ensures var (text, force, query) := SplitQuery(x);
            u.forceQuery == force && u.rawQuery == query && ParseBody(u.scheme, text) == Ok(BodyOf(u))
  {
    rest, v := FragmentIsRead(raw, u);
    x := GetScheme(rest).value.1;
  }
}

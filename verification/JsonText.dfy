/**
 Compaction of raw JSON text: whitespace outside strings is dropped, and characters that HTML or
 JavaScript would read are escaped. The text need not be JSON.
 */
module JsonText {
  import opened Wrappers

  const LS: char := '\U{2028}'
  const PS: char := '\U{2029}'

  /** Where the scan stands: outside a string, inside one, or just after a backslash inside one. */
  datatype State = Outside | Inside | Escaped

  predicate IsSpace(c: char) {
    c in {' ', '\t', '\n', '\r'}
  }

  predicate IsHtml(c: char) {
    c in {'<', '>', '&', LS, PS}
  }

  function Html(c: char): (e: string)
    ensures !IsHtml(c) ==> e == [c]
    ensures IsHtml(c) ==> |e| == 6 && e[..2] == "\\u"
  {
    if c == '<' then "\\u003c"
    else if c == '>' then "\\u003e"
    else if c == '&' then "\\u0026"
    else if c == LS then "\\u2028"
    else if c == PS then "\\u2029"
    else [c]
  }

  function Next(st: State, c: char): State {
    match st
    case Outside => if c == '\"' then Inside else Outside
    case Inside => if c == '\\' then Escaped else if c == '\"' then Outside else Inside
    case Escaped => Inside
  }

  function Emit(st: State, c: char): string {
    match st
    case Outside => if IsSpace(c) then [] else Html(c)
    case Inside => Html(c)
    case Escaped => [c]
  }

  /** The state after a text. */
  function Scan(st: State, s: string): State
    decreases |s|
  {
    if s == [] then st else Scan(Next(st, s[0]), s[1..])
  }

  function CompactFrom(st: State, s: string): string
    decreases |s|
  {
    if s == [] then [] else Emit(st, s[0]) + CompactFrom(Next(st, s[0]), s[1..])
  }

  function Compact(s: string): string {
    CompactFrom(Outside, s)
  }

  // ---------- The loop ----------

  function StateOf(inString: bool, escaped: bool): State {
    if !inString then Outside else if escaped then Escaped else Inside
  }

  /** One character of the loop: what it appends, and the new flags. */
  method CompactStep(c: char, inString: bool, escaped: bool) returns (piece: string, inString': bool, escaped': bool)
    requires escaped ==> inString
    ensures escaped' ==> inString'
    ensures piece == Emit(StateOf(inString, escaped), c)
    ensures StateOf(inString', escaped') == Next(StateOf(inString, escaped), c)
  {
    inString', escaped' := inString, escaped;
    if inString {
      if escaped {
        return [c], true, false;
      }
      if c == '\\' {
        return [c], true, true;
      }
      if c == '\"' {
        return [c], false, false;
      }
    } else if IsSpace(c) {
      return [], false, false;
    } else if c == '\"' {
      return [c], true, false;
    }
    if c == '<' {
      piece := "\\u003c";
    } else if c == '>' {
      piece := "\\u003e";
    } else if c == '&' {
      piece := "\\u0026";
    } else if c == LS {
      piece := "\\u2028";
    } else if c == PS {
      piece := "\\u2029";
    } else {
      piece := [c];
    }
  }

  /** The loop of compact_raw. */
  method CompactRaw(s: string) returns (out: string)
    ensures out == Compact(s)
  {
    out := [];
    var inString, escaped := false, false;
    assert s[0..] == s;
    for i := 0 to |s|
      invariant escaped ==> inString
      invariant out + CompactFrom(StateOf(inString, escaped), s[i..]) == Compact(s)
    {
      CompactTurn(StateOf(inString, escaped), s, i, out);
      var piece: string;
      piece, inString, escaped := CompactStep(s[i], inString, escaped);
      out := out + piece;
    }
    assert s[|s|..] == [];
  }

  lemma CompactTurn(st: State, s: string, i: nat, out: string)
    requires i < |s|
    ensures out + CompactFrom(st, s[i..]) == out + Emit(st, s[i]) + CompactFrom(Next(st, s[i]), s[i + 1..])
  {
    assert s[i..][0] == s[i] && s[i..][1..] == s[i + 1..];
  }

  // ---------- What is left ----------

  /** Every character of a text that stands outside a string, read from a state, is none of the four spaces. */
  ghost predicate NoSpaceOutside(st: State, out: string) {
    forall i :: 0 <= i < |out| && Scan(st, out[..i]).Outside? ==> out[i] != ' ' && out[i] != '\t' && out[i] != '\n' && out[i] != '\r'
  }

  lemma NoSpaceAppend(st: State, a: string, b: string)
    requires NoSpaceOutside(st, a) && NoSpaceOutside(Scan(st, a), b)
    ensures NoSpaceOutside(st, a + b)
  {
    forall i | 0 <= i < |a + b| && Scan(st, (a + b)[..i]).Outside?
      ensures (a + b)[i] != ' ' && (a + b)[i] != '\t' && (a + b)[i] != '\n' && (a + b)[i] != '\r'
    {
      if i < |a| {
        assert (a + b)[..i] == a[..i];
      } else {
        assert (a + b)[..i] == a + b[..i - |a|];
        Split(st, a, b[..i - |a|]);
      }
    }
  }

  /** Compacted text has no space, tab, newline or carriage return outside its strings. */
  lemma {:induction false} CompactDropsSpace(st: State, s: string)
    ensures NoSpaceOutside(st, CompactFrom(st, s))
    decreases |s|
  {
    if s == [] {
    } else {
      var e := Emit(st, s[0]);
      EmitFixed(st, s[0]);
      EmittedHasNoSpace(st, s[0]);
      CompactDropsSpace(Next(st, s[0]), s[1..]);
      NoSpaceAppend(st, e, CompactFrom(Next(st, s[0]), s[1..]));
    }
  }

  lemma EmittedHasNoSpace(st: State, c: char)
    ensures NoSpaceOutside(st, Emit(st, c))
  {
    var e := Emit(st, c);
    if |e| == 6 {
      assert forall i :: 0 <= i < |e| ==> e[i] != ' ' && e[i] != '\t' && e[i] != '\n' && e[i] != '\r';
    } else if |e| == 1 {
      assert e[..0] == [];
    }
  }

  /** The five characters that HTML or JavaScript would read become these escapes, and no other character changes. */
  lemma HtmlEscapes(c: char)
    ensures Html('<') == "\\u003c" && Html('>') == "\\u003e" && Html('&') == "\\u0026"
    ensures Html('\U{2028}') == "\\u2028" && Html('\U{2029}') == "\\u2029"
    ensures c != '<' && c != '>' && c != '&' && c != '\U{2028}' && c != '\U{2029}' ==> Html(c) == [c]
  {
  }

  // ---------- Idempotence ----------

  lemma {:induction false} Split(st: State, a: string, b: string)
    ensures Scan(st, a + b) == Scan(Scan(st, a), b)
    ensures CompactFrom(st, a + b) == CompactFrom(st, a) + CompactFrom(Scan(st, a), b)
    decreases |a|
  {
    if a == [] {
      assert a + b == b;
    } else {
      assert (a + b)[0] == a[0] && (a + b)[1..] == a[1..] + b;
      var st' := Next(st, a[0]);
      Split(st', a[1..], b);
      Associate(Emit(st, a[0]), CompactFrom(st', a[1..]), CompactFrom(Scan(st', a[1..]), b));
    }
  }

  lemma Associate(a: string, b: string, c: string)
    ensures a + (b + c) == (a + b) + c
  {
  }

  lemma Regroup(a: string, b: string, c: string, d: string)
    ensures a + (b + c + d) == a + b + c + d
  {
  }

  /** A text that compaction leaves alone from a state, ending in another. */
  ghost predicate Fixed(st: State, s: string, st': State) {
    CompactFrom(st, s) == s && Scan(st, s) == st'
  }

  lemma FixedOne(st: State, c: char)
    requires Emit(st, c) == [c]
    ensures Fixed(st, [c], Next(st, c))
  {
    assert [c][1..] == [];
  }

  lemma FixedAppend(st: State, a: string, st': State, b: string, st'': State)
    requires Fixed(st, a, st') && Fixed(st', b, st'')
    ensures Fixed(st, a + b, st'')
  {
    Split(st, a, b);
  }

  /** Characters that stand for themselves in both kinds of place. */
  predicate IsPlain(c: char) {
    !IsHtml(c) && !IsSpace(c) && c != '\"' && c != '\\'
  }

  lemma {:induction false} PlainFixed(st: State, s: string)
    requires !st.Escaped? && forall i :: 0 <= i < |s| ==> IsPlain(s[i])
    ensures Fixed(st, s, st)
  {
    if s == [] {
    } else {
      FixedOne(st, s[0]);
      PlainFixed(st, s[1..]);
      FixedAppend(st, [s[0]], st, s[1..], st);
      assert s == [s[0]] + s[1..];
    }
  }

  lemma BackslashFixed(st: State, s: string)
    requires !st.Escaped? && |s| >= 2 && s[0] == '\\'
    requires st.Outside? ==> IsPlain(s[1])
    requires forall i :: 2 <= i < |s| ==> IsPlain(s[i])
    ensures Fixed(st, s, st)
  {
    FixedOne(st, '\\');
    FixedOne(Next(st, '\\'), s[1]);
    PlainFixed(st, s[2..]);
    FixedAppend(Next(st, '\\'), [s[1]], st, s[2..], st);
    FixedAppend(st, ['\\'], Next(st, '\\'), [s[1]] + s[2..], st);
    assert s == ['\\'] + ([s[1]] + s[2..]);
  }

  /** What one character is turned into, compaction leaves alone. */
  lemma EmitFixed(st: State, c: char)
    ensures Fixed(st, Emit(st, c), Next(st, c))
  {
    if Emit(st, c) == [c] {
      FixedOne(st, c);
    } else if st.Outside? && IsSpace(c) {
    } else {
      BackslashFixed(st, Html(c));
    }
  }

  lemma {:induction false} CompactedIsFixed(st: State, s: string)
    ensures Fixed(st, CompactFrom(st, s), Scan(st, s))
    decreases |s|
  {
    if s == [] {
    } else {
      EmitFixed(st, s[0]);
      CompactedIsFixed(Next(st, s[0]), s[1..]);
      FixedAppend(st, Emit(st, s[0]), Next(st, s[0]), CompactFrom(Next(st, s[0]), s[1..]), Scan(st, s));
    }
  }

  /** Compaction is idempotent on every string, valid JSON or not. */
  lemma CompactIsIdempotent(s: string)
    ensures Compact(Compact(s)) == Compact(s)
  {
    CompactedIsFixed(Outside, s);
  }

  /** Every string that was opened is closed: a text after it is scanned from outside. */
  predicate Balanced(s: string) {
    Scan(Outside, s) == Outside
  }

  lemma CompactKeepsBalance(s: string)
    ensures Balanced(Compact(s)) <==> Balanced(s)
  {
    CompactedIsFixed(Outside, s);
  }

  // ---------- What compaction keeps ----------

  /** A character outside strings, a character of a string's content, or another escape in a string. */
  datatype Atom = Outer(c: char) | Content(code: int) | Short(c: char)

  predicate IsHex(c: char) {
    '0' <= c <= '9' || 'a' <= c <= 'f' || 'A' <= c <= 'F'
  }

  function HexValue(c: char): (n: int)
    requires IsHex(c)
    ensures 0 <= n < 16
  {
    if c <= '9' then c as int - '0' as int
    else if c <= 'F' then c as int - 'A' as int + 10
    else c as int - 'a' as int + 10
  }

  predicate StartsHex4(s: string) {
    |s| >= 4 && IsHex(s[0]) && IsHex(s[1]) && IsHex(s[2]) && IsHex(s[3])
  }

  function Hex4(s: string): (n: int)
    requires StartsHex4(s)
    ensures 0 <= n < 0x10000
  {
    ((HexValue(s[0]) * 16 + HexValue(s[1])) * 16 + HexValue(s[2])) * 16 + HexValue(s[3])
  }

  /** The meaning of a text: what stands outside strings without whitespace, and the decoded strings. */
  function Atoms(inString: bool, s: string): seq<Atom>
    decreases |s|
  {
    if s == [] then []
    else if !inString then
      (if IsSpace(s[0]) then [] else [Outer(s[0])]) + Atoms(s[0] == '\"', s[1..])
    else if s[0] == '\"' then [Outer(s[0])] + Atoms(false, s[1..])
    else if s[0] == '\\' then
      if |s| == 1 then [Short('\\')]
      else if s[1] == 'u' && StartsHex4(s[2..]) then [Content(Hex4(s[2..]))] + Atoms(true, s[6..])
      else [Short(s[1])] + Atoms(true, s[2..])
    else [Content(s[0] as int)] + Atoms(true, s[1..])
  }

  /** The characters outside strings that compaction escapes. */
  function HtmlOutside(st: State, s: string): nat
    decreases |s|
  {
    if s == [] then 0
    else (if st.Outside? && IsHtml(s[0]) then 1 else 0) + HtmlOutside(Next(st, s[0]), s[1..])
  }

  function Enter(inString: bool): State {
    if inString then Inside else Outside
  }

  /** An escape written for an HTML character reads as that character inside a string, as six characters outside. */
  lemma HtmlAtoms(c: char, rest: string)
    requires IsHtml(c)
    ensures Atoms(true, Html(c) + rest) == [Content(c as int)] + Atoms(true, rest)
    ensures |Atoms(false, Html(c) + rest)| == 6 + |Atoms(false, rest)|
  {
    var s := Html(c) + rest;
    assert s[2..][..4] == Html(c)[2..] && s[6..] == rest;
    assert StartsHex4(s[2..]) && Hex4(s[2..]) == c as int;
    OuterAtoms(Html(c), rest);
  }

  lemma {:induction false} OuterAtoms(a: string, rest: string)
    requires forall i :: 0 <= i < |a| ==> !IsSpace(a[i]) && a[i] != '\"'
    ensures |Atoms(false, a + rest)| == |a| + |Atoms(false, rest)|
    decreases |a|
  {
    if a == [] {
      assert a + rest == rest;
    } else {
      assert (a + rest)[0] == a[0] && (a + rest)[1..] == a[1..] + rest;
      OuterAtoms(a[1..], rest);
    }
  }

  /** A hex digit in front of compacted content was there before. */
  lemma HexHead(s: string)
    requires var t := CompactFrom(Inside, s); t != [] && IsHex(t[0])
    ensures s != [] && IsHex(s[0]) && CompactFrom(Inside, s)[1..] == CompactFrom(Inside, s[1..])
  {
    assert !IsHtml(s[0]);
  }

  lemma HexKept(s: string)
    requires StartsHex4(CompactFrom(Inside, s))
    ensures StartsHex4(s)
  {
    var t := CompactFrom(Inside, s);
    HexHead(s);
    assert t[1..][0] == t[1];
    HexHead(s[1..]);
    assert t[1..][1..] == t[2..] && t[2..][0] == t[2] && s[1..][1..] == s[2..];
    HexHead(s[2..]);
    assert t[2..][1..] == t[3..] && t[3..][0] == t[3] && s[2..][1..] == s[3..];
    HexHead(s[3..]);
  }

  /** The cases of one step: the text after a compacted front. */
  lemma EscapeFront(s: string, n: nat)
    requires 2 <= n <= |s| && s[0] == '\\' && forall i :: 2 <= i < n ==> IsPlain(s[i])
    ensures CompactFrom(Inside, s) == s[..n] + CompactFrom(Inside, s[n..])
    ensures HtmlOutside(Inside, s) == HtmlOutside(Inside, s[n..])
  {
    assert s == s[..n] + s[n..];
    BackslashFixed(Inside, s[..n]);
    Split(Inside, s[..n], s[n..]);
    assert s[1..][1..] == s[2..];
    PlainInside(s[2..], n - 2);
    assert s[2..][n - 2..] == s[n..];
  }

  lemma {:induction false} PlainInside(s: string, n: nat)
    requires n <= |s| && forall i :: 0 <= i < n ==> IsPlain(s[i])
    ensures HtmlOutside(Inside, s) == HtmlOutside(Inside, s[n..])
    decreases n
  {
    if n == 0 {
    } else {
      PlainInside(s[1..], n - 1);
      assert s[1..][n - 1..] == s[n..];
    }
  }

  /** A backslash inside a string, with what it introduces. */
  function EscapeAtom(s: string): Atom
    requires |s| >= 2
  {
    if s[1] == 'u' && StartsHex4(s[2..]) then Content(Hex4(s[2..])) else Short(s[1])
  }

  function EscapeLength(s: string): nat
    requires |s| >= 2
  {
    if s[1] == 'u' && StartsHex4(s[2..]) then 6 else 2
  }

  lemma EscapeRead(s: string)
    requires |s| >= 2 && s[0] == '\\'
    ensures EscapeLength(s) <= |s|
    ensures Atoms(true, s) == [EscapeAtom(s)] + Atoms(true, s[EscapeLength(s)..])
  {
  }

  /** Compaction leaves an escape's reading alone, and cannot make a longer one of it. */
  lemma EscapeSurvives(s: string, t: string)
    requires |s| >= 2 && s[0] == '\\'
    requires var n := EscapeLength(s); n <= |s| && t == s[..n] + CompactFrom(Inside, s[n..])
    ensures |t| >= 2 && EscapeLength(t) == EscapeLength(s) && EscapeAtom(t) == EscapeAtom(s)
  {
    var n := EscapeLength(s);
    assert t[1] == s[1];
    if n == 6 {
      assert forall i :: 0 <= i < 4 ==> t[2..][i] == s[2..][i];
    } else {
      assert t[2..] == CompactFrom(Inside, s[2..]);
      assert StartsHex4(t[2..]) ==> StartsHex4(s[2..]) by {
        if StartsHex4(t[2..]) {
          HexKept(s[2..]);
        }
      }
    }
  }

  /** Atoms before and after compaction, given how many HTML characters stood outside strings. */
  ghost predicate Kept(before: seq<Atom>, after: seq<Atom>, html: nat) {
    |after| == |before| + 5 * html && (html == 0 ==> after == before)
  }

  lemma {:induction false} CompactAtoms(inString: bool, s: string)
    ensures Kept(Atoms(inString, s), Atoms(inString, CompactFrom(Enter(inString), s)), HtmlOutside(Enter(inString), s))
    decreases |s|
  {
    if s == [] {
    } else if !inString {
      CompactAtoms(s[0] == '\"', s[1..]);
      OutsideAtoms(s);
    } else if s[0] == '\\' {
      if |s| == 1 {
        assert CompactFrom(Inside, s) == s;
      } else {
        CompactAtoms(true, s[EscapeLength(s)..]);
        EscapeKept(s);
      }
    } else {
      CompactAtoms(s[0] != '\"', s[1..]);
      InsideAtoms(s);
    }
  }

  lemma EscapeCompacts(s: string)
    requires |s| >= 2 && s[0] == '\\'
    ensures var n := EscapeLength(s);
            && n <= |s| && CompactFrom(Inside, s) == s[..n] + CompactFrom(Inside, s[n..])
            && HtmlOutside(Inside, s) == HtmlOutside(Inside, s[n..])
  {
    var n := EscapeLength(s);
    assert n == 6 ==> forall i :: 2 <= i < n ==> s[i] == s[2..][i - 2];
    EscapeFront(s, n);
  }

  lemma EscapeReadAfter(s: string, rest: string, t: string)
    requires |s| >= 2 && s[0] == '\\'
    requires var n := EscapeLength(s); n <= |s| && rest == CompactFrom(Inside, s[n..]) && t == s[..n] + rest
    ensures Atoms(true, t) == [EscapeAtom(s)] + Atoms(true, rest)
  {
    EscapeSurvives(s, t);
    EscapeRead(t);
    assert t[EscapeLength(s)..] == rest;
  }

  lemma EscapeKept(s: string)
    requires |s| >= 2 && s[0] == '\\'
    requires EscapeLength(s) <= |s|
    requires var rest := s[EscapeLength(s)..];
             Kept(Atoms(true, rest), Atoms(true, CompactFrom(Inside, rest)), HtmlOutside(Inside, rest))
    ensures Kept(Atoms(true, s), Atoms(true, CompactFrom(Inside, s)), HtmlOutside(Inside, s))
  {
    EscapeRead(s);
    EscapeCompacts(s);
    EscapeReadAfter(s, CompactFrom(Inside, s[EscapeLength(s)..]), CompactFrom(Inside, s));
  }

  lemma OutsideAtoms(s: string)
    requires s != []
    requires var q := s[0] == '\"';
             Kept(Atoms(q, s[1..]), Atoms(q, CompactFrom(Enter(q), s[1..])), HtmlOutside(Enter(q), s[1..]))
    ensures Kept(Atoms(false, s), Atoms(false, CompactFrom(Outside, s)), HtmlOutside(Outside, s))
  {
    var rest := CompactFrom(Next(Outside, s[0]), s[1..]);
    if IsHtml(s[0]) {
      HtmlAtoms(s[0], rest);
    } else if IsSpace(s[0]) {
      assert CompactFrom(Outside, s) == rest;
    } else {
      assert ([s[0]] + rest)[1..] == rest;
    }
  }

  lemma InsideAtoms(s: string)
    requires s != [] && s[0] != '\\'
    requires var q := s[0] != '\"';
             Kept(Atoms(q, s[1..]), Atoms(q, CompactFrom(Enter(q), s[1..])), HtmlOutside(Enter(q), s[1..]))
    ensures Kept(Atoms(true, s), Atoms(true, CompactFrom(Inside, s)), HtmlOutside(Inside, s))
  {
    var rest := CompactFrom(Next(Inside, s[0]), s[1..]);
    if IsHtml(s[0]) {
      HtmlAtoms(s[0], rest);
    } else {
      assert ([s[0]] + rest)[1..] == rest;
    }
  }

  /** Compaction keeps a text's meaning exactly when no HTML character stands outside its strings. */
  lemma CompactKeepsMeaningIff(s: string)
    ensures Atoms(false, Compact(s)) == Atoms(false, s) <==> HtmlOutside(Outside, s) == 0
  {
    CompactAtoms(false, s);
  }
}

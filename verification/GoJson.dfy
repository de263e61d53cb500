/**
 Marshalling a JSON tree to text with Go's rules, and reading compact JSON back.
 */
module GoJson {
  import opened Wrappers
  import opened JsonText
  import opened Order

  // ---------- Trees ----------

  predicate NumberChar(c: char) {
    '0' <= c <= '9' || c in {'-', '+', '.', 'e', 'E'}
  }

  predicate IsNumeral(s: string) {
    s != [] && forall i :: 0 <= i < |s| ==> NumberChar(s[i])
  }

  /** A finite number, as it is written. */
  type Numeral = s: string | IsNumeral(s) witness "0"

  /** A value to marshal. A dictionary lists its entries in insertion order. */
  datatype Json =
    | Null
    | Bool(b: bool)
    | Number(text: Numeral)
    | NonFinite
    | Str(s: string)
    | List(items: seq<Json>)
    | Dict(entries: seq<Entry>)
    | Raw(raw: string)
    | Custom(own: string)  // a struct-like value, with the text of its own encoder
    | Unsupported

  datatype Entry = Entry(key: string, value: Json)

  /** Something asked of every leaf of a tree. */
  datatype Demand = Encodable | Closed | OnlyJson

  predicate LeafMeets(v: Json, d: Demand) {
    match d
    case Encodable => !v.NonFinite? && !v.Unsupported?
    case Closed => (v.Raw? ==> Balanced(v.raw)) && (v.Custom? ==> Compact(v.own) == v.own && Balanced(v.own))
    case OnlyJson => !v.NonFinite? && !v.Unsupported? && !v.Raw? && !v.Custom?
  }

  predicate Meets(v: Json, d: Demand) {
    match v
    case List(items) => ItemsMeet(items, d)
    case Dict(entries) => EntriesMeet(entries, d)
    case _ => LeafMeets(v, d)
  }

  predicate ItemsMeet(items: seq<Json>, d: Demand) {
    items == [] || (Meets(items[0], d) && ItemsMeet(items[1..], d))
  }

  predicate EntriesMeet(es: seq<Entry>, d: Demand) {
    es == [] || (Meets(es[0].value, d) && EntriesMeet(es[1..], d))
  }

  /** No non-finite float and no value of a foreign type anywhere inside. */
  predicate Supported(v: Json) {
    Meets(v, Encodable)
  }

  /** Every raw fragment inside closes the strings it opens, and every struct's own text is left alone by compaction. */
  predicate RawsBalanced(v: Json) {
    Meets(v, Closed)
  }

  // ---------- Strings ----------

  function HexChar(n: int): (c: char)
    requires 0 <= n < 16
    ensures IsHex(c) && HexValue(c) == n && IsPlain(c)
  {
    if n < 10 then ('0' as int + n) as char else ('a' as int + n - 10) as char
  }

  function EscapeChar(c: char): (e: string)
    ensures e != []
  {
    if c == '\"' then "\\\""
    else if c == '\\' then "\\\\"
    else if c == '\n' then "\\n"
    else if c == '\r' then "\\r"
    else if c == '\t' then "\\t"
    else if c < ' ' then "\\u00" + [HexChar(c as int / 16), HexChar(c as int % 16)]
    else Html(c)
  }

  /** An encoded string is printable and safe in a page: no control, and none of the five characters that are escaped. */
  predicate IsSafe(c: char) {
    c >= ' ' && c != '<' && c != '>' && c != '&' && c != '\U{2028}' && c != '\U{2029}'
  }

  /**
   How a character is written: the five short escapes, four lower-case hex digits for the other controls
   and the HTML characters, and anything else as it is.
   */
  lemma EscapedAs(c: char)
    ensures EscapeChar('\"') == "\\\"" && EscapeChar('\\') == "\\\\" && EscapeChar('\n') == "\\n" && EscapeChar('\r') == "\\r" && EscapeChar('\t') == "\\t"
    ensures c < ' ' && c != '\n' && c != '\r' && c != '\t' ==>
              var e := EscapeChar(c);
              && |e| == 6 && e[..4] == "\\u00" && HexDigitOf(e[4]) * 16 + HexDigitOf(e[5]) == c as int && e[4] < 'A' && !('A' <= e[5] <= 'F')
    ensures IsSafe(c) && c != '\"' && c != '\\' ==> EscapeChar(c) == [c]
    ensures c == '<' ==> EscapeChar(c) == "\\u003c"
    ensures forall i :: 0 <= i < |EscapeChar(c)| ==> IsSafe(EscapeChar(c)[i])
  {
    HtmlEscapes(c);
  }

  function HexDigitOf(c: char): int {
    if '0' <= c <= '9' then c as int - '0' as int else if 'a' <= c <= 'f' then c as int - 'a' as int + 10 else -1000
  }

  lemma {:induction false} EncodedIsSafe(s: string)
    ensures forall i :: 0 <= i < |EscapeAll(s)| ==> IsSafe(EscapeAll(s)[i])
  {
    if s == [] {
    } else {
      EscapedAs(s[0]);
      EncodedIsSafe(s[1..]);
    }
  }

  function EscapeAll(s: string): string {
    if s == [] then [] else EscapeChar(s[0]) + EscapeAll(s[1..])
  }

  function StringText(s: string): string {
    "\"" + EscapeAll(s) + "\""
  }

  // ---------- The text of a tree, entries in the order listed ----------

  function Text(v: Json): string
    requires Supported(v)
  {
    match v
    case Null => "null"
    case Bool(b) => if b then "true" else "false"
    case Number(text) => text
    case Str(s) => StringText(s)
    case List(items) => "[" + ItemsText(items, true) + "]"
    case Dict(entries) => "{" + EntriesText(entries, true) + "}"
    case Raw(raw) => Compact(raw)
    case Custom(own) => own
  }

  function Comma(first: bool): string {
    if first then "" else ","
  }

  function ItemsText(items: seq<Json>, first: bool): string
    requires ItemsMeet(items, Encodable)
  {
    if items == [] then "" else Comma(first) + Text(items[0]) + ItemsText(items[1..], false)
  }

  function EntryText(e: Entry): string
    requires Supported(e.value)
  {
    StringText(e.key) + ":" + Text(e.value)
  }

  function EntriesText(entries: seq<Entry>, first: bool): string
    requires EntriesMeet(entries, Encodable)
  {
    if entries == [] then "" else Comma(first) + EntryText(entries[0]) + EntriesText(entries[1..], false)
  }

  // ---------- Sorting keys ----------

  /** Keys sort by code point. */
  function KeyCodes(e: Entry): seq<int> {
    Codes(e.key)
  }

  function SortByKey(es: seq<Entry>): (r: seq<Entry>)
    ensures multiset(r) == multiset(es)
  {
    Sort(es, KeyCodes)
  }

  /** The tree with every dictionary's entries in key order, or as they are. */
  function Norm(v: Json, sortKeys: bool): Json {
    match v
    case List(items) => List(NormItems(items, sortKeys))
    case Dict(entries) =>
      var es := NormEntries(entries, sortKeys);
      Dict(if sortKeys then SortByKey(es) else es)
    case _ => v
  }

  function NormItems(items: seq<Json>, sortKeys: bool): seq<Json> {
    if items == [] then [] else [Norm(items[0], sortKeys)] + NormItems(items[1..], sortKeys)
  }

  function NormEntry(e: Entry, sortKeys: bool): Entry {
    Entry(e.key, Norm(e.value, sortKeys))
  }

  function NormEntries(es: seq<Entry>, sortKeys: bool): seq<Entry> {
    if es == [] then [] else [NormEntry(es[0], sortKeys)] + NormEntries(es[1..], sortKeys)
  }

  /** A dictionary's distinct keys are marshalled in ascending order of their code points. */
  lemma KeysAscend(es: seq<Entry>)
    requires forall i, j :: 0 <= i < j < |es| ==> es[i].key != es[j].key
    ensures var sorted := Norm(Dict(es), true).entries;
            |sorted| == |es| && forall i, j :: 0 <= i < j < |sorted| ==>
              Codes(sorted[i].key) < Codes(sorted[j].key) || exists n :: SmallerAt(Codes(sorted[i].key), Codes(sorted[j].key), n)
  {
    var ns := NormEntries(es, true);
    NormKeepsKeys(es);
    assert DistinctKeys(ns, KeyCodes) by {
      forall i, j | 0 <= i < j < |ns|
        ensures KeyCodes(ns[i]) != KeyCodes(ns[j])
      {
        if KeyCodes(ns[i]) == KeyCodes(ns[j]) {
          CodesAreInjective(ns[i].key, ns[j].key);
        }
      }
    }
    SortSorted(ns, KeyCodes);
    var sorted := SortByKey(ns);
    SameMembers(sorted, ns);
    forall i, j | 0 <= i < j < |sorted|
      ensures Codes(sorted[i].key) < Codes(sorted[j].key) || exists n :: SmallerAt(Codes(sorted[i].key), Codes(sorted[j].key), n)
    {
      assert AtMost(KeyCodes(sorted[i]), KeyCodes(sorted[j])) && KeyCodes(sorted[i]) != KeyCodes(sorted[j]);
      AtMostIsLexicographic(KeyCodes(sorted[i]), KeyCodes(sorted[j]));
    }
  }

  lemma {:induction false} NormKeepsKeys(es: seq<Entry>)
    ensures var ns := NormEntries(es, true); |ns| == |es| && forall i :: 0 <= i < |es| ==> ns[i].key == es[i].key
  {
    if es == [] {
    } else {
      NormKeepsKeys(es[1..]);
    }
  }

  /** Marshalling: the text of the tree with its keys in order, or an error. */
  function Marshal(v: Json, sortKeys: bool): Result<string> {
    NormMeets(v, sortKeys, Encodable);
    if Supported(v) then Ok(Text(Norm(v, sortKeys))) else Err
  }

  lemma {:induction false} InsertMeets(es: seq<Entry>, e: Entry, d: Demand)
    ensures EntriesMeet(Insert(es, e, KeyCodes), d) <==> Meets(e.value, d) && EntriesMeet(es, d)
  {
    if es == [] || AtMost(KeyCodes(e), KeyCodes(es[0])) {
    } else {
      InsertMeets(es[1..], e, d);
    }
  }

  lemma {:induction false} SortMeets(es: seq<Entry>, d: Demand)
    ensures EntriesMeet(SortByKey(es), d) <==> EntriesMeet(es, d)
  {
    if es == [] {
    } else {
      SortMeets(es[1..], d);
      InsertMeets(SortByKey(es[1..]), es[0], d);
    }
  }

  /** Ordering keys changes no leaf. */
  lemma {:induction false} NormMeets(v: Json, sortKeys: bool, d: Demand)
    ensures Meets(Norm(v, sortKeys), d) <==> Meets(v, d)
    decreases v
  {
    match v
    case List(items) => NormItemsMeet(items, sortKeys, d);
    case Dict(entries) =>
      NormEntriesMeet(entries, sortKeys, d);
      SortMeets(NormEntries(entries, sortKeys), d);
    case _ =>
  }

  lemma {:induction false} NormItemsMeet(items: seq<Json>, sortKeys: bool, d: Demand)
    ensures ItemsMeet(NormItems(items, sortKeys), d) <==> ItemsMeet(items, d)
    decreases items
  {
    if items == [] {
    } else {
      NormMeets(items[0], sortKeys, d);
      NormItemsMeet(items[1..], sortKeys, d);
    }
  }

  lemma {:induction false} NormEntriesMeet(es: seq<Entry>, sortKeys: bool, d: Demand)
    ensures EntriesMeet(NormEntries(es, sortKeys), d) <==> EntriesMeet(es, d)
    decreases es
  {
    if es == [] {
    } else {
      NormMeets(es[0].value, sortKeys, d);
      NormEntriesMeet(es[1..], sortKeys, d);
    }
  }

  // ---------- Marshalled text is left alone by compaction ----------

  /** A complete text that compaction leaves alone. */
  ghost predicate Stable(s: string) {
    Fixed(Outside, s, Outside)
  }

  lemma StableAppend(a: string, b: string)
    requires Stable(a) && Stable(b)
    ensures Stable(a + b)
  {
    FixedAppend(Outside, a, Outside, b, Outside);
  }

  lemma EscapeCharFixed(c: char)
    ensures Fixed(Inside, EscapeChar(c), Inside)
  {
    var e := EscapeChar(c);
    if |e| == 1 {
      FixedOne(Inside, c);
    } else {
      BackslashFixed(Inside, e);
    }
  }

  lemma {:induction false} EscapeAllFixed(s: string)
    ensures Fixed(Inside, EscapeAll(s), Inside)
  {
    if s == [] {
    } else {
      EscapeCharFixed(s[0]);
      EscapeAllFixed(s[1..]);
      FixedAppend(Inside, EscapeChar(s[0]), Inside, EscapeAll(s[1..]), Inside);
    }
  }

  lemma StringStable(s: string)
    ensures Stable(StringText(s))
  {
    EscapeAllFixed(s);
    FixedOne(Outside, '\"');
    FixedOne(Inside, '\"');
    FixedAppend(Outside, "\"", Inside, EscapeAll(s), Inside);
    FixedAppend(Outside, "\"" + EscapeAll(s), Inside, "\"", Outside);
  }

  lemma BracketStable(open: string, s: string, close: string)
    requires (open == "[" && close == "]") || (open == "{" && close == "}")
    requires Stable(s)
    ensures Stable(open + s + close)
  {
    PlainFixed(Outside, open);
    PlainFixed(Outside, close);
    StableAppend(open, s);
    StableAppend(open + s, close);
  }

  lemma CommaStable(first: bool, a: string, b: string)
    requires Stable(a) && Stable(b)
    ensures Stable(Comma(first) + a + b)
  {
    PlainFixed(Outside, Comma(first));
    StableAppend(Comma(first), a);
    StableAppend(Comma(first) + a, b);
  }

  lemma {:induction false} TextStable(v: Json)
    requires Supported(v) && RawsBalanced(v)
    ensures Stable(Text(v))
    decreases v
  {
    match v
    case Null => PlainFixed(Outside, "null");
    case Bool(b) => PlainFixed(Outside, Text(v));
    case Number(text) => PlainFixed(Outside, text);
    case Str(s) => StringStable(s);
    case Raw(raw) => CompactedIsFixed(Outside, raw);
    case Custom(own) =>
    case List(items) =>
      ItemsStable(items, true);
      BracketStable("[", ItemsText(items, true), "]");
    case Dict(entries) =>
      EntriesStable(entries, true);
      BracketStable("{", EntriesText(entries, true), "}");
  }

  lemma {:induction false} ItemsStable(items: seq<Json>, first: bool)
    requires ItemsMeet(items, Encodable) && ItemsMeet(items, Closed)
    ensures Stable(ItemsText(items, first))
    decreases items
  {
    if items == [] {
    } else {
      TextStable(items[0]);
      ItemsStable(items[1..], false);
      CommaStable(first, Text(items[0]), ItemsText(items[1..], false));
    }
  }

  lemma {:induction false} EntriesStable(es: seq<Entry>, first: bool)
    requires EntriesMeet(es, Encodable) && EntriesMeet(es, Closed)
    ensures Stable(EntriesText(es, first))
    decreases es
  {
    if es == [] {
    } else {
      TextStable(es[0].value);
      StringStable(es[0].key);
      PlainFixed(Outside, ":");
      StableAppend(StringText(es[0].key), ":");
      StableAppend(StringText(es[0].key) + ":", Text(es[0].value));
      EntriesStable(es[1..], false);
      CommaStable(first, EntryText(es[0]), EntriesText(es[1..], false));
    }
  }

  /** Re-emitted JSON is byte-stable: compaction changes nothing in what was marshalled. */
  lemma MarshalIsStable(v: Json, sortKeys: bool)
    requires RawsBalanced(v) && Supported(v)
    ensures Compact(Marshal(v, sortKeys).value) == Marshal(v, sortKeys).value
    ensures Balanced(Marshal(v, sortKeys).value)
  {
    NormMeets(v, sortKeys, Encodable);
    NormMeets(v, sortKeys, Closed);
    TextStable(Norm(v, sortKeys));
  }

  /** A field rebuilt as raw text from its own marshalling is written back byte for byte. */
  lemma RawFieldIsStable(v: Json, sortKeys: bool, sortKeys': bool)
    requires RawsBalanced(v) && Supported(v)
    ensures Marshal(Raw(Marshal(v, sortKeys).value), sortKeys') == Marshal(v, sortKeys)
  {
    MarshalIsStable(v, sortKeys);
  }

  /** Whether compaction leaves a value's marshalling alone. */
  ghost predicate Reemits(v: Json, sortKeys: bool) {
    var m := Marshal(v, sortKeys);
    m.Ok? ==> Compact(m.value) == m.value
  }

  // A list of two values.

  lemma TwoMeet(a: Json, b: Json, d: Demand)
    ensures Meets(List([a, b]), d) <==> Meets(a, d) && Meets(b, d)
  {
    assert [a, b][1..] == [b] && [b][1..] == [];
    assert ItemsMeet([], d);
    assert ItemsMeet([b], d) <==> Meets(b, d);
  }

  lemma TwoNorm(a: Json, b: Json, sortKeys: bool)
    ensures Norm(List([a, b]), sortKeys) == List([Norm(a, sortKeys), Norm(b, sortKeys)])
  {
    assert [a, b][1..] == [b] && [b][1..] == [];
    assert NormItems([b], sortKeys) == [Norm(b, sortKeys)] + [];
  }

  lemma TwoText(a: Json, b: Json)
    requires Supported(a) && Supported(b) && Supported(List([a, b]))
    ensures Text(List([a, b])) == "[" + (Text(a) + ("," + Text(b))) + "]"
  {
    assert [a, b][1..] == [b] && [b][1..] == [];
    assert ItemsText([b], false) == "," + Text(b) + "";
    assert "," + Text(b) + "" == "," + Text(b);
    assert ItemsText([a, b], true) == "" + Text(a) + ItemsText([b], false);
    assert "" + Text(a) == Text(a);
  }

  /** A raw fragment may stand in front of any value exactly when it closes the strings it opens. */
  lemma RawIsSafeIff(raw: string, sortKeys: bool)
    ensures Balanced(raw) <==> forall v :: RawsBalanced(v) ==> Reemits(List([Raw(raw), v]), sortKeys)
  {
    if Balanced(raw) {
      forall v | RawsBalanced(v)
        ensures Reemits(List([Raw(raw), v]), sortKeys)
      {
        var l := List([Raw(raw), v]);
        TwoMeet(Raw(raw), v, Closed);
        if Supported(l) {
          MarshalIsStable(l, sortKeys);
        }
      }
    } else {
      UnbalancedRawIsUnstable(raw, sortKeys);
      assert RawsBalanced(Str(" "));
    }
  }

  /** Behind an unbalanced fragment a string's opening quote is read as a closing one, and its spaces are dropped. */
  lemma UnbalancedRawIsUnstable(raw: string, sortKeys: bool)
    requires !Balanced(raw)
    ensures !Reemits(List([Raw(raw), Str(" ")]), sortKeys)
  {
    var a, b := Raw(raw), Str(" ");
    var l := List([a, b]);
    TwoMeet(a, b, Encodable);
    TwoNorm(a, b, sortKeys);
    TwoText(a, b);
    SpaceText();
    var front, back := "[" + Compact(raw), ",\" \"]";
    assert Text(l) == front + back;
    CompactedIsFixed(Outside, raw);
    PlainFixed(Outside, "[");
    FixedAppend(Outside, "[", Outside, Compact(raw), Scan(Outside, raw));
    Split(Outside, front, back);
    ReadAsClosing(Scan(Outside, raw));
  }

  lemma SpaceText()
    ensures Text(Str(" ")) == "\" \""
  {
    assert " "[1..] == "";
    assert EscapeAll(" ") == " " + "";
  }

  /** Scanned from inside a string, a quoted space loses its space. */
  lemma ReadAsClosing(st: State)
    requires !st.Outside?
    ensures CompactFrom(st, ",\" \"]") == ",\"\"]"
  {
    var back := ",\" \"]";
    assert back[1..] == "\" \"]" && back[1..][1..] == " \"]" && back[1..][1..][1..] == "\"]";
    assert back[1..][1..][1..][1..] == "]" && back[1..][1..][1..][1..][1..] == "";
    assert CompactFrom(Inside, "]") == "]";
    assert CompactFrom(Inside, "\" \"]") == "\"\"]";
  }
}

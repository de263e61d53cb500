/**
 A reader of compact JSON, as in sections 2 to 7 of RFC 8259, and the round trip through marshalled text.
 */
module JsonReader {
  import opened Wrappers
  import opened JsonText
  import opened GoJson
  import opened Order

  /** What was read from the front of a text, and what is left. */
  datatype Read<T> = Got(value: T, rest: string) | Bad

  // ---------- Strings ----------

  /** The short escapes of section 7. */
  function ShortEscape(c: char): Option<char> {
    if c == '\"' || c == '\\' || c == '/' then Some(c)
    else if c == 'b' then Some(8 as char)
    else if c == 'f' then Some(12 as char)
    else if c == 'n' then Some('\n')
    else if c == 'r' then Some('\r')
    else if c == 't' then Some('\t')
    else None
  }

  /** One character of a string's content; a surrogate escape is not a character. */
  function ReadChar(s: string): (r: Read<char>)
    requires s != []
    ensures r.Got? ==> |r.rest| < |s|
  {
    if s[0] < ' ' || s[0] == '\"' then Bad
    else if s[0] != '\\' then Got(s[0], s[1..])
    else if |s| == 1 then Bad
    else if s[1] == 'u' then
      if StartsHex4(s[2..]) && !(0xD800 <= Hex4(s[2..]) < 0xE000) then Got(Hex4(s[2..]) as char, s[6..]) else Bad
    else match ShortEscape(s[1])
      case Some(c) => Got(c, s[2..])
      case None => Bad
  }

  /** A string's content up to its closing quote. */
  function ReadString(s: string): (r: Read<string>)
    ensures r.Got? ==> |r.rest| < |s|
    decreases |s|
  {
    if s == [] then Bad
    else if s[0] == '\"' then Got([], s[1..])
    else match ReadChar(s)
      case Bad => Bad
      case Got(c, rest) =>
        match ReadString(rest)
        case Bad => Bad
        case Got(t, rest') => Got([c] + t, rest')
  }

  lemma ReadEscapedChar(c: char, rest: string)
    ensures EscapeChar(c)[0] != '\"'
    ensures ReadChar(EscapeChar(c) + rest) == Got(c, rest)
  {
    var e := EscapeChar(c);
    var s := e + rest;
    if |e| == 6 {
      assert s[6..] == rest && s[2..][..4] == e[2..];
      assert StartsHex4(s[2..]) && Hex4(s[2..]) == c as int;
    } else if |e| == 2 {
      assert s[2..] == rest;
    } else {
      assert s[1..] == rest;
    }
  }

  lemma {:induction false} ReadEscaped(t: string, rest: string)
    ensures ReadString(EscapeAll(t) + "\"" + rest) == Got(t, rest)
    decreases |t|
  {
    var s := EscapeAll(t) + "\"" + rest;
    if t == [] {
      assert s[1..] == rest;
    } else {
      var s' := EscapeAll(t[1..]) + "\"" + rest;
      Regroup(EscapeChar(t[0]), EscapeAll(t[1..]), "\"", rest);
      ReadEscapedChar(t[0], s');
      ReadEscaped(t[1..], rest);
      assert t == [t[0]] + t[1..];
    }
  }

  // ---------- Values ----------

  function NumberEnd(s: string): (n: nat)
    ensures n <= |s| && forall i :: 0 <= i < n ==> NumberChar(s[i])
    ensures n < |s| ==> !NumberChar(s[n])
  {
    if s == [] || !NumberChar(s[0]) then 0 else 1 + NumberEnd(s[1..])
  }

  function ReadValue(s: string): (r: Read<Json>)
    ensures r.Got? ==> |r.rest| < |s|
    decreases |s|, 0
  {
    if s == [] then Bad
    else if s[0] == '\"' then
      match ReadString(s[1..])
      case Bad => Bad
      case Got(t, rest) => Got(Str(t), rest)
    else if s[0] == '[' then
      if |s| > 1 && s[1] == ']' then Got(List([]), s[2..])
      else match ReadItems(s[1..])
        case Bad => Bad
        case Got(items, rest) => Got(List(items), rest)
    else if s[0] == '{' then
      if |s| > 1 && s[1] == '}' then Got(Dict([]), s[2..])
      else match ReadEntries(s[1..])
        case Bad => Bad
        case Got(entries, rest) => Got(Dict(entries), rest)
    else if NumberChar(s[0]) then
      var n := NumberEnd(s);
      Got(Number(s[..n]), s[n..])
    else if "null" <= s then Got(Null, s[4..])
    else if "true" <= s then Got(Bool(true), s[4..])
    else if "false" <= s then Got(Bool(false), s[5..])
    else Bad
  }

  function ReadItems(s: string): (r: Read<seq<Json>>)
    ensures r.Got? ==> |r.rest| < |s|
    decreases |s|, 1
  {
    match ReadValue(s)
    case Bad => Bad
    case Got(v, rest) =>
      if rest == [] then Bad
      else if rest[0] == ']' then Got([v], rest[1..])
      else if rest[0] != ',' then Bad
      else match ReadItems(rest[1..])
        case Bad => Bad
        case Got(vs, rest') => Got([v] + vs, rest')
  }

  function ReadEntry(s: string): (r: Read<Entry>)
    ensures r.Got? ==> |r.rest| < |s|
    decreases |s|, 1
  {
    if s == [] || s[0] != '\"' then Bad
    else match ReadString(s[1..])
      case Bad => Bad
      case Got(k, rest) =>
        if rest == [] || rest[0] != ':' then Bad
        else match ReadValue(rest[1..])
          case Bad => Bad
          case Got(v, rest') => Got(Entry(k, v), rest')
  }

  function ReadEntries(s: string): (r: Read<seq<Entry>>)
    ensures r.Got? ==> |r.rest| < |s|
    decreases |s|, 2
  {
    match ReadEntry(s)
    case Bad => Bad
    case Got(e, rest) =>
      if rest == [] then Bad
      else if rest[0] == '}' then Got([e], rest[1..])
      else if rest[0] != ',' then Bad
      else match ReadEntries(rest[1..])
        case Bad => Bad
        case Got(es, rest') => Got([e] + es, rest')
  }

  // ---------- The round trip ----------

  /** A tree of JSON values only: no raw fragment, nothing unsupported. */
  predicate Pure(v: Json) {
    Meets(v, OnlyJson)
  }

  lemma {:induction false} PureIsSupported(v: Json)
    requires Pure(v)
    ensures Supported(v)
    decreases v
  {
    match v
    case List(items) => PureItemsAreSupported(items);
    case Dict(entries) => PureEntriesAreSupported(entries);
    case _ =>
  }

  lemma {:induction false} PureItemsAreSupported(items: seq<Json>)
    requires ItemsMeet(items, OnlyJson)
    ensures ItemsMeet(items, Encodable)
    decreases items
  {
    if items == [] {
    } else {
      PureIsSupported(items[0]);
      PureItemsAreSupported(items[1..]);
    }
  }

  lemma {:induction false} PureEntriesAreSupported(es: seq<Entry>)
    requires EntriesMeet(es, OnlyJson)
    ensures EntriesMeet(es, Encodable)
    decreases es
  {
    if es == [] {
    } else {
      PureIsSupported(es[0].value);
      PureEntriesAreSupported(es[1..]);
    }
  }

  /** What may follow a value without being read as part of it. */
  predicate Ends(rest: string) {
    rest == [] || !NumberChar(rest[0])
  }

  lemma ReadNumber(t: Numeral, rest: string)
    requires Ends(rest)
    ensures ReadValue(t + rest) == Got(Number(t), rest)
  {
    var s := t + rest;
    var n := NumberEnd(s);
    assert s[0] == t[0];
    assert forall i :: 0 <= i < |t| ==> s[i] == t[i];
    assert rest != [] ==> s[|t|] == rest[0];
    assert n == |t|;
    assert s[..n] == t && s[n..] == rest;
  }

  lemma ReadStr(t: string, rest: string)
    ensures ReadValue(StringText(t) + rest) == Got(Str(t), rest)
  {
    var s := StringText(t) + rest;
    assert s[1..] == EscapeAll(t) + "\"" + rest;
    ReadEscaped(t, rest);
  }

  lemma ReadWord(word: string, rest: string)
    requires word in {"null", "true", "false"}
    ensures ReadValue(word + rest) == Got(if word == "null" then Null else Bool(word == "true"), rest)
  {
    var s := word + rest;
    assert word <= s && s[|word|..] == rest && s[0] == word[0];
  }

  // One step of each list reader, on texts given in pieces.

  lemma ReadList(body: string, items: seq<Json>, rest: string)
    requires body != [] && body[0] != ']'
    requires ReadItems(body + "]" + rest) == Got(items, rest)
    ensures ReadValue("[" + body + "]" + rest) == Got(List(items), rest)
  {
    var s := "[" + body + "]" + rest;
    assert s[1..] == body + "]" + rest;
  }

  lemma ReadDict(body: string, es: seq<Entry>, rest: string)
    requires body != [] && body[0] != '}'
    requires ReadEntries(body + "}" + rest) == Got(es, rest)
    ensures ReadValue("{" + body + "}" + rest) == Got(Dict(es), rest)
  {
    var s := "{" + body + "}" + rest;
    assert s[1..] == body + "}" + rest;
  }

  lemma ReadEmpty(rest: string)
    ensures ReadValue("[" + "" + "]" + rest) == Got(List([]), rest)
    ensures ReadValue("{" + "" + "}" + rest) == Got(Dict([]), rest)
  {
    var l, d := "[" + "" + "]" + rest, "{" + "" + "}" + rest;
    assert l[2..] == rest && d[2..] == rest;
  }

  lemma LastItem(s: string, v: Json, rest: string)
    requires ReadValue(s) == Got(v, "]" + rest)
    ensures ReadItems(s) == Got([v], rest)
  {
    assert ("]" + rest)[1..] == rest;
  }

  lemma MoreItems(s: string, v: Json, more: string, vs: seq<Json>, rest: string)
    requires ReadValue(s) == Got(v, "," + more) && ReadItems(more) == Got(vs, rest)
    ensures ReadItems(s) == Got([v] + vs, rest)
  {
    assert ("," + more)[1..] == more;
  }

  lemma LastEntry(s: string, e: Entry, rest: string)
    requires ReadEntry(s) == Got(e, "}" + rest)
    ensures ReadEntries(s) == Got([e], rest)
  {
    assert ("}" + rest)[1..] == rest;
  }

  lemma MoreEntries(s: string, e: Entry, more: string, es: seq<Entry>, rest: string)
    requires ReadEntry(s) == Got(e, "," + more) && ReadEntries(more) == Got(es, rest)
    ensures ReadEntries(s) == Got([e] + es, rest)
  {
    assert ("," + more)[1..] == more;
  }

  lemma KeyThenValue(k: string, text: string, v: Json, rest: string)
    requires ReadValue(text + rest) == Got(v, rest)
    ensures ReadEntry(StringText(k) + ":" + text + rest) == Got(Entry(k, v), rest)
  {
    var key, more := StringText(k), ":" + (text + rest);
    ColonJoins(key, text, rest);
    KeyIsRead(k, more);
    EntryIsRead(key + more, k, more, v, rest);
  }

  lemma ColonJoins(key: string, text: string, rest: string)
    ensures key + ":" + text + rest == key + (":" + (text + rest)) && (":" + (text + rest))[1..] == text + rest
  {
  }

  lemma EntryIsRead(s: string, k: string, more: string, v: Json, rest: string)
    requires s != [] && s[0] == '\"' && ReadString(s[1..]) == Got(k, more)
    requires more != [] && more[0] == ':' && ReadValue(more[1..]) == Got(v, rest)
    ensures ReadEntry(s) == Got(Entry(k, v), rest)
  {
  }

  lemma KeyIsRead(k: string, rest: string)
    ensures var s := StringText(k) + rest; s != [] && s[0] == '\"' && ReadString(s[1..]) == Got(k, rest)
  {
    assert (StringText(k) + rest)[1..] == EscapeAll(k) + "\"" + rest;
    ReadEscaped(k, rest);
  }

  // What the printed lists look like, piece by piece.

  lemma ItemsTail(items: seq<Json>)
    requires items != [] && ItemsMeet(items, Encodable)
    ensures ItemsText(items, true) == Text(items[0]) + ItemsText(items[1..], false)
    ensures ItemsText(items, false) == "," + ItemsText(items, true)
  {
    assert "" + Text(items[0]) == Text(items[0]);
    Regroup(",", Text(items[0]), ItemsText(items[1..], false), "");
    assert ItemsText(items, true) + "" == ItemsText(items, true);
  }

  lemma ItemsPieces(items: seq<Json>, rest: string)
    requires items != [] && ItemsMeet(items, Encodable)
    ensures ItemsText(items, true) + "]" + rest ==
            Text(items[0]) + if |items| == 1 then "]" + rest else "," + (ItemsText(items[1..], true) + "]" + rest)
  {
    ItemsTail(items);
    var tail := ItemsText(items[1..], false);
    Regroup(Text(items[0]), tail, "]", rest);
    if |items| == 1 {
      assert items[1..] == [] && tail + "]" == "]";
    } else {
      ItemsTail(items[1..]);
      Regroup(",", ItemsText(items[1..], true), "]", rest);
    }
  }

  lemma EntriesTail(es: seq<Entry>)
    requires es != [] && EntriesMeet(es, Encodable)
    ensures EntriesText(es, true) == EntryText(es[0]) + EntriesText(es[1..], false)
    ensures EntriesText(es, false) == "," + EntriesText(es, true)
  {
    assert "" + EntryText(es[0]) == EntryText(es[0]);
    Regroup(",", EntryText(es[0]), EntriesText(es[1..], false), "");
    assert EntriesText(es, true) + "" == EntriesText(es, true);
  }

  lemma EntriesPieces(es: seq<Entry>, rest: string)
    requires es != [] && EntriesMeet(es, Encodable)
    ensures EntriesText(es, true) + "}" + rest ==
            EntryText(es[0]) + if |es| == 1 then "}" + rest else "," + (EntriesText(es[1..], true) + "}" + rest)
  {
    EntriesTail(es);
    var tail := EntriesText(es[1..], false);
    Regroup(EntryText(es[0]), tail, "}", rest);
    if |es| == 1 {
      assert es[1..] == [] && tail + "}" == "}";
    } else {
      EntriesTail(es[1..]);
      Regroup(",", EntriesText(es[1..], true), "}", rest);
    }
  }

  /** The first character of a list's text does not close the list. */
  lemma ListHeads(items: seq<Json>, es: seq<Entry>)
    ensures items != [] && ItemsMeet(items, OnlyJson) && ItemsMeet(items, Encodable) ==>
              ItemsText(items, true) != [] && ItemsText(items, true)[0] != ']'
    ensures es != [] && EntriesMeet(es, Encodable) ==> EntriesText(es, true) != [] && EntriesText(es, true)[0] == '\"'
  {
    if items != [] && ItemsMeet(items, OnlyJson) && ItemsMeet(items, Encodable) {
      TextHead(items[0]);
    }
  }

  lemma TextHead(v: Json)
    requires Supported(v) && Pure(v)
    ensures Text(v) != [] && Text(v)[0] != ']'
  {
  }

  lemma {:induction false} ReadText(v: Json, rest: string)
    requires Pure(v) && Supported(v) && Ends(rest)
    ensures ReadValue(Text(v) + rest) == Got(v, rest)
    decreases v
  {
    match v
    case Null => ReadWord("null", rest);
    case Bool(b) => ReadWord(if b then "true" else "false", rest);
    case Number(t) => ReadNumber(t, rest);
    case Str(t) => ReadStr(t, rest);
    case List(items) =>
      ReadEmpty(rest);
      if items == [] {
      } else {
        ReadItemsText(items, rest);
        ListHeads(items, []);
        ReadList(ItemsText(items, true), items, rest);
      }
    case Dict(entries) =>
      ReadEmpty(rest);
      if entries == [] {
      } else {
        ReadEntriesText(entries, rest);
        ListHeads([], entries);
        ReadDict(EntriesText(entries, true), entries, rest);
      }
  }

  lemma {:induction false} ReadItemsText(items: seq<Json>, rest: string)
    requires items != [] && ItemsMeet(items, OnlyJson) && ItemsMeet(items, Encodable)
    ensures ReadItems(ItemsText(items, true) + "]" + rest) == Got(items, rest)
    decreases items
  {
    var s := ItemsText(items, true) + "]" + rest;
    ItemsPieces(items, rest);
    assert items == [items[0]] + items[1..];
    if |items| == 1 {
      assert items == [items[0]];
      ReadText(items[0], "]" + rest);
      LastItem(s, items[0], rest);
    } else {
      var more := ItemsText(items[1..], true) + "]" + rest;
      ReadText(items[0], "," + more);
      ReadItemsText(items[1..], rest);
      MoreItems(s, items[0], more, items[1..], rest);
    }
  }

  lemma {:induction false} ReadEntriesText(es: seq<Entry>, rest: string)
    requires es != [] && EntriesMeet(es, OnlyJson) && EntriesMeet(es, Encodable)
    ensures ReadEntries(EntriesText(es, true) + "}" + rest) == Got(es, rest)
    decreases es
  {
    var s := EntriesText(es, true) + "}" + rest;
    EntriesPieces(es, rest);
    assert es == [es[0]] + es[1..];
    if |es| == 1 {
      assert es == [es[0]];
      ReadText(es[0].value, "}" + rest);
      KeyThenValue(es[0].key, Text(es[0].value), es[0].value, "}" + rest);
      LastEntry(s, es[0], rest);
    } else {
      var more := EntriesText(es[1..], true) + "}" + rest;
      ReadText(es[0].value, "," + more);
      KeyThenValue(es[0].key, Text(es[0].value), es[0].value, "," + more);
      ReadEntriesText(es[1..], rest);
      MoreEntries(s, es[0], more, es[1..], rest);
    }
  }

  /** Marshalled text reads back as the tree with its keys in order. */
  lemma MarshalRoundTrip(v: Json, sortKeys: bool)
    requires Pure(v)
    ensures Marshal(v, sortKeys).Ok?
    ensures ReadValue(Marshal(v, sortKeys).value) == Got(Norm(v, sortKeys), "")
  {
    PureIsSupported(v);
    NormMeets(v, sortKeys, Encodable);
    NormMeets(v, sortKeys, OnlyJson);
    ReadText(Norm(v, sortKeys), "");
    assert Text(Norm(v, sortKeys)) + "" == Text(Norm(v, sortKeys));
  }

  lemma {:induction false} UnsortedIsSame(v: Json)
    ensures Norm(v, false) == v
    decreases v
  {
    match v
    case List(items) => UnsortedItems(items);
    case Dict(entries) => UnsortedEntries(entries);
    case _ =>
  }

  lemma {:induction false} UnsortedItems(items: seq<Json>)
    ensures NormItems(items, false) == items
    decreases items
  {
    if items == [] {
    } else {
      UnsortedIsSame(items[0]);
      UnsortedItems(items[1..]);
    }
  }

  lemma {:induction false} UnsortedEntries(es: seq<Entry>)
    ensures NormEntries(es, false) == es
    decreases es
  {
    if es == [] {
    } else {
      UnsortedIsSame(es[0].value);
      UnsortedEntries(es[1..]);
    }
  }

  /** In insertion order the text determines the tree. */
  lemma InsertionOrderRoundTrip(v: Json)
    requires Pure(v)
    ensures Marshal(v, false).Ok? && ReadValue(Marshal(v, false).value) == Got(v, "")
  {
    MarshalRoundTrip(v, false);
    UnsortedIsSame(v);
  }

  // ---------- Sorted text is canonical ----------

  ghost predicate OneEntryPerKey(es: seq<Entry>) {
    forall i, j :: 0 <= i < j < |es| ==> es[i].key != es[j].key
  }

  lemma KeysToCodes(es: seq<Entry>)
    requires OneEntryPerKey(es)
    ensures DistinctKeys(es, KeyCodes)
  {
    forall i, j | 0 <= i < j < |es|
      ensures KeyCodes(es[i]) != KeyCodes(es[j])
    {
      if Codes(es[i].key) == Codes(es[j].key) {
        CodesAreInjective(es[i].key, es[j].key);
      }
    }
  }

  /** Every dictionary inside has each key once, as dictionaries do. */
  ghost predicate Proper(v: Json) {
    match v
    case List(items) => forall i :: 0 <= i < |items| ==> Proper(items[i])
    case Dict(entries) => OneEntryPerKey(entries) && forall i :: 0 <= i < |entries| ==> Proper(entries[i].value)
    case _ => true
  }

  /** Equality of values: lists by position, dictionaries by key in whatever order. */
  ghost predicate SameValue(v: Json, w: Json) {
    match v
    case List(items) =>
      && w.List? && |w.items| == |items|
      && forall i :: 0 <= i < |items| ==> SameValue(items[i], w.items[i])
    case Dict(entries) =>
      && w.Dict? && |w.entries| == |entries|
      && forall i :: 0 <= i < |entries| ==> Found(entries[i], w.entries)
    case _ => v == w
  }

  ghost predicate Found(e: Entry, es: seq<Entry>) {
    exists j :: 0 <= j < |es| && es[j].key == e.key && SameValue(e.value, es[j].value)
  }

  /** The list without its element at a position. */
  function Removed(b: seq<Entry>, j: nat): (r: seq<Entry>)
    requires j < |b|
    ensures |r| == |b| - 1
  {
    b[..j] + b[j + 1..]
  }

  lemma RemovedHolds(b: seq<Entry>, j: nat, k: nat)
    requires j < |b| && k < |b| && k != j
    ensures b[k] in Removed(b, j)
  {
    assert Removed(b, j)[if k < j then k else k - 1] == b[k];
  }

  lemma RemovedIsDistinct(b: seq<Entry>, j: nat)
    requires j < |b| && OneEntryPerKey(b)
    ensures OneEntryPerKey(Removed(b, j))
    ensures multiset(b) == multiset(Removed(b, j)) + multiset{b[j]}
  {
    assert b == b[..j] + ([b[j]] + b[j + 1..]);
  }

  /** Equally many entries with distinct keys, all found on the other side, are the same entries. */
  lemma {:induction false} SubsetIsPermutation(a: seq<Entry>, b: seq<Entry>)
    requires OneEntryPerKey(a) && OneEntryPerKey(b) && |a| == |b|
    requires forall i :: 0 <= i < |a| ==> a[i] in b
    ensures multiset(a) == multiset(b)
    decreases |a|
  {
    if a == [] {
    } else {
      assert a[0] in b;
      var j :| 0 <= j < |b| && b[j] == a[0];
      RemovedIsDistinct(b, j);
      forall i | 0 <= i < |a[1..]|
        ensures a[1..][i] in Removed(b, j)
      {
        assert a[i + 1] in b;
        var k :| 0 <= k < |b| && b[k] == a[i + 1];
        RemovedHolds(b, j, k);
      }
      SubsetIsPermutation(a[1..], Removed(b, j));
      TailMultiset(a);
    }
  }

  lemma {:induction false} NormEntriesAt(es: seq<Entry>, sortKeys: bool)
    ensures |NormEntries(es, sortKeys)| == |es|
    ensures forall i :: 0 <= i < |es| ==> NormEntries(es, sortKeys)[i] == NormEntry(es[i], sortKeys)
    decreases |es|
  {
    if es == [] {
    } else {
      NormEntriesAt(es[1..], sortKeys);
    }
  }

  lemma {:induction false} NormItemsAt(items: seq<Json>, sortKeys: bool)
    ensures |NormItems(items, sortKeys)| == |items|
    ensures forall i :: 0 <= i < |items| ==> NormItems(items, sortKeys)[i] == Norm(items[i], sortKeys)
    decreases |items|
  {
    if items == [] {
    } else {
      NormItemsAt(items[1..], sortKeys);
    }
  }

  /** Two dictionaries have one normal form exactly when their normalized entries are the same. */
  lemma SortedEntriesEqualIff(e: seq<Entry>, f: seq<Entry>)
    requires OneEntryPerKey(e) && OneEntryPerKey(f)
    ensures SortByKey(e) == SortByKey(f) <==> |e| == |f| && forall i :: 0 <= i < |e| ==> e[i] in f
  {
    if SortByKey(e) == SortByKey(f) {
      assert multiset(e) == multiset(f);
      SameMembers(e, f);
    }
    if |e| == |f| && forall i :: 0 <= i < |e| ==> e[i] in f {
      SubsetIsPermutation(e, f);
      KeysToCodes(e);
      KeysToCodes(f);
      SortSorted(e, KeyCodes);
      SortSorted(f, KeyCodes);
      SortedIsUnique(SortByKey(e), SortByKey(f), KeyCodes);
    }
  }

  lemma {:induction false} SameNormIff(v: Json, w: Json)
    requires Proper(v) && Proper(w)
    ensures Norm(v, true) == Norm(w, true) <==> SameValue(v, w)
    decreases v
  {
    match v
    case List(items) =>
      if w.List? {
        SameItemsIff(items, w.items);
      }
    case Dict(entries) =>
      if w.Dict? {
        SameEntriesIff(entries, w.entries);
      }
    case _ =>
  }

  lemma {:induction false} SameItemsIff(a: seq<Json>, b: seq<Json>)
    requires Proper(List(a)) && Proper(List(b))
    ensures NormItems(a, true) == NormItems(b, true) <==> SameValue(List(a), List(b))
    decreases a
  {
    NormItemsAt(a, true);
    NormItemsAt(b, true);
    forall i | 0 <= i < |a| && i < |b|
      ensures Norm(a[i], true) == Norm(b[i], true) <==> SameValue(a[i], b[i])
    {
      SameNormIff(a[i], b[i]);
    }
    var m, n := NormItems(a, true), NormItems(b, true);
    if m == n {
      forall i | 0 <= i < |a|
        ensures SameValue(a[i], b[i])
      {
        assert m[i] == n[i];
      }
    }
  }

  lemma {:induction false} SameEntriesIff(a: seq<Entry>, b: seq<Entry>)
    requires Proper(Dict(a)) && Proper(Dict(b))
    ensures Norm(Dict(a), true) == Norm(Dict(b), true) <==> SameValue(Dict(a), Dict(b))
    decreases a
  {
    var e, f := NormEntries(a, true), NormEntries(b, true);
    NormEntriesAt(a, true);
    NormEntriesAt(b, true);
    forall i | 0 <= i < |a|
      ensures e[i] in f <==> Found(a[i], b)
    {
      FoundIff(a[i], b);
    }
    SortedEntriesEqualIff(e, f);
  }

  lemma {:induction false} FoundIff(x: Entry, b: seq<Entry>)
    requires Proper(x.value) && forall j :: 0 <= j < |b| ==> Proper(b[j].value)
    ensures NormEntry(x, true) in NormEntries(b, true) <==> Found(x, b)
    decreases x
  {
    var f := NormEntries(b, true);
    NormEntriesAt(b, true);
    forall j | 0 <= j < |b|
      ensures NormEntry(x, true) == f[j] <==> b[j].key == x.key && SameValue(x.value, b[j].value)
    {
      SameNormIff(x.value, b[j].value);
    }
  }

  /** Sorted text is canonical: two values are written alike exactly when they are the same value. */
  lemma SortedTextIsCanonical(v: Json, w: Json)
    requires Pure(v) && Pure(w) && Proper(v) && Proper(w)
    ensures Marshal(v, true) == Marshal(w, true) <==> SameValue(v, w)
  {
    MarshalRoundTrip(v, true);
    MarshalRoundTrip(w, true);
    SameNormIff(v, w);
  }
}

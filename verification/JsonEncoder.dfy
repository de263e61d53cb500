/**
 The encoder as it runs: a recursion that appends to one shared output, sorting each dictionary's
 keys as it is met, proved against the text of the tree in normal form.
 */
module JsonEncoder {
  import opened Wrappers
  import opened JsonText
  import opened GoJson
  import opened Order

  /** Sorting a dictionary's entries before or after its values are put in order is the same. */
  lemma {:induction false} InsertCommutes(es: seq<Entry>, e: Entry, sortKeys: bool)
    ensures NormEntries(Insert(es, e, KeyCodes), sortKeys) == Insert(NormEntries(es, sortKeys), NormEntry(e, sortKeys), KeyCodes)
    decreases |es|
  {
    if es == [] || AtMost(KeyCodes(e), KeyCodes(es[0])) {
    } else {
      InsertCommutes(es[1..], e, sortKeys);
    }
  }

  lemma {:induction false} SortCommutes(es: seq<Entry>, sortKeys: bool)
    ensures NormEntries(SortByKey(es), sortKeys) == SortByKey(NormEntries(es, sortKeys))
    decreases |es|
  {
    if es == [] {
    } else {
      SortCommutes(es[1..], sortKeys);
      InsertCommutes(SortByKey(es[1..]), es[0], sortKeys);
    }
  }

  /** The entries in the order the encoder visits them. */
  function Visited(es: seq<Entry>, sortKeys: bool): (r: seq<Entry>)
    ensures forall i :: 0 <= i < |r| ==> r[i] in es
  {
    var r := if sortKeys then SortByKey(es) else es;
    assert multiset(r) == multiset(es);
    assert forall i :: 0 <= i < |r| ==> r[i] in multiset(r);
    r
  }

  lemma VisitedMeet(es: seq<Entry>, sortKeys: bool)
    ensures EntriesMeet(Visited(es, sortKeys), Encodable) <==> EntriesMeet(es, Encodable)
  {
    SortMeets(es, Encodable);
  }

  lemma DictText(es: seq<Entry>, sortKeys: bool)
    requires EntriesMeet(es, Encodable) && EntriesMeet(Visited(es, sortKeys), Encodable)
    ensures ValueText(Dict(es), sortKeys) == "{" + EntriesLeft(Visited(es, sortKeys), sortKeys, true) + "}"
  {
    SortCommutes(es, sortKeys);
  }

  /** The texts of what is still to be written, in normal form. */
  ghost function ItemsLeft(items: seq<Json>, sortKeys: bool, first: bool): string
    requires ItemsMeet(items, Encodable)
  {
    NormItemsMeet(items, sortKeys, Encodable);
    ItemsText(NormItems(items, sortKeys), first)
  }

  ghost function EntriesLeft(es: seq<Entry>, sortKeys: bool, first: bool): string
    requires EntriesMeet(es, Encodable)
  {
    NormEntriesMeet(es, sortKeys, Encodable);
    EntriesText(NormEntries(es, sortKeys), first)
  }

  ghost function ValueText(v: Json, sortKeys: bool): string
    requires Supported(v)
  {
    NormMeets(v, sortKeys, Encodable);
    Text(Norm(v, sortKeys))
  }

  lemma ItemsLeftStep(items: seq<Json>, sortKeys: bool, first: bool, out: string)
    requires items != [] && ItemsMeet(items, Encodable)
    ensures out + ItemsLeft(items, sortKeys, first) ==
            out + Comma(first) + ValueText(items[0], sortKeys) + ItemsLeft(items[1..], sortKeys, false)
  {
    var n := NormItems(items, sortKeys);
    assert n[0] == Norm(items[0], sortKeys) && n[1..] == NormItems(items[1..], sortKeys);
    NormItemsMeet(items, sortKeys, Encodable);
    Regroup(out, Comma(first), Text(n[0]), ItemsText(n[1..], false));
  }

  lemma EntriesLeftStep(es: seq<Entry>, sortKeys: bool, first: bool, out: string)
    requires es != [] && EntriesMeet(es, Encodable)
    ensures out + EntriesLeft(es, sortKeys, first) ==
            out + Comma(first) + (StringText(es[0].key) + ":" + ValueText(es[0].value, sortKeys))
            + EntriesLeft(es[1..], sortKeys, false)
  {
    var n := NormEntries(es, sortKeys);
    assert n[0] == NormEntry(es[0], sortKeys) && n[1..] == NormEntries(es[1..], sortKeys);
    NormEntriesMeet(es, sortKeys, Encodable);
    Regroup(out, Comma(first), EntryText(n[0]), EntriesText(n[1..], false));
  }

  lemma DropStep<T>(s: seq<T>, i: nat)
    requires i < |s|
    ensures s[i..] != [] && s[i..][0] == s[i] && s[i..][1..] == s[i + 1..]
  {
  }

  class Encoder {
    var out: string
    const sortKeys: bool

    constructor (sortKeys: bool)
      ensures this.sortKeys == sortKeys && out == ""
    {
      this.sortKeys := sortKeys;
      out := "";
    }

    /** Append a string with its escapes, one character at a time. */
    method EncodeString(s: string)
      modifies this
      ensures out == old(out) + StringText(s)
    {
      out := out + "\"";
      assert s[0..] == s;
      for i := 0 to |s|
        invariant out + EscapeAll(s[i..]) == old(out) + "\"" + EscapeAll(s)
      {
        DropStep(s, i);
        Regroup(out, EscapeChar(s[i]), EscapeAll(s[i + 1..]), "");
        out := out + EscapeChar(s[i]);
      }
      assert s[|s|..] == [];
      out := out + "\"";
      Regroup(old(out), "\"", EscapeAll(s), "\"");
    }

    /** Append a value's text; an unsupported value anywhere inside raises. */
    method Encode(v: Json) returns (raised: bool)
      modifies this
      ensures raised <==> !Supported(v)
      ensures !raised ==> out == old(out) + ValueText(v, sortKeys)
      decreases v, 1
    {
      raised := false;
      match v
      case Null => out := out + "null";
      case Raw(raw) =>
        var c := CompactRaw(raw);
        out := out + c;
      case Custom(own) => out := out + own;
      case Bool(b) => out := out + if b then "true" else "false";
      case Number(text) => out := out + text;
      case NonFinite => raised := true;
      case Str(s) => EncodeString(s);
      case List(items) =>
        raised := EncodeItems(items);
      case Dict(entries) =>
        raised := EncodeEntries(entries);
      case Unsupported => raised := true;
    }

    method EncodeItems(items: seq<Json>) returns (raised: bool)
      modifies this
      ensures raised <==> !ItemsMeet(items, Encodable)
      ensures !raised ==> out == old(out) + ("[" + ItemsLeft(items, sortKeys, true) + "]")
      decreases items, 0
    {
      out := out + "[";
      ghost var start := out;
      assert items[0..] == items;
      for i := 0 to |items|
        invariant ItemsMeet(items[i..], Encodable) <==> ItemsMeet(items, Encodable)
        invariant ItemsMeet(items, Encodable) ==>
                    out + ItemsLeft(items[i..], sortKeys, i == 0) == start + ItemsLeft(items, sortKeys, true)
      {
        DropStep(items, i);
        ghost var before := out;
        raised := EncodeItem(items[i], i == 0);
        if raised {
          return;
        }
        if ItemsMeet(items, Encodable) {
          ItemsLeftStep(items[i..], sortKeys, i == 0, before);
        }
      }
      assert items[|items|..] == [];
      out := out + "]";
      raised := false;
      Regroup(old(out), "[", ItemsLeft(items, sortKeys, true), "]");
    }

    method EncodeItem(v: Json, first: bool) returns (raised: bool)
      modifies this
      ensures raised <==> !Supported(v)
      ensures !raised ==> out == old(out) + Comma(first) + ValueText(v, sortKeys)
      decreases v, 2
    {
      if !first {
        out := out + ",";
      }
      raised := Encode(v);
    }

    method EncodeEntries(entries: seq<Entry>) returns (raised: bool)
      modifies this
      ensures raised <==> !EntriesMeet(entries, Encodable)
      ensures !raised ==> out == old(out) + ValueText(Dict(entries), sortKeys)
      decreases entries, 1
    {
      var es := Visited(entries, sortKeys);
      VisitedMeet(entries, sortKeys);
      raised := EncodeInOrder(entries, es);
      if !raised {
        DictText(entries, sortKeys);
      }
    }

    method EncodeInOrder(ghost entries: seq<Entry>, es: seq<Entry>) returns (raised: bool)
      requires forall i :: 0 <= i < |es| ==> es[i] in entries
      modifies this
      ensures raised <==> !EntriesMeet(es, Encodable)
      ensures !raised ==> out == old(out) + ("{" + EntriesLeft(es, sortKeys, true) + "}")
      decreases entries, 0
    {
      out := out + "{";
      ghost var start := out;
      assert es[0..] == es;
      for i := 0 to |es|
        invariant EntriesMeet(es[i..], Encodable) <==> EntriesMeet(es, Encodable)
        invariant EntriesMeet(es, Encodable) ==>
                    out + EntriesLeft(es[i..], sortKeys, i == 0) == start + EntriesLeft(es, sortKeys, true)
      {
        DropStep(es, i);
        ghost var before := out;
        raised := EncodeEntry(es[i], i == 0);
        if raised {
          return;
        }
        if EntriesMeet(es, Encodable) {
          EntriesLeftStep(es[i..], sortKeys, i == 0, before);
        }
      }
      assert es[|es|..] == [];
      out := out + "}";
      raised := false;
      Regroup(old(out), "{", EntriesLeft(es, sortKeys, true), "}");
    }

    method EncodeEntry(e: Entry, first: bool) returns (raised: bool)
      modifies this
      ensures raised <==> !Supported(e.value)
      ensures !raised ==>
                out == old(out) + Comma(first) + (StringText(e.key) + ":" + ValueText(e.value, sortKeys))
      decreases e, 2
    {
      if !first {
        out := out + ",";
      }
      EncodeString(e.key);
      out := out + ":";
      raised := Encode(e.value);
    }
  }

  /** Marshal into a fresh encoder. */
  method MarshalLoop(v: Json, sortKeys: bool) returns (r: Result<string>)
    ensures r == Marshal(v, sortKeys)
    ensures r.Ok? && RawsBalanced(v) ==> Compact(r.value) == r.value
  {
    var encoder := new Encoder(sortKeys);
    var raised := encoder.Encode(v);
    if raised {
      return Err;
    }
    assert encoder.out == ValueText(v, sortKeys);
    if RawsBalanced(v) {
      MarshalIsStable(v, sortKeys);
    }
    r := Ok(encoder.out);
  }
}

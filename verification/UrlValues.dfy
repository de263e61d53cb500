/**
 Query strings as multimaps: encoding with sorted keys, and reading a raw query back.
 */
module UrlValues {
  import opened Wrappers
  import opened GoUrl
  import opened Order

  type Multimap = map<Text, seq<Text>>

  // ---------- Encoding ----------

  function Pair(k: Text, v: Text): Text {
    Escape(k, QueryComponent) + [EQUALS] + Escape(v, QueryComponent)
  }

  function Pairs(k: Text, vs: seq<Text>): seq<Text> {
    if vs == [] then [] else [Pair(k, vs[0])] + Pairs(k, vs[1..])
  }

  function Parts(m: Multimap, order: seq<Text>): seq<Text>
    requires forall k :: k in order ==> k in m
  {
    if order == [] then [] else Pairs(order[0], m[order[0]]) + Parts(m, order[1..])
  }

  function Join(parts: seq<Text>): Text {
    if |parts| == 0 then []
    else if |parts| == 1 then parts[0]
    else parts[0] + [AMPERSAND] + Join(parts[1..])
  }

  /** A dictionary's keys in insertion order: each once. */
  ghost predicate KeysOf(keys: seq<Text>, m: Multimap) {
    && (forall k :: k in keys <==> k in m)
    && Distinct(keys)
  }

  ghost predicate Distinct(ks: seq<Text>) {
    forall i, j :: 0 <= i < j < |ks| ==> ks[i] != ks[j]
  }

  /** Keys sort by their bytes. */
  function Bytes(k: Text): seq<int> {
    k
  }

  function SortedKeys(keys: seq<Text>): (r: seq<Text>)
    ensures multiset(r) == multiset(keys)
    ensures forall k :: k in r <==> k in keys
  {
    SameMembers(Sort(keys, Bytes), keys);
    Sort(keys, Bytes)
  }

  lemma SortedKeysAreDistinct(keys: seq<Text>)
    requires Distinct(keys)
    ensures Sorted(SortedKeys(keys), Bytes) && Distinct(SortedKeys(keys))
  {
    SortSorted(keys, Bytes);
    var r := SortedKeys(keys);
    assert forall i, j :: 0 <= i < j < |r| ==> Bytes(r[i]) != Bytes(r[j]);
  }

  /** The encoded query of a multimap whose keys were inserted in the given order. */
  ghost function Encode(m: Multimap, keys: seq<Text>): Text
    requires KeysOf(keys, m)
  {
    Join(Parts(m, SortedKeys(keys)))
  }

  lemma {:induction false} DistinctMultiset(keys: seq<Text>)
    requires Distinct(keys)
    ensures forall k :: multiset(keys)[k] == if k in keys then 1 else 0
  {
    if keys == [] {
    } else {
      DistinctMultiset(keys[1..]);
      assert keys == [keys[0]] + keys[1..];
    }
  }

  lemma SameKeysSameMultiset(keys: seq<Text>, keys': seq<Text>, m: Multimap)
    requires KeysOf(keys, m) && KeysOf(keys', m)
    ensures multiset(keys) == multiset(keys')
  {
    DistinctMultiset(keys);
    DistinctMultiset(keys');
  }

  /** The keys ascend by their bytes. */
  ghost predicate Ascending(order: seq<Text>) {
    forall i, j :: 0 <= i < j < |order| ==> order[i] < order[j] || exists n :: SmallerAt(order[i], order[j], n)
  }

  lemma SortedKeysAscend(keys: seq<Text>)
    requires Distinct(keys)
    ensures Ascending(SortedKeys(keys))
  {
    SortedKeysAreDistinct(keys);
    var order := SortedKeys(keys);
    forall i, j | 0 <= i < j < |order|
      ensures order[i] < order[j] || exists n :: SmallerAt(order[i], order[j], n)
    {
      assert AtMost(Bytes(order[i]), Bytes(order[j])) && Bytes(order[i]) != Bytes(order[j]);
      AtMostIsLexicographic(Bytes(order[i]), Bytes(order[j]));
    }
  }

  /** The encoded pairs come key by key, the keys ascending by their bytes. */
  lemma EncodesAscending(m: Multimap, keys: seq<Text>) returns (order: seq<Text>)
    requires WellFormed(m) && KeysOf(keys, m)
    ensures KeysOf(order, m) && Ascending(order) && Segments(Encode(m, keys)) == Parts(m, order)
  {
    order := SortedKeys(keys);
    SortedKeysAreDistinct(keys);
    SortedKeysAscend(keys);
    PartsAreAdded(map[], m, order);
    SegmentsOfJoin(Parts(m, order));
  }

  /** Encoding is canonical: the order in which keys were inserted does not show. */
  lemma EncodeIsCanonical(m: Multimap, keys: seq<Text>, keys': seq<Text>)
    requires KeysOf(keys, m) && KeysOf(keys', m)
    ensures Encode(m, keys) == Encode(m, keys')
  {
    SameKeysSameMultiset(keys, keys', m);
    SortedKeysAreDistinct(keys);
    SortedKeysAreDistinct(keys');
    SortedIsUnique(SortedKeys(keys), SortedKeys(keys'), Bytes);
  }

  // ---------- Reading a raw query ----------

  function Segments(q: Text): seq<Text>
    decreases |q|
  {
    if q == [] then []
    else
      var i := Find(q, AMPERSAND);
      if i == |q| then [q] else [q[..i]] + Segments(q[i + 1..])
  }

  /** A segment is skipped, gives a pair, or decodes to bytes that are not UTF-8 and raises. */
  datatype Reading = Skipped | Read(k: Text, v: Text) | Raises

  function ReadSegment(seg: Text): Reading {
    if !Lacks(seg, SEMICOLON) || seg == [] then Skipped
    else
      var i := Find(seg, EQUALS);
      var k := Unescape(seg[..i], QueryComponent);
      if k.BadEscape? then Skipped
      else if k.BadUtf8? then Raises
      else
        var v := Unescape(if i == |seg| then [] else seg[i + 1..], QueryComponent);
        if v.BadEscape? then Skipped else if v.BadUtf8? then Raises else Read(k.text, v.text)
  }

  function Add(m: Multimap, k: Text, v: Text): Multimap {
    m[k := (if k in m then m[k] else []) + [v]]
  }

  function AddAll(m: Multimap, segs: seq<Text>): Result<Multimap>
    decreases |segs|
  {
    if segs == [] then Ok(m)
    else match ReadSegment(segs[0])
      case Skipped => AddAll(m, segs[1..])
      case Read(k, v) => AddAll(Add(m, k, v), segs[1..])
      case Raises => Err
  }

  function Query(raw: Text): Result<Multimap> {
    AddAll(map[], Segments(raw))
  }

  /** The text before the first equals sign, and the text after it. */
  ghost predicate SplitsAtEquals(seg: Text, k: Text, v: Text) {
    Lacks(k, EQUALS) && if Lacks(seg, EQUALS) then k == seg && v == [] else seg == k + [EQUALS] + v
  }

  /**
   How a segment reads: one that is empty, has a semicolon or holds a malformed escape is skipped; bytes
   that are not UTF-8 raise, the key being read first; otherwise it is the pair around its
   first equals sign, the value empty without one.
   */
  lemma SegmentIsRead(seg: Text, k: Text, v: Text)
    requires SplitsAtEquals(seg, k, v)
    ensures seg == [] || !Lacks(seg, SEMICOLON) ==> ReadSegment(seg) == Skipped
    ensures seg != [] && Lacks(seg, SEMICOLON) ==>
              match Unescape(k, QueryComponent)
              case BadEscape => ReadSegment(seg) == Skipped
              case BadUtf8 => ReadSegment(seg) == Raises
              case Plain(key) =>
                match Unescape(v, QueryComponent)
                case BadEscape => ReadSegment(seg) == Skipped
                case BadUtf8 => ReadSegment(seg) == Raises
                case Plain(value) => ReadSegment(seg) == Read(key, value)
  {
    if Lacks(seg, EQUALS) {
      CutNowhere(seg, EQUALS);
    } else {
      CutAt(k, EQUALS, v);
    }
  }

  // ---------- The round trip ----------

  /** What add and set can build: every key has a value, and all texts are UTF-8. */
  ghost predicate WellFormed(m: Multimap) {
    forall k :: k in m ==> m[k] != [] && ValidUtf8(k) && forall i :: 0 <= i < |m[k]| ==> ValidUtf8(m[k][i])
  }

  lemma EscapedQueryLacks(s: Text)
    ensures var e := Escape(s, QueryComponent); Lacks(e, AMPERSAND) && Lacks(e, SEMICOLON) && Lacks(e, EQUALS)
  {
    EscapedBytes(s, QueryComponent);
    var e := Escape(s, QueryComponent);
    forall i | 0 <= i < |e|
      ensures e[i] !in {AMPERSAND, SEMICOLON, EQUALS}
    {
      assert EscapedByte(e[i], QueryComponent);
    }
  }

  lemma PairParts(a: Text, b: Text)
    requires Lacks(a, EQUALS)
    ensures var s := a + [EQUALS] + b; Find(s, EQUALS) == |a| && s[..|a|] == a && s[|a| + 1..] == b
  {
    CutAt(a, EQUALS, b);
  }

  lemma PairIsRead(k: Text, v: Text)
    requires ValidUtf8(k) && ValidUtf8(v)
    ensures ReadSegment(Pair(k, v)) == Read(k, v)
    ensures Pair(k, v) != [] && Lacks(Pair(k, v), AMPERSAND)
  {
    EscapedQueryLacks(k);
    EscapedQueryLacks(v);
    PairParts(Escape(k, QueryComponent), Escape(v, QueryComponent));
    UnescapeEscape(k, QueryComponent);
    UnescapeEscape(v, QueryComponent);
  }

  /** Parts that a join can be taken apart into again. */
  ghost predicate Joinable(parts: seq<Text>) {
    forall i :: 0 <= i < |parts| ==> parts[i] != [] && Lacks(parts[i], AMPERSAND)
  }

  lemma {:induction false} SegmentsOfJoin(parts: seq<Text>)
    requires Joinable(parts)
    ensures Segments(Join(parts)) == parts
  {
    if parts == [] {
    } else if |parts| == 1 {
      CutNowhere(parts[0], AMPERSAND);
    } else {
      SegmentsOfJoin(parts[1..]);
      CutAt(parts[0], AMPERSAND, Join(parts[1..]));
      assert parts == [parts[0]] + parts[1..];
    }
  }

  lemma {:induction false} PairsAreAdded(m: Multimap, k: Text, vs: seq<Text>, rest: seq<Text>)
    requires ValidUtf8(k) && forall i :: 0 <= i < |vs| ==> ValidUtf8(vs[i])
    ensures AddAll(m, Pairs(k, vs) + rest) ==
            AddAll(if vs == [] then m else m[k := (if k in m then m[k] else []) + vs], rest)
    ensures Joinable(Pairs(k, vs))
    decreases |vs|
  {
    if vs == [] {
      assert Pairs(k, vs) + rest == rest;
    } else {
      assert Pairs(k, vs) + rest == [Pair(k, vs[0])] + (Pairs(k, vs[1..]) + rest);
      PairIsRead(k, vs[0]);
      AddAllStep(m, Pair(k, vs[0]), Pairs(k, vs[1..]) + rest);
      PairsAreAdded(Add(m, k, vs[0]), k, vs[1..], rest);
      AddedTogether(m, k, vs);
    }
  }

  lemma AddedTogether(m: Multimap, k: Text, vs: seq<Text>)
    requires vs != []
    ensures var m' := Add(m, k, vs[0]);
            (if vs[1..] == [] then m' else m'[k := m'[k] + vs[1..]]) == m[k := (if k in m then m[k] else []) + vs]
  {
    assert vs == [vs[0]] + vs[1..];
    var before := if k in m then m[k] else [];
    var m' := Add(m, k, vs[0]);
    assert before + vs == m'[k] + vs[1..];
    assert vs[1..] == [] ==> before + [vs[0]] == before + vs;
    assert m'[k := m'[k] + vs[1..]] == m[k := before + vs];
  }

  /** The part of a multimap with the given keys. */
  ghost function Only(m: Multimap, keys: seq<Text>): Multimap {
    map k | k in m && k in keys :: m[k]
  }

  lemma OnlyCons(m0: Multimap, m: Multimap, k: Text, rest: seq<Text>)
    requires k in m && k !in m0
    ensures m0[k := m[k]] + Only(m, rest) == m0 + Only(m, [k] + rest)
  {
  }

  lemma KeyIsAdded(m0: Multimap, m: Multimap, k: Text, rest: seq<Text>)
    requires WellFormed(m) && k in m && k !in m0
    ensures AddAll(m0, Pairs(k, m[k]) + rest) == AddAll(m0[k := m[k]], rest) && Joinable(Pairs(k, m[k]))
  {
    PairsAreAdded(m0, k, m[k], rest);
    assert [] + m[k] == m[k];
  }

  lemma JoinableAppend(a: seq<Text>, b: seq<Text>)
    requires Joinable(a) && Joinable(b)
    ensures Joinable(a + b)
  {
  }

  lemma {:induction false} PartsAreAdded(m0: Multimap, m: Multimap, order: seq<Text>)
    requires WellFormed(m) && forall k :: k in order ==> k in m && k !in m0
    requires Distinct(order)
    ensures AddAll(m0, Parts(m, order)) == Ok(m0 + Only(m, order))
    ensures Joinable(Parts(m, order))
    decreases |order|
  {
    if order == [] {
      assert m0 + Only(m, order) == m0;
    } else {
      var k, rest := order[0], order[1..];
      assert order == [k] + rest && k in order;
      KeyIsAdded(m0, m, k, Parts(m, rest));
      PartsAreAdded(m0[k := m[k]], m, rest);
      OnlyCons(m0, m, k, rest);
      JoinableAppend(Pairs(k, m[k]), Parts(m, rest));
    }
  }

  /** Reading back an encoded multimap gives the same keys with the same value lists in order. */
  lemma QueryOfEncode(m: Multimap, keys: seq<Text>)
    requires WellFormed(m) && KeysOf(keys, m)
    ensures Query(Encode(m, keys)) == Ok(m)
  {
    SortedKeysAreDistinct(keys);
    QueryOfParts(m, SortedKeys(keys));
  }

  lemma QueryOfParts(m: Multimap, order: seq<Text>)
    requires WellFormed(m) && Distinct(order) && forall k :: k in order <==> k in m
    ensures Query(Join(Parts(m, order))) == Ok(m)
  {
    PartsAreAdded(map[], m, order);
    SegmentsOfJoin(Parts(m, order));
    assert map[] + Only(m, order) == m;
  }

  lemma {:induction false} ReadingIsWellFormed(m: Multimap, segs: seq<Text>)
    requires WellFormed(m) && AddAll(m, segs).Ok?
    ensures WellFormed(AddAll(m, segs).value)
    decreases |segs|
  {
    if segs == [] {
    } else {
      var r := ReadSegment(segs[0]);
      if r.Read? {
        ReadingIsWellFormed(Add(m, r.k, r.v), segs[1..]);
      } else {
        ReadingIsWellFormed(m, segs[1..]);
      }
    }
  }

  /** Whatever a raw query reads as, encoding and reading it again changes nothing. */
  lemma EncodingAReadQuery(raw: Text, m: Multimap, keys: seq<Text>)
    requires Query(raw) == Ok(m) && KeysOf(keys, m)
    ensures Query(Encode(m, keys)) == Query(raw)
  {
    ReadingIsWellFormed(map[], Segments(raw));
    QueryOfEncode(m, keys);
  }

  // ---------- The mutable multimap ----------

  /** The dictionary behind a Values object, with its insertion order. */
  class Values {
    var m: Multimap
    var keys: seq<Text>

    constructor ()
      ensures Valid() && m == map[]
    {
      m, keys := map[], [];
    }

    ghost predicate Valid()
      reads this
    {
      KeysOf(keys, m) && forall k :: k in m ==> m[k] != []
    }

    method Set(key: Text, value: Text)
      requires Valid()
      modifies this
      ensures Valid() && m == old(m)[key := [value]]
    {
      if key !in m {
        keys := keys + [key];
      }
      m := m[key := [value]];
    }

    method AddValue(key: Text, value: Text)
      requires Valid()
      modifies this
      ensures Valid() && m == Add(old(m), key, value)
    {
      if key !in m {
        keys := keys + [key];
      }
      m := Add(m, key, value);
    }

    /** Append one encoded pair per value of a key. */
    method AppendPairs(parts: seq<Text>, key: Text) returns (r: seq<Text>)
      requires Valid() && key in m
      ensures r == parts + Pairs(key, m[key])
    {
      r := parts;
      var vs := m[key];
      assert vs[0..] == vs;
      for j := 0 to |vs|
        invariant r + Pairs(key, vs[j..]) == parts + Pairs(key, vs)
      {
        PairsStep(key, vs, j);
        r := Shifted(r, Pair(key, vs[j]), Pairs(key, vs[j + 1..]));
      }
      assert vs[|vs|..] == [] && r + [] == r;
    }

    /** Encode with sorted keys, appending one part per value. */
    method EncodeAll() returns (encoded: Text)
      requires Valid()
      ensures encoded == Encode(m, keys)
    {
      var order := SortedKeys(keys);
      var parts := [];
      assert order[0..] == order;
      for i := 0 to |order|
        invariant parts + Parts(m, order[i..]) == Parts(m, order)
      {
        PartsStep(m, order, i);
        AppendIsAssociative(parts, Pairs(order[i], m[order[i]]), Parts(m, order[i + 1..]));
        parts := AppendPairs(parts, order[i]);
      }
      assert order[|order|..] == [] && parts + [] == parts;
      encoded := Join(parts);
    }
  }

  function Shifted(parts: seq<Text>, part: Text, ghost rest: seq<Text>): (r: seq<Text>)
    ensures r + rest == parts + ([part] + rest)
  {
    parts + [part]
  }

  lemma AppendIsAssociative(a: seq<Text>, b: seq<Text>, c: seq<Text>)
    ensures (a + b) + c == a + (b + c)
  {
  }

  lemma PartsStep(m: Multimap, order: seq<Text>, i: nat)
    requires i < |order| && forall k :: k in order ==> k in m
    ensures Parts(m, order[i..]) == Pairs(order[i], m[order[i]]) + Parts(m, order[i + 1..])
  {
    assert order[i..][0] == order[i] && order[i..][1..] == order[i + 1..];
  }

  lemma PairsStep(k: Text, vs: seq<Text>, j: nat)
    requires j < |vs|
    ensures Pairs(k, vs[j..]) == [Pair(k, vs[j])] + Pairs(k, vs[j + 1..])
  {
    assert vs[j..][0] == vs[j] && vs[j..][1..] == vs[j + 1..];
  }

  /** One turn of the query loop: the segment's pair, if it has one, is added. */
  method AddSegment(v: Values, seg: Text, ghost rest: seq<Text>) returns (raised: bool)
    requires v.Valid()
    modifies v
    ensures v.Valid()
    ensures raised ==> AddAll(old(v.m), [seg] + rest) == Err
    ensures !raised ==> AddAll(old(v.m), [seg] + rest) == AddAll(v.m, rest)
  {
    AddAllStep(v.m, seg, rest);
    var r := ReadSegment(seg);
    if r.Read? {
      v.AddValue(r.k, r.v);
    }
    raised := r.Raises?;
  }

  lemma AddAllStep(m: Multimap, seg: Text, rest: seq<Text>)
    ensures AddAll(m, [seg] + rest) ==
            match ReadSegment(seg)
            case Skipped => AddAll(m, rest)
            case Read(k, v) => AddAll(Add(m, k, v), rest)
            case Raises => Err
  {
    assert ([seg] + rest)[0] == seg && ([seg] + rest)[1..] == rest;
  }

  /** The loop of GoUrl.query over a fresh Values; a decoding error escapes it. */
  method QueryLoop(raw: Text) returns (raised: bool, v: Values)
    ensures fresh(v) && v.Valid()
    ensures raised <==> Query(raw).Err?
    ensures !raised ==> Query(raw) == Ok(v.m)
  {
    v := new Values();
    var q := raw;
    raised := false;
    ghost var goal := Query(raw);
    while q != [] && !raised
      invariant fresh(v) && v.Valid() && goal == Query(raw)
      invariant raised ==> goal == Err
      invariant !raised ==> goal == AddAll(v.m, Segments(q))
      decreases |q|
    {
      raised, q := NextSegment(v, q, goal);
    }
  }

  /** One turn of the loop: the text up to the next ampersand. */
  method NextSegment(v: Values, q: Text, ghost goal: Result<Multimap>) returns (raised: bool, rest: Text)
    requires v.Valid() && q != [] && goal == AddAll(v.m, Segments(q))
    modifies v
    ensures v.Valid() && |rest| < |q|
    ensures raised ==> goal == Err
    ensures !raised ==> goal == AddAll(v.m, Segments(rest))
  {
    var i := Find(q, AMPERSAND);
    rest := if i == |q| then [] else q[i + 1..];
    SegmentsStep(q);
    raised := AddSegment(v, q[..i], Segments(rest));
  }

  lemma SegmentsStep(q: Text)
    requires q != []
    ensures var i := Find(q, AMPERSAND);
            Segments(q) == [q[..i]] + Segments(if i == |q| then [] else q[i + 1..])
  {
    var i := Find(q, AMPERSAND);
    if i == |q| {
      assert q[..i] == q;
    }
  }
}

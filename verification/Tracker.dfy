/**
 The on-disk key/value store: ordinal key order and deletion by prefix as one range delete.
 */
module Tracker {
  import opened Wrappers

  type Key = string

  const MAX_CODE_POINT := 0x10FFFF

  /** The store's key order: lexicographic by code point. */
  predicate Less(a: Key, b: Key) {
    if b == "" then false
    else if a == "" then true
    else a[0] as int < b[0] as int || (a[0] == b[0] && Less(a[1..], b[1..]))
  }

  predicate HasPrefix(key: Key, prefix: Key) {
    prefix <= key
  }

  /** The exclusive upper end of a prefix's range; the code point after U+D7FF is no character and cannot be bound. */
  datatype Bound = Unbounded | Below(key: Key) | Unencodable

  function PrefixUpperBound(prefix: Key): Bound {
    if prefix == "" then Unbounded
    else
      var last := prefix[|prefix| - 1] as int;
      if last >= MAX_CODE_POINT then Unbounded
      else if last == 0xD7FF then Unencodable
      else Below(prefix[..|prefix| - 1] + [(last + 1) as char])
  }

  /** The keys the range delete would remove. */
  predicate InRange(prefix: Key, key: Key) {
    var bound := PrefixUpperBound(prefix);
    !Less(key, prefix) && (bound.Below? ==> Less(key, bound.key))
  }

  /** Below the bound, the range is exactly the prefix. */
  lemma {:induction false} BoundedRangeIsPrefix(prefix: Key, key: Key)
    requires PrefixUpperBound(prefix).Below?
    ensures InRange(prefix, key) <==> HasPrefix(key, prefix)
  {
    var upper := PrefixUpperBound(prefix).key;
    if |prefix| == 1 {
      assert upper[1..] == "" && prefix[1..] == "" && prefix == [prefix[0]];
      assert upper[0] as int == prefix[0] as int + 1;
      assert HasPrefix(key, prefix) <==> key != "" && key[0] == prefix[0];
      assert !Less(key, prefix) <==> key != "" && key[0] as int >= prefix[0] as int;
      assert key != "" ==> (Less(key, upper) <==> key[0] as int < upper[0] as int);
      assert key != "" && key[0] as int == prefix[0] as int ==> key[0] == prefix[0];
    } else {
      assert prefix[1..][|prefix| - 2] == prefix[|prefix| - 1];
      assert upper[1..] == prefix[1..][..|prefix| - 2] + [upper[|prefix| - 1]];
      if key != "" {
        BoundedRangeIsPrefix(prefix[1..], key[1..]);
        assert key == [key[0]] + key[1..] && prefix == [prefix[0]] + prefix[1..];
        assert HasPrefix(key, prefix) <==> key[0] == prefix[0] && HasPrefix(key[1..], prefix[1..]);
      }
    }
  }

  predicate AllMax(prefix: Key) {
    forall i :: 0 <= i < |prefix| ==> prefix[i] as int == MAX_CODE_POINT
  }

  /** No key sorts after a run of maximal code points without starting with it. */
  lemma {:induction false} AllMaxRangeIsPrefix(prefix: Key, key: Key)
    requires AllMax(prefix)
    ensures !Less(key, prefix) <==> HasPrefix(key, prefix)
  {
    if prefix == "" || key == "" {
    } else {
      AllMaxRangeIsPrefix(prefix[1..], key[1..]);
      assert key == [key[0]] + key[1..] && prefix == [prefix[0]] + prefix[1..];
      assert HasPrefix(key, prefix) <==> key[0] == prefix[0] && HasPrefix(key[1..], prefix[1..]);
    }
  }

  /** A key that sorts after everything with the prefix: raise a code point that can be raised. */
  lemma {:induction false} OverreachingKey(prefix: Key) returns (key: Key)
    requires !AllMax(prefix)
    ensures !Less(key, prefix) && !HasPrefix(key, prefix)
  {
    var first := prefix[0] as int;
    if first < MAX_CODE_POINT {
      var next := if first == 0xD7FF then 0xE000 else first + 1;
      key := [next as char];
    } else {
      assert !AllMax(prefix[1..]) by {
        var i :| 0 <= i < |prefix| && prefix[i] as int != MAX_CODE_POINT;
        assert prefix[1..][i - 1] == prefix[i];
      }
      var rest := OverreachingKey(prefix[1..]);
      key := [prefix[0]] + rest;
      assert key[1..] == rest;
      assert prefix == [prefix[0]] + prefix[1..];
      PrefixCancels([prefix[0]], prefix[1..], rest);
    }
  }

  /**
   The range delete removes all and only the keys with the prefix, in every store, exactly for the
   empty prefix, a prefix whose last code point is below the maximum, and a run of maximal ones.
   */
  lemma RangeIsPrefixIff(prefix: Key)
    requires !PrefixUpperBound(prefix).Unencodable?
    ensures (forall key :: InRange(prefix, key) <==> HasPrefix(key, prefix)) <==>
            (prefix == "" || prefix[|prefix| - 1] as int < MAX_CODE_POINT || AllMax(prefix))
  {
    if PrefixUpperBound(prefix).Below? {
      forall key
        ensures InRange(prefix, key) <==> HasPrefix(key, prefix)
      {
        BoundedRangeIsPrefix(prefix, key);
      }
    } else if AllMax(prefix) {
      forall key
        ensures InRange(prefix, key) <==> HasPrefix(key, prefix)
      {
        AllMaxRangeIsPrefix(prefix, key);
      }
    } else {
      var key := OverreachingKey(prefix);
      assert InRange(prefix, key) && !HasPrefix(key, prefix);
    }
  }

  /** A stored value and its deadline, if it has one. */
  datatype Item = Item(value: string, deadline: Option<real>)

  predicate Live(item: Item, now: real) {
    item.deadline.None? || item.deadline.value >= now
  }

  /** What a key is found to hold at a time. */
  function Found(kv: map<Key, Item>, key: Key, now: real): Option<string> {
    if key in kv && Live(kv[key], now) then Some(kv[key].value) else None
  }

  class Store {
    var kv: map<Key, Item>

    constructor ()
      ensures kv == map[]
    {
      kv := map[];
    }

    /** An expired key is evicted on the way, which no lookup at that time or later can tell. */
    method GetKey(key: Key, now: real) returns (found: bool, value: string)
      modifies this
      ensures Found(old(kv), key, now) == if found then Some(value) else None
      ensures found <==> key in old(kv) && (old(kv)[key].deadline.Some? ==> now <= old(kv)[key].deadline.value)
      ensures !found ==> value == ""
      ensures forall k, t :: t >= now ==> Found(kv, k, t) == Found(old(kv), k, t)
      ensures kv == old(kv) || kv == old(kv) - {key}
    {
      if key !in kv {
        return false, "";
      }
      if !Live(kv[key], now) {
        kv := kv - {key};
        return false, "";
      }
      found, value := true, kv[key].value;
    }

    /** A write whose transaction may fail; a time to live of zero or less means no deadline. */
    method SetKey(key: Key, value: string, expires: real, now: real, works: bool) returns (raised: bool)
      modifies this
      ensures raised <==> !works
      ensures kv == if works then old(kv)[key := Item(value, if expires > 0.0 then Some(now + expires) else None)] else old(kv)
      ensures works ==> Found(kv, key, now) == Some(value)
    {
      if !works {
        return true;
      }
      kv := kv[key := Item(value, if expires > 0.0 then Some(now + expires) else None)];
      raised := false;
    }

    /** Delete by prefix; binding an unencodable bound raises before anything is deleted. */
    method DeleteKeysWithPrefix(prefix: Key) returns (count: Result<nat>)
      modifies this
      ensures count.Err? <==> PrefixUpperBound(prefix).Unencodable?
      ensures count.Err? ==> kv == old(kv)
      ensures count.Ok? ==> count.value == |old(kv)| - |kv|
      ensures count.Ok? && (prefix == "" || prefix[|prefix| - 1] as int < MAX_CODE_POINT || AllMax(prefix)) ==>
                kv == map k | k in old(kv) && !HasPrefix(k, prefix) :: old(kv)[k]
    {
      if PrefixUpperBound(prefix).Unencodable? {
        return Err;
      }
      RangeIsPrefixIff(prefix);
      var kept := map k | k in kv && !InRange(prefix, k) :: kv[k];
      assert kept.Keys <= kv.Keys;
      SmallerMap(kept, kv);
      count := Ok(|kv| - |kept|);
      kv := kept;
    }
  }

  lemma SmallerMap(a: map<Key, Item>, b: map<Key, Item>)
    requires a.Keys <= b.Keys
    ensures |a| <= |b|
  {
    assert b.Keys == a.Keys + (b.Keys - a.Keys);
    assert |a| == |a.Keys| && |b| == |b.Keys|;
  }

  function MarkerPrefix(runId: string): Key {
    "import-progress:" + runId + ":"
  }

  function MarkerKey(runId: string, table: string): Key {
    MarkerPrefix(runId) + table
  }

  lemma {:induction false} ColonSplits(a: string, b: string, rest: string)
    requires ':' !in a && ':' !in b
    ensures a + ":" <= b + ":" + rest <==> a == b
  {
    var short, long := a + ":", b + ":" + rest;
    if a == "" || b == "" {
      assert a != "" ==> a[0] in a && short[0] == a[0];
      assert b != "" ==> b[0] in b && long[0] == b[0];
      assert short <= long ==> short[0] == long[0];
    } else {
      ColonSplits(a[1..], b[1..], rest);
      assert short[1..] == a[1..] + ":" && long[1..] == b[1..] + ":" + rest;
      assert short == [a[0]] + short[1..] && long == [b[0]] + long[1..];
      assert a == [a[0]] + a[1..] && b == [b[0]] + b[1..];
      assert short <= long <==> a[0] == b[0] && short[1..] <= long[1..];
    }
  }

  /** Clearing one run's markers reaches exactly that run's: run ids are hex digests, so they hold no colon. */
  lemma MarkersOfOneRun(runId: string, other: string, table: string)
    requires ':' !in runId && ':' !in other
    ensures HasPrefix(MarkerKey(other, table), MarkerPrefix(runId)) <==> runId == other
  {
    var p := "import-progress:";
    ColonSplits(runId, other, table);
    assert MarkerPrefix(runId) == p + (runId + ":");
    assert MarkerKey(other, table) == p + (other + ":" + table);
    PrefixCancels(p, runId + ":", other + ":" + table);
  }

  lemma PrefixCancels(p: string, a: string, b: string)
    ensures p + a <= p + b <==> a <= b
  {
    if p + a <= p + b {
      assert forall i :: 0 <= i < |a| ==> a[i] == (p + a)[|p| + i] == (p + b)[|p| + i] == b[i];
    }
  }
}

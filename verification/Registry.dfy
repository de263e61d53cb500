/**
 The schema registry's version lookup: an in-memory cache with deadlines, lazy eviction and a
 background sweep, in front of the persistent tracker.
 */
module Registry {
  import opened Wrappers
  import opened Tracker

  // ---------- Keys ----------

  function SchemaCacheKey(table: string, version: string): Key {
    "registry:" + table + "-" + version
  }

  function VersionCacheKey(table: string): Key {
    "registry:" + table + ":version"
  }

  lemma VersionKeysDiffer(t: string, u: string)
    requires VersionCacheKey(t) == VersionCacheKey(u)
    ensures t == u
  {
    var n := |"registry:"|;
    assert VersionCacheKey(t)[n..n + |t|] == t && VersionCacheKey(u)[n..n + |u|] == u;
    assert |t| == |u|;
  }

  /** A version key is also a schema key of some table and version exactly when the table name has a dash. */
  lemma KeysCollideIff(table: string)
    ensures (exists t, v :: VersionCacheKey(table) == SchemaCacheKey(t, v)) <==> '-' in table
  {
    var p := "registry:";
    if '-' in table {
      var i :| 0 <= i < |table| && table[i] == '-';
      var t, v := table[..i], table[i + 1..] + ":version";
      assert table == t + "-" + table[i + 1..];
      assert VersionCacheKey(table) == p + t + "-" + v;
      assert VersionCacheKey(table) == SchemaCacheKey(t, v);
    }
    if exists t, v :: VersionCacheKey(table) == SchemaCacheKey(t, v) {
      var t, v :| VersionCacheKey(table) == SchemaCacheKey(t, v);
      var k := VersionCacheKey(table);
      var i := |p| + |t|;
      assert SchemaCacheKey(t, v)[i] == '-';
      assert k[i] == '-';
      if i < |p| + |table| {
        assert table[i - |p|] == '-';
      } else {
        assert k[i] == ":version"[i - |p| - |table|];
        assert '-' in ":version";
      }
    }
  }

  lemma SplitAtDash(t: string, v: string, t': string, v': string)
    requires SchemaCacheKey(t, v) == SchemaCacheKey(t', v') && |t| < |t'|
    ensures var w := t'[|t| + 1..]; t' == t + "-" + w && v == w + "-" + v'
  {
    var p, k := "registry:", SchemaCacheKey(t, v);
    var a, b := t + "-" + v, t' + "-" + v';
    assert k == p + a && k == p + b;
    assert a == k[|p|..] && b == k[|p|..];
    Overlapping(t, v, t', v');
  }

  lemma Overlapping(t: string, v: string, t': string, v': string)
    requires t + "-" + v == t' + "-" + v' && |t| < |t'|
    ensures var w := t'[|t| + 1..]; t' == t + "-" + w && v == w + "-" + v'
  {
    var a := t + "-" + v;
    assert t' == a[..|t'|] && a[..|t|] == t && a[|t|] == '-';
    assert v == a[|t| + 1..] && v' == a[|t'| + 1..] && a[|t'|] == '-';
  }

  /** Two schema keys are the same exactly for the same schema, or when a dash can be read as part of either name. */
  lemma SchemaKeysCollideIff(t: string, v: string, t': string, v': string)
    ensures SchemaCacheKey(t, v) == SchemaCacheKey(t', v') <==>
            || (t == t' && v == v')
            || (exists w :: t' == t + "-" + w && v == w + "-" + v')
            || (exists w :: t == t' + "-" + w && v' == w + "-" + v)
  {
    if SchemaCacheKey(t, v) == SchemaCacheKey(t', v') {
      if |t| < |t'| {
        SplitAtDash(t, v, t', v');
      } else if |t'| < |t| {
        SplitAtDash(t', v', t, v);
      } else {
        SameLengthSameSchema(t, v, t', v');
      }
    } else {
      forall w: string
        ensures !(t' == t + "-" + w && v == w + "-" + v') && !(t == t' + "-" + w && v' == w + "-" + v)
      {
        Rejoined(t, w, v');
        Rejoined(t', w, v);
      }
    }
  }

  lemma SameLengthSameSchema(t: string, v: string, t': string, v': string)
    requires SchemaCacheKey(t, v) == SchemaCacheKey(t', v') && |t| == |t'|
    ensures t == t' && v == v'
  {
    var n, k := |"registry:"|, SchemaCacheKey(t, v);
    assert k[n..n + |t|] == t && k[n..n + |t|] == t';
    assert k[n + |t| + 1..] == v && k[n + |t| + 1..] == v';
  }

  lemma Rejoined(t: string, w: string, v: string)
    ensures SchemaCacheKey(t, w + "-" + v) == SchemaCacheKey(t + "-" + w, v)
  {
  }

  // ---------- The cache ----------

  datatype Object = Version(text: string) | SchemaObject(json: string)

  const DEFAULT_CACHE := 86400.0

  class InMemoryCache {
    var entries: map<Key, (Object, real)>

    constructor ()
      ensures entries == map[]
    {
      entries := map[];
    }

    /** A live entry's object; an expired entry is evicted on the way. */
    method Get(key: Key, now: real) returns (found: Option<Object>)
      modifies this
      ensures found == if key in old(entries) && old(entries)[key].1 >= now then Some(old(entries)[key].0) else None
      ensures entries == if key in old(entries) && old(entries)[key].1 < now then old(entries) - {key} else old(entries)
    {
      if key !in entries {
        return None;
      }
      if entries[key].1 < now {
        entries := entries - {key};
        return None;
      }
      found := Some(entries[key].0);
    }

    method Set(key: Key, val: Object, expires: real, now: real)
      modifies this
      ensures entries == old(entries)[key := (val, now + expires)]
    {
      entries := entries[key := (val, now + expires)];
    }

    /** One pass of the sweeper. */
    method Sweep(now: real)
      modifies this
      ensures entries == map k | k in old(entries) && old(entries)[k].1 >= now :: old(entries)[k]
    {
      var expired := set k | k in entries && entries[k].1 < now;
      entries := entries - expired;
    }
  }

  // ---------- The registry ----------

  /** What a key is for: a table's version, or one version's schema. */
  datatype Slot = VersionSlot(table: string) | SchemaSlot(table: string, version: string)

  function KeyOf(slot: Slot): Key {
    match slot
    case VersionSlot(t) => VersionCacheKey(t)
    case SchemaSlot(t, v) => SchemaCacheKey(t, v)
  }

  /** No two of the slots share a key. */
  ghost predicate KeysApart(slots: iset<Slot>) {
    forall a, b :: a in slots && b in slots && KeyOf(a) == KeyOf(b) ==> a == b
  }

  /** Slots of tables without a dash in their names share no keys. */
  lemma DashFreeKeysApart(slots: iset<Slot>)
    requires forall slot :: slot in slots ==> '-' !in slot.table
    ensures KeysApart(slots)
  {
    forall a, b | a in slots && b in slots && KeyOf(a) == KeyOf(b)
      ensures a == b
    {
      SameKeySameSlot(a, b);
    }
  }

  lemma SameKeySameSlot(a: Slot, b: Slot)
    requires '-' !in a.table && '-' !in b.table && KeyOf(a) == KeyOf(b)
    ensures a == b
  {
    if a.VersionSlot? && b.VersionSlot? {
      VersionKeysDiffer(a.table, b.table);
    } else if a.VersionSlot? {
      KeysCollideIff(a.table);
    } else if b.VersionSlot? {
      KeysCollideIff(b.table);
    } else {
      SchemaKeysCollideIff(a.table, a.version, b.table, b.version);
      DashShows(a.table, b.table);
      DashShows(b.table, a.table);
    }
  }

  lemma DashShows(t: string, t': string)
    requires '-' !in t
    ensures forall w :: t != t' + "-" + w
  {
    forall w: string
      ensures t != t' + "-" + w
    {
      assert (t' + "-" + w)[|t'|] == '-';
    }
  }

  /**
   What happens to a registry: lookups, writes, the clock moving on, and the sweeper running. `tracked`
   says whether the tracker's write, where the operation makes one, goes through.
   */
  datatype Op =
    | GetVersion(table: string)
    | SetVersion(table: string, version: string, tracked: bool)
    | GetSchema(table: string, version: string, fetched: Result<string>, tracked: bool)
    | Advance(seconds: Duration)
    | Sweep

  /** The clock is monotonic. */
  type Duration = r: real | r >= 0.0 witness 0.0

  /** Decoding a text to a schema, written in canonical form; what is canonical decodes to itself. */
  type Decoder = string -> Result<string>

  ghost predicate Canonical(decode: Decoder) {
    forall text, json :: decode(text) == Ok(json) ==> decode(json) == Ok(json)
  }

  function TextOf(o: Object): string {
    match o
    case Version(text) => text
    case SchemaObject(json) => json
  }

  /**
   The registry without its cache: what the tracker holds under each slot, and the writes that failed,
   each with the value it put into the cache and the deadline it got there.
   */
  datatype Plain = Plain(decode: Decoder, stored: map<Slot, string>, failed: map<Slot, (string, real)>, now: real)

  function Lookup(m: map<Slot, string>, slot: Slot): Option<string> {
    if slot in m then Some(m[slot]) else None
  }

  /** A failed write to the slot that is still live. */
  predicate LiveFailure(p: Plain, slot: Slot) {
    slot in p.failed && p.failed[slot].1 >= p.now
  }

  type Entries = map<Key, (Object, real)>

  /** The object is what reading the stored text gives. */
  predicate ReadsAs(p: Plain, slot: Slot, o: Object) {
    slot in p.stored && if slot.VersionSlot? then o == Version(p.stored[slot]) else o.SchemaObject? && p.decode(p.stored[slot]) == Ok(o.json)
  }

  /** The entry is what a failed write put there. */
  predicate FailedEntry(p: Plain, slot: Slot, entry: (Object, real)) {
    && (entry.0.Version? <==> slot.VersionSlot?)
    && slot in p.failed && p.failed[slot] == (TextOf(entry.0), entry.1)
  }

  ghost predicate Stores(kv: map<Key, Item>, k: Key, value: Option<string>) {
    match value
    case Some(v) => k in kv && kv[k] == Item(v, None)
    case None => k !in kv
  }

  /**
   The tracker holds the slot's text for good, a cache entry is what reading it gives or due to a failed
   write, and every live failed write is in the cache.
   */
  ghost predicate SlotOk(entries: Entries, kv: map<Key, Item>, p: Plain, slot: Slot) {
    var k := KeyOf(slot);
    && Stores(kv, k, Lookup(p.stored, slot))
    && (k in entries ==> ReadsAs(p, slot, entries[k].0) || FailedEntry(p, slot, entries[k]))
    && (LiveFailure(p, slot) ==> k in entries && FailedEntry(p, slot, entries[k]))
  }

  ghost predicate SlotsOk(entries: Entries, kv: map<Key, Item>, p: Plain, slots: iset<Slot>) {
    KeysApart(slots) && Canonical(p.decode) && forall slot :: slot in slots ==> SlotOk(entries, kv, p, slot)
  }

  /** What a write makes of the plain registry: it reaches the tracker, or only the cache. */
  function Written(p: Plain, slot: Slot, text: string, tracked: bool): Plain {
    if tracked then p.(stored := p.stored[slot := text], failed := p.failed - {slot})
    else p.(failed := p.failed[slot := (text, p.now + DEFAULT_CACHE)])
  }

  lemma WriteKeepsSlots(entries: Entries, kv: map<Key, Item>, p: Plain, slots: iset<Slot>, slot: Slot, o: Object, tracked: bool)
    requires SlotsOk(entries, kv, p, slots) && slot in slots && (o.Version? <==> slot.VersionSlot?)
    requires o.SchemaObject? ==> p.decode(o.json) == Ok(o.json)
    ensures var kv' := if tracked then kv[KeyOf(slot) := Item(TextOf(o), None)] else kv;
            SlotsOk(entries[KeyOf(slot) := (o, p.now + DEFAULT_CACHE)], kv', Written(p, slot, TextOf(o), tracked), slots)
  {
    var kv' := if tracked then kv[KeyOf(slot) := Item(TextOf(o), None)] else kv;
    var entries', p' := entries[KeyOf(slot) := (o, p.now + DEFAULT_CACHE)], Written(p, slot, TextOf(o), tracked);
    forall other | other in slots
      ensures SlotOk(entries', kv', p', other)
    {
      assert SlotOk(entries, kv, p, other);
    }
  }

  /** What the tracker held was cached again. */
  lemma CachedAgain(entries: Entries, kv: map<Key, Item>, p: Plain, slots: iset<Slot>, slot: Slot, o: Object)
    requires SlotsOk(entries, kv, p, slots) && slot in slots && ReadsAs(p, slot, o) && !LiveFailure(p, slot)
    ensures SlotsOk(entries[KeyOf(slot) := (o, p.now + DEFAULT_CACHE)], kv, p, slots)
  {
    var entries' := entries[KeyOf(slot) := (o, p.now + DEFAULT_CACHE)];
    forall other | other in slots
      ensures SlotOk(entries', kv, p, other)
    {
      assert SlotOk(entries, kv, p, other);
    }
  }

  /** Expired entries may leave, and the clock may move on. */
  lemma ExpiryKeepsSlots(entries: Entries, entries': Entries, kv: map<Key, Item>, p: Plain, slots: iset<Slot>, seconds: Duration)
    requires SlotsOk(entries, kv, p, slots)
    requires forall k :: k in entries' ==> k in entries && entries'[k] == entries[k]
    requires forall k :: k in entries && entries[k].1 >= p.now ==> k in entries'
    ensures SlotsOk(entries', kv, p.(now := p.now + seconds), slots)
  {
    var p' := p.(now := p.now + seconds);
    forall slot | slot in slots
      ensures SlotOk(entries', kv, p', slot)
    {
      assert SlotOk(entries, kv, p, slot);
    }
  }

  class ApiRegistry {
    const cache: InMemoryCache
    const tracker: Store
    const decode: Decoder
    var now: real

    constructor (cache: InMemoryCache, tracker: Store, decode: Decoder)
      requires cache.entries == map[]
      ensures this.cache == cache && this.tracker == tracker && this.decode == decode && now == 0.0
    {
      this.cache, this.tracker, this.decode, this.now := cache, tracker, decode, 0.0;
    }

    ghost predicate Represents(slots: iset<Slot>, p: Plain)
      reads this, cache, tracker
    {
      now == p.now && decode == p.decode && SlotsOk(cache.entries, tracker.kv, p, slots)
    }

    /** The cache's live object for a slot: that of a live failed write, or else what reading the stored text gives. */
    method Cached(ghost slot: Slot, key: Key, ghost slots: iset<Slot>, ghost p: Plain) returns (hit: Option<Object>)
      requires Represents(slots, p) && slot in slots && key == KeyOf(slot)
      modifies cache
      ensures Represents(slots, p) && Stores(tracker.kv, key, Lookup(p.stored, slot))
      ensures LiveFailure(p, slot) ==> hit.Some?
      ensures hit.Some? ==> (hit.value.Version? <==> slot.VersionSlot?)
      ensures hit.Some? ==> if LiveFailure(p, slot) then TextOf(hit.value) == p.failed[slot].0 else ReadsAs(p, slot, hit.value)
    {
      assert SlotOk(cache.entries, tracker.kv, p, slot);
      ghost var entries := cache.entries;
      hit := cache.Get(key, now);
      ExpiryKeepsSlots(entries, cache.entries, tracker.kv, p, slots, 0.0);
    }

    /** Cache, then tracker. */
    method GetTableVersion(table: string, ghost slots: iset<Slot>, ghost p: Plain) returns (version: Option<string>)
      requires Represents(slots, p) && VersionSlot(table) in slots
      modifies cache, tracker
      ensures Represents(slots, p) && version == VersionSeen(p, table)
    {
      var key := VersionCacheKey(table);
      var hit := Cached(VersionSlot(table), key, slots, p);
      if hit.Some? {
        return Some(hit.value.text);
      }
      var found, value := tracker.GetKey(key, now);
      if found {
        CachedAgain(cache.entries, tracker.kv, p, slots, VersionSlot(table), Version(value));
        cache.Set(key, Version(value), DEFAULT_CACHE, now);
        return Some(value);
      }
      version := None;
    }

    /** The cache first, then the tracker; a tracker that raises leaves the cache written. */
    method SetTableVersion(table: string, version: string, tracked: bool, ghost slots: iset<Slot>, ghost p: Plain) returns (raised: bool)
      requires Represents(slots, p) && VersionSlot(table) in slots
      modifies cache, tracker
      ensures raised <==> !tracked
      ensures Represents(slots, Written(p, VersionSlot(table), version, tracked))
    {
      var key := VersionCacheKey(table);
      WriteKeepsSlots(cache.entries, tracker.kv, p, slots, VersionSlot(table), Version(version), tracked);
      cache.Set(key, Version(version), DEFAULT_CACHE, now);
      raised := tracker.SetKey(key, version, 0.0, now, tracked);
    }

    /** Cache, then tracker, then the API, whose answer goes to the cache and then to the tracker; a text that does not decode raises. */
    method GetSchemaFor(table: string, version: string, fetched: Result<string>, tracked: bool, ghost slots: iset<Slot>, ghost p: Plain)
        returns (answer: Answer)
      requires Represents(slots, p) && SchemaSlot(table, version) in slots
      modifies cache, tracker
      ensures answer == SchemaGot(p, SchemaSlot(table, version), fetched, tracked).0
      ensures Represents(slots, SchemaGot(p, SchemaSlot(table, version), fetched, tracked).1)
    {
      var key := SchemaCacheKey(table, version);
      ghost var slot := SchemaSlot(table, version);
      var hit := Cached(slot, key, slots, p);
      if hit.Some? {
        return SchemaIs(Ok(hit.value.json));
      }
      var found, value := tracker.GetKey(key, now);
      if found {
        var schema := decode(value);
        if schema.Ok? {
          CachedAgain(cache.entries, tracker.kv, p, slots, slot, SchemaObject(schema.value));
          cache.Set(key, SchemaObject(schema.value), DEFAULT_CACHE, now);
        }
        return SchemaIs(schema);
      }
      if fetched.Err? || decode(fetched.value).Err? {
        return SchemaIs(Err);
      }
      answer := StoreFetched(slot, key, decode(fetched.value).value, tracked, slots, p);
    }

    method StoreFetched(ghost slot: Slot, key: Key, json: string, tracked: bool, ghost slots: iset<Slot>, ghost p: Plain) returns (answer: Answer)
      requires Represents(slots, p) && slot in slots && slot.SchemaSlot? && key == KeyOf(slot) && p.decode(json) == Ok(json)
      modifies cache, tracker
      ensures answer == if tracked then SchemaIs(Ok(json)) else WriteRaised
      ensures Represents(slots, Written(p, slot, json, tracked))
    {
      WriteKeepsSlots(cache.entries, tracker.kv, p, slots, slot, SchemaObject(json), tracked);
      cache.Set(key, SchemaObject(json), DEFAULT_CACHE, now);
      var raised := tracker.SetKey(key, json, 0.0, now, tracked);
      answer := if raised then WriteRaised else SchemaIs(Ok(json));
    }
  }

  // ---------- Every interleaving ----------

  datatype Answer = VersionIs(version: Option<string>) | SchemaIs(schema: Result<string>) | WriteRaised

  /** What a version lookup answers: the value of a live failed write, or else what is stored. */
  function VersionSeen(p: Plain, table: string): Option<string> {
    var slot := VersionSlot(table);
    if LiveFailure(p, slot) then Some(p.failed[slot].0) else Lookup(p.stored, slot)
  }

  function SchemaGot(p: Plain, slot: Slot, fetched: Result<string>, tracked: bool): (Answer, Plain) {
    if LiveFailure(p, slot) then (SchemaIs(Ok(p.failed[slot].0)), p)
    else if slot in p.stored then (SchemaIs(p.decode(p.stored[slot])), p)
    else if fetched.Err? || p.decode(fetched.value).Err? then (SchemaIs(Err), p)
    else
      var json := p.decode(fetched.value).value;
      (if tracked then SchemaIs(Ok(json)) else WriteRaised, Written(p, slot, json, tracked))
  }

  /** One operation on the plain registry: its answer, if it has one, and the registry after it. */
  function PlainStep(p: Plain, op: Op): (seq<Answer>, Plain) {
    match op
    case GetVersion(t) => ([VersionIs(VersionSeen(p, t))], p)
    case SetVersion(t, v, tracked) => (if tracked then [] else [WriteRaised], Written(p, VersionSlot(t), v, tracked))
    case GetSchema(t, v, fetched, tracked) =>
      var (answer, p') := SchemaGot(p, SchemaSlot(t, v), fetched, tracked);
      ([answer], p')
    case Advance(seconds) => ([], p.(now := p.now + seconds))
    case Sweep => ([], p)
  }

  /** The plain registry after some operations, and their answers. */
  function PlainAfter(p: Plain, ops: seq<Op>): Plain {
    if ops == [] then p else PlainStep(PlainAfter(p, ops[..|ops| - 1]), ops[|ops| - 1]).1
  }

  function PlainAnswers(p: Plain, ops: seq<Op>): seq<Answer> {
    if ops == [] then []
    else
      var front := ops[..|ops| - 1];
      PlainAnswers(p, front) + PlainStep(PlainAfter(p, front), ops[|ops| - 1]).0
  }

  /** The slots a list of operations touches. */
  ghost function SlotsOf(ops: seq<Op>): iset<Slot> {
    iset i, slot | 0 <= i < |ops| && Touches(ops[i], slot) :: slot
  }

  predicate Touches(op: Op, slot: Slot) {
    match op
    case GetVersion(t) => slot == VersionSlot(t)
    case SetVersion(t, _, _) => slot == VersionSlot(t)
    case GetSchema(t, v, _, _) => slot == SchemaSlot(t, v)
    case _ => false
  }

  /** One operation on the registry answers like the plain one and keeps representing it. */
  method RunOp(registry: ApiRegistry, op: Op, ghost slots: iset<Slot>, ghost p: Plain) returns (answers: seq<Answer>)
    requires registry.Represents(slots, p) && forall slot :: Touches(op, slot) ==> slot in slots
    modifies registry, registry.cache, registry.tracker
    ensures registry.Represents(slots, PlainStep(p, op).1)
    ensures answers == PlainStep(p, op).0
  {
    answers := [];
    match op
    case GetVersion(t) =>
      assert Touches(op, VersionSlot(t));
      var v := registry.GetTableVersion(t, slots, p);
      answers := [VersionIs(v)];
    case SetVersion(t, v, tracked) =>
      assert Touches(op, VersionSlot(t));
      var raised := registry.SetTableVersion(t, v, tracked, slots, p);
      answers := if raised then [WriteRaised] else [];
    case GetSchema(t, v, fetched, tracked) =>
      assert Touches(op, SchemaSlot(t, v));
      var answer := registry.GetSchemaFor(t, v, fetched, tracked, slots, p);
      answers := [answer];
    case Advance(seconds) =>
      ExpiryKeepsSlots(registry.cache.entries, registry.cache.entries, registry.tracker.kv, p, slots, seconds);
      registry.now := registry.now + seconds;
    case Sweep =>
      ghost var entries := registry.cache.entries;
      registry.cache.Sweep(registry.now);
      ExpiryKeepsSlots(entries, registry.cache.entries, registry.tracker.kv, p, slots, 0.0);
  }

  /**
   Every interleaving of lookups, writes that may fail, schema reads, clock advances and sweeps answers
   like the plain registry: expiry and sweeping cannot be seen, and a cached value that the tracker does
   not hold only through a failed write.
   */
  method RunOps(registry: ApiRegistry, ops: seq<Op>, ghost plain: Plain) returns (answers: seq<Answer>)
    requires registry.Represents(SlotsOf(ops), plain)
    modifies registry, registry.cache, registry.tracker
    ensures answers == PlainAnswers(plain, ops)
    ensures registry.Represents(SlotsOf(ops), PlainAfter(plain, ops))
  {
    answers := [];
    for i := 0 to |ops|
      invariant registry.Represents(SlotsOf(ops), PlainAfter(plain, ops[..i]))
      invariant answers == PlainAnswers(plain, ops[..i])
    {
      assert ops[..i + 1][..i] == ops[..i];
      var some := RunOp(registry, ops[i], SlotsOf(ops), PlainAfter(plain, ops[..i]));
      answers := answers + some;
    }
    assert ops[..|ops|] == ops;
  }

  /** A registry whose cache is empty represents what its tracker holds for good. */
  lemma EmptyCacheRepresents(kv: map<Key, Item>, decode: Decoder, stored: map<Slot, string>, slots: iset<Slot>)
    requires KeysApart(slots) && Canonical(decode)
    requires forall slot :: slot in slots ==> Stores(kv, KeyOf(slot), Lookup(stored, slot))
    ensures SlotsOk(map[], kv, Plain(decode, stored, map[], 0.0), slots)
  {
  }

  /**
   Two schema reads on an empty registry, the API answering both: the second gets the first one's schema
   exactly when they share a key.
   */
  method ReadTwoSchemas(decode: Decoder, t: string, v: string, t': string, v': string, first: string, second: string)
      returns (answer: Answer)
    requires Canonical(decode) && decode(first) == Ok(first) && decode(second) == Ok(second)
    ensures answer == SchemaIs(Ok(if SchemaCacheKey(t, v) == SchemaCacheKey(t', v') then first else second))
  {
    var cache := new InMemoryCache();
    var tracker := new Store();
    var registry := new ApiRegistry(cache, tracker, decode);
    ghost var p, a, b := Plain(decode, map[], map[], 0.0), SchemaSlot(t, v), SchemaSlot(t', v');
    ghost var slots := if KeyOf(a) == KeyOf(b) then iset{a} else iset{a, b};
    EmptyCacheRepresents(tracker.kv, decode, map[], slots);
    var _ := registry.GetSchemaFor(t, v, Ok(first), true, slots, p);
    ghost var q := if KeyOf(a) == KeyOf(b) then Plain(decode, map[b := first], map[], 0.0) else SchemaGot(p, a, Ok(first), true).1;
    assert SlotOk(cache.entries, tracker.kv, SchemaGot(p, a, Ok(first), true).1, a);
    assert SlotOk(cache.entries, tracker.kv, q, b);
    answer := registry.GetSchemaFor(t', v', Ok(second), true, iset{b}, q);
  }

  // ---------- When a lookup answers what the tracker holds ----------

  /** A write to a table's version, whether it went through, and how long ago it was. */
  datatype Write = Write(version: string, tracked: bool, age: real)

  /** The last write to a table's version. */
  function LastWrite(ops: seq<Op>, table: string): Option<Write> {
    if ops == [] then None
    else
      var front, op := LastWrite(ops[..|ops| - 1], table), ops[|ops| - 1];
      match op
      case SetVersion(t, v, tracked) => if t == table then Some(Write(v, tracked, 0.0)) else front
      case Advance(seconds) => if front.Some? then Some(front.value.(age := front.value.age + seconds)) else None
      case _ => front
  }

  /** The last version written to the tracker, or what was there before. */
  function LastTracked(ops: seq<Op>, table: string, before: Option<string>): Option<string> {
    if ops == [] then before
    else
      var front, op := LastTracked(ops[..|ops| - 1], table, before), ops[|ops| - 1];
      if op.SetVersion? && op.table == table && op.tracked then Some(op.version) else front
  }

  lemma {:induction false} HistoryDecides(p: Plain, ops: seq<Op>, table: string)
    requires VersionSlot(table) !in p.failed
    ensures var q, slot, w := PlainAfter(p, ops), VersionSlot(table), LastWrite(ops, table);
            && Lookup(q.stored, slot) == LastTracked(ops, table, Lookup(p.stored, slot))
            && (slot in q.failed <==> w.Some? && !w.value.tracked)
            && (slot in q.failed ==> q.failed[slot] == (w.value.version, q.now - w.value.age + DEFAULT_CACHE))
  {
    if ops == [] {
    } else {
      HistoryDecides(p, ops[..|ops| - 1], table);
    }
  }

  /**
   After any operations, a version lookup answers what the tracker holds if and only if the last write
   to that table is absent, went through, is older than the cache keeps entries, or wrote just that.
   */
  lemma LookupAgreesIff(p: Plain, ops: seq<Op>, table: string)
    requires VersionSlot(table) !in p.failed
    ensures var held, w := LastTracked(ops, table, Lookup(p.stored, VersionSlot(table))), LastWrite(ops, table);
            PlainAnswers(p, ops + [GetVersion(table)]) == PlainAnswers(p, ops) + [VersionIs(held)] <==>
            w.None? || w.value.tracked || w.value.age > 86400.0 || held == Some(w.value.version)
  {
    HistoryDecides(p, ops, table);
    assert (ops + [GetVersion(table)])[..|ops|] == ops;
    var answers, seen := PlainAnswers(p, ops), VersionIs(VersionSeen(PlainAfter(p, ops), table));
    assert PlainAnswers(p, ops + [GetVersion(table)]) == answers + [seen];
    assert (answers + [seen])[|answers|] == seen;
  }

  /** A failed write shows in every lookup until its deadline, and in none after it. */
  lemma FailedWriteShows(p: Plain, table: string, version: string, later: Duration)
    ensures var q := PlainStep(PlainStep(p, SetVersion(table, version, false)).1, Advance(later)).1;
            PlainStep(q, GetVersion(table)).0 ==
            [VersionIs(if later <= 86400.0 then Some(version) else Lookup(p.stored, VersionSlot(table)))]
  {
  }

  /** Without a failed write, nothing but what is stored answers. */
  lemma {:induction false} NoFailuresNoTrace(p: Plain, ops: seq<Op>)
    requires p.failed == map[]
    requires forall i :: 0 <= i < |ops| && (ops[i].SetVersion? || ops[i].GetSchema?) ==> ops[i].tracked
    ensures PlainAfter(p, ops).failed == map[] && PlainAfter(p, ops).decode == p.decode
    ensures PlainAfter(p, ops).stored == TableAfter(p.decode, p.stored, ops)
    ensures PlainAnswers(p, ops) == TableAnswers(p.decode, p.stored, ops)
  {
    if ops == [] {
    } else {
      var front := ops[..|ops| - 1];
      NoFailuresNoTrace(p, front);
      NoFailureNoTrace(PlainAfter(p, front), ops[|ops| - 1]);
    }
  }

  lemma NoFailureNoTrace(p: Plain, op: Op)
    requires p.failed == map[] && (op.SetVersion? || op.GetSchema? ==> op.tracked)
    ensures var (answers, p') := PlainStep(p, op);
            p'.failed == map[] && p'.decode == p.decode && (answers, p'.stored) == TableStep(p.decode, p.stored, op)
  {
  }

  /** One operation on a plain table, with no cache, clock, sweeper or failure. */
  function TableStep(decode: Decoder, stored: map<Slot, string>, op: Op): (seq<Answer>, map<Slot, string>) {
    match op
    case GetVersion(t) => ([VersionIs(Lookup(stored, VersionSlot(t)))], stored)
    case SetVersion(t, v, _) => ([], stored[VersionSlot(t) := v])
    case GetSchema(t, v, fetched, _) =>
      var slot := SchemaSlot(t, v);
      if slot in stored then ([SchemaIs(decode(stored[slot]))], stored)
      else
        var schema := if fetched.Ok? then decode(fetched.value) else fetched;
        ([SchemaIs(schema)], if schema.Ok? then stored[slot := schema.value] else stored)
    case _ => ([], stored)
  }

  function TableAfter(decode: Decoder, stored: map<Slot, string>, ops: seq<Op>): map<Slot, string> {
    if ops == [] then stored else TableStep(decode, TableAfter(decode, stored, ops[..|ops| - 1]), ops[|ops| - 1]).1
  }

  function TableAnswers(decode: Decoder, stored: map<Slot, string>, ops: seq<Op>): seq<Answer> {
    if ops == [] then []
    else
      var front := ops[..|ops| - 1];
      TableAnswers(decode, stored, front) + TableStep(decode, TableAfter(decode, stored, front), ops[|ops| - 1]).0
  }
}

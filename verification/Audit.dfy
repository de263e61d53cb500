/**
 Audit mode: every change becomes a row of a history table, and two views read the history back.
 The views are given their standard window-function meaning and compared with replaying the events.
 */
module Audit {
  import opened Wrappers
  import opened MySql

  // ---------- Events and the two statement builders ----------

  datatype Kind = Scalar | Array | Object

  datatype Property = Property(kind: Kind, nullable: bool)

  datatype Schema = Schema(table: string, primaryKeys: seq<Column>, properties: map<Column, Property>) {
    function Columns(): set<Column> {
      (set c | c in primaryKeys) + properties.Keys
    }

    function PropertyOf(c: Column): Property {
      if c in properties then properties[c] else Property(Scalar, false)
    }

    ghost predicate Valid() {
      forall i, j :: 0 <= i < j < |primaryKeys| ==> primaryKeys[i] != primaryKeys[j]
    }
  }

  datatype Event = Event(op: string, key: seq<Value>, snapshot: map<Column, Value>, mvcc: Option<int>, timestamp: int) {
    predicate IsDelete() {
      op == "DELETE"
    }
  }

  /** The builder finds a key value for every primary key; a shorter key makes it raise. */
  predicate Buildable(s: Schema, e: Event) {
    e.IsDelete() ==> |s.primaryKeys| <= |e.key|
  }

  predicate IsDigit(c: char) {
    '0' <= c <= '9'
  }

  /** A number in front: an optional sign, then a digit, or a point and a digit. */
  predicate StartsLikeNumber(s: string) {
    var t := if s != "" && s[0] in {'+', '-'} then s[1..] else s;
    (|t| >= 1 && IsDigit(t[0])) || (|t| >= 2 && t[0] == '.' && IsDigit(t[1]))
  }

  predicate EndsWith(s: string, suffix: string) {
    |s| >= |suffix| && s[|s| - |suffix|..] == suffix
  }

  /** What the asymmetric pattern takes for a scalar: a number in front, or a boolean at the end. */
  predicate LooksScalar(s: string) {
    StartsLikeNumber(s) || EndsWith(s, "true") || EndsWith(s, "false")
  }

  predicate IsEmptyValue(v: Value) {
    v.Null? || v.text in {"''", "", "NULL", "null"}
  }

  /**
   An empty value of a not-null array or object column is coerced to its empty literal, and what looks
   like a scalar in an object column is quoted.
   */
  function Coerce(p: Property, v: Value): Value {
    if !p.kind.Scalar? && (!p.nullable || p.kind.Array?) && IsEmptyValue(v) then
      if p.kind.Array? then Lit("'[]'") else Lit("'{}'")
    else if p.kind.Object? && v.Lit? && LooksScalar(v.text) then Lit("'" + v.text + "'")
    else v
  }

  /**
   What coercion writes: an empty value of an array column, nullable or not, becomes an empty array, that of
   a not-null object column an empty object; scalars' values, and NULL in a nullable object column, stay.
   */
  lemma CoercedEmpty(p: Property, v: Value)
    requires v.Null? || v.text == "''" || v.text == "" || v.text == "NULL" || v.text == "null"
    ensures p.kind.Array? ==> Coerce(p, v) == Lit("'[]'")
    ensures p.kind.Object? && !p.nullable ==> Coerce(p, v) == Lit("'{}'")
    ensures p.kind.Scalar? || (p.kind.Object? && p.nullable && v.Null?) ==> Coerce(p, v) == v
  {
  }

  /** In an object column, what starts with a digit and the two booleans are quoted; what is quoted already stays, and so do scalar columns. */
  lemma CoercedScalar(p: Property, text: string)
    ensures p.kind.Object? && text != "" && '0' <= text[0] <= '9' ==> Coerce(p, Lit(text)) == Lit("'" + text + "'")
    ensures p.kind.Object? && |text| >= 2 && (text[0] == '-' || text[0] == '+' || text[0] == '.') && '0' <= text[1] <= '9' ==>
              Coerce(p, Lit(text)) == Lit("'" + text + "'")
    ensures p.kind.Object? && (text == "true" || text == "false") ==> Coerce(p, Lit(text)) == Lit("'" + text + "'")
    ensures p.kind.Scalar? || Quoted(text) ==> Coerce(p, Lit(text)) == Lit(text)
  {
    if Quoted(text) {
      QuotedStays(p, text);
    }
    if text == "true" || text == "false" {
      assert text[|text| - |text|..] == text && text !in {"''", "", "NULL", "null"};
      assert EndsWith(text, text);
    }
  }

  /** Coercing a coerced value changes nothing, and only a NULL without a literal default stays NULL. */
  lemma CoerceIsIdempotent(p: Property, v: Value)
    ensures Coerce(p, Coerce(p, v)) == Coerce(p, v)
    ensures Coerce(p, v).Null? <==> v.Null? && (p.kind.Scalar? || (p.kind.Object? && p.nullable))
  {
    if Coerce(p, v) != v {
      CoerceQuotes(p, v);
      QuotedStays(p, Coerce(p, v).text);
    }
  }

  predicate Quoted(s: string) {
    |s| >= 3 && s[0] == '\'' && s[|s| - 1] == '\''
  }

  /** A value that coercion changes becomes a quoted literal. */
  lemma CoerceQuotes(p: Property, v: Value)
    requires Coerce(p, v) != v
    ensures Coerce(p, v).Lit? && Quoted(Coerce(p, v).text)
  {
    if v.Lit? && LooksScalar(v.text) {
      assert v.text != "";
      assert Quoted("'" + v.text + "'");
    }
  }

  lemma QuotedStays(p: Property, s: string)
    requires Quoted(s)
    ensures Coerce(p, Lit(s)) == Lit(s)
  {
    NotScalar(s);
    assert s !in {"''", "", "NULL", "null"};
  }

  lemma NotScalar(s: string)
    requires |s| >= 2 && s[0] == '\'' && s[|s| - 1] == '\''
    ensures !LooksScalar(s)
  {
    forall w | w == "true" || w == "false"
      ensures !EndsWith(s, w)
    {
      if |s| >= |w| {
        assert s[|s| - |w|..][|w| - 1] == '\'' && w[|w| - 1] == 'e';
      }
    }
  }

  function IndexOf(c: Column, cs: seq<Column>): (i: nat)
    requires c in cs
    ensures i < |cs| && cs[i] == c
    ensures forall j :: 0 <= j < i ==> cs[j] != c
  {
    if cs[0] == c then 0 else 1 + IndexOf(c, cs[1..])
  }

  /** The columns of an appended row: a full snapshot, or a tombstone with only the key. */
  function AppendRow(s: Schema, e: Event): Row
    requires Buildable(s, e)
  {
    if e.IsDelete() then
      map c | c in s.Columns() :: if c in s.primaryKeys then e.key[IndexOf(c, s.primaryKeys)] else Null
    else
      map c | c in s.Columns() :: if c in e.snapshot then Coerce(s.PropertyOf(c), e.snapshot[c]) else Null
  }

  /** The columns of an upserted row; absent columns take the coerced default. */
  function UpsertRow(s: Schema, e: Event): Row {
    map c | c in s.Columns() :: Coerce(s.PropertyOf(c), if c in e.snapshot then e.snapshot[c] else Null)
  }

  function KeyOf(s: Schema, row: Row): PrimaryKey
    requires s.Columns() <= row.Keys
  {
    seq(|s.primaryKeys|, i requires 0 <= i < |s.primaryKeys| => row[s.primaryKeys[i]])
  }

  /** The key an event is filed under, in either mode. */
  function EventKey(s: Schema, e: Event): PrimaryKey
    requires Buildable(s, e)
  {
    KeyOf(s, AppendRow(s, e))
  }

  function ToSql(s: Schema, e: Event): Stmt
    requires Buildable(s, e)
  {
    if e.IsDelete() then Delete(s.table, e.key[..|s.primaryKeys|])
    else Replace(s.table, KeyOf(s, UpsertRow(s, e)), UpsertRow(s, e))
  }

  /** What an event leaves behind: nothing, or its snapshot. */
  function Outcome(s: Schema, e: Event): Option<Row>
    requires Buildable(s, e)
  {
    if e.IsDelete() then None else Some(AppendRow(s, e))
  }

  /** The table's columns in some order, each once. */
  ghost predicate ColumnList(s: Schema, cs: seq<Column>) {
    && (forall c :: c in cs <==> c in s.Columns())
    && forall i, j :: 0 <= i < j < |cs| ==> cs[i] != cs[j]
  }

  /** The row a statement's column list and value list describe together. */
  function Zip(cs: seq<Column>, vals: seq<Value>): Row
    requires |cs| == |vals|
  {
    map c | c in cs :: vals[IndexOf(c, cs)]
  }

  lemma ZipIs(s: Schema, cs: seq<Column>, vals: seq<Value>, row: Row)
    requires ColumnList(s, cs) && |vals| == |cs| && row.Keys == s.Columns()
    requires forall i :: 0 <= i < |cs| ==> vals[i] == row[cs[i]]
    ensures Zip(cs, vals) == row
  {
  }

  /** The value list of a REPLACE, built column by column. */
  method UpsertValues(s: Schema, cs: seq<Column>, e: Event) returns (vals: seq<Value>)
    requires ColumnList(s, cs)
    ensures |vals| == |cs| && Zip(cs, vals) == UpsertRow(s, e)
  {
    vals := [];
    for i := 0 to |cs|
      invariant |vals| == i
      invariant forall j :: 0 <= j < i ==> vals[j] == UpsertRow(s, e)[cs[j]]
    {
      var prop := s.PropertyOf(cs[i]);
      if cs[i] in e.snapshot {
        vals := vals + [Coerce(prop, e.snapshot[cs[i]])];
      } else {
        vals := vals + [Coerce(prop, Null)];
      }
    }
    ZipIs(s, cs, vals, UpsertRow(s, e));
  }

  /** The value list of an audit INSERT; a tombstone whose key is too short raises. */
  method AppendValues(s: Schema, cs: seq<Column>, e: Event) returns (r: Result<seq<Value>>)
    requires ColumnList(s, cs) && s.Valid()
    ensures r.Ok? <==> Buildable(s, e)
    ensures r.Ok? ==> |r.value| == |cs| && Zip(cs, r.value) == AppendRow(s, e)
  {
    if e.IsDelete() {
      r := TombstoneValues(s, cs, e);
    } else {
      var vals := SnapshotValues(s, cs, e);
      r := Ok(vals);
    }
    if r.Ok? {
      ZipIs(s, cs, r.value, AppendRow(s, e));
    }
  }

  method TombstoneValues(s: Schema, cs: seq<Column>, e: Event) returns (r: Result<seq<Value>>)
    requires ColumnList(s, cs) && s.Valid() && e.IsDelete()
    ensures r.Ok? <==> Buildable(s, e)
    ensures r.Ok? ==> |r.value| == |cs| && forall j :: 0 <= j < |cs| ==> r.value[j] == AppendRow(s, e)[cs[j]]
  {
    var vals: seq<Value> := [];
    for i := 0 to |cs|
      invariant |vals| == i
      invariant forall j :: 0 <= j < i && cs[j] in s.primaryKeys ==> IndexOf(cs[j], s.primaryKeys) < |e.key|
      invariant forall j :: 0 <= j < i ==>
                  vals[j] == if cs[j] in s.primaryKeys then e.key[IndexOf(cs[j], s.primaryKeys)] else Null
    {
      if cs[i] in s.primaryKeys {
        var at := IndexOf(cs[i], s.primaryKeys);
        if at >= |e.key| {
          return Err;
        }
        vals := vals + [e.key[at]];
      } else {
        vals := vals + [Null];
      }
    }
    LastKeyIsReached(s, cs, e);
    r := Ok(vals);
  }

  method SnapshotValues(s: Schema, cs: seq<Column>, e: Event) returns (vals: seq<Value>)
    requires ColumnList(s, cs) && !e.IsDelete()
    ensures |vals| == |cs| && forall j :: 0 <= j < |cs| ==> vals[j] == AppendRow(s, e)[cs[j]]
  {
    vals := [];
    for i := 0 to |cs|
      invariant |vals| == i
      invariant forall j :: 0 <= j < i ==> vals[j] == AppendRow(s, e)[cs[j]]
    {
      if cs[i] in e.snapshot {
        vals := vals + [Coerce(s.PropertyOf(cs[i]), e.snapshot[cs[i]])];
      } else {
        vals := vals + [Null];
      }
    }
  }

  /** Every primary key is among the columns, so a loop over them needs every key value. */
  lemma LastKeyIsReached(s: Schema, cs: seq<Column>, e: Event)
    requires ColumnList(s, cs) && s.Valid() && e.IsDelete()
    requires forall j :: 0 <= j < |cs| && cs[j] in s.primaryKeys ==> IndexOf(cs[j], s.primaryKeys) < |e.key|
    ensures Buildable(s, e)
  {
    if s.primaryKeys != [] {
      var last := s.primaryKeys[|s.primaryKeys| - 1];
      assert last in s.Columns() && last in cs;
      var j :| 0 <= j < |cs| && cs[j] == last;
      assert IndexOf(cs[j], s.primaryKeys) == |s.primaryKeys| - 1;
    }
  }

  /**
   What an audit row holds: a tombstone the key values in the order of the key columns and NULL elsewhere;
   a snapshot its coerced values, and NULL where it has none.
   */
  lemma AppendedColumns(s: Schema, e: Event, c: Column)
    requires s.Valid() && Buildable(s, e) && c in s.Columns()
    ensures e.op == "DELETE" && c !in s.primaryKeys ==> AppendRow(s, e)[c] == Null
    ensures e.op == "DELETE" ==> forall i :: 0 <= i < |s.primaryKeys| && s.primaryKeys[i] == c ==> AppendRow(s, e)[c] == e.key[i]
    ensures e.op != "DELETE" && c !in e.snapshot ==> AppendRow(s, e)[c] == Null
    ensures e.op != "DELETE" && c in e.snapshot ==> AppendRow(s, e)[c] == Coerce(s.PropertyOf(c), e.snapshot[c])
  {
  }

  /**
   The two builders agree on a snapshot exactly when every absent column is one whose upsert
   default is NULL; in particular when the snapshot carries every column.
   */
  lemma RowsAgreeIff(s: Schema, e: Event)
    requires !e.IsDelete()
    ensures UpsertRow(s, e) == AppendRow(s, e) <==>
            forall c :: c in s.Columns() && c !in e.snapshot ==> Coerce(s.PropertyOf(c), Null) == Null
  {
    var u, a := UpsertRow(s, e), AppendRow(s, e);
    assert u.Keys == s.Columns() && a.Keys == s.Columns();
    forall c | c in s.Columns() && c !in e.snapshot
      ensures u[c] == Coerce(s.PropertyOf(c), Null) && a[c] == Null
    {
    }
    if u == a {
      forall c | c in s.Columns() && c !in e.snapshot
        ensures Coerce(s.PropertyOf(c), Null) == Null
      {
        assert u[c] == a[c];
      }
    }
    if forall c :: c in s.Columns() && c !in e.snapshot ==> Coerce(s.PropertyOf(c), Null) == Null {
      assert forall c :: c in u ==> u[c] == a[c];
    }
  }

  // ---------- The history table and its order ----------

  datatype HistoryRow = HistoryRow(cols: Row, op: string, mvcc: Option<int>, timestamp: int, seqNo: nat)

  /** Appending events in arrival order; the identity column counts up. */
  ghost function History(s: Schema, es: seq<Event>): (h: seq<HistoryRow>)
    requires forall e :: e in es ==> Buildable(s, e)
    ensures |h| == |es|
    ensures forall i :: 0 <= i < |es| ==>
              h[i] == HistoryRow(AppendRow(s, es[i]), es[i].op, es[i].mvcc, es[i].timestamp, i + 1)
  {
    seq(|es|, i requires 0 <= i < |es| => HistoryRow(AppendRow(s, es[i]), es[i].op, es[i].mvcc, es[i].timestamp, i + 1))
  }

  /** A legal content of the history table: every column present, identity values distinct. */
  ghost predicate IsHistory(s: Schema, h: seq<HistoryRow>) {
    && (forall i :: 0 <= i < |h| ==> h[i].cols.Keys == s.Columns())
    && DistinctSeq(h)
  }

  ghost predicate DistinctSeq(h: seq<HistoryRow>) {
    forall i, j :: 0 <= i < j < |h| ==> h[i].seqNo != h[j].seqNo
  }

  /** Ascending order of the change stamp; NULL sorts first, as MySQL does. */
  predicate StampBefore(m: Option<int>, t: int, m': Option<int>, t': int) {
    if m == m' then t < t'
    else if m.None? then true
    else m'.Some? && m.value < m'.value
  }

  /** The ORDER BY of both views, read ascending. */
  predicate Before(a: HistoryRow, b: HistoryRow) {
    || StampBefore(a.mvcc, a.timestamp, b.mvcc, b.timestamp)
    || (a.mvcc == b.mvcc && a.timestamp == b.timestamp && a.seqNo < b.seqNo)
  }

  /** Row `i` belongs to the partition of key `k`. */
  ghost predicate InPartition(s: Schema, h: seq<HistoryRow>, k: PrimaryKey, i: int)
    requires IsHistory(s, h)
  {
    0 <= i < |h| && KeyOf(s, h[i].cols) == k
  }

  /** Row `i` is the last of a non-empty set of rows of the history. */
  ghost predicate IsLast(h: seq<HistoryRow>, rows: set<int>, i: int)
    requires forall j :: j in rows ==> 0 <= j < |h|
  {
    i in rows && forall j :: j in rows && j != i ==> Before(h[j], h[i])
  }

  lemma {:induction false} LastExists(h: seq<HistoryRow>, rows: set<int>) returns (i: int)
    requires DistinctSeq(h)
    requires forall j :: j in rows ==> 0 <= j < |h|
    requires rows != {}
    ensures IsLast(h, rows, i)
  {
    var first := AnyOf(rows);
    i := first;
    var rest := rows - {first};
    if rest == {} {
    } else {
      var last := LastExists(h, rest);
      if Before(h[first], h[last]) {
        i := last;
      }
    }
    forall j | j in rows && j != i
      ensures Before(h[j], h[i])
    {
      assert j == first || j in rest;
    }
  }

  ghost function LastRow(h: seq<HistoryRow>, rows: set<int>): (i: int)
    requires DistinctSeq(h)
    requires forall j :: j in rows ==> 0 <= j < |h|
    requires rows != {}
    ensures IsLast(h, rows, i)
  {
    SomeLast(h, rows);
    var i :| IsLast(h, rows, i);
    i
  }

  lemma SomeLast(h: seq<HistoryRow>, rows: set<int>)
    requires DistinctSeq(h)
    requires forall j :: j in rows ==> 0 <= j < |h|
    requires rows != {}
    ensures exists i :: IsLast(h, rows, i)
  {
    var i := LastExists(h, rows);
  }

  // ---------- The timeline view ----------

  ghost predicate IsNext(s: Schema, h: seq<HistoryRow>, k: PrimaryKey, i: int, j: int)
    requires IsHistory(s, h) && InPartition(s, h, k, i)
  {
    && InPartition(s, h, k, j) && Before(h[i], h[j])
    && forall x :: InPartition(s, h, k, x) && Before(h[i], h[x]) ==> x == j || Before(h[j], h[x])
  }

  /** LEAD(mvcc) OVER (PARTITION BY key ORDER BY mvcc, timestamp, seq): the next row's mvcc, NULL at the end. */
  ghost function ValidTo(s: Schema, h: seq<HistoryRow>, k: PrimaryKey, i: int): Option<int>
    requires IsHistory(s, h) && InPartition(s, h, k, i)
  {
    if j :| IsNext(s, h, k, i, j) then h[j].mvcc else None
  }

  /** The point-in-time query: T >= valid_from AND (valid_to IS NULL OR T < valid_to). */
  ghost predicate SelectedAt(s: Schema, h: seq<HistoryRow>, k: PrimaryKey, t: int, i: int)
    requires IsHistory(s, h)
  {
    && InPartition(s, h, k, i)
    && h[i].mvcc.Some? && t >= h[i].mvcc.value
    && (ValidTo(s, h, k, i).None? || t < ValidTo(s, h, k, i).value)
  }

  /** The rows of key `k` stamped at or before `t`. */
  ghost function Visible(s: Schema, h: seq<HistoryRow>, k: PrimaryKey, t: int): (rows: set<int>)
    requires IsHistory(s, h)
  {
    set i | 0 <= i < |h| && InPartition(s, h, k, i) && h[i].mvcc.Some? && h[i].mvcc.value <= t
  }

  lemma NextExists(s: Schema, h: seq<HistoryRow>, k: PrimaryKey, i: int, later: int) returns (j: int)
    requires IsHistory(s, h) && InPartition(s, h, k, i)
    requires InPartition(s, h, k, later) && Before(h[i], h[later])
    ensures IsNext(s, h, k, i, j)
    ensures j == later || Before(h[j], h[later])
  {
    var after := set x | 0 <= x < |h| && InPartition(s, h, k, x) && Before(h[i], h[x]);
    assert later in after;
    j := FirstAfter(h, after);
    assert IsNext(s, h, k, i, j);
  }

  lemma {:induction false} FirstAfter(h: seq<HistoryRow>, rows: set<int>) returns (j: int)
    requires rows != {}
    requires forall x :: x in rows ==> 0 <= x < |h|
    requires DistinctSeq(h)
    ensures j in rows && forall x :: x in rows ==> x == j || Before(h[j], h[x])
  {
    var any := AnyOf(rows);
    j := any;
    var rest := rows - {any};
    if rest == {} {
    } else {
      var first := FirstAfter(h, rest);
      if Before(h[first], h[any]) {
        j := first;
      }
    }
    forall x | x in rows && x != j
      ensures Before(h[j], h[x])
    {
      assert x == any || x in rest;
    }
  }

  /**
   Point-in-time selection, ties and NULL stamps included: a row is selected exactly when it is the
   last of the key's rows stamped at or before `t`.
   */
  lemma SelectedIsLastVisible(s: Schema, h: seq<HistoryRow>, k: PrimaryKey, t: int, i: int)
    requires IsHistory(s, h)
    ensures SelectedAt(s, h, k, t, i) <==> IsLast(h, Visible(s, h, k, t), i)
  {
    var rows := Visible(s, h, k, t);
    if SelectedAt(s, h, k, t, i) {
      forall x | x in rows && x != i
        ensures Before(h[x], h[i])
      {
        if Before(h[i], h[x]) {
          LeadBoundsLater(s, h, k, i, x);
        }
      }
    }
    if IsLast(h, rows, i) && ValidTo(s, h, k, i).Some? {
      var j :| IsNext(s, h, k, i, j) && ValidTo(s, h, k, i) == h[j].mvcc;
      assert j in rows ==> Before(h[j], h[i]);
    }
  }

  /** No later row of the partition is stamped before valid_to; a stamped row with a later row has one. */
  lemma LeadBoundsLater(s: Schema, h: seq<HistoryRow>, k: PrimaryKey, i: int, later: int)
    requires IsHistory(s, h) && InPartition(s, h, k, i) && h[i].mvcc.Some?
    requires InPartition(s, h, k, later) && Before(h[i], h[later])
    ensures ValidTo(s, h, k, i).Some? && h[later].mvcc.Some?
    ensures ValidTo(s, h, k, i).value <= h[later].mvcc.value
  {
    var j := NextExists(s, h, k, i, later);
    var j' :| IsNext(s, h, k, i, j') && ValidTo(s, h, k, i) == h[j'].mvcc;
  }

  /** Exactly one row when the key has a row stamped at or before `t`, and none otherwise. */
  lemma TimelineIsExact(s: Schema, h: seq<HistoryRow>, k: PrimaryKey, t: int)
    requires IsHistory(s, h)
    ensures Visible(s, h, k, t) == {} ==> forall i :: !SelectedAt(s, h, k, t, i)
    ensures Visible(s, h, k, t) != {} ==>
      exists i :: SelectedAt(s, h, k, t, i) && forall j :: SelectedAt(s, h, k, t, j) ==> j == i
  {
    var rows := Visible(s, h, k, t);
    forall i
      ensures SelectedAt(s, h, k, t, i) <==> IsLast(h, rows, i)
    {
      SelectedIsLastVisible(s, h, k, t, i);
    }
    if rows != {} {
      var i := LastExists(h, rows);
      assert SelectedAt(s, h, k, t, i);
      forall j | SelectedAt(s, h, k, t, j)
        ensures j == i
      {
        assert IsLast(h, rows, j);
      }
    }
  }

  // ---------- Replaying a history through the upsert statements ----------

  /** The upsert statement that stands for a history row. */
  ghost function RowStmt(s: Schema, r: HistoryRow): Stmt
    requires r.cols.Keys == s.Columns()
  {
    if r.op == "DELETE" then Delete(s.table, KeyOf(s, r.cols)) else Replace(s.table, KeyOf(s, r.cols), r.cols)
  }

  /** The database left by executing the given rows in view order, oldest first. */
  ghost function ReplayRows(s: Schema, h: seq<HistoryRow>, rows: set<int>): Database
    requires IsHistory(s, h)
    requires forall j :: j in rows ==> 0 <= j < |h|
  {
    if rows == {} then map[]
    else
      var last := LastRow(h, rows);
      Exec(ReplayRows(s, h, rows - {last}), RowStmt(s, h[last]))
  }

  ghost function Lookup(s: Schema, db: Database, k: PrimaryKey): Option<Row> {
    if (s.table, k) in db then Some(db[(s.table, k)]) else None
  }

  ghost function RowOutcome(r: HistoryRow): Option<Row> {
    if r.op == "DELETE" then None else Some(r.cols)
  }

  ghost predicate IsRow(h: seq<HistoryRow>, i: int) {
    0 <= i < |h|
  }

  ghost function AllRows(h: seq<HistoryRow>): set<int> {
    set i | 0 <= i < |h| && IsRow(h, i)
  }

  ghost function Partition(s: Schema, h: seq<HistoryRow>, k: PrimaryKey): set<int>
    requires IsHistory(s, h)
  {
    set i | 0 <= i < |h| && InPartition(s, h, k, i)
  }

  /** `v` is what the key's last row among `rows` says, or absent when it has none there. */
  ghost predicate Decides(s: Schema, h: seq<HistoryRow>, rows: set<int>, k: PrimaryKey, v: Option<Row>)
    requires IsHistory(s, h)
  {
    var mine := rows * Partition(s, h, k);
    && (mine == {} ==> v == None)
    && forall i :: IsLast(h, mine, i) ==> v == RowOutcome(h[i])
  }

  lemma NewerRowDecides(s: Schema, h: seq<HistoryRow>, rows: set<int>, k: PrimaryKey, last: int, v: Option<Row>)
    requires IsHistory(s, h)
    requires forall j :: j in rows ==> 0 <= j < |h|
    requires IsLast(h, rows, last)
    requires Decides(s, h, rows - {last}, k, v)
    ensures Decides(s, h, rows, k, if KeyOf(s, h[last].cols) == k then RowOutcome(h[last]) else v)
  {
    var part := Partition(s, h, k);
    if KeyOf(s, h[last].cols) == k {
      assert last in rows * part;
      forall i | IsLast(h, rows * part, i)
        ensures i == last
      {
        assert i in rows;
      }
    } else {
      assert (rows - {last}) * part == rows * part;
    }
  }

  lemma RowDecides(s: Schema, db: Database, r: HistoryRow, k: PrimaryKey)
    requires r.cols.Keys == s.Columns()
    ensures Lookup(s, Exec(db, RowStmt(s, r)), k) == if KeyOf(s, r.cols) == k then RowOutcome(r) else Lookup(s, db, k)
  {
  }

  /** A replay leaves, under each key, what the key's last row says. */
  lemma {:induction false} ReplayedKey(s: Schema, h: seq<HistoryRow>, rows: set<int>, k: PrimaryKey)
    requires IsHistory(s, h)
    requires forall j :: j in rows ==> 0 <= j < |h|
    ensures Decides(s, h, rows, k, Lookup(s, ReplayRows(s, h, rows), k))
  {
    if rows == {} {
    } else {
      var last := LastRow(h, rows);
      var before := ReplayRows(s, h, rows - {last});
      ReplayedKey(s, h, rows - {last}, k);
      RowDecides(s, before, h[last], k);
      NewerRowDecides(s, h, rows, k, last, Lookup(s, before, k));
    }
  }

  /** The object state the point-in-time query reports: absent when no row, or a tombstone, is selected. */
  ghost function TimelineState(s: Schema, h: seq<HistoryRow>, k: PrimaryKey, t: int): Option<Row>
    requires IsHistory(s, h)
  {
    if i :| SelectedAt(s, h, k, t, i) then RowOutcome(h[i]) else None
  }

  /** The rows of every key stamped at or before `t`. */
  ghost function StampedBy(h: seq<HistoryRow>, t: int): set<int> {
    set i | 0 <= i < |h| && h[i].mvcc.Some? && h[i].mvcc.value <= t
  }

  /** Time travel equals replay: for every key, the point-in-time query at `t` reports the state that
      upserting the whole history up to `t`, in change order, would have left. */
  lemma TimeTravelEqualsReplay(s: Schema, h: seq<HistoryRow>, k: PrimaryKey, t: int)
    requires IsHistory(s, h)
    ensures TimelineState(s, h, k, t) == Lookup(s, ReplayRows(s, h, StampedBy(h, t)), k)
  {
    var rows := StampedBy(h, t);
    var mine := Visible(s, h, k, t);
    assert rows * Partition(s, h, k) == mine;
    ReplayedKey(s, h, rows, k);
    TimelineIsExact(s, h, k, t);
    if mine != {} {
      var i :| SelectedAt(s, h, k, t, i);
      SelectedIsLastVisible(s, h, k, t, i);
    }
  }

  // ---------- The current view ----------

  /** ROW_NUMBER() OVER (PARTITION BY key ORDER BY mvcc DESC, timestamp DESC, seq DESC). */
  ghost function RowNumber(s: Schema, h: seq<HistoryRow>, k: PrimaryKey, i: int): nat
    requires IsHistory(s, h) && InPartition(s, h, k, i)
  {
    1 + |set j | 0 <= j < |h| && InPartition(s, h, k, j) && Before(h[i], h[j])|
  }

  ghost predicate InCurrentView(s: Schema, h: seq<HistoryRow>, k: PrimaryKey, i: int)
    requires IsHistory(s, h)
  {
    InPartition(s, h, k, i) && RowNumber(s, h, k, i) == 1 && h[i].op != "DELETE"
  }

  /** What the current view shows for a key. */
  ghost function CurrentState(s: Schema, h: seq<HistoryRow>, k: PrimaryKey): Option<Row>
    requires IsHistory(s, h)
  {
    if i :| InCurrentView(s, h, k, i) then Some(h[i].cols) else None
  }

  lemma RowNumberOneIsLast(s: Schema, h: seq<HistoryRow>, k: PrimaryKey, i: int)
    requires IsHistory(s, h) && InPartition(s, h, k, i)
    ensures RowNumber(s, h, k, i) == 1 <==> IsLast(h, Partition(s, h, k), i)
  {
    var later := set j | 0 <= j < |h| && InPartition(s, h, k, j) && Before(h[i], h[j]);
    if later == {} {
      forall j | j in Partition(s, h, k) && j != i
        ensures Before(h[j], h[i])
      {
        assert j !in later;
      }
    } else {
      var j := AnyOf(later);
      assert j in Partition(s, h, k) && j != i && !Before(h[j], h[i]);
      NotEmpty(later, j);
    }
  }

  lemma NotEmpty(rows: set<int>, j: int)
    requires j in rows
    ensures |rows| >= 1
  {
    assert rows == {j} + (rows - {j});
  }

  /** The current view shows, per key, the outcome of the key's last row. */
  lemma CurrentIsLastOutcome(s: Schema, h: seq<HistoryRow>, k: PrimaryKey)
    requires IsHistory(s, h)
    ensures Partition(s, h, k) == {} ==> CurrentState(s, h, k) == None
    ensures forall i :: IsLast(h, Partition(s, h, k), i) ==> CurrentState(s, h, k) == RowOutcome(h[i])
  {
    forall i | InPartition(s, h, k, i)
      ensures RowNumber(s, h, k, i) == 1 <==> IsLast(h, Partition(s, h, k), i)
    {
      RowNumberOneIsLast(s, h, k, i);
    }
    forall i | IsLast(h, Partition(s, h, k), i)
      ensures CurrentState(s, h, k) == RowOutcome(h[i])
    {
      if h[i].op != "DELETE" {
        assert InCurrentView(s, h, k, i);
      }
    }
  }

  /** The current view is the replay of the whole history in change order. */
  lemma CurrentEqualsReplay(s: Schema, h: seq<HistoryRow>, k: PrimaryKey)
    requires IsHistory(s, h)
    ensures CurrentState(s, h, k) == Lookup(s, ReplayRows(s, h, AllRows(h)), k)
  {
    var all := AllRows(h);
    var mine := Partition(s, h, k);
    assert all * mine == mine;
    ReplayedKey(s, h, all, k);
    CurrentIsLastOutcome(s, h, k);
    if mine != {} {
      var i := LastExists(h, mine);
    }
  }

  /**
   At a time past every stamp the timeline minus its deletes shows what the current view shows,
   exactly when the key is shown by neither or has at least one stamped row: the timeline never
   selects a row with a NULL stamp.
   */
  lemma CurrentIsTimelineAtTheEnd(s: Schema, h: seq<HistoryRow>, k: PrimaryKey, t: int)
    requires IsHistory(s, h)
    requires forall i :: 0 <= i < |h| && h[i].mvcc.Some? ==> h[i].mvcc.value <= t
    ensures TimelineState(s, h, k, t) == CurrentState(s, h, k) <==>
            CurrentState(s, h, k).None? || exists i :: InPartition(s, h, k, i) && h[i].mvcc.Some?
  {
    var mine := Partition(s, h, k);
    var stamped := Visible(s, h, k, t);
    CurrentIsLastOutcome(s, h, k);
    TimelineIsExact(s, h, k, t);
    if stamped != {} {
      var i := LastExists(h, mine);
      assert IsLast(h, stamped, i) by {
        var x := AnyOf(stamped);
        assert x in mine;
      }
      SelectedIsLastVisible(s, h, k, t, i);
      assert SelectedAt(s, h, k, t, i);
      assert i in stamped;
    } else {
      forall i | InPartition(s, h, k, i)
        ensures h[i].mvcc.None?
      {
        assert i !in stamped;
      }
    }
  }

  // ---------- Both views in plain comparisons ----------

  /** Row `b` is stamped no earlier than `a`: NULL first, then by change stamp, by timestamp and by arrival. */
  ghost predicate NoLater(a: HistoryRow, b: HistoryRow) {
    && (a.mvcc.Some? ==> b.mvcc.Some? && a.mvcc.value <= b.mvcc.value)
    && (a.mvcc == b.mvcc ==> a.timestamp <= b.timestamp)
    && (a.mvcc == b.mvcc && a.timestamp == b.timestamp ==> a.seqNo <= b.seqNo)
  }

  lemma LastIsMaximum(h: seq<HistoryRow>, rows: set<int>, i: int)
    requires DistinctSeq(h) && forall j :: j in rows ==> 0 <= j < |h|
    ensures IsLast(h, rows, i) <==> i in rows && forall j :: j in rows ==> NoLater(h[j], h[i])
  {
  }

  /** A row is in the current view exactly when it is no DELETE and no row of its key is later. */
  lemma CurrentIsMaximum(s: Schema, h: seq<HistoryRow>, k: PrimaryKey, i: int)
    requires IsHistory(s, h)
    ensures InCurrentView(s, h, k, i) <==>
            InPartition(s, h, k, i) && h[i].op != "DELETE" && forall j :: InPartition(s, h, k, j) ==> NoLater(h[j], h[i])
  {
    if InPartition(s, h, k, i) {
      RowNumberOneIsLast(s, h, k, i);
      LastIsMaximum(h, Partition(s, h, k), i);
      assert forall j :: InPartition(s, h, k, j) <==> j in Partition(s, h, k);
    }
  }

  /** A row is selected at `t` exactly when it is stamped at or before `t` and no such row of its key is later. */
  lemma SelectedIsMaximum(s: Schema, h: seq<HistoryRow>, k: PrimaryKey, t: int, i: int)
    requires IsHistory(s, h)
    ensures SelectedAt(s, h, k, t, i) <==>
            && InPartition(s, h, k, i) && h[i].mvcc.Some? && h[i].mvcc.value <= t
            && forall j :: InPartition(s, h, k, j) && h[j].mvcc.Some? && h[j].mvcc.value <= t ==> NoLater(h[j], h[i])
  {
    var rows := Visible(s, h, k, t);
    SelectedIsLastVisible(s, h, k, t, i);
    LastIsMaximum(h, rows, i);
    assert forall j :: InPartition(s, h, k, j) && h[j].mvcc.Some? && h[j].mvcc.value <= t <==> j in rows;
  }

  /** Of two rows of a key with the same change stamp, the one with the earlier timestamp is never shown or selected. */
  lemma EarlierTimestampIsHidden(s: Schema, h: seq<HistoryRow>, k: PrimaryKey, i: int, j: int)
    requires IsHistory(s, h) && InPartition(s, h, k, i) && InPartition(s, h, k, j)
    requires h[i].mvcc == h[j].mvcc && h[i].timestamp < h[j].timestamp
    ensures !InCurrentView(s, h, k, i) && forall t :: !SelectedAt(s, h, k, t, i)
  {
    CurrentIsMaximum(s, h, k, i);
    forall t: int
      ensures !SelectedAt(s, h, k, t, i)
    {
      SelectedIsMaximum(s, h, k, t, i);
    }
  }

  /** What each view reports of a key is its row's columns, a selected DELETE counting as absent. */
  lemma ViewsReportTheirRow(s: Schema, h: seq<HistoryRow>, k: PrimaryKey, t: int, i: int)
    requires IsHistory(s, h)
    ensures InCurrentView(s, h, k, i) ==> CurrentState(s, h, k) == Some(h[i].cols)
    ensures SelectedAt(s, h, k, t, i) ==> TimelineState(s, h, k, t) == if h[i].op == "DELETE" then None else Some(h[i].cols)
  {
    if InCurrentView(s, h, k, i) {
      CurrentIsLastOutcome(s, h, k);
      RowNumberOneIsLast(s, h, k, i);
    }
    if SelectedAt(s, h, k, t, i) {
      TimelineIsExact(s, h, k, t);
      var x :| SelectedAt(s, h, k, t, x) && TimelineState(s, h, k, t) == RowOutcome(h[x]);
      assert x == i;
    }
  }

  // ---------- The current view against the events ----------

  ghost predicate AllBuildable(s: Schema, es: seq<Event>) {
    forall e :: e in es ==> Buildable(s, e)
  }

  ghost predicate Newer(e: Event, f: Event) {
    StampBefore(f.mvcc, f.timestamp, e.mvcc, e.timestamp)
  }

  /** `e` is among the newest events of its key. */
  ghost predicate IsTop(s: Schema, es: seq<Event>, e: Event)
    requires AllBuildable(s, es)
  {
    e in es && forall f :: f in es && EventKey(s, f) == EventKey(s, e) ==> !Newer(f, e)
  }

  /** Equally new newest events of a key leave the same thing behind. */
  ghost predicate TopsAgree(s: Schema, es: seq<Event>)
    requires AllBuildable(s, es)
  {
    forall e, f :: IsTop(s, es, e) && IsTop(s, es, f) && EventKey(s, e) == EventKey(s, f) ==>
      Outcome(s, e) == Outcome(s, f)
  }

  ghost predicate SameEvents(es: seq<Event>, fs: seq<Event>) {
    forall e :: e in es <==> e in fs
  }

  /** The same view for every key. */
  ghost predicate SameCurrentView(s: Schema, es: seq<Event>, fs: seq<Event>)
    requires AllBuildable(s, es) && AllBuildable(s, fs)
  {
    forall k :: CurrentState(s, History(s, es), k) == CurrentState(s, History(s, fs), k)
  }

  /** The view shows the outcome of some newest event of the key, and nothing for an unknown key. */
  lemma CurrentIsSomeTop(s: Schema, es: seq<Event>, k: PrimaryKey)
    requires AllBuildable(s, es)
    ensures (forall e :: e in es ==> EventKey(s, e) != k) ==> CurrentState(s, History(s, es), k) == None
    ensures (exists e :: e in es && EventKey(s, e) == k) ==> exists e :: ShownTop(s, es, k, e)
  {
    var h := History(s, es);
    var mine := Partition(s, h, k);
    CurrentIsLastOutcome(s, h, k);
    if mine == {} {
      forall e | e in es
        ensures EventKey(s, e) != k
      {
        var i :| 0 <= i < |es| && es[i] == e;
        assert i !in mine;
      }
    } else {
      var i := LastExists(h, mine);
      LastIsTop(s, es, k, i);
    }
  }

  /** A newest event of a key whose outcome the view shows. */
  ghost predicate ShownTop(s: Schema, es: seq<Event>, k: PrimaryKey, e: Event)
    requires AllBuildable(s, es)
  {
    IsTop(s, es, e) && EventKey(s, e) == k && CurrentState(s, History(s, es), k) == Outcome(s, e)
  }

  lemma LastIsTop(s: Schema, es: seq<Event>, k: PrimaryKey, i: int)
    requires AllBuildable(s, es) && IsLast(History(s, es), Partition(s, History(s, es), k), i)
    ensures ShownTop(s, es, k, es[i])
  {
    CurrentIsLastOutcome(s, History(s, es), k);
    forall f | f in es && EventKey(s, f) == k
      ensures !Newer(f, es[i])
    {
      var j :| 0 <= j < |es| && es[j] == f;
      LastIsNotOlder(s, es, k, i, j);
    }
  }

  lemma LastIsNotOlder(s: Schema, es: seq<Event>, k: PrimaryKey, i: int, j: int)
    requires AllBuildable(s, es) && IsLast(History(s, es), Partition(s, History(s, es), k), i)
    requires 0 <= j < |es| && EventKey(s, es[j]) == k
    ensures !Newer(es[j], es[i])
  {
    assert j in Partition(s, History(s, es), k);
  }

  lemma TopsDependOnTheSet(s: Schema, es: seq<Event>, fs: seq<Event>)
    requires AllBuildable(s, es) && AllBuildable(s, fs) && SameEvents(es, fs)
    ensures forall e :: IsTop(s, es, e) <==> IsTop(s, fs, e)
  {
  }

  /** Where the newest events of each key agree, order of arrival and redelivery do not show. */
  lemma CurrentDependsOnTheSet(s: Schema, es: seq<Event>, fs: seq<Event>)
    requires AllBuildable(s, es) && AllBuildable(s, fs) && SameEvents(es, fs)
    requires TopsAgree(s, es)
    ensures SameCurrentView(s, es, fs)
  {
    TopsDependOnTheSet(s, es, fs);
    forall k: PrimaryKey
      ensures CurrentState(s, History(s, es), k) == CurrentState(s, History(s, fs), k)
    {
      CurrentIsSomeTop(s, es, k);
      CurrentIsSomeTop(s, fs, k);
    }
  }

  lemma NewestIsLastRow(s: Schema, es: seq<Event>, n: nat)
    requires AllBuildable(s, es) && n == |es| - 1
    requires forall i :: 0 <= i < n && EventKey(s, es[i]) == EventKey(s, es[n]) ==> !Newer(es[i], es[n])
    ensures var h := History(s, es); IsLast(h, Partition(s, h, EventKey(s, es[n])), n)
  {
    var h := History(s, es);
    var k := EventKey(s, es[n]);
    forall j | j in Partition(s, h, k) && j != n
      ensures Before(h[j], h[n])
    {
      assert EventKey(s, es[j]) == k;
    }
    assert InPartition(s, h, k, n);
  }

  /** An arriving event that no event of its key is newer than is what the view then shows. */
  lemma NewestArrivalShows(s: Schema, es: seq<Event>, e: Event)
    requires AllBuildable(s, es + [e])
    requires forall f :: f in es && EventKey(s, f) == EventKey(s, e) ==> !Newer(f, e)
    ensures CurrentState(s, History(s, es + [e]), EventKey(s, e)) == Outcome(s, e)
  {
    var all, n := es + [e], |es|;
    assert all[n] == e;
    forall i | 0 <= i < n && EventKey(s, all[i]) == EventKey(s, all[n])
      ensures !Newer(all[i], all[n])
    {
      assert all[i] == es[i] && es[i] in es;
    }
    NewestIsLastRow(s, all, n);
    CurrentIsLastOutcome(s, History(s, all), EventKey(s, e));
  }

  /** The view is the same for every order and repetition of these events. */
  ghost predicate ViewIsASetFunction(s: Schema, es: seq<Event>)
    requires AllBuildable(s, es)
  {
    forall fs, gs :: SameEvents(es, fs) && SameEvents(es, gs) && AllBuildable(s, fs) && AllBuildable(s, gs) ==>
      SameCurrentView(s, fs, gs)
  }

  lemma Redelivered(s: Schema, es: seq<Event>, e: Event)
    requires AllBuildable(s, es) && e in es
    ensures AllBuildable(s, es + [e]) && SameEvents(es, es + [e])
  {
  }

  lemma DifferenceRefutes(s: Schema, es: seq<Event>, fs: seq<Event>, gs: seq<Event>, k: PrimaryKey)
    requires AllBuildable(s, es) && AllBuildable(s, fs) && AllBuildable(s, gs)
    requires SameEvents(es, fs) && SameEvents(es, gs)
    requires CurrentState(s, History(s, fs), k) != CurrentState(s, History(s, gs), k)
    ensures !ViewIsASetFunction(s, es)
  {
    assert !SameCurrentView(s, fs, gs);
  }

  /** Two newest events that disagree: redelivering one or the other last shows in the view. */
  lemma DisagreementShows(s: Schema, es: seq<Event>, e: Event, f: Event)
    requires AllBuildable(s, es) && IsTop(s, es, e) && IsTop(s, es, f)
    requires EventKey(s, e) == EventKey(s, f) && Outcome(s, e) != Outcome(s, f)
    ensures !ViewIsASetFunction(s, es)
  {
    Redelivered(s, es, e);
    Redelivered(s, es, f);
    NewestArrivalShows(s, es, e);
    NewestArrivalShows(s, es, f);
    DifferenceRefutes(s, es, es + [e], es + [f], EventKey(s, e));
  }

  /**
   The current view depends only on the set of events, whatever their order and repetition, if and
   only if equally new newest events of each key agree.
   */
  lemma ViewIsASetFunctionIff(s: Schema, es: seq<Event>)
    requires AllBuildable(s, es)
    ensures ViewIsASetFunction(s, es) <==> TopsAgree(s, es)
  {
    if TopsAgree(s, es) {
      forall fs, gs | SameEvents(es, fs) && SameEvents(es, gs) && AllBuildable(s, fs) && AllBuildable(s, gs)
        ensures SameCurrentView(s, fs, gs)
      {
        TopsDependOnTheSet(s, es, fs);
        CurrentDependsOnTheSet(s, fs, gs);
      }
    } else {
      var e, f :| IsTop(s, es, e) && IsTop(s, es, f) && EventKey(s, e) == EventKey(s, f) && Outcome(s, e) != Outcome(s, f);
      DisagreementShows(s, es, e, f);
    }
  }

  /** Distinct stamps per key are enough. */
  lemma DistinctStampsAgree(s: Schema, es: seq<Event>)
    requires AllBuildable(s, es)
    requires forall e, f :: e in es && f in es && EventKey(s, e) == EventKey(s, f) && e != f ==> Newer(e, f) || Newer(f, e)
    ensures TopsAgree(s, es)
  {
    forall e, f | IsTop(s, es, e) && IsTop(s, es, f) && EventKey(s, e) == EventKey(s, f)
      ensures Outcome(s, e) == Outcome(s, f)
    {
      assert !Newer(e, f) && !Newer(f, e);
    }
  }

  // ---------- The current view against the upsert table ----------

  ghost function UpsertSql(s: Schema, es: seq<Event>): (ss: seq<Stmt>)
    requires AllBuildable(s, es)
    ensures |ss| == |es| && forall i :: 0 <= i < |es| ==> ss[i] == ToSql(s, es[i])
  {
    seq(|es|, i requires 0 <= i < |es| => ToSql(s, es[i]))
  }

  /** A snapshot whose absent columns default to NULL in upsert mode; see RowsAgreeIff. */
  ghost predicate Complete(s: Schema, e: Event) {
    forall c :: c in s.Columns() && c !in e.snapshot ==> Coerce(s.PropertyOf(c), Null) == Null
  }

  lemma UpsertStatement(s: Schema, e: Event)
    requires s.Valid() && Buildable(s, e) && (e.IsDelete() || Complete(s, e))
    ensures Target(ToSql(s, e)) == (s.table, EventKey(s, e))
    ensures Outcome(s, e) == if ToSql(s, e).Replace? then Some(ToSql(s, e).row) else None
  {
    if e.IsDelete() {
      var n := |s.primaryKeys|;
      forall i | 0 <= i < n
        ensures EventKey(s, e)[i] == e.key[i]
      {
        assert s.primaryKeys[i] in s.Columns();
      }
      assert EventKey(s, e) == e.key[..n];
    } else {
      RowsAgreeIff(s, e);
    }
  }

  /** A row of another key changes nothing in what the view shows for a key. */
  lemma OtherRowIsInvisible(s: Schema, h: seq<HistoryRow>, x: HistoryRow, k: PrimaryKey)
    requires IsHistory(s, h + [x]) && IsHistory(s, h) && x.cols.Keys == s.Columns() && KeyOf(s, x.cols) != k
    ensures CurrentState(s, h + [x], k) == CurrentState(s, h, k)
  {
    var h' := h + [x];
    var mine := Partition(s, h, k);
    assert Partition(s, h', k) == mine by {
      assert forall i :: InPartition(s, h', k, i) <==> InPartition(s, h, k, i);
    }
    CurrentIsLastOutcome(s, h, k);
    CurrentIsLastOutcome(s, h', k);
    if mine != {} {
      var i := LastRow(h, mine);
      assert IsLast(h', mine, i);
    }
  }

  /** An arriving event leaves the other keys of the view alone. */
  lemma OtherKeysKeepTheirState(s: Schema, es: seq<Event>, e: Event, k: PrimaryKey)
    requires AllBuildable(s, es + [e]) && AllBuildable(s, es) && EventKey(s, e) != k
    ensures CurrentState(s, History(s, es + [e]), k) == CurrentState(s, History(s, es), k)
  {
    var h, h', all := History(s, es), History(s, es + [e]), es + [e];
    var n := |es|;
    assert all[n] == e && forall i :: 0 <= i < n ==> all[i] == es[i];
    assert h' == h + [h'[n]];
    OtherRowIsInvisible(s, h, h'[n], k);
  }

  /** Upserting one more event decides its own key and leaves the others. */
  lemma UpsertStep(s: Schema, es: seq<Event>, e: Event, k: PrimaryKey)
    requires s.Valid() && AllBuildable(s, es) && AllBuildable(s, es + [e]) && (e.IsDelete() || Complete(s, e))
    ensures UpsertedState(s, es + [e], k) == if EventKey(s, e) == k then Outcome(s, e) else UpsertedState(s, es, k)
  {
    var ss := UpsertSql(s, es + [e]);
    assert ss[..|es|] == UpsertSql(s, es);
    assert ss[|es|] == ToSql(s, e);
    UpsertStatement(s, e);
  }

  /** What the upsert table holds for a key after the given events. */
  ghost function UpsertedState(s: Schema, es: seq<Event>, k: PrimaryKey): Option<Row>
    requires AllBuildable(s, es)
  {
    Lookup(s, ExecAll(map[], UpsertSql(s, es)), k)
  }

  /** Within each key, events arrive in the order of their stamps. */
  ghost predicate ArrivesInOrder(s: Schema, es: seq<Event>)
    requires AllBuildable(s, es)
  {
    forall i, j :: 0 <= i < j < |es| && EventKey(s, es[i]) == EventKey(s, es[j]) ==> !Newer(es[i], es[j])
  }

  /**
   With complete snapshots and an arrival order that never goes back in time for a key, the current
   view shows exactly the table that upsert mode would hold.
   */
  lemma {:induction false} CurrentEqualsUpsertTable(s: Schema, es: seq<Event>, k: PrimaryKey)
    requires s.Valid() && AllBuildable(s, es) && ArrivesInOrder(s, es)
    requires forall e :: e in es ==> e.IsDelete() || Complete(s, e)
    ensures CurrentState(s, History(s, es), k) == UpsertedState(s, es, k)
  {
    if |es| == 0 {
      assert Partition(s, History(s, es), k) == {};
      CurrentIsLastOutcome(s, History(s, es), k);
    } else {
      var n := |es| - 1;
      var front, e := es[..n], es[n];
      assert es == front + [e];
      UpsertStep(s, front, e, k);
      if EventKey(s, e) == k {
        NewestArrivalShows(s, front, e);
      } else {
        CurrentEqualsUpsertTable(s, front, k);
        OtherKeysKeepTheirState(s, front, e, k);
      }
    }
  }
}

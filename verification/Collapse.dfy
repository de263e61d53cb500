/**
 Record collapsing in front of Snowflake: a flush sorts the batch by change stamp, merges records of
 the same row, and runs one DELETE or timestamp-gated MERGE per remaining record. The rewrite must
 leave the tables that the unmerged statements would have left.
 */
module Collapse {
  import opened Wrappers

  // ---------- Records and the statements they become ----------

  type Column = string

  /** A column value; only dates are ever compared. */
  datatype Value = Null | Date(at: int) | Other(text: string)

  type Row = map<Column, Value>

  const UPDATED_DATE: Column := "updatedDate"

  /** A record of the batch: the merged object, and the object of the event it currently stands for. */
  datatype Rec = Rec(table: string, id: string, op: string, diff: Option<seq<Column>>, obj: Option<Row>, event: Row, mvcc: real) {
    function Obj(): Row {
      if obj.Some? then obj.value else map[]
    }

    function Source(): Value {
      if UPDATED_DATE in event then event[UPDATED_DATE] else Null
    }

    function Key(): (string, string) {
      (table, id)
    }
  }

  /** The columns of each table with the value an INSERT gives to an absent one. */
  type Model = map<string, Row>

  function Defaults(m: Model, table: string): Row {
    if table in m then m[table] else map[]
  }

  /** SQL `>`: unknown, hence not taken, as soon as a side is NULL or not a date. */
  predicate SqlGreater(a: Value, b: Value) {
    a.Date? && b.Date? && a.at > b.at
  }

  function Get(row: Row, c: Column): Value {
    if c in row then row[c] else Null
  }

  /** The part of an object that lands in the table. */
  function Written(m: Model, r: Rec): Row {
    map c | c in r.Obj() && c in Defaults(m, r.table) :: r.Obj()[c]
  }

  /** MERGE: insert a whole row when there is none; otherwise overwrite only if the source is newer. */
  function Merge(m: Model, row: Option<Row>, r: Rec): Option<Row> {
    if row.None? then Some(Defaults(m, r.table) + Written(m, r))
    else if SqlGreater(r.Source(), Get(row.value, UPDATED_DATE)) then Some(row.value + Written(m, r))
    else row
  }

  /** The statements of one record; an INSERT seen before is preceded by a DELETE. */
  function ExecRow(m: Model, seen: set<(string, string)>, row: Option<Row>, r: Rec): Option<Row> {
    var cleared := if r.op == "DELETE" || (r.op == "INSERT" && r.Key() in seen) then None else row;
    if r.op == "DELETE" then cleared else Merge(m, cleared, r)
  }

  type Tables = map<(string, string), Row>

  function At(db: Tables, k: (string, string)): Option<Row> {
    if k in db then Some(db[k]) else None
  }

  function Exec(m: Model, seen: set<(string, string)>, db: Tables, r: Rec): Tables {
    match ExecRow(m, seen, At(db, r.Key()), r)
    case None => db - {r.Key()}
    case Some(row) => db[r.Key() := row]
  }

  function ExecAll(m: Model, seen: set<(string, string)>, db: Tables, rs: seq<Rec>): Tables {
    if rs == [] then db else Exec(m, seen, ExecAll(m, seen, db, rs[..|rs| - 1]), rs[|rs| - 1])
  }

  /** The record's own value for a column, or else the given one. */
  function ValueOr(r: Rec, c: Column, otherwise: Value): Value {
    if r.obj.Some? && c in r.obj.value then r.obj.value[c] else otherwise
  }

  /**
   What one record does to its row: a DELETE removes it; an INSERT seen before starts over, and so does any
   record that finds no row, absent columns taking their defaults; otherwise the record's columns are
   overwritten if its event is dated strictly later than the row, and nothing happens if not.
   */
  lemma RecordActs(m: Model, seen: set<(string, string)>, db: Tables, r: Rec)
    requires r.table in m
    ensures var k, db' := (r.table, r.id), Exec(m, seen, db, r);
            var fresh_ := k !in db || (r.op == "INSERT" && k in seen);
            && (r.op == "DELETE" ==> k !in db')
            && (r.op != "DELETE" ==> k in db')
            && (r.op != "DELETE" && fresh_ ==>
                  db'[k].Keys == m[r.table].Keys && forall c :: c in db'[k] ==> db'[k][c] == ValueOr(r, c, m[r.table][c]))
            && (r.op != "DELETE" && !fresh_ ==>
                  var was, later := Get(db[k], "updatedDate"), Get(r.event, "updatedDate");
                  if was.Date? && later.Date? && was.at < later.at then
                    forall c :: c in m[r.table] && c in db[k] ==> c in db'[k] && db'[k][c] == ValueOr(r, c, db[k][c])
                  else db'[k] == db[k])
  {
  }

  // ---------- The rewrite ----------

  function UnionDiff(d: seq<Column>, e: seq<Column>): (u: seq<Column>)
    ensures forall c :: c in u <==> c in d || c in e
    ensures d <= u
  {
    if e == [] then d
    else
      var u := UnionDiff(d, e[..|e| - 1]);
      assert e == e[..|e| - 1] + [e[|e| - 1]];
      if e[|e| - 1] in u then u else u + [e[|e| - 1]]
  }

  function Diff(r: Rec): seq<Column> {
    if r.diff.Some? then r.diff.value else []
  }

  /** The earlier UPDATE after the later one was folded into it. */
  function Fold(p: Rec, r: Rec): Rec {
    p.(diff := Some(UnionDiff(Diff(p), Diff(r))), event := r.event, obj := Some(p.Obj() + r.Obj()))
  }

  function CollapseStep(c: seq<Rec>, r: Rec): seq<Rec> {
    if r.op == "DELETE" then [r]
    else if c != [] && r.op == "UPDATE" && c[|c| - 1].op == "UPDATE" then c[..|c| - 1] + [Fold(c[|c| - 1], r)]
    else c + [r]
  }

  /** What the records of one row become. */
  function CollapseGroup(g: seq<Rec>): seq<Rec> {
    if g == [] then [] else CollapseStep(CollapseGroup(g[..|g| - 1]), g[|g| - 1])
  }

  /** A DELETE only in front, and never two UPDATEs in a row. */
  ghost predicate Shape(c: seq<Rec>) {
    && (forall i :: 0 < i < |c| ==> c[i].op != "DELETE")
    && (forall i :: 0 < i < |c| ==> !(c[i - 1].op == "UPDATE" && c[i].op == "UPDATE"))
  }

  lemma ShapeStep(c: seq<Rec>, r: Rec)
    requires Shape(c)
    ensures var c' := CollapseStep(c, r); Shape(c') && c' != [] && c'[|c'| - 1].op == r.op
  {
    var c' := CollapseStep(c, r);
    forall i | 0 < i < |c'|
      ensures c'[i].op != "DELETE" && !(c'[i - 1].op == "UPDATE" && c'[i].op == "UPDATE")
    {
      assert i < |c| ==> c'[i].op == c[i].op;
      assert c'[i - 1].op == c[i - 1].op;
    }
  }

  /** Each row's output starts with its only DELETE, if any, and never has two UPDATEs in a row. */
  lemma {:induction false} CollapsedShape(g: seq<Rec>)
    ensures Shape(CollapseGroup(g))
    ensures g != [] ==> CollapseGroup(g) != [] && CollapseGroup(g)[|CollapseGroup(g)| - 1].op == g[|g| - 1].op
  {
    if g == [] {
    } else {
      CollapsedShape(g[..|g| - 1]);
      ShapeStep(CollapseGroup(g[..|g| - 1]), g[|g| - 1]);
    }
  }

  /** The records from `i` on are UPDATEs, and the one before them, if any, is not. */
  ghost predicate LastRun(g: seq<Rec>, i: int) {
    && 0 <= i < |g| && (forall j :: i <= j < |g| ==> g[j].op == "UPDATE")
    && (i > 0 ==> g[i - 1].op != "UPDATE")
  }

  ghost predicate InDiffs(g: seq<Rec>, i: int, c: Column) {
    exists j :: 0 <= j && i <= j < |g| && c in Diff(g[j])
  }

  /** The diff that merging leaves on a row's last UPDATE names exactly the columns that the run of UPDATEs it stands for names. */
  lemma {:induction false} MergedDiff(g: seq<Rec>, i: int, c: Column)
    requires LastRun(g, i)
    ensures var kept := CollapseGroup(g); kept != [] && (c in Diff(kept[|kept| - 1]) <==> InDiffs(g, i, c))
  {
    var n := |g| - 1;
    var front := g[..n];
    CollapsedShape(front);
    StepDiff(CollapseGroup(front), g[n], c);
    if i == n {
      assert i > 0 ==> front[n - 1] == g[n - 1];
      DiffsSplit(g, i, c);
      assert !InDiffs(front, i, c);
    } else {
      assert LastRun(front, i);
      MergedDiff(front, i, c);
      assert front[n - 1] == g[n - 1];
      DiffsSplit(g, i, c);
    }
  }

  lemma DiffsSplit(g: seq<Rec>, i: int, c: Column)
    requires g != [] && 0 <= i < |g|
    ensures InDiffs(g, i, c) <==> InDiffs(g[..|g| - 1], i, c) || c in Diff(g[|g| - 1])
  {
    var front := g[..|g| - 1];
    if j :| 0 <= j && i <= j < |front| && c in Diff(front[j]) {
      assert c in Diff(g[j]);
    }
    if j :| 0 <= j && i <= j < |g| && c in Diff(g[j]) {
      assert j < |g| - 1 ==> c in Diff(front[j]);
    }
  }

  lemma StepDiff(kept: seq<Rec>, r: Rec, c: Column)
    requires r.op == "UPDATE"
    ensures var kept' := CollapseStep(kept, r);
            && kept' != []
            && (c in Diff(kept'[|kept'| - 1]) <==>
                  c in Diff(r) || (kept != [] && kept[|kept| - 1].op == "UPDATE" && c in Diff(kept[|kept| - 1])))
  {
  }

  // ---------- When folding two UPDATEs keeps their meaning ----------

  /** A record whose object is its event's object, dated, for a table that has the date column. */
  predicate Dated(m: Model, r: Rec) {
    && r.obj == Some(r.event)
    && UPDATED_DATE in r.event && r.event[UPDATED_DATE].Date?
    && UPDATED_DATE in Defaults(m, r.table)
  }

  predicate Covers(m: Model, p: Rec, r: Rec) {
    Written(m, p).Keys <= Written(m, r).Keys
  }

  /** The later UPDATE is strictly newer and carries every column of the earlier one. */
  predicate Supersedes(m: Model, p: Rec, r: Rec) {
    Dated(m, p) && Dated(m, r) && p.event[UPDATED_DATE].at < r.event[UPDATED_DATE].at && Covers(m, p, r)
  }

  /** Folding keeps meaning: from every row, the folded MERGE does what the two MERGEs do. */
  ghost predicate FoldIsSound(m: Model, p: Rec, r: Rec) {
    forall row :: Merge(m, row, Fold(p, r)) == Merge(m, Merge(m, row, p), r)
  }

  lemma FoldedWrites(m: Model, p: Rec, r: Rec)
    requires p.table == r.table
    ensures Written(m, Fold(p, r)) == Written(m, p) + Written(m, r)
    ensures Covers(m, p, r) ==> Written(m, Fold(p, r)) == Written(m, r)
  {
  }

  /** A newer covering UPDATE makes the earlier one invisible, whatever row it met. */
  lemma SupersededIsAbsorbed(m: Model, p: Rec, r: Rec, row: Option<Row>)
    requires p.table == r.table && Supersedes(m, p, r)
    ensures Merge(m, Merge(m, row, p), r) == Merge(m, row, r)
  {
    var w, w' := Written(m, p), Written(m, r);
    assert w[UPDATED_DATE] == p.event[UPDATED_DATE] && w'[UPDATED_DATE] == r.event[UPDATED_DATE];
    assert forall base: Row :: base + w + w' == base + w';
  }

  lemma SupersedesIsSound(m: Model, p: Rec, r: Rec)
    requires p.table == r.table && Supersedes(m, p, r)
    ensures FoldIsSound(m, p, r)
  {
    FoldedWrites(m, p, r);
    forall row
      ensures Merge(m, row, Fold(p, r)) == Merge(m, Merge(m, row, p), r)
    {
      SupersededIsAbsorbed(m, p, r, row);
    }
  }

  /**
   For two dated UPDATEs of one row, folding is sound exactly when the later one supersedes the
   earlier, or has the same date and writes nothing the earlier one did not.
   */
  lemma FoldIsSoundIff(m: Model, p: Rec, r: Rec)
    requires p.table == r.table && Dated(m, p) && Dated(m, r)
    ensures FoldIsSound(m, p, r) <==>
            || Supersedes(m, p, r)
            || (p.Source() == r.Source() && Written(m, p) + Written(m, r) == Written(m, p))
  {
    FoldedWrites(m, p, r);
    var w, w' := Written(m, p), Written(m, r);
    var tp, tr := p.event[UPDATED_DATE].at, r.event[UPDATED_DATE].at;
    assert w[UPDATED_DATE] == Date(tp) && w'[UPDATED_DATE] == Date(tr);
    if Supersedes(m, p, r) {
      SupersedesIsSound(m, p, r);
    } else if tp == tr && w + w' == w {
      forall row: Option<Row>
        ensures Merge(m, row, Fold(p, r)) == Merge(m, Merge(m, row, p), r)
      {
      }
    } else if tp < tr {
      // The earlier UPDATE writes a column the later one lacks: a row dated in between tells them apart.
      var c :| c in w && c !in w';
      var row := Some(map[UPDATED_DATE := Date(tp), c := if w[c] == Null then Other("") else Null]);
      assert Merge(m, row, p) == row;
      assert Merge(m, row, Fold(p, r)).value[c] == w[c];
      assert !FoldIsSound(m, p, r);
    } else if tp > tr {
      // A row dated in between takes the earlier UPDATE but not the folded one.
      var row := Some(map[UPDATED_DATE := Date(tr)]);
      assert Merge(m, row, p).value[UPDATED_DATE] == Date(tp);
      assert Merge(m, row, Fold(p, r)) == row;
      assert !FoldIsSound(m, p, r);
    } else {
      // Equal dates: the second MERGE is refused, but its new values ride along in the folded one.
      var row := Some(map[UPDATED_DATE := Date(tp - 1)]);
      assert Merge(m, row, p) == Some(row.value + w);
      assert Merge(m, Some(row.value + w), r) == Some(row.value + w);
      assert Merge(m, row, Fold(p, r)) == Some(row.value + (w + w'));
      var c :| c in w + w' && (c !in w || (w + w')[c] != w[c]);
      assert row.value + (w + w') != row.value + w;
      assert !FoldIsSound(m, p, r);
    }
  }

  // ---------- One row's records ----------

  function RunRow(m: Model, seen: set<(string, string)>, row: Option<Row>, g: seq<Rec>): Option<Row> {
    if g == [] then row else ExecRow(m, seen, RunRow(m, seen, row, g[..|g| - 1]), g[|g| - 1])
  }

  ghost predicate OneRow(g: seq<Rec>, k: (string, string)) {
    forall i :: 0 <= i < |g| ==> g[i].Key() == k
  }

  /** Neighbouring UPDATEs of the row supersede each other; nothing is asked of INSERTs and DELETEs. */
  ghost predicate UpdatesSupersede(m: Model, g: seq<Rec>) {
    forall i :: 0 < i < |g| && g[i - 1].op == "UPDATE" && g[i].op == "UPDATE" ==> Supersedes(m, g[i - 1], g[i])
  }

  /** `p` makes the same statements as `q`. */
  ghost predicate StandsFor(m: Model, p: Rec, q: Rec) {
    p.Key() == q.Key() && p.op == q.op && p.event == q.event && Written(m, p) == Written(m, q)
  }

  lemma FoldStandsForLater(m: Model, p: Rec, q: Rec, r: Rec)
    requires StandsFor(m, p, q) && q.op == r.op && q.Key() == r.Key() && Supersedes(m, q, r)
    ensures StandsFor(m, Fold(p, r), r)
  {
    FoldedWrites(m, p, r);
  }

  lemma RunRowSnoc(m: Model, seen: set<(string, string)>, row: Option<Row>, c: seq<Rec>, r: Rec)
    ensures RunRow(m, seen, row, c + [r]) == ExecRow(m, seen, RunRow(m, seen, row, c), r)
  {
    assert (c + [r])[..|c|] == c;
  }

  /** The last record of what is kept stands for the last record given, `q`. */
  ghost predicate LastStandsFor(m: Model, c: seq<Rec>, q: Rec) {
    c != [] && StandsFor(m, c[|c| - 1], q)
  }

  /** A newer UPDATE folded into what is kept does what executing it after would do. */
  lemma FoldedStep(m: Model, seen: set<(string, string)>, row: Option<Row>, c: seq<Rec>, q: Rec, r: Rec)
    requires LastStandsFor(m, c, q) && q.op == "UPDATE" && r.op == "UPDATE" && q.Key() == r.Key() && Supersedes(m, q, r)
    ensures RunRow(m, seen, row, CollapseStep(c, r)) == ExecRow(m, seen, RunRow(m, seen, row, c), r)
    ensures LastStandsFor(m, CollapseStep(c, r), r)
  {
    var init, p := c[..|c| - 1], c[|c| - 1];
    var x := RunRow(m, seen, row, init);
    FoldStandsForLater(m, p, q, r);
    RunRowSnoc(m, seen, row, init, Fold(p, r));
    SupersededIsAbsorbed(m, q, r, x);
  }

  lemma CollapseStepMeaning(m: Model, seen: set<(string, string)>, row: Option<Row>, c: seq<Rec>, q: Rec, r: Rec)
    requires c != [] ==> LastStandsFor(m, c, q) && q.Key() == r.Key()
    requires c != [] && q.op == "UPDATE" && r.op == "UPDATE" ==> Supersedes(m, q, r)
    ensures RunRow(m, seen, row, CollapseStep(c, r)) == ExecRow(m, seen, RunRow(m, seen, row, c), r)
    ensures LastStandsFor(m, CollapseStep(c, r), r)
  {
    if r.op == "DELETE" {
      RunRowSnoc(m, seen, row, [], r);
      assert [] + [r] == [r];
    } else if c != [] && r.op == "UPDATE" && q.op == "UPDATE" {
      FoldedStep(m, seen, row, c, q, r);
    } else {
      RunRowSnoc(m, seen, row, c, r);
    }
  }

  /** Collapsing one row's records keeps their meaning, and the last record kept stands for the last one given. */
  lemma {:induction false} GroupKeepsMeaning(m: Model, seen: set<(string, string)>, row: Option<Row>, g: seq<Rec>, k: (string, string))
    requires OneRow(g, k) && UpdatesSupersede(m, g)
    ensures RunRow(m, seen, row, CollapseGroup(g)) == RunRow(m, seen, row, g)
    ensures g != [] ==> LastStandsFor(m, CollapseGroup(g), g[|g| - 1])
  {
    if g == [] {
    } else {
      var n := |g| - 1;
      var front, r := g[..n], g[n];
      GroupKeepsMeaning(m, seen, row, front, k);
      var q := if n > 0 then g[n - 1] else r;
      assert n > 0 ==> q == front[n - 1];
      assert n > 0 ==> g[n - 1].Key() == g[n].Key();
      CollapseStepMeaning(m, seen, row, CollapseGroup(front), q, r);
    }
  }

  // ---------- The whole batch ----------

  function OfRow(rs: seq<Rec>, k: (string, string)): seq<Rec> {
    if rs == [] then []
    else OfRow(rs[..|rs| - 1], k) + if rs[|rs| - 1].Key() == k then [rs[|rs| - 1]] else []
  }

  /** The grouping key: table and id run together. */
  function GroupKey(r: Rec): string {
    r.table + r.id
  }

  function Group(rs: seq<Rec>, gk: string): seq<Rec> {
    if rs == [] then []
    else Group(rs[..|rs| - 1], gk) + if GroupKey(rs[|rs| - 1]) == gk then [rs[|rs| - 1]] else []
  }

  /** The grouping keys in first-seen order. */
  function Order(rs: seq<Rec>): (order: seq<string>)
    ensures forall i, j :: 0 <= i < j < |order| ==> order[i] != order[j]
    ensures forall gk :: gk in order <==> exists r :: r in rs && GroupKey(r) == gk
  {
    if rs == [] then []
    else
      var front := Order(rs[..|rs| - 1]);
      var gk := GroupKey(rs[|rs| - 1]);
      assert rs == rs[..|rs| - 1] + [rs[|rs| - 1]];
      if gk in front then front else front + [gk]
  }

  function CollapseGroups(rs: seq<Rec>, order: seq<string>): seq<Rec> {
    if order == [] then []
    else CollapseGroups(rs, order[..|order| - 1]) + CollapseGroup(Group(rs, order[|order| - 1]))
  }

  /** The first record of a group. */
  ghost predicate IsFirst(rs: seq<Rec>, gk: string, i: int) {
    0 <= i < |rs| && GroupKey(rs[i]) == gk && forall j :: 0 <= j < i ==> GroupKey(rs[j]) != gk
  }

  /** Groups come out in the order in which their first records came in. */
  lemma {:induction false} GroupsInFirstSeenOrder(rs: seq<Rec>, a: int, b: int, i: int, j: int)
    requires 0 <= a < b < |Order(rs)| && IsFirst(rs, Order(rs)[a], i) && IsFirst(rs, Order(rs)[b], j)
    ensures i < j
  {
    var n := |rs| - 1;
    var front := rs[..n];
    assert forall x :: 0 <= x < n ==> front[x] == rs[x];
    assert rs == front + [rs[n]];
    if b < |Order(front)| {
      FirstBefore(rs, Order(rs)[a], i);
      FirstBefore(rs, Order(rs)[b], j);
      GroupsInFirstSeenOrder(front, a, b, i, j);
    } else {
      FirstBefore(rs, Order(rs)[a], i);
      assert GroupKey(rs[n]) == Order(rs)[b] && Order(rs)[b] !in Order(front);
      forall x | 0 <= x < n
        ensures GroupKey(rs[x]) != Order(rs)[b]
      {
        assert front[x] in front;
      }
    }
  }

  lemma FirstBefore(rs: seq<Rec>, gk: string, i: int)
    requires rs != [] && gk in Order(rs[..|rs| - 1]) && IsFirst(rs, gk, i)
    ensures i < |rs| - 1 && IsFirst(rs[..|rs| - 1], gk, i)
  {
    var front := rs[..|rs| - 1];
    var r :| r in front && GroupKey(r) == gk;
    var x :| 0 <= x < |front| && front[x] == r;
    assert rs[x] == front[x];
  }

  /** The batch after merging records of the same row. */
  function Combine(rs: seq<Rec>): seq<Rec> {
    CollapseGroups(rs, Order(rs))
  }

  ghost predicate Unambiguous(rs: seq<Rec>) {
    forall r, r' :: r in rs && r' in rs && GroupKey(r) == GroupKey(r') ==> r.Key() == r'.Key()
  }

  /** One record acts on its own row only. */
  lemma ExecAt(m: Model, seen: set<(string, string)>, db: Tables, r: Rec, k: (string, string))
    ensures At(Exec(m, seen, db, r), k) == if r.Key() == k then ExecRow(m, seen, At(db, k), r) else At(db, k)
  {
  }

  /** Statements for different rows do not meet: a batch acts on each row through that row's records. */
  lemma {:induction false} BatchActsByRow(m: Model, seen: set<(string, string)>, db: Tables, rs: seq<Rec>, k: (string, string))
    ensures At(ExecAll(m, seen, db, rs), k) == RunRow(m, seen, At(db, k), OfRow(rs, k))
  {
    if rs == [] {
    } else {
      var front, last := rs[..|rs| - 1], rs[|rs| - 1];
      BatchActsByRow(m, seen, db, front, k);
      ExecAt(m, seen, ExecAll(m, seen, db, front), last, k);
      if last.Key() == k {
        RunRowSnoc(m, seen, At(db, k), OfRow(front, k), last);
      } else {
        assert OfRow(front, k) + [] == OfRow(front, k);
      }
    }
  }

  lemma {:induction false} OfRowAppend(a: seq<Rec>, b: seq<Rec>, k: (string, string))
    ensures OfRow(a + b, k) == OfRow(a, k) + OfRow(b, k)
  {
    if b == [] {
      assert a + b == a;
    } else {
      assert (a + b)[..|a + b| - 1] == a + b[..|b| - 1];
      OfRowAppend(a, b[..|b| - 1], k);
    }
  }

  lemma {:induction false} OfRowIsOneRow(g: seq<Rec>, k: (string, string))
    ensures OneRow(OfRow(g, k), k)
  {
    if g == [] {
    } else {
      OfRowIsOneRow(g[..|g| - 1], k);
    }
  }

  lemma {:induction false} OfRowSame(g: seq<Rec>, k: (string, string))
    requires OneRow(g, k)
    ensures OfRow(g, k) == g
  {
    if g == [] {
    } else {
      OfRowSame(g[..|g| - 1], k);
      assert g == g[..|g| - 1] + [g[|g| - 1]];
    }
  }

  ghost predicate NoRow(g: seq<Rec>, k: (string, string)) {
    forall i :: 0 <= i < |g| ==> g[i].Key() != k
  }

  lemma {:induction false} OfRowNone(g: seq<Rec>, k: (string, string))
    requires NoRow(g, k)
    ensures OfRow(g, k) == []
  {
    if g == [] {
    } else {
      OfRowNone(g[..|g| - 1], k);
    }
  }

  lemma {:induction false} GroupMembers(rs: seq<Rec>, gk: string)
    ensures forall r :: r in Group(rs, gk) <==> r in rs && GroupKey(r) == gk
  {
    if rs == [] {
    } else {
      assert rs == rs[..|rs| - 1] + [rs[|rs| - 1]];
      GroupMembers(rs[..|rs| - 1], gk);
    }
  }

  lemma {:induction false} CollapseKeepsRows(g: seq<Rec>)
    ensures forall r :: r in CollapseGroup(g) ==> exists q :: q in g && q.Key() == r.Key()
  {
    if g == [] {
    } else {
      var front, last := g[..|g| - 1], g[|g| - 1];
      assert g == front + [last];
      CollapseKeepsRows(front);
      forall r | r in CollapseGroup(g)
        ensures exists q :: q in g && q.Key() == r.Key()
      {
        var c := CollapseGroup(front);
        if r == last {
          assert g[|g| - 1] in g;
        } else if r in c {
          var q :| q in front && q.Key() == r.Key();
          assert q in g;
        } else {
          assert r == Fold(c[|c| - 1], last) && c[|c| - 1] in c;
          var q :| q in front && q.Key() == r.Key();
          assert q in g;
        }
      }
    }
  }

  lemma {:induction false} GroupIsRow(rs: seq<Rec>, all: seq<Rec>, k: (string, string), rep: Rec)
    requires Unambiguous(all) && rep in all && rep.Key() == k
    requires forall r :: r in rs ==> r in all
    ensures Group(rs, GroupKey(rep)) == OfRow(rs, k)
  {
    if rs == [] {
    } else {
      GroupIsRow(rs[..|rs| - 1], all, k, rep);
      assert rs[|rs| - 1] in all;
    }
  }

  /** A collapsed group holds one row's records, all of them or, for another row, none. */
  lemma GroupOfRow(rs: seq<Rec>, gk: string, rep: Rec, k: (string, string))
    requires Unambiguous(rs) && rep in rs && GroupKey(rep) == gk
    ensures OfRow(CollapseGroup(Group(rs, gk)), k) == if rep.Key() == k then CollapseGroup(OfRow(rs, k)) else []
  {
    var g := CollapseGroup(Group(rs, gk));
    GroupMembers(rs, gk);
    CollapseKeepsRows(Group(rs, gk));
    forall i | 0 <= i < |g|
      ensures g[i].Key() == rep.Key()
    {
      assert g[i] in g;
    }
    if rep.Key() == k {
      OfRowSame(g, k);
      GroupIsRow(rs, rs, k, rep);
    } else {
      OfRowNone(g, k);
    }
  }

  /** Some record of the row has one of these grouping keys. */
  ghost predicate RowAmong(rs: seq<Rec>, order: seq<string>, k: (string, string)) {
    exists r :: r in rs && r.Key() == k && GroupKey(r) in order
  }

  /** Without ambiguity, a row's records after merging are the collapse of its records before. */
  lemma {:induction false} CombinedByRow(rs: seq<Rec>, order: seq<string>, k: (string, string))
    requires Unambiguous(rs)
    requires forall i, j :: 0 <= i < j < |order| ==> order[i] != order[j]
    requires forall gk :: gk in order ==> exists r :: r in rs && GroupKey(r) == gk
    ensures OfRow(CollapseGroups(rs, order), k) == if RowAmong(rs, order, k) then CollapseGroup(OfRow(rs, k)) else []
  {
    if order == [] {
    } else {
      var front, gk := order[..|order| - 1], order[|order| - 1];
      assert order == front + [gk];
      assert forall x :: x in front ==> x in order;
      CombinedByRow(rs, front, k);
      assert gk in order;
      GroupStepByRow(rs, front, gk, k);
      OfRowAppend(CollapseGroups(rs, front), CollapseGroup(Group(rs, gk)), k);
    }
  }

  /** One more group adds a row's collapse exactly if it is that row's group. */
  lemma GroupStepByRow(rs: seq<Rec>, front: seq<string>, gk: string, k: (string, string))
    requires Unambiguous(rs) && gk !in front && exists r :: r in rs && GroupKey(r) == gk
    ensures OfRow(CollapseGroup(Group(rs, gk)), k) == if RowAmong(rs, [gk], k) then CollapseGroup(OfRow(rs, k)) else []
    ensures RowAmong(rs, front + [gk], k) <==> RowAmong(rs, front, k) || RowAmong(rs, [gk], k)
    ensures !(RowAmong(rs, front, k) && RowAmong(rs, [gk], k))
  {
    var rep :| rep in rs && GroupKey(rep) == gk;
    GroupOfRow(rs, gk, rep, k);
  }

  /** The records left for a row are the collapse of that row's records. */
  lemma CombineByRow(rs: seq<Rec>, k: (string, string))
    requires Unambiguous(rs)
    ensures OfRow(Combine(rs), k) == CollapseGroup(OfRow(rs, k))
  {
    CombinedByRow(rs, Order(rs), k);
    if !RowAmong(rs, Order(rs), k) {
      forall i | 0 <= i < |rs|
        ensures rs[i].Key() != k
      {
        assert rs[i] in rs && GroupKey(rs[i]) in Order(rs);
      }
      OfRowNone(rs, k);
    }
  }

  /**
   Collapsing preserves meaning: from any tables, the merged batch leaves what the batch leaves, if
   grouping keys are unambiguous and neighbouring UPDATEs of each row supersede each other.
   */
  lemma CombineKeepsMeaning(m: Model, seen: set<(string, string)>, db: Tables, rs: seq<Rec>)
    requires Unambiguous(rs)
    requires forall k :: UpdatesSupersede(m, OfRow(rs, k))
    ensures ExecAll(m, seen, db, Combine(rs)) == ExecAll(m, seen, db, rs)
  {
    var d, e := ExecAll(m, seen, db, Combine(rs)), ExecAll(m, seen, db, rs);
    forall k: (string, string)
      ensures At(d, k) == At(e, k)
    {
      BatchActsByRow(m, seen, db, rs, k);
      BatchActsByRow(m, seen, db, Combine(rs), k);
      CombineByRow(rs, k);
      OfRowIsOneRow(rs, k);
      GroupKeepsMeaning(m, seen, At(db, k), OfRow(rs, k), k);
    }
    assert forall k :: k in d ==> At(d, k) == At(e, k);
    assert forall k :: k in e ==> At(d, k) == At(e, k);
    assert d.Keys == e.Keys;
  }

  lemma CombineOfTwo(a: Rec, b: Rec)
    requires GroupKey(a) == GroupKey(b) && b.op == "DELETE"
    ensures Combine([a, b]) == [b]
  {
    var rs, gk := [a, b], GroupKey(a);
    assert rs[..1] == [a] && [a][..0] == [];
    assert Order([a]) == [gk] && Order(rs) == [gk];
    assert Group([a], gk) == [a] && Group(rs, gk) == rs;
    assert [gk][..0] == [] && CollapseGroups(rs, []) == [];
    assert CollapseGroups(rs, [gk]) == [] + [b];
  }

  lemma ExecOfTwo(m: Model, seen: set<(string, string)>, db: Tables, a: Rec, b: Rec)
    ensures ExecAll(m, seen, db, [b]) == Exec(m, seen, db, b)
    ensures ExecAll(m, seen, db, [a, b]) == Exec(m, seen, Exec(m, seen, db, a), b)
  {
    assert [a, b][..1] == [a] && [a][..0] == [] && [b][..0] == [];
    assert ExecAll(m, seen, db, [a]) == Exec(m, seen, db, a);
  }

  lemma NoUpdatesSupersede(m: Model, a: Rec, b: Rec, k: (string, string))
    requires a.op != "UPDATE" && b.op != "UPDATE"
    ensures UpdatesSupersede(m, OfRow([a, b], k))
  {
    assert [a, b][..1] == [a] && [a][..0] == [];
    assert OfRow([a], k) == if a.Key() == k then [a] else [];
  }

  lemma DeleteElsewhereKeeps(m: Model, a: Rec, b: Rec)
    requires a.op == "INSERT" && b.op == "DELETE" && a.Key() != b.Key()
    ensures a.Key() in Exec(m, {}, Exec(m, {}, map[], a), b) && a.Key() !in Exec(m, {}, map[], b)
  {
  }

  /** A batch whose merge leaves other tables than the batch, though no two UPDATEs meet. */
  ghost predicate Misleads(m: Model, rs: seq<Rec>, db: Tables) {
    && (forall k :: UpdatesSupersede(m, OfRow(rs, k)))
    && ExecAll(m, {}, db, Combine(rs)) != ExecAll(m, {}, db, rs)
  }

  /** Every batch over these rows whose neighbouring UPDATEs supersede each other keeps its meaning when merged. */
  ghost predicate MergingIsSafe(m: Model, keys: iset<(string, string)>) {
    forall rs, seen, db :: Within(rs, keys) && (forall k :: UpdatesSupersede(m, OfRow(rs, k))) ==>
      ExecAll(m, seen, db, Combine(rs)) == ExecAll(m, seen, db, rs)
  }

  ghost predicate Within(rs: seq<Rec>, keys: iset<(string, string)>) {
    forall r :: r in rs ==> r.Key() in keys
  }

  /** Table and id run together tell the rows apart. */
  ghost predicate ToldApart(keys: iset<(string, string)>) {
    forall k, k' :: k in keys && k' in keys && k.0 + k.1 == k'.0 + k'.1 ==> k == k'
  }

  /**
   Merging is safe on a set of rows, whatever the batch, if and only if table and id run together tell
   these rows apart; otherwise the DELETE of one row makes the INSERT of another vanish.
   */
  lemma MergingIsSafeIff(m: Model, keys: iset<(string, string)>)
    ensures MergingIsSafe(m, keys) <==> ToldApart(keys)
  {
    if ToldApart(keys) {
      forall rs, seen, db | Within(rs, keys) && forall k :: UpdatesSupersede(m, OfRow(rs, k))
        ensures ExecAll(m, seen, db, Combine(rs)) == ExecAll(m, seen, db, rs)
      {
        assert Unambiguous(rs);
        CombineKeepsMeaning(m, seen, db, rs);
      }
    } else {
      var k, k' :| k in keys && k' in keys && k.0 + k.1 == k'.0 + k'.1 && k != k';
      var ins := Rec(k.0, k.1, "INSERT", None, Some(map[]), map[], 0.0);
      var del := Rec(k'.0, k'.1, "DELETE", None, None, map[], 0.0);
      TwoMislead(m, ins, del);
      assert Within([ins, del], keys);
    }
  }

  /** Two such rows: table "a" with id "b", and table "ab" with an empty id. */
  lemma AmbiguityLosesARow(m: Model)
    ensures !MergingIsSafe(m, iset{("a", "b"), ("ab", "")})
  {
    assert "a" + "b" == "ab" && "ab" + "" == "ab" && |"a"| != |"ab"|;
    var keys := iset{("a", "b"), ("ab", "")};
    assert ("a", "b") in keys && ("ab", "") in keys;
    MergingIsSafeIff(m, keys);
  }

  lemma TwoMislead(m: Model, ins: Rec, del: Rec)
    requires ins.op == "INSERT" && del.op == "DELETE" && GroupKey(ins) == GroupKey(del) && ins.Key() != del.Key()
    ensures Misleads(m, [ins, del], map[])
  {
    CombineOfTwo(ins, del);
    ExecOfTwo(m, {}, map[], ins, del);
    DeleteElsewhereKeeps(m, ins, del);
    forall k: (string, string)
      ensures UpdatesSupersede(m, OfRow([ins, del], k))
    {
      NoUpdatesSupersede(m, ins, del, k);
    }
  }

  // ---------- Sorting by change stamp ----------

  function InsertByStamp(rs: seq<Rec>, r: Rec): (s: seq<Rec>)
    ensures multiset(s) == multiset(rs) + multiset{r}
  {
    if rs == [] || rs[|rs| - 1].mvcc <= r.mvcc then rs + [r]
    else
      assert rs == rs[..|rs| - 1] + [rs[|rs| - 1]];
      InsertByStamp(rs[..|rs| - 1], r) + [rs[|rs| - 1]]
  }

  /** The stable ascending sort of the batch. */
  function SortByStamp(rs: seq<Rec>): (s: seq<Rec>)
    ensures multiset(s) == multiset(rs)
  {
    if rs == [] then []
    else
      assert rs == rs[..|rs| - 1] + [rs[|rs| - 1]];
      InsertByStamp(SortByStamp(rs[..|rs| - 1]), rs[|rs| - 1])
  }

  function AtStamp(rs: seq<Rec>, t: real): seq<Rec> {
    if rs == [] then [] else AtStamp(rs[..|rs| - 1], t) + if rs[|rs| - 1].mvcc == t then [rs[|rs| - 1]] else []
  }

  ghost predicate Ascending(rs: seq<Rec>) {
    forall i, j :: 0 <= i < j < |rs| ==> rs[i].mvcc <= rs[j].mvcc
  }

  lemma {:induction false} InsertedMembers(rs: seq<Rec>, r: Rec)
    ensures forall x :: x in InsertByStamp(rs, r) ==> x in rs || x == r
  {
    if rs == [] || rs[|rs| - 1].mvcc <= r.mvcc {
    } else {
      InsertedMembers(rs[..|rs| - 1], r);
    }
  }

  lemma {:induction false} InsertKeepsAscending(rs: seq<Rec>, r: Rec)
    requires Ascending(rs)
    ensures Ascending(InsertByStamp(rs, r))
  {
    if rs == [] || rs[|rs| - 1].mvcc <= r.mvcc {
    } else {
      var front, last := rs[..|rs| - 1], rs[|rs| - 1];
      InsertKeepsAscending(front, r);
      InsertedMembers(front, r);
      forall x | x in InsertByStamp(front, r)
        ensures x.mvcc <= last.mvcc
      {
        if x in front {
          var i :| 0 <= i < |front| && front[i] == x;
          assert rs[i] == x;
        }
      }
    }
  }

  lemma AtStampSnoc(rs: seq<Rec>, r: Rec, t: real)
    ensures AtStamp(rs + [r], t) == AtStamp(rs, t) + if r.mvcc == t then [r] else []
  {
    assert (rs + [r])[..|rs|] == rs;
  }

  lemma {:induction false} InsertKeepsTies(rs: seq<Rec>, r: Rec, t: real)
    ensures AtStamp(InsertByStamp(rs, r), t) == AtStamp(rs, t) + if r.mvcc == t then [r] else []
  {
    if rs == [] || rs[|rs| - 1].mvcc <= r.mvcc {
      AtStampSnoc(rs, r, t);
    } else {
      var front, last := rs[..|rs| - 1], rs[|rs| - 1];
      InsertKeepsTies(front, r, t);
      AtStampSnoc(InsertByStamp(front, r), last, t);
      TiesApart(AtStamp(front, t), r, last, t);
    }
  }

  lemma TiesApart(a: seq<Rec>, r: Rec, s: Rec, t: real)
    requires r.mvcc != s.mvcc
    ensures var x, y := if r.mvcc == t then [r] else [], if s.mvcc == t then [s] else []; a + x + y == a + y + x
  {
  }

  /** The sort is ascending, a permutation, and keeps the arrival order of equal stamps. */
  lemma {:induction false} SortIsStable(rs: seq<Rec>, t: real)
    ensures Ascending(SortByStamp(rs)) && multiset(SortByStamp(rs)) == multiset(rs)
    ensures AtStamp(SortByStamp(rs), t) == AtStamp(rs, t)
  {
    if rs == [] {
    } else {
      SortIsStable(rs[..|rs| - 1], t);
      InsertKeepsAscending(SortByStamp(rs[..|rs| - 1]), rs[|rs| - 1]);
      InsertKeepsTies(SortByStamp(rs[..|rs| - 1]), rs[|rs| - 1], t);
    }
  }

  /** The flush pipeline: sorting, merging and executing leaves what sorting and executing leaves. */
  lemma FlushKeepsMeaning(m: Model, seen: set<(string, string)>, db: Tables, batch: seq<Rec>)
    requires Unambiguous(batch)
    requires forall k :: UpdatesSupersede(m, OfRow(SortByStamp(batch), k))
    ensures ExecAll(m, seen, db, Combine(SortByStamp(batch))) == ExecAll(m, seen, db, SortByStamp(batch))
  {
    forall r | r in SortByStamp(batch)
      ensures r in batch
    {
      assert r in multiset(SortByStamp(batch));
    }
    CombineKeepsMeaning(m, seen, db, SortByStamp(batch));
  }

  // ---------- The rewrite in place ----------

  /** The mutable record the batcher creates, one object per event. */
  class Record {
    const table: string
    const id: string
    const op: string
    const mvcc: real
    var diff: Option<seq<Column>>
    var obj: Option<Row>
    var event: Row

    constructor (r: Rec)
      ensures Value() == r
    {
      table, id, op, mvcc, diff, obj, event := r.table, r.id, r.op, r.mvcc, r.diff, r.obj, r.event;
    }

    function Value(): Rec
      reads this
    {
      Rec(table, id, op, diff, obj, event, mvcc)
    }

    method FoldIn(r: Record)
      modifies this
      ensures Value() == Fold(old(Value()), old(r.Value()))
    {
      var pdiff := Union(if diff.Some? then diff.value else [], if r.diff.Some? then r.diff.value else []);
      var merged := (if obj.Some? then obj.value else map[]) + (if r.obj.Some? then r.obj.value else map[]);
      diff, event, obj := Some(pdiff), r.event, Some(merged);
    }
  }

  /** Append to a diff what it does not hold yet. */
  method Union(d: seq<Column>, e: seq<Column>) returns (u: seq<Column>)
    ensures u == UnionDiff(d, e)
  {
    u := d;
    for i := 0 to |e|
      invariant u == UnionDiff(d, e[..i])
    {
      assert e[..i + 1][..i] == e[..i];
      if e[i] !in u {
        u := u + [e[i]];
      }
    }
    assert e[..|e|] == e;
  }

  ghost function Values(rs: seq<Record>): (vs: seq<Rec>)
    reads rs
    ensures |vs| == |rs| && forall i :: 0 <= i < |rs| ==> vs[i] == rs[i].Value()
  {
    seq(|rs|, i requires 0 <= i < |rs| reads rs => rs[i].Value())
  }

  ghost predicate Distinct(rs: seq<Record>) {
    forall i, j :: 0 <= i < j < |rs| ==> rs[i] != rs[j]
  }

  /** One turn of the collapse loop; of the objects kept, only the last can change. */
  method Absorb(kept: seq<Record>, record: Record) returns (kept': seq<Record>)
    requires kept != [] && Distinct(kept) && record !in kept
    modifies kept[|kept| - 1]
    ensures Values(kept') == CollapseStep(old(Values(kept)), old(record.Value()))
    ensures kept' == kept || kept' == [record] || kept' == kept + [record]
  {
    var previous := kept[|kept| - 1];
    if record.op == "DELETE" {
      kept' := [record];
    } else if record.op == "UPDATE" && previous.op == "UPDATE" {
      previous.FoldIn(record);
      kept' := kept;
    } else {
      kept' := kept + [record];
    }
  }

  /** The records not reached yet, still as they were. */
  ghost predicate Untouched(rs: seq<Record>, was: seq<Rec>, n: nat)
    reads rs
    requires |was| == |rs|
  {
    forall j :: n <= j < |rs| ==> rs[j].Value() == was[j]
  }

  /** Everything kept comes from the first `n` records. */
  ghost predicate From(kept: seq<Record>, rs: seq<Record>, n: nat) {
    forall i :: 0 <= i < |kept| ==> exists j :: 0 <= j < n && j < |rs| && kept[i] == rs[j]
  }

  lemma FromStep(kept: seq<Record>, rs: seq<Record>, n: nat)
    requires Distinct(rs) && From(kept, rs, n) && n < |rs|
    ensures rs[n] !in kept && From(kept, rs, n + 1) && From(kept + [rs[n]], rs, n + 1) && From([rs[n]], rs, n + 1)
    ensures forall i :: 0 <= i < |kept| ==> kept[i] in rs
  {
  }

  /** What the collapse loop keeps after `n` records. */
  ghost predicate Collapsed(kept: seq<Record>, rs: seq<Record>, was: seq<Rec>, n: nat)
    reads rs, kept
    requires n <= |rs| == |was|
  {
    && kept != [] && Distinct(kept) && From(kept, rs, n)
    && Values(kept) == CollapseGroup(was[..n])
    && Untouched(rs, was, n)
  }

  method CollapseTurn(kept: seq<Record>, rs: seq<Record>, n: nat, ghost was: seq<Rec>) returns (kept': seq<Record>)
    requires Distinct(rs) && n < |rs| == |was| && Collapsed(kept, rs, was, n)
    modifies rs
    ensures Collapsed(kept', rs, was, n + 1)
  {
    FromStep(kept, rs, n);
    assert was[..n + 1][..n] == was[..n];
    assert kept[|kept| - 1] in rs;
    kept' := Absorb(kept, rs[n]);
    assert Distinct(kept');
  }

  /** The in-place collapse of one row's records computes CollapseGroup. */
  method CollapseInPlace(rs: seq<Record>) returns (collapsed: seq<Record>)
    requires rs != [] && Distinct(rs)
    modifies rs
    ensures Values(collapsed) == CollapseGroup(old(Values(rs)))
    ensures Distinct(collapsed) && From(collapsed, rs, |rs|)
  {
    ghost var was := Values(rs);
    collapsed := [rs[0]];
    assert was[..1] == [was[0]] && [was[0]][..0] == [];
    for n := 1 to |rs|
      invariant Collapsed(collapsed, rs, was, n)
    {
      collapsed := CollapseTurn(collapsed, rs, n, was);
    }
    assert was[..|rs|] == was;
  }

  /** The dictionary entry of a grouping key: its records among the first `n`, in order. */
  ghost predicate IsGroup(g: seq<Record>, rs: seq<Record>, n: nat, gk: string)
    reads rs
    requires n <= |rs|
  {
    && Distinct(g) && From(g, rs, n) && Keyed(g, [gk])
    && Shows(g, rs, Group(Values(rs[..n]), gk))
  }

  /** The objects, all of them from the batch, have the given values. */
  ghost predicate Shows(g: seq<Record>, rs: seq<Record>, vs: seq<Rec>)
    reads rs
  {
    |g| == |vs| && forall i :: 0 <= i < |g| ==> g[i] in rs && g[i].Value() == vs[i]
  }

  lemma GroupStep(g: seq<Record>, rs: seq<Record>, n: nat, gk: string)
    requires n < |rs| && Distinct(rs) && IsGroup(g, rs, n, gk)
    ensures IsGroup(if rs[n].table + rs[n].id == gk then g + [rs[n]] else g, rs, n + 1, gk)
  {
    var vs := Values(rs[..n + 1]);
    assert vs[..n] == Values(rs[..n]);
    FromStep(g, rs, n);
  }

  lemma OrderStep(rs: seq<Record>, n: nat)
    requires n < |rs|
    ensures var front, gk := Order(Values(rs[..n])), rs[n].table + rs[n].id;
            Order(Values(rs[..n + 1])) == if gk in front then front else front + [gk]
  {
    assert Values(rs[..n + 1])[..n] == Values(rs[..n]);
  }

  lemma EmptyOrHasMember(g: seq<Rec>)
    ensures g == [] || exists r :: r in g
  {
    if g != [] {
      assert g[0] in g;
    }
  }

  /** A grouping key not seen yet has an empty group. */
  lemma UnseenIsEmpty(rs: seq<Record>, n: nat, gk: string)
    requires n <= |rs| && gk !in Order(Values(rs[..n]))
    ensures IsGroup([], rs, n, gk)
  {
    var vs := Values(rs[..n]);
    GroupMembers(vs, gk);
    EmptyOrHasMember(Group(vs, gk));
  }

  /** Every dictionary entry is its key's group. */
  ghost predicate AllGroups(groups: map<string, seq<Record>>, rs: seq<Record>, n: nat)
    reads rs
    requires n <= |rs|
  {
    forall gk :: gk in groups ==> IsGroup(groups[gk], rs, n, gk)
  }

  lemma AllGroupsStep(groups: map<string, seq<Record>>, rs: seq<Record>, n: nat, k: string)
    requires n < |rs| && Distinct(rs) && AllGroups(groups, rs, n) && k in groups && k == rs[n].table + rs[n].id
    ensures AllGroups(groups[k := groups[k] + [rs[n]]], rs, n + 1)
  {
    var groups' := groups[k := groups[k] + [rs[n]]];
    forall gk | gk in groups'
      ensures IsGroup(groups'[gk], rs, n + 1, gk)
    {
      assert IsGroup(groups[gk], rs, n, gk);
      GroupStep(groups[gk], rs, n, gk);
    }
  }

  /** The dictionary and the key order after the first `n` records. */
  ghost predicate Grouped(groups: map<string, seq<Record>>, order: seq<string>, rs: seq<Record>, n: nat)
    reads rs
    requires n <= |rs|
  {
    && order == Order(Values(rs[..n]))
    && (forall gk :: gk in order <==> gk in groups)
    && AllGroups(groups, rs, n)
  }

  method AddToGroup(groups: map<string, seq<Record>>, order: seq<string>, rs: seq<Record>, n: nat)
      returns (groups': map<string, seq<Record>>, order': seq<string>)
    requires Distinct(rs) && n < |rs| && Grouped(groups, order, rs, n)
    ensures Grouped(groups', order', rs, n + 1)
  {
    var k := rs[n].table + rs[n].id;
    groups', order' := groups, order;
    OrderStep(rs, n);
    if k !in groups {
      UnseenIsEmpty(rs, n, k);
      groups' := groups'[k := []];
      order' := order' + [k];
    }
    assert AllGroups(groups', rs, n);
    AllGroupsStep(groups', rs, n, k);
    groups' := groups'[k := groups'[k] + [rs[n]]];
  }

  /** The first loop: records by grouping key, and the keys in first-seen order. */
  method GroupRecords(rs: seq<Record>) returns (groups: map<string, seq<Record>>, order: seq<string>)
    requires Distinct(rs)
    ensures Grouped(groups, order, rs, |rs|) && rs[..|rs|] == rs
  {
    groups, order := map[], [];
    assert Values(rs[..0]) == [];
    for n := 0 to |rs|
      invariant Grouped(groups, order, rs, n)
    {
      groups, order := AddToGroup(groups, order, rs, n);
    }
  }

  /** Everything here belongs to one of the given grouping keys. */
  ghost predicate Keyed(rs: seq<Record>, keys: seq<string>) {
    forall i :: 0 <= i < |rs| ==> rs[i].table + rs[i].id in keys
  }

  /** A group that is still as the first loop left it; `batch` is every object of the batch. */
  ghost predicate Waits(g: seq<Record>, batch: set<Record>, was: seq<Rec>, gk: string)
    reads batch
  {
    && (forall i :: 0 <= i < |g| ==> g[i] in batch)
    && Keyed(g, [gk]) && Distinct(g)
    && |g| == |Group(was, gk)| && forall i :: 0 <= i < |g| ==> g[i].Value() == Group(was, gk)[i]
  }

  ghost predicate Waiting(groups: map<string, seq<Record>>, batch: set<Record>, was: seq<Rec>, order: seq<string>, i: nat)
    reads batch
  {
    forall j :: i <= j < |order| ==> order[j] in groups && Waits(groups[order[j]], batch, was, order[j])
  }

  /** What is emitted: the collapse of the first `i` groups, under their keys only. */
  ghost predicate Emitted(result: seq<Record>, was: seq<Rec>, order: seq<string>, i: nat)
    requires i <= |order|
    reads result
  {
    Keyed(result, order[..i]) && Values(result) == CollapseGroups(was, order[..i])
  }

  ghost predicate NoneOf(a: seq<Record>, b: seq<Record>) {
    forall i :: 0 <= i < |a| ==> a[i] !in b
  }

  /** Records under different grouping keys are different objects. */
  lemma KeysKeepApart(a: seq<Record>, keys: seq<string>, b: seq<Record>, gk: string)
    requires Keyed(a, keys) && Keyed(b, [gk]) && gk !in keys
    ensures NoneOf(a, b)
  {
  }

  lemma GroupsKeepApart(groups: map<string, seq<Record>>, batch: set<Record>, was: seq<Rec>, order: seq<string>, i: nat, j: nat)
    requires i < j < |order| && order[i] != order[j] && Waiting(groups, batch, was, order, i)
    ensures NoneOf(groups[order[j]], groups[order[i]])
  {
    assert Waits(groups[order[i]], batch, was, order[i]) && Waits(groups[order[j]], batch, was, order[j]);
    KeysKeepApart(groups[order[j]], [order[j]], groups[order[i]], order[i]);
  }

  lemma WaitingIsGroup(groups: map<string, seq<Record>>, batch: set<Record>, was: seq<Rec>, order: seq<string>, i: nat)
    requires i < |order| && Waiting(groups, batch, was, order, i)
    ensures order[i] in groups
    ensures var g := groups[order[i]];
            && Distinct(g) && Keyed(g, [order[i]]) && Values(g) == Group(was, order[i])
            && forall r :: r in g ==> r in batch
  {
    assert Waits(groups[order[i]], batch, was, order[i]);
  }

  /** Collapsing one group changes no object of another grouping key. */
  method EmitGroup(result: seq<Record>, groups: map<string, seq<Record>>, ghost batch: set<Record>, order: seq<string>, i: nat, ghost was: seq<Rec>)
      returns (result': seq<Record>)
    requires i < |order| && forall x, y :: 0 <= x < y < |order| ==> order[x] != order[y]
    requires Waiting(groups, batch, was, order, i) && Group(was, order[i]) != []
    requires Emitted(result, was, order, i)
    modifies batch
    ensures Emitted(result', was, order, i + 1)
    ensures Waiting(groups, batch, was, order, i + 1)
  {
    WaitingIsGroup(groups, batch, was, order, i);
    var g := groups[order[i]];
    KeysKeepApart(result, order[..i], g, order[i]);
    forall j | i < j < |order|
      ensures NoneOf(groups[order[j]], g)
    {
      GroupsKeepApart(groups, batch, was, order, i, j);
    }
    var c := CollapseInPlace(g);
    forall j | i + 1 <= j < |order|
      ensures order[j] in groups && Waits(groups[order[j]], batch, was, order[j])
    {
      assert old(Waits(groups[order[j]], batch, was, order[j]));
      assert NoneOf(groups[order[j]], g);
    }
    assert Values(result) == old(Values(result));
    result' := result + c;
    EmittedStep(result, c, was, order, i);
  }

  lemma EmittedStep(result: seq<Record>, c: seq<Record>, was: seq<Rec>, order: seq<string>, i: nat)
    requires i < |order| && Keyed(c, [order[i]])
    requires Emitted(result, was, order, i) && Values(c) == CollapseGroup(Group(was, order[i]))
    ensures Emitted(result + c, was, order, i + 1)
  {
    assert order[..i + 1][..i] == order[..i];
    assert Values(result + c) == Values(result) + Values(c);
    KeyedAppend(result, order[..i], c, order[i]);
    assert order[..i] + [order[i]] == order[..i + 1];
  }

  lemma KeyedAppend(a: seq<Record>, keys: seq<string>, b: seq<Record>, gk: string)
    requires Keyed(a, keys) && Keyed(b, [gk])
    ensures Keyed(a + b, keys + [gk])
  {
  }

  lemma GroupedWaits(groups: map<string, seq<Record>>, order: seq<string>, rs: seq<Record>, batch: set<Record>)
    requires Grouped(groups, order, rs, |rs|) && rs[..|rs|] == rs && forall r :: r in rs ==> r in batch
    ensures Waiting(groups, batch, Values(rs), order, 0)
  {
    forall j | 0 <= j < |order|
      ensures order[j] in groups && Waits(groups[order[j]], batch, Values(rs), order[j])
    {
      var g := groups[order[j]];
      assert IsGroup(g, rs, |rs|, order[j]);
    }
  }

  /** The whole rewrite, in place on the batch's record objects, computes Combine. */
  method CombineInPlace(rs: seq<Record>) returns (result: seq<Record>)
    requires Distinct(rs)
    modifies rs
    ensures Values(result) == Combine(old(Values(rs)))
  {
    var groups, order := GroupRecords(rs);
    ghost var was := Values(rs);
    ghost var batch := set r | r in rs;
    GroupedWaits(groups, order, rs, batch);
    result := [];
    for i := 0 to |order|
      invariant Emitted(result, was, order, i)
      invariant Waiting(groups, batch, was, order, i)
    {
      GroupIsNotEmpty(was, order[i]);
      result := EmitGroup(result, groups, batch, order, i, was);
    }
    assert order[..|order|] == order;
  }

  lemma GroupIsNotEmpty(rs: seq<Rec>, gk: string)
    requires gk in Order(rs)
    ensures Group(rs, gk) != []
  {
    var r :| r in rs && GroupKey(r) == gk;
    GroupMembers(rs, gk);
    assert r in Group(rs, gk);
  }
}

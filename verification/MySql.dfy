/**
 The meaning of the statements the MySQL driver emits in upsert mode: a REPLACE of a whole row
 or a DELETE by primary key, over a database keyed by table and primary key.
 */
module MySql {
  import opened Wrappers

  /** A SQL literal as the quoting functions render it; NULL is the absent one. */
  datatype Value = Null | Lit(text: string)

  type Column = string
  type Row = map<Column, Value>
  type PrimaryKey = seq<Value>

  datatype Stmt =
    | Replace(table: string, pk: PrimaryKey, row: Row)
    | Delete(table: string, pk: PrimaryKey)

  type Database = map<(string, PrimaryKey), Row>

  function Target(s: Stmt): (string, PrimaryKey) {
    (s.table, s.pk)
  }

  function Exec(db: Database, s: Stmt): Database {
    match s
    case Replace(_, _, row) => db[Target(s) := row]
    case Delete(_, _) => db - {Target(s)}
  }

  function ExecAll(db: Database, ss: seq<Stmt>): Database {
    if ss == [] then db else Exec(ExecAll(db, ss[..|ss| - 1]), ss[|ss| - 1])
  }

  lemma {:induction false} ExecAllAppend(db: Database, ss: seq<Stmt>, tt: seq<Stmt>)
    ensures ExecAll(db, ss + tt) == ExecAll(ExecAll(db, ss), tt)
  {
    if tt == [] {
      assert ss + tt == ss;
    } else {
      assert (ss + tt)[..|ss + tt| - 1] == ss + tt[..|tt| - 1];
      ExecAllAppend(db, ss, tt[..|tt| - 1]);
    }
  }

  // ---------- Each row's last statement decides it ----------

  function At(db: Database, k: (string, PrimaryKey)): Option<Row> {
    if k in db then Some(db[k]) else None
  }

  /** What a statement leaves under its key. */
  function Effect(s: Stmt): Option<Row> {
    if s.Replace? then Some(s.row) else None
  }

  /** The last statement of a run that names a key. */
  function LastFor(ss: seq<Stmt>, k: (string, PrimaryKey)): Option<Stmt> {
    if ss == [] then None
    else if Target(ss[|ss| - 1]) == k then Some(ss[|ss| - 1])
    else LastFor(ss[..|ss| - 1], k)
  }

  /** A run leaves under each key what its last statement for the key says, or what was there. */
  lemma {:induction false} LastDecides(db: Database, ss: seq<Stmt>, k: (string, PrimaryKey))
    ensures At(ExecAll(db, ss), k) == if LastFor(ss, k).Some? then Effect(LastFor(ss, k).value) else At(db, k)
    ensures LastFor(ss, k).Some? && LastFor(ss, k).value.Delete? ==> k !in ExecAll(db, ss)
    ensures LastFor(ss, k).Some? && LastFor(ss, k).value.Replace? ==> k in ExecAll(db, ss) && ExecAll(db, ss)[k] == LastFor(ss, k).value.row
    ensures LastFor(ss, k).None? ==> (k in ExecAll(db, ss) <==> k in db) && (k in db ==> ExecAll(db, ss)[k] == db[k])
  {
    if ss == [] {
    } else {
      LastDecides(db, ss[..|ss| - 1], k);
    }
  }

  lemma {:induction false} LastForAppend(ss: seq<Stmt>, tt: seq<Stmt>, k: (string, PrimaryKey))
    ensures LastFor(ss + tt, k) == if LastFor(tt, k).Some? then LastFor(tt, k) else LastFor(ss, k)
  {
    if tt == [] {
      assert ss + tt == ss;
    } else {
      assert (ss + tt)[..|ss + tt| - 1] == ss + tt[..|tt| - 1];
      LastForAppend(ss, tt[..|tt| - 1], k);
    }
  }

  lemma SameRowsSameDatabase(d: Database, e: Database)
    requires forall k :: At(d, k) == At(e, k)
    ensures d == e
  {
    forall k | k in d || k in e
      ensures k in d && k in e && d[k] == e[k]
    {
      assert At(d, k) == At(e, k);
    }
  }

  /** Every key that one run names is named by another. */
  ghost predicate Covers(rest: seq<Stmt>, mid: seq<Stmt>) {
    forall k :: LastFor(mid, k).Some? ==> LastFor(rest, k).Some?
  }

  /**
   Redelivery is absorbed: what was executed past the first unacked message does not show once that
   message and all later ones are executed again, in whatever rendering.
   */
  lemma OverlapIsAbsorbed(db: Database, pre: seq<Stmt>, mid: seq<Stmt>, rest: seq<Stmt>)
    requires Covers(rest, mid)
    ensures ExecAll(ExecAll(db, pre + mid), rest) == ExecAll(db, pre + rest)
  {
    forall k: (string, PrimaryKey)
      ensures At(ExecAll(ExecAll(db, pre + mid), rest), k) == At(ExecAll(db, pre + rest), k)
    {
      LastDecides(ExecAll(db, pre + mid), rest, k);
      LastDecides(db, pre + mid, k);
      LastDecides(db, pre + rest, k);
      LastForAppend(pre, mid, k);
      LastForAppend(pre, rest, k);
    }
    SameRowsSameDatabase(ExecAll(ExecAll(db, pre + mid), rest), ExecAll(db, pre + rest));
  }

  /** Both runs end each key that the first one names in the same way. */
  ghost predicate EndAlike(ss: seq<Stmt>, tt: seq<Stmt>) {
    forall k :: LastFor(ss, k).Some? ==> LastFor(tt, k).Some? && Effect(LastFor(ss, k).value) == Effect(LastFor(tt, k).value)
  }

  /** Two runs that name the same keys leave the same database exactly when they end every key alike. */
  lemma SameOutcomeIff(db: Database, ss: seq<Stmt>, tt: seq<Stmt>)
    requires Covers(ss, tt) && Covers(tt, ss)
    ensures ExecAll(db, ss) == ExecAll(db, tt) <==> EndAlike(ss, tt)
  {
    forall k: (string, PrimaryKey)
      ensures At(ExecAll(db, ss), k) == At(ExecAll(db, tt), k) <==>
              (LastFor(ss, k).Some? ==> Effect(LastFor(ss, k).value) == Effect(LastFor(tt, k).value))
    {
      LastDecides(db, ss, k);
      LastDecides(db, tt, k);
    }
    if EndAlike(ss, tt) {
      SameRowsSameDatabase(ExecAll(db, ss), ExecAll(db, tt));
    }
  }

  /**
   Going back: executing a stretch and then only its beginning again leaves what the stretch left,
   from every database, exactly when each key ends in the beginning as it ends in the whole.
   */
  lemma RegressesIff(db: Database, ss: seq<Stmt>, again: nat)
    requires again <= |ss|
    ensures ExecAll(ExecAll(db, ss), ss[..again]) == ExecAll(db, ss) <==> EndAlike(ss[..again], ss)
  {
    assert ss == ss[..again] + ss[again..];
    var tt := ss + ss[..again];
    ExecAllAppend(db, ss, ss[..again]);
    forall k: (string, PrimaryKey)
      ensures LastFor(tt, k) == if LastFor(ss[..again], k).Some? then LastFor(ss[..again], k) else LastFor(ss, k)
      ensures LastFor(ss[..again], k).Some? ==> LastFor(ss, k).Some?
    {
      LastForAppend(ss, ss[..again], k);
      LastForAppend(ss[..again], ss[again..], k);
    }
    SameOutcomeIff(db, tt, ss);
    assert EndAlike(tt, ss) <==> EndAlike(ss[..again], ss);
  }
}

/**
 Schema migration bookkeeping over any number of process lifetimes: seeding the recorded versions, the
 startup reconcile, the per-event migration, and the buffered statements that must stay valid across
 them. Every database action, registry lookup and tracker write may fail.
 */
module Migration {
  import opened Wrappers

  type Table = string
  type Column = string
  type Version = string

  /** A change event as far as migration looks: its table and the model version it was written with. */
  datatype Event = Event(table: Table, modelVersion: Version)

  /** A buffered statement and the columns it names. */
  datatype Statement = Statement(table: Table, columns: set<Column>)

  /** The latest schema: each table once, with its version. */
  type Latest = seq<(Table, Version)>

  ghost predicate DistinctTables(latest: Latest) {
    forall i, j :: 0 <= i < j < |latest| ==> latest[i].0 != latest[j].0
  }

  ghost function Names(latest: Latest): set<Table> {
    set i | 0 <= i < |latest| :: latest[i].0
  }

  function ColumnSet(cs: seq<Column>): set<Column> {
    set c | c in cs
  }

  function NewColumns(cs: seq<Column>, have: set<Column>): (r: seq<Column>)
    ensures forall c :: c in r <==> c in cs && c !in have
    ensures |r| <= |cs|
  {
    if cs == [] then []
    else
      var r := NewColumns(cs[..|cs| - 1], have);
      assert cs == cs[..|cs| - 1] + [cs[|cs| - 1]];
      if cs[|cs| - 1] in have then r else r + [cs[|cs| - 1]]
  }

  /** Enough fallible actions for a reconcile over the latest tables, whatever the destination holds. */
  function ReconcileCost(schemaOf: (Table, Version) -> seq<Column>, latest: Latest): nat {
    if latest == [] then 0
    else
      var (t, v) := latest[|latest| - 1];
      ReconcileCost(schemaOf, latest[..|latest| - 1]) + 4 + |schemaOf(t, v)|
  }

  /** Enough for a whole start: two writes per table, the connection and the reconcile. */
  function StartCost(schemaOf: (Table, Version) -> seq<Column>, latest: Latest): nat {
    2 * |latest| + 1 + ReconcileCost(schemaOf, latest)
  }

  lemma {:induction false} CostSoFar(schemaOf: (Table, Version) -> seq<Column>, latest: Latest, n: nat)
    requires n <= |latest|
    ensures ReconcileCost(schemaOf, latest[..n]) <= ReconcileCost(schemaOf, latest)
    decreases |latest| - n
  {
    if n == |latest| {
      assert latest[..n] == latest;
    } else {
      assert latest[..n + 1][..n] == latest[..n];
      CostSoFar(schemaOf, latest, n + 1);
    }
  }

  lemma CostStep(schemaOf: (Table, Version) -> seq<Column>, latest: Latest, n: nat)
    requires n < |latest|
    ensures ReconcileCost(schemaOf, latest[..n]) + 4 + |schemaOf(latest[n].0, latest[n].1)| == ReconcileCost(schemaOf, latest[..n + 1])
    ensures ReconcileCost(schemaOf, latest[..n + 1]) <= ReconcileCost(schemaOf, latest)
  {
    assert latest[..n + 1][..n] == latest[..n];
    CostSoFar(schemaOf, latest, n + 1);
  }

  class Stream {
    const schemaOf: (Table, Version) -> seq<Column>  // the registry's schemas never change
    var columns: map<Table, set<Column>>             // the destination
    var recorded: map<Table, Version>                // the versions in the tracker
    var versions: map<Table, Version>                // what the registry answers, cache over tracker
    var dbschema: map<Table, set<Column>>            // the driver's copy of the destination
    var buffered: seq<Statement>
    ghost var ran: seq<Statement>                    // what the flushes executed
    var budget: nat                                  // fallible actions left before one fails
    ghost var drops: seq<Table>                      // tables dropped by the stream

    constructor (schemaOf: (Table, Version) -> seq<Column>)
      ensures this.schemaOf == schemaOf && columns == map[] && recorded == map[] && versions == map[]
      ensures dbschema == map[] && buffered == [] && ran == [] && drops == [] && budget == 0
    {
      this.schemaOf, this.columns, this.dbschema := schemaOf, map[], map[];
      this.recorded, this.versions, this.buffered, this.budget, this.drops, this.ran := map[], map[], [], 0, [], [];
    }

    /** The driver's copy of the destination schema is up to date. */
    ghost predicate Fresh()
      reads this
    {
      dbschema == columns
    }

    /** The table has all columns of the version. */
    ghost predicate Has(t: Table, v: Version)
      reads this
    {
      t in columns && ColumnSet(schemaOf(t, v)) <= columns[t]
    }

    /** The recorded tables that lack columns of their recorded version. */
    ghost function Lost(): set<Table>
      reads this
    {
      set t | t in recorded && !Has(t, recorded[t])
    }

    /** Every table with a version, except perhaps the given ones, has all columns of that version. */
    ghost predicate CoveredBut(vs: map<Table, Version>, lost: set<Table>)
      reads this
    {
      forall t :: t in vs && t !in lost ==> Has(t, vs[t])
    }

    /** Every buffered statement names a table with a version and, except for the given tables, only columns it has. */
    ghost predicate BufferedValid(lost: set<Table>)
      reads this
    {
      forall i :: 0 <= i < |buffered| ==>
        var s := buffered[i];
        s.table in versions && (s.table !in lost ==> s.table in columns && s.columns <= columns[s.table])
    }

    /** Holds between messages, `lost` being what was lost when the stream started. */
    ghost predicate Valid(lost: set<Table>)
      reads this
    {
      CoveredBut(versions, lost) && CoveredBut(recorded, lost) && recorded.Keys <= versions.Keys && BufferedValid(lost)
    }

    /** Nothing with a version is lost: no such table is dropped and none loses a column. */
    twostate predicate OnlyGrew()
      reads this
    {
      && (forall t :: t in old(recorded) ==> t in recorded)
      && (forall t :: t in old(versions) ==> t in versions)
      && (forall t :: t in old(versions) && t in old(columns) ==> t in columns && old(columns)[t] <= columns[t])
      && old(drops) <= drops
      && (forall i :: |old(drops)| <= i < |drops| ==> drops[i] !in old(versions))
    }

    method Attempt() returns (ok: bool)
      modifies this`budget
      ensures ok <==> old(budget) > 0
      ensures budget == if ok then old(budget) - 1 else 0
    {
      ok := budget > 0;
      if ok {
        budget := budget - 1;
      }
    }

    // ---------- The driver ----------

    /** Drop the table if the driver knows it, create it, refresh the driver's copy. */
    method MigrateNewTable(t: Table, schema: seq<Column>) returns (ok: bool)
      requires Fresh()
      modifies this`columns, this`dbschema, this`budget, this`drops
      ensures forall u :: u != t ==> (u in columns <==> u in old(columns)) && (u in columns ==> columns[u] == old(columns)[u])
      ensures drops == old(drops) || (drops == old(drops) + [t] && t in old(columns))
      ensures ok ==> Fresh() && columns == old(columns)[t := ColumnSet(schema)]
      ensures ok ==> (drops == old(drops) + [t] <==> t in old(columns))
      ensures old(budget) >= 3 ==> ok && budget >= old(budget) - 3
    {
      if t in dbschema {
        ok := Attempt();
        if !ok {
          return;
        }
        columns := columns - {t};
        drops := drops + [t];
      }
      ok := Attempt();
      if !ok {
        return;
      }
      columns := columns[t := ColumnSet(schema)];
      ok := Attempt();
      if ok {
        dbschema := columns;
      }
    }

    /** One ALTER per column the driver does not see yet; it fails on a missing table, and breaking in between leaves the earlier ones. */
    method MigrateNewColumns(t: Table, cols: seq<Column>) returns (ok: bool)
      requires Fresh()
      modifies this`columns, this`dbschema, this`budget
      ensures t !in old(columns) ==> columns == old(columns)
      ensures t in old(columns) ==>
                && t in columns && old(columns)[t] <= columns[t] <= old(columns)[t] + ColumnSet(cols)
                && columns == old(columns)[t := columns[t]]
      ensures ok ==> Fresh() && (t in columns ==> columns[t] == old(columns)[t] + ColumnSet(cols)) && (t !in columns ==> cols == [])
      ensures t in old(columns) && old(budget) > |cols| ==> ok && budget >= old(budget) - |cols| - 1
    {
      var have := if t in dbschema then dbschema[t] else {};
      for i := 0 to |cols|
        invariant t !in old(columns) ==> columns == old(columns) && i == 0
        invariant t in old(columns) ==> t in columns && columns[t] == old(columns)[t] + ColumnSet(cols[..i])
        invariant t in old(columns) ==> columns == old(columns)[t := columns[t]]
        invariant have == if t in old(columns) then old(columns)[t] else {}
        invariant budget >= old(budget) - i
      {
        assert cols[..i + 1] == cols[..i] + [cols[i]];
        if cols[i] !in have {
          ok := Attempt();
          if !ok || t !in columns {
            return false;
          }
          columns := columns[t := columns[t] + {cols[i]}];
        }
      }
      assert cols[..|cols|] == cols;
      ok := Attempt();
      if ok {
        dbschema := columns;
      }
    }

    /** Record a version: what the registry answers changes first, and then the tracker, if its write goes through. */
    method SetTableVersion(t: Table, v: Version) returns (ok: bool)
      modifies this`versions, this`recorded, this`budget
      ensures versions == old(versions)[t := v]
      ensures recorded == if ok then old(recorded)[t := v] else old(recorded)
    {
      versions := versions[t := v];
      ok := Attempt();
      if ok {
        recorded := recorded[t := v];
      }
    }

    // ---------- One message ----------

    /** An event of a table without a version: recreate the table, then record the version. */
    method RecordNewTable(t: Table, mv: Version, ghost lost: set<Table>) returns (ok: bool)
      requires Valid(lost) && Fresh() && t !in versions
      modifies this`columns, this`dbschema, this`budget, this`drops, this`versions, this`recorded
      ensures Valid(lost) && OnlyGrew()
      ensures ok ==> Fresh() && versions == old(versions)[t := mv]
    {
      ok := MigrateNewTable(t, schemaOf(t, mv));
      assert Valid(lost);
      if ok {
        ok := SetTableVersion(t, mv);
      }
    }

    /** An event of a table with a version that brings columns: add them, then record the version. */
    method RecordNewColumns(t: Table, mv: Version, added: seq<Column>, ghost lost: set<Table>) returns (ok: bool)
      requires Valid(lost) && Fresh() && t in versions && added != []
      requires ColumnSet(schemaOf(t, mv)) <= ColumnSet(schemaOf(t, versions[t])) + ColumnSet(added)
      modifies this`columns, this`dbschema, this`budget, this`versions, this`recorded
      ensures Valid(lost) && OnlyGrew()
      ensures ok ==> Fresh() && versions == old(versions)[t := mv]
    {
      assert t !in lost ==> Has(t, versions[t]);
      ok := MigrateNewColumns(t, added);
      assert Valid(lost);
      if ok {
        assert t !in lost ==> Has(t, mv);
        ok := SetTableVersion(t, mv);
      }
    }

    /**
     The per-event migration. It forces a flush exactly when it recorded a version. A version that
     differs but adds no column is deliberately not recorded.
     */
    method HandlePossibleMigration(e: Event, ghost lost: set<Table>) returns (force: Result<bool>)
      requires Valid(lost) && Fresh()
      modifies this`columns, this`dbschema, this`budget, this`drops, this`versions, this`recorded
      ensures Valid(lost) && OnlyGrew()
      ensures force.Ok? ==> Fresh() && e.table in versions
      ensures force == Ok(false) ==> versions == old(versions) && columns == old(columns)
      ensures force == Ok(true) ==> versions == old(versions)[e.table := e.modelVersion]
      ensures force.Ok? && e.table !in old(versions) ==> force.value
      ensures e.table in old(versions) && old(versions)[e.table] == e.modelVersion ==> force == Ok(false) && budget == old(budget)
      ensures force.Ok? && e.table in old(versions) && old(versions)[e.table] != e.modelVersion ==>
                (force.value <==> exists c :: c in schemaOf(e.table, e.modelVersion) && c !in schemaOf(e.table, old(versions)[e.table]))
      ensures force.Ok? && e.table !in lost ==> Has(e.table, e.modelVersion)
    {
      var t, mv := e.table, e.modelVersion;
      if t in versions && versions[t] == mv {
        return Ok(false);
      }
      var ok := Attempt();
      if !ok {
        return Err;
      }
      if t !in versions {
        ok := RecordNewTable(t, mv, lost);
        return if ok then Ok(true) else Err;
      }
      ok := Attempt();
      if !ok {
        return Err;
      }
      var added := NewColumns(schemaOf(t, mv), ColumnSet(schemaOf(t, versions[t])));
      if added == [] {
        NothingNew(schemaOf(t, mv), schemaOf(t, versions[t]), added);
        return Ok(false);
      }
      assert added[0] in added;
      ok := RecordNewColumns(t, mv, added, lost);
      return if ok then Ok(true) else Err;
    }

    /** Buffer the statement built from the version's schema. */
    method Process(e: Event, ghost lost: set<Table>) returns (ok: bool)
      requires Valid(lost) && e.table in versions
      modifies this`buffered, this`budget
      ensures Valid(lost)
      ensures buffered == if ok then old(buffered) + [Statement(e.table, ColumnSet(schemaOf(e.table, versions[e.table])))] else old(buffered)
      ensures ok <==> old(budget) > 0
    {
      ok := Attempt();
      if ok {
        assert e.table !in lost ==> Has(e.table, versions[e.table]);
        buffered := buffered + [Statement(e.table, ColumnSet(schemaOf(e.table, versions[e.table])))];
      }
    }

    /** Run the buffer: every statement, except for lost tables, is valid against the destination at this moment. */
    method Flush(ghost lost: set<Table>) returns (ok: bool, executed: seq<Statement>)
      requires Valid(lost)
      modifies this`buffered, this`budget, this`ran
      ensures Valid(lost)
      ensures ran == old(ran) + executed
      ensures executed == if ok then old(buffered) else []
      ensures forall i :: 0 <= i < |executed| && executed[i].table !in lost ==>
                executed[i].table in columns && executed[i].columns <= columns[executed[i].table]
      ensures buffered == if ok then [] else old(buffered)
    {
      ok := Attempt();
      executed := [];
      if ok {
        executed, buffered := buffered, [];
      }
      ran := ran + executed;
    }

    /** The statements of this stream so far, executed or still buffered. */
    ghost function Handled(): seq<Statement>
      reads this
    {
      ran + buffered
    }

    /** One message: migrate, buffer, and flush when forced or when the batch says so. */
    method HandleEvent(e: Event, batchFull: bool, ghost lost: set<Table>) returns (ok: bool)
      requires Valid(lost) && Fresh()
      modifies this
      ensures Valid(lost) && OnlyGrew()
      ensures ok ==> Fresh() && e.table in versions && (e.table !in lost ==> Has(e.table, e.modelVersion))
      ensures ok ==> Handled() == old(Handled()) + [Statement(e.table, ColumnSet(schemaOf(e.table, versions[e.table])))]
      ensures old(Handled()) <= Handled() && |Handled()| <= |old(Handled())| + 1
      ensures |Handled()| == |old(Handled())| + 1 ==> Handled()[|old(Handled())|].table == e.table
      ensures ok && (batchFull || versions != old(versions)) ==> buffered == []
    {
      var force := HandlePossibleMigration(e, lost);
      if force.Err? {
        return false;
      }
      ok := Process(e, lost);
      if ok && (force.value || batchFull) {
        var flushed, _ := Flush(lost);
        ok := flushed;
      }
    }

    /** A whole stream of events, older and newer model versions in any order, up to the first failure. */
    method RunStream(events: seq<Event>, batchFull: nat -> bool, ghost lost: set<Table>) returns (ok: bool)
      requires Valid(lost) && Fresh()
      modifies this
      ensures Valid(lost) && OnlyGrew() && Lost() <= lost
      ensures ok ==> forall i :: 0 <= i < |events| && events[i].table !in lost ==> Has(events[i].table, events[i].modelVersion)
      ensures old(Handled()) <= Handled() && InOrder(Handled()[|old(Handled())|..], events)
      ensures ok ==> |Handled()| == |old(Handled())| + |events|
    {
      for i := 0 to |events|
        invariant Valid(lost) && Fresh() && OnlyGrew()
        invariant forall j :: 0 <= j < i ==> events[j].table in versions && (events[j].table !in lost ==> Has(events[j].table, events[j].modelVersion))
        invariant old(Handled()) <= Handled() && |Handled()| == |old(Handled())| + i
        invariant InOrder(Handled()[|old(Handled())|..], events)
      {
        ok := HandleEvent(events[i], batchFull(i), lost);
        if !ok {
          return;
        }
      }
      ok := true;
    }

    // ---------- Starting up ----------

    /** The registry's constructor: the latest schema and version of each table go to the tracker, one write after the other. */
    method Seed(latest: Latest) returns (ok: bool)
      requires DistinctTables(latest)
      modifies this`recorded, this`budget
      ensures forall t :: t !in Names(latest) ==> (t in recorded <==> t in old(recorded)) && (t in recorded ==> recorded[t] == old(recorded)[t])
      ensures old(recorded).Keys <= recorded.Keys
      ensures ok ==> forall i :: 0 <= i < |latest| ==> latest[i].0 in recorded && recorded[latest[i].0] == latest[i].1
      ensures ok <==> old(budget) >= 2 * |latest|
      ensures ok ==> budget == old(budget) - 2 * |latest|
      ensures old(budget) == 0 ==> recorded == old(recorded)
    {
      for n := 0 to |latest|
        invariant forall t :: t !in Names(latest) ==> (t in recorded <==> t in old(recorded)) && (t in recorded ==> recorded[t] == old(recorded)[t])
        invariant old(recorded).Keys <= recorded.Keys
        invariant forall i :: 0 <= i < n ==> latest[i].0 in recorded && recorded[latest[i].0] == latest[i].1
        invariant old(budget) >= 2 * n && budget == old(budget) - 2 * n
        invariant n == 0 ==> recorded == old(recorded)
      {
        ok := Attempt();
        if !ok {
          return;
        }
        ok := Attempt();
        if !ok {
          return;
        }
        recorded := recorded[latest[n].0 := latest[n].1];
      }
      ok := true;
    }

    /** Bring one table up to its latest version, judging by the snapshot taken when the reconcile started. */
    method ReconcileTable(t: Table, v: Version, snapshot: map<Table, set<Column>>) returns (ok: bool)
      requires Fresh()
      requires t in columns <==> t in snapshot
      requires t in columns ==> columns[t] == snapshot[t]
      modifies this`columns, this`dbschema, this`budget, this`drops
      ensures drops == old(drops)
      ensures forall u :: u != t ==> (u in columns <==> u in old(columns)) && (u in columns ==> columns[u] == old(columns)[u])
      ensures t in old(columns) ==> t in columns && old(columns)[t] <= columns[t]
      ensures ok ==> Fresh() && Has(t, v)
      ensures old(budget) >= 3 + |schemaOf(t, v)| ==> ok && budget >= old(budget) - 3 - |schemaOf(t, v)|
    {
      if t !in snapshot {
        ok := MigrateNewTable(t, schemaOf(t, v));
      } else {
        var added := NewColumns(schemaOf(t, v), snapshot[t]);
        if added == [] {
          return true;
        }
        ok := MigrateNewColumns(t, added);
      }
    }

    /** Tables that are not among the latest from position `n` on to `m` are as they were. */
    ghost predicate OthersAs(was: map<Table, set<Column>>, latest: Latest, n: nat)
      requires n <= |latest|
      reads this
    {
      && (forall t :: t !in Names(latest[..n]) ==> (t in columns <==> t in was) && (t in columns ==> columns[t] == was[t]))
      && (forall t :: t in was ==> t in columns && was[t] <= columns[t])
    }

    /** The first `n` latest tables have a version and are up to date. */
    ghost predicate Reconciled(latest: Latest, n: nat)
      requires n <= |latest|
      reads this
    {
      forall i :: 0 <= i < n ==> latest[i].0 in versions && Has(latest[i].0, latest[i].1)
    }

    /** One turn of the startup reconcile. */
    method ReconcileNext(latest: Latest, n: nat, dest: map<Table, set<Column>>) returns (ok: bool)
      requires Fresh() && DistinctTables(latest) && n < |latest| && OthersAs(dest, latest, n) && Reconciled(latest, n)
      modifies this`columns, this`dbschema, this`budget, this`drops
      ensures drops == old(drops) && OthersAs(dest, latest, n + 1)
      ensures ok ==> Fresh() && Reconciled(latest, n + 1)
      ensures old(budget) == 0 ==> !ok && columns == old(columns)
      ensures var cost := 4 + |schemaOf(latest[n].0, latest[n].1)|;
              latest[n].0 in versions && old(budget) >= cost ==> ok && budget >= old(budget) - cost
    {
      var (t, v) := latest[n];
      NotYet(latest, n);
      ok := Attempt();
      if !ok || t !in versions {
        return false;
      }
      ok := ReconcileTable(t, v, dest);
    }

    /** The startup reconcile over the latest tables; every one that has a recorded version is brought up to date. */
    method UpdateDestinationSchema(latest: Latest) returns (ok: bool)
      requires Fresh() && DistinctTables(latest)
      modifies this`columns, this`dbschema, this`budget, this`drops
      ensures drops == old(drops) && OthersAs(old(columns), latest, |latest|)
      ensures ok ==> Fresh() && Reconciled(latest, |latest|)
      ensures latest != [] && old(budget) == 0 ==> !ok && columns == old(columns)
      ensures latest == [] ==> ok && columns == old(columns) && budget == old(budget)
      ensures (forall i :: 0 <= i < |latest| ==> latest[i].0 in versions) && old(budget) >= ReconcileCost(schemaOf, latest) ==> ok
    {
      var dest := dbschema;
      ok := true;
      ghost var enough := (forall i :: 0 <= i < |latest| ==> latest[i].0 in versions) && budget >= ReconcileCost(schemaOf, latest);
      for n := 0 to |latest|
        invariant ok && Fresh() && drops == old(drops) && OthersAs(dest, latest, n) && Reconciled(latest, n)
        invariant n == 0 ==> columns == old(columns) && budget == old(budget)
        invariant old(budget) == 0 ==> n == 0
        invariant enough ==> budget >= old(budget) - ReconcileCost(schemaOf, latest[..n])
      {
        CostStep(schemaOf, latest, n);
        ok := ReconcileNext(latest, n, dest);
        AllNames(latest, n);
        if !ok {
          return;
        }
      }
    }

    /**
     A process starts: seed, connect, reconcile. When that succeeds, exactly the tables that were lost
     before and that the latest schema does not have are lost; when it fails, only latest tables can be
     newly lost.
     */
    method StartUp(latest: Latest) returns (ok: bool)
      requires DistinctTables(latest)
      modifies this
      ensures ok ==> Fresh() && versions == recorded && buffered == []
      ensures ok ==> forall t :: t in Lost() <==> t in old(Lost()) && t !in Names(latest)
      ensures Lost() <= old(Lost()) + Names(latest)
      ensures drops == old(drops) && old(recorded).Keys <= recorded.Keys
      ensures forall t :: t in old(columns) ==> t in columns && old(columns)[t] <= columns[t]
      ensures latest != [] && old(budget) == 2 * |latest| + 1 ==>
                !ok && columns == old(columns) && forall i :: 0 <= i < |latest| ==> latest[i].0 in recorded && recorded[latest[i].0] == latest[i].1
      ensures latest == [] && old(budget) > 0 ==> ok && columns == old(columns) && recorded == old(recorded) && budget == old(budget) - 1
      ensures old(budget) == 0 ==> !ok && columns == old(columns) && recorded == old(recorded)
      ensures old(budget) >= StartCost(schemaOf, latest) ==> ok
    {
      ok := Seed(latest);
      if ok {
        ok := Attempt();
      }
      if !ok {
        return;
      }
      dbschema, versions, buffered := columns, recorded, [];
      ok := UpdateDestinationSchema(latest);
      assert latest[..|latest|] == latest;
      forall t | t !in Names(latest) && t in recorded
        ensures Has(t, recorded[t]) <==> old(Has(t, recorded[t]))
      {
      }
    }
  }

  /** The statements are those of the first events, one each, in order. */
  ghost predicate InOrder(ss: seq<Statement>, events: seq<Event>) {
    |ss| <= |events| && forall i :: 0 <= i < |ss| ==> ss[i].table == events[i].table
  }

  lemma NothingNew(schema: seq<Column>, was: seq<Column>, added: seq<Column>)
    requires added == [] && forall c :: c in added <==> c in schema && c !in ColumnSet(was)
    ensures ColumnSet(schema) <= ColumnSet(was)
  {
  }

  // ---------- Any number of processes ----------

  /** One process lifetime: the latest schema it fetched, how many of its actions go well, and the events it is offered. */
  datatype Process = Process(latest: Latest, budget: nat, events: seq<Event>, batchFull: nat -> bool)

  /** Later schemas still have the tables of earlier ones. */
  ghost predicate NoneWithdrawn(latests: seq<Latest>) {
    forall i, j :: 0 <= i < j < |latests| ==> Names(latests[i]) <= Names(latests[j])
  }

  function Latests(ps: seq<Process>): (latests: seq<Latest>)
    ensures |latests| == |ps| && forall i :: 0 <= i < |ps| ==> latests[i] == ps[i].latest
  {
    seq(|ps|, i requires 0 <= i < |ps| => ps[i].latest)
  }

  /**
   One process: it starts up and, if that went well, streams. The tables lost when it streams are exactly
   those lost before that its latest schema does not have, and the stream loses no more. One that
   breaks at its first action changes nothing, and one that breaks right after connecting has recorded
   the latest versions and created nothing.
   */
  method RunProcess(s: Stream, p: Process) returns (started: bool, ghost lost: set<Table>)
    requires DistinctTables(p.latest)
    modifies s
    ensures started ==> forall t :: t in lost <==> t in old(s.Lost()) && t !in Names(p.latest)
    ensures started ==> s.Valid(lost) && s.Lost() <= lost
    ensures s.Lost() <= old(s.Lost()) + Names(p.latest)
    ensures old(s.recorded).Keys <= s.recorded.Keys
    ensures p.budget == 0 ==> !started && s.columns == old(s.columns) && s.recorded == old(s.recorded)
    ensures p.latest != [] && p.budget == 2 * |p.latest| + 1 ==>
              !started && s.columns == old(s.columns) && Names(p.latest) <= s.recorded.Keys
    ensures p.budget >= StartCost(s.schemaOf, p.latest) ==> started
  {
    s.budget := p.budget;
    started := s.StartUp(p.latest);
    lost := s.Lost();
    if started {
      var _ := s.RunStream(p.events, p.batchFull, lost);
    }
  }

  /**
   Any number of processes, each stopped by any failure: as long as no table is withdrawn from the
   latest schema, every process that starts streams with all recorded tables covered, and keeps them so.
   */
  method RunProcesses(s: Stream, ps: seq<Process>) returns (started: bool, ghost lost: set<Table>)
    requires s.Lost() == {} && NoneWithdrawn(Latests(ps)) && forall i :: 0 <= i < |ps| ==> DistinctTables(ps[i].latest)
    modifies s
    ensures ps != [] && started ==> lost == {} && s.Valid({}) && s.Lost() == {}
    ensures s.Lost() <= if ps == [] then {} else Names(ps[|ps| - 1].latest)
  {
    started, lost := false, {};
    for i := 0 to |ps|
      invariant s.Lost() <= if i == 0 then {} else Names(ps[i - 1].latest)
      invariant i > 0 && started ==> lost == {} && s.Valid({}) && s.Lost() == {}
    {
      if i > 0 {
        assert Latests(ps)[i - 1] == ps[i - 1].latest && Latests(ps)[i] == ps[i].latest;
      }
      started, lost := RunProcess(s, ps[i]);
      if started {
        assert lost == {};
      }
    }
  }

  /** The process that breaks right after connecting, the one that nothing disturbs, or one that breaks at once. */
  function BudgetFor(schemaOf: (Table, Version) -> seq<Column>, latests: seq<Latest>, i: nat, j: nat, k: nat): nat
    requires k < |latests|
  {
    if k == i then 2 * |latests[k]| + 1 else if k == j then StartCost(schemaOf, latests[k]) else 0
  }

  /**
   And only then: whenever a table of one latest schema is missing from a later one, there are processes
   with just these schemas, from an empty destination, of which the last starts and streams with that
   table lost.
   */
  method LoseWithdrawn(schemaOf: (Table, Version) -> seq<Column>, latests: seq<Latest>, i: nat, j: nat, t: Table)
      returns (s: Stream, ps: seq<Process>, started: bool, ghost lost: set<Table>)
    requires forall k :: 0 <= k < |latests| ==> DistinctTables(latests[k])
    requires i < j < |latests| && t in Names(latests[i]) && t !in Names(latests[j])
    ensures fresh(s) && Latests(ps) == latests[..j + 1] && started && t in lost
  {
    s := new Stream(schemaOf);
    ps, started, lost := [], false, {};
    for k := 0 to j + 1
      invariant s.schemaOf == schemaOf && fresh(s) && |ps| == k && forall n :: 0 <= n < k ==> ps[n].latest == latests[n]
      invariant k <= j ==> s.columns == map[] && (i < k ==> t in s.recorded)
      invariant k == j + 1 ==> started && t in lost
    {
      var p := Process(latests[k], BudgetFor(schemaOf, latests, i, j, k), [], n => false);
      started, lost := RunProcess(s, p);
      ps := ps + [p];
    }
    assert Latests(ps) == latests[..j + 1];
  }

  /**
   A withdrawn table is lost: one process records it and breaks before creating it, and the next one,
   whose latest schema does not have it, starts normally and buffers its events for a table that does
   not exist.
   */
  method WithdrawnTable(schemaOf: (Table, Version) -> seq<Column>, t: Table, v: Version) returns (s: Stream, force: Result<bool>, buffered: bool)
    ensures fresh(s) && t in s.recorded && t !in s.columns
    ensures force == Ok(false) && buffered && s.buffered == [Statement(t, ColumnSet(schemaOf(t, v)))]
  {
    s := new Stream(schemaOf);
    s.budget := 3;
    var first := s.StartUp([(t, v)]);
    assert (t, v) == [(t, v)][0];
    s.budget := 2;
    var second := s.StartUp([]);
    ghost var lost := s.Lost();
    force := s.HandlePossibleMigration(Event(t, v), lost);
    buffered := s.Process(Event(t, v), lost);
  }

  lemma NotYet(latest: Latest, n: nat)
    requires DistinctTables(latest) && n < |latest|
    ensures latest[n].0 !in Names(latest[..n]) && Names(latest[..n + 1]) == Names(latest[..n]) + {latest[n].0}
  {
  }

  lemma AllNames(latest: Latest, n: nat)
    requires n < |latest|
    ensures Names(latest[..n + 1]) <= Names(latest[..|latest|])
  {
  }
}

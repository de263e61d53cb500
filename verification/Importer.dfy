/**
 The bulk import of one attempt: drop and recreate the tables, replay the downloaded files table by
 table through a byte-batched executor, and record a progress marker per finished table. Every
 fallible action may be the one at which the attempt breaks.
 */
module Importer {
  import opened Wrappers
  import opened MySql

  type Table = string
  type Content = map<PrimaryKey, Row>

  // ---------- Errors ----------

  /** The exceptions an attempt can end with; `Killed` is the process dying. */
  datatype Error =
    | UsageError
    | RecoveryCancelled
    | SchemaError
    | ValueError
    | PermissionError
    | DownloadError(expired: bool)
    | ApiStatus(code: int)
    | NetworkError
    | LocalError(fatalErrno: bool, readsLikeTransport: bool)
    | OtherError(readsLikeTransport: bool)
    | Killed

  /** Which failures are retried; everything about wrong input, permissions and cancellation is not. */
  predicate IsRecoverable(e: Error) {
    match e
    case DownloadError(_) => true
    case ApiStatus(code) => code in {408, 429, 500, 502, 503, 504}
    case NetworkError => true
    case LocalError(fatalErrno, readsLikeTransport) => !fatalErrno && readsLikeTransport
    case OtherError(readsLikeTransport) => readsLikeTransport
    case _ => false
  }

  // ---------- What the files hold ----------

  /** One record of an export file: the row it upserts, its SQL length beyond one byte, the validator's verdict. */
  datatype Entry = Entry(pk: PrimaryKey, row: Row, moreBytes: nat, accepted: bool)

  /** A downloaded file; `table` is None for a name that does not parse as an export file. */
  datatype File = File(table: Option<Table>, entries: seq<Entry>)

  datatype Upsert = Upsert(table: Table, pk: PrimaryKey, row: Row, bytes: nat)

  function ToUpsert(t: Table, e: Entry): Upsert {
    Upsert(t, e.pk, e.row, 1 + e.moreBytes)
  }

  /** The upserts of a file's accepted records. */
  ghost function EntryUpserts(t: Table, es: seq<Entry>): seq<Upsert> {
    if es == [] then []
    else
      var e := es[|es| - 1];
      EntryUpserts(t, es[..|es| - 1]) + if e.accepted then [ToUpsert(t, e)] else []
  }

  ghost function FileUpserts(f: File, wanted: set<Table>): seq<Upsert> {
    if f.table.Some? && f.table.value in wanted then EntryUpserts(f.table.value, f.entries) else []
  }

  /** All upserts for the wanted tables, in directory order. */
  ghost function AllUpserts(files: seq<File>, wanted: set<Table>): seq<Upsert> {
    if files == [] then [] else AllUpserts(files[..|files| - 1], wanted) + FileUpserts(files[|files| - 1], wanted)
  }

  function FoldRows(c: Content, us: seq<Upsert>): Content {
    if us == [] then c else FoldRows(c, us[..|us| - 1])[us[|us| - 1].pk := us[|us| - 1].row]
  }

  /** A table with the given content after the complete files of one attempt. */
  ghost function Loaded(base: Content, files: seq<File>, t: Table): Content {
    FoldRows(base, AllUpserts(files, {t}))
  }

  // ---------- What a load is, record by record ----------

  /** Record `j` of file `i` is an accepted one of table `t` under key `k`. */
  ghost predicate IsRecord(files: seq<File>, t: Table, k: PrimaryKey, i: int, j: int) {
    && 0 <= i < |files| && files[i].table == Some(t)
    && 0 <= j < |files[i].entries| && files[i].entries[j].accepted && files[i].entries[j].pk == k
  }

  /** No accepted record of the table and key comes later, in a later file or later in the same one. */
  ghost predicate IsLastRecord(files: seq<File>, t: Table, k: PrimaryKey, i: int, j: int) {
    IsRecord(files, t, k, i, j) && forall i', j' :: IsRecord(files, t, k, i', j') ==> i' < i || (i' == i && j' <= j)
  }

  /** Under the key: the row of its last accepted record, or what was there before if it has none. */
  ghost predicate KeyHolds(c: Content, base: Content, files: seq<File>, t: Table, k: PrimaryKey) {
    || (exists i, j :: IsLastRecord(files, t, k, i, j) && k in c && c[k] == files[i].entries[j].row)
    || ((forall i, j :: !IsRecord(files, t, k, i, j)) && (k in c <==> k in base) && (k in c ==> c[k] == base[k]))
  }

  /** The content is the base with the files' records put in, the last one of each key winning. */
  ghost predicate HoldsRecords(c: Content, base: Content, files: seq<File>, t: Table) {
    forall k :: KeyHolds(c, base, files, t, k)
  }

  /** One more record. */
  ghost function PutEntry(c: Content, e: Entry): Content {
    if e.accepted then c[e.pk := e.row] else c
  }

  ghost function PutEntries(c: Content, es: seq<Entry>): Content {
    if es == [] then c else PutEntry(PutEntries(c, es[..|es| - 1]), es[|es| - 1])
  }

  lemma {:induction false} FoldEntries(base: Content, us: seq<Upsert>, t: Table, es: seq<Entry>)
    ensures FoldRows(base, us + EntryUpserts(t, es)) == PutEntries(FoldRows(base, us), es)
  {
    if es == [] {
      assert us + EntryUpserts(t, es) == us;
    } else {
      var front, e := es[..|es| - 1], es[|es| - 1];
      FoldEntries(base, us, t, front);
      if e.accepted {
        FoldOneMore(base, us + EntryUpserts(t, front), ToUpsert(t, e));
        assert us + EntryUpserts(t, es) == (us + EntryUpserts(t, front)) + [ToUpsert(t, e)];
      } else {
        assert us + EntryUpserts(t, es) == us + EntryUpserts(t, front);
      }
    }
  }

  /** The files with the last one cut after `n` records. */
  function CutLast(files: seq<File>, n: nat): seq<File>
    requires files != [] && n <= |files[|files| - 1].entries|
  {
    var last := files[|files| - 1];
    files[..|files| - 1] + [last.(entries := last.entries[..n])]
  }

  lemma CutRecords(files: seq<File>, n: nat, t: Table, k: PrimaryKey)
    requires files != [] && n < |files[|files| - 1].entries|
    ensures var f, l := files[|files| - 1], |files| - 1;
            forall i, j :: IsRecord(CutLast(files, n + 1), t, k, i, j) <==>
              IsRecord(CutLast(files, n), t, k, i, j)
              || (i == l && j == n && f.table == Some(t) && f.entries[n].accepted && f.entries[n].pk == k)
  {
  }

  lemma PutKeepsHolding(c: Content, base: Content, files: seq<File>, n: nat, t: Table, k: PrimaryKey)
    requires files != [] && n < |files[|files| - 1].entries| && files[|files| - 1].table == Some(t)
    requires KeyHolds(c, base, CutLast(files, n), t, k)
    ensures KeyHolds(PutEntry(c, files[|files| - 1].entries[n]), base, CutLast(files, n + 1), t, k)
  {
    var e, l := files[|files| - 1].entries[n], |files| - 1;
    var was, now := CutLast(files, n), CutLast(files, n + 1);
    CutRecords(files, n, t, k);
    if e.accepted && e.pk == k {
      assert IsLastRecord(now, t, k, l, n);
    } else {
      SameRecords(was, now, c, base, t, k);
    }
  }

  lemma {:induction false} EntriesHold(c: Content, base: Content, files: seq<File>, n: nat, t: Table, k: PrimaryKey)
    requires files != [] && n <= |files[|files| - 1].entries| && files[|files| - 1].table == Some(t)
    requires KeyHolds(c, base, files[..|files| - 1], t, k)
    ensures KeyHolds(PutEntries(c, files[|files| - 1].entries[..n]), base, CutLast(files, n), t, k)
  {
    if n == 0 {
      SameRecords(files[..|files| - 1], CutLast(files, 0), c, base, t, k);
    } else {
      var es := files[|files| - 1].entries;
      EntriesHold(c, base, files, n - 1, t, k);
      assert es[..n][..n - 1] == es[..n - 1];
      PutKeepsHolding(PutEntries(c, es[..n - 1]), base, files, n - 1, t, k);
    }
  }

  /** Files with the same records of a key hold the same under it. */
  lemma SameRecords(was: seq<File>, now: seq<File>, c: Content, base: Content, t: Table, k: PrimaryKey)
    requires forall i, j :: IsRecord(was, t, k, i, j) ==> IsRecord(now, t, k, i, j) && was[i].entries[j] == now[i].entries[j]
    requires forall i, j :: IsRecord(now, t, k, i, j) ==> IsRecord(was, t, k, i, j)
    requires KeyHolds(c, base, was, t, k)
    ensures KeyHolds(c, base, now, t, k)
  {
    if i, j :| IsLastRecord(was, t, k, i, j) && k in c && c[k] == was[i].entries[j].row {
      assert IsLastRecord(now, t, k, i, j);
    }
  }

  lemma {:induction false} LoadedKeyHolds(base: Content, files: seq<File>, t: Table, k: PrimaryKey)
    ensures KeyHolds(Loaded(base, files, t), base, files, t, k)
  {
    if files == [] {
      assert forall i, j :: !IsRecord(files, t, k, i, j);
    } else {
      var front, f := files[..|files| - 1], files[|files| - 1];
      LoadedKeyHolds(base, front, t, k);
      if f.table == Some(t) {
        FileIsPut(base, files, t);
        EntriesHold(Loaded(base, front, t), base, files, |f.entries|, t, k);
      } else {
        FileOfOtherTable(base, files, t, k);
        SameRecords(front, files, Loaded(base, front, t), base, t, k);
      }
    }
  }

  lemma FileOfOtherTable(base: Content, files: seq<File>, t: Table, k: PrimaryKey)
    requires files != [] && files[|files| - 1].table != Some(t)
    ensures var front := files[..|files| - 1];
            && Loaded(base, files, t) == Loaded(base, front, t)
            && (forall i, j :: IsRecord(front, t, k, i, j) ==> IsRecord(files, t, k, i, j) && front[i].entries[j] == files[i].entries[j])
            && (forall i, j :: IsRecord(files, t, k, i, j) ==> IsRecord(front, t, k, i, j))
  {
    assert AllUpserts(files, {t}) == AllUpserts(files[..|files| - 1], {t});
  }

  lemma FileIsPut(base: Content, files: seq<File>, t: Table)
    requires files != [] && files[|files| - 1].table == Some(t)
    ensures var front, es := files[..|files| - 1], files[|files| - 1].entries;
            Loaded(base, files, t) == PutEntries(Loaded(base, front, t), es) && es[..|es|] == es && CutLast(files, |es|) == files
  {
    FoldEntries(base, AllUpserts(files[..|files| - 1], {t}), t, files[|files| - 1].entries);
  }

  /** A load holds, under every key, the row of the key's last accepted record, or what the base has there. */
  lemma LoadHoldsRecords(base: Content, files: seq<File>, t: Table)
    ensures HoldsRecords(Loaded(base, files, t), base, files, t)
  {
    forall k: PrimaryKey
      ensures KeyHolds(Loaded(base, files, t), base, files, t, k)
    {
      LoadedKeyHolds(base, files, t, k);
    }
  }

  // ---------- The destination ----------

  type Destination = map<Table, Content>

  function Rows(d: Destination, t: Table): Content {
    if t in d then d[t] else map[]
  }

  function Apply(d: Destination, us: seq<Upsert>): Destination {
    if us == [] then d
    else
      var u := us[|us| - 1];
      var d' := Apply(d, us[..|us| - 1]);
      d'[u.table := Rows(d', u.table)[u.pk := u.row]]
  }

  ghost predicate OneTable(us: seq<Upsert>, t: Table) {
    forall i :: 0 <= i < |us| ==> us[i].table == t
  }

  ghost function OfTable(us: seq<Upsert>, t: Table): seq<Upsert> {
    if us == [] then [] else OfTable(us[..|us| - 1], t) + if us[|us| - 1].table == t then [us[|us| - 1]] else []
  }

  /** Upserts act on each table through that table's upserts. */
  lemma {:induction false} ApplyByTable(d: Destination, us: seq<Upsert>, t: Table)
    ensures Rows(Apply(d, us), t) == FoldRows(Rows(d, t), OfTable(us, t))
  {
    if us == [] {
    } else {
      var front, u := us[..|us| - 1], us[|us| - 1];
      ApplyByTable(d, front, t);
      if u.table == t {
        FoldOneMore(Rows(d, t), OfTable(front, t), u);
      } else {
        assert OfTable(front, t) + [] == OfTable(front, t);
      }
    }
  }

  lemma FoldOneMore(c: Content, us: seq<Upsert>, u: Upsert)
    ensures FoldRows(c, us + [u]) == FoldRows(c, us)[u.pk := u.row]
  {
    assert (us + [u])[..|us|] == us;
  }

  lemma {:induction false} OneTableOfTable(us: seq<Upsert>, t: Table, t': Table)
    requires OneTable(us, t)
    ensures OfTable(us, t') == if t == t' then us else []
  {
    if us == [] {
    } else {
      OneTableOfTable(us[..|us| - 1], t, t');
    }
  }

  lemma ApplyOneTable(d: Destination, us: seq<Upsert>, t: Table)
    requires OneTable(us, t)
    ensures Rows(Apply(d, us), t) == FoldRows(Rows(d, t), us)
    ensures forall t' :: t' != t ==> Rows(Apply(d, us), t') == Rows(d, t')
  {
    ApplyByTable(d, us, t);
    OneTableOfTable(us, t, t);
    forall t' | t' != t
      ensures Rows(Apply(d, us), t') == Rows(d, t')
    {
      ApplyByTable(d, us, t');
      OneTableOfTable(us, t, t');
    }
  }

  ghost function Flat(batches: seq<seq<Upsert>>): seq<Upsert> {
    if batches == [] then [] else Flat(batches[..|batches| - 1]) + batches[|batches| - 1]
  }

  // ---------- The driver's import half ----------

  const MAX_BYTES_SIZE_INSERT := 5_000_000

  /** Where an attempt breaks, if it does: after how many fallible actions, how, and how much of a torn batch lands. */
  datatype Fault = Never | Fault(after: nat, kind: Error, torn: nat)

  /** What is left of a fault after one more action went well. */
  function Spend(f: Fault): Fault {
    if f.Fault? && f.after > 0 then f.(after := f.after - 1) else f
  }

  /** Without a fault an action goes well. */
  predicate Calm(before: Fault, after: Fault, err: Option<Error>) {
    before.Never? ==> err.None? && after.Never?
  }

  predicate Breaks(f: Fault) {
    f.Fault? && f.after == 0
  }

  /**
   The part of the importer configuration that the replay reads: `known` is the latest schema's
   tables, and `transportNames` the tables whose names make an error text read like a transport failure.
   */
  datatype Config = Config(
    tables: seq<Table>, known: set<Table>, transportNames: set<Table>, noDelete: bool, single: bool, dryRun: bool)

  /** What an attempt changes for good. */
  datatype World = World(dest: Destination, markers: set<Table>)

  class SqlImporter {
    var dest: Destination
    var markers: set<Table>
    var pending: seq<Upsert>
    var size: nat
    var fault: Fault
    var single: bool
    var dryRun: bool
    var transportNames: set<Table>
    ghost var batches: seq<seq<Upsert>>  // what the executor ran since the tables were created

    constructor ()
      ensures dest == map[] && markers == {} && Buffered()
    {
      dest, markers, pending, size, single, dryRun, batches := map[], {}, [], 0, false, false, [];
      fault, transportNames := Never, {};
    }

    ghost function Durable(): World
      reads this
    {
      World(dest, markers)
    }

    /** The error for a table that the schema does not have; its text holds the table's name. */
    function Missing(t: Table): Error
      reads this
    {
      OtherError(t in transportNames)
    }

    /** The byte count is zero exactly when nothing is buffered. */
    ghost predicate Buffered()
      reads this
    {
      size == 0 <==> pending == []
    }

    /** A fallible action that is not SQL: connecting, listing, opening, decoding, writing a marker. */
    method Attempt() returns (err: Option<Error>)
      modifies this`fault
      ensures err == if Breaks(old(fault)) then Some(old(fault).kind) else None
      ensures fault == Spend(old(fault))
    {
      if Breaks(fault) {
        return Some(fault.kind);
      }
      fault := Spend(fault);
      err := None;
    }

    /** Run one batch. A failing batch may land in part, and its exception is wrapped in a ValueError. */
    method Execute(batch: seq<Upsert>) returns (err: Option<Error>)
      modifies this`fault, this`dest, this`batches
      ensures err.None? ==> batches == old(batches) + [batch]
      ensures err.None? ==> dest == if dryRun then old(dest) else Apply(old(dest), batch)
      ensures err.Some? ==> batches == old(batches) && (err.value.ValueError? || err.value.Killed?)
      ensures err.Some? <==> !dryRun && Breaks(old(fault))
      ensures fault == if dryRun then old(fault) else Spend(old(fault))
      ensures err.Some? ==> exists n :: 0 <= n <= |batch| && dest == Apply(old(dest), batch[..n])
    {
      if !dryRun && Breaks(fault) {
        var n := if fault.torn <= |batch| then fault.torn else |batch|;
        dest := Apply(dest, batch[..n]);
        return Some(if fault.kind.Killed? then Killed else ValueError);
      }
      if !dryRun {
        dest := Apply(dest, batch);
        fault := Spend(fault);
      }
      batches := batches + [batch];
      err := None;
    }

    /** Drop and create one table; breaking in between leaves it gone. */
    method CreateTable(t: Table) returns (err: Option<Error>)
      modifies this`fault, this`dest
      ensures forall t' :: t' != t ==> Rows(dest, t') == Rows(old(dest), t')
      ensures err.None? && !dryRun ==> Rows(dest, t) == map[]
      ensures dryRun ==> dest == old(dest)
      ensures err.Some? <==> !dryRun && Breaks(old(fault))
      ensures fault == if dryRun then old(fault) else Spend(old(fault))
      ensures err.Some? ==> err.value.ValueError? || err.value.Killed?
    {
      if dryRun {
        return None;
      }
      if Breaks(fault) {
        if fault.torn > 0 {
          dest := dest - {t};
        }
        return Some(if fault.kind.Killed? then Killed else ValueError);
      }
      fault := Spend(fault);
      dest := dest[t := map[]];
      err := None;
    }

    /** What the executor ran is in the destination, and it plus the buffer is the upserts so far. */
    ghost predicate Stored(d0: Destination, us: seq<Upsert>)
      reads this
    {
      && Buffered()
      && Flat(batches) + pending == us
      && (!dryRun ==> dest == Apply(d0, Flat(batches)))
    }

    /** The buffer is of table `t`, and no batch mixed two tables. */
    ghost predicate Unmixed(t: Table)
      reads this
    {
      OneTable(pending, t) && SingleTableBatches(batches)
    }

    /** Only table `t` differs from `d`, and not even that in a dry run. */
    ghost predicate OnlyChanged(d: Destination, t: Table)
      reads this
    {
      && (forall t' :: t' != t ==> Rows(dest, t') == Rows(d, t'))
      && (dryRun ==> dest == d)
    }

    /** Run the buffer as one batch and empty it; a failure keeps it. */
    method FlushImport(ghost d0: Destination, ghost us: seq<Upsert>, ghost t: Table) returns (err: Option<Error>)
      requires Stored(d0, us)
      modifies this`fault, this`dest, this`batches, this`pending, this`size
      ensures err.None? ==> Stored(d0, us) && pending == [] && |batches| == |old(batches)| + 1
      ensures err.Some? ==> err.value.ValueError? || err.value.Killed?
      ensures old(Unmixed(t)) ==> OnlyChanged(old(dest), t) && Unmixed(t)
      ensures Calm(old(fault), fault, err)
    {
      FlatStep(batches, pending);
      ApplyAppend(d0, Flat(batches), pending);
      if OneTable(pending, t) {
        PartOfOneTable(dest, pending, t);
        assert OfOneTable(pending);
      }
      err := Execute(pending);
      if err.Some? {
        return;
      }
      pending, size := [], 0;
      assert Flat(batches) + pending == Flat(batches);
    }

    /** One record: buffer its upsert, and flush when the batch is large enough. */
    method ImportEvent(ghost d0: Destination, ghost us: seq<Upsert>, t: Table, e: Entry) returns (err: Option<Error>)
      requires Stored(d0, us)
      modifies this`fault, this`dest, this`batches, this`pending, this`size
      ensures err.None? ==> Stored(d0, us + [ToUpsert(t, e)])
      ensures err.None? ==>
                if single || old(size) + 1 + e.moreBytes >= 5_000_000 then pending == [] && |batches| == |old(batches)| + 1
                else |pending| == |old(pending)| + 1 && size == old(size) + 1 + e.moreBytes && batches == old(batches)
      ensures err.Some? ==> err.value.ValueError? || err.value.Killed?
      ensures old(Unmixed(t)) ==> OnlyChanged(old(dest), t) && Unmixed(t)
      ensures Calm(old(fault), fault, err)
    {
      var u := ToUpsert(t, e);
      assert Flat(batches) + (pending + [u]) == Flat(batches) + pending + [u];
      pending, size := pending + [u], size + u.bytes;
      err := None;
      if size >= MAX_BYTES_SIZE_INSERT || single {
        err := FlushImport(d0, us + [u], t);
      }
    }

    method ProcessFile(ghost d0: Destination, ghost us: seq<Upsert>, t: Table, entries: seq<Entry>, known: set<Table>) returns (err: Option<Error>)
      requires Stored(d0, us)
      modifies this`fault, this`dest, this`batches, this`pending, this`size
      ensures err.None? ==> Stored(d0, us + EntryUpserts(t, entries))
      ensures old(Unmixed(t)) ==> OnlyChanged(old(dest), t) && Unmixed(t)
      ensures t in known ==> Calm(old(fault), fault, err)
      ensures t !in known ==> err.Some? && dest == old(dest) && pending == old(pending)
    {
      if t !in known {
        return Some(Missing(t));
      }
      err := Attempt();
      if err.Some? {
        return;
      }
      assert us + [] == us;
      for i := 0 to |entries|
        invariant Stored(d0, us + EntryUpserts(t, entries[..i]))
        invariant old(fault).Never? ==> fault.Never?
        invariant old(Unmixed(t)) ==> OnlyChanged(old(dest), t) && Unmixed(t)
      {
        EntryStep(t, entries, i, us);
        err := Attempt();
        if err.Some? {
          return;
        }
        if entries[i].accepted {
          err := ImportEvent(d0, us + EntryUpserts(t, entries[..i]), t, entries[i]);
          if err.Some? {
            return;
          }
        }
      }
      assert entries[..|entries|] == entries;
      err := None;
    }

    /** The flush at a table boundary: nothing to do when nothing is buffered. */
    method FlushImported(ghost d0: Destination, ghost us: seq<Upsert>, ghost t: Table) returns (err: Option<Error>)
      requires Stored(d0, us)
      modifies this`fault, this`dest, this`batches, this`pending, this`size
      ensures err.None? ==> Stored(d0, us) && pending == []
      ensures old(Unmixed(t)) ==> OnlyChanged(old(dest), t) && Unmixed(t)
      ensures Calm(old(fault), fault, err)
      ensures old(pending) == [] ==> err.None? && dest == old(dest)
    {
      err := None;
      if size > 0 {
        err := FlushImport(d0, us, t);
      }
    }

    /** The final flush, which keeps the buffer; after a grouped replay there is nothing left to flush. */
    method ImportCompleted(ghost d0: Destination, ghost us: seq<Upsert>) returns (err: Option<Error>)
      requires Stored(d0, us)
      modifies this`fault, this`dest, this`batches
      ensures pending == [] ==> err.None? && dest == old(dest) && batches == old(batches)
      ensures err.None? ==> Flat(batches) == us && (!dryRun ==> dest == Apply(d0, us))
      ensures Calm(old(fault), fault, err)
    {
      FlatStep(batches, pending);
      ApplyAppend(d0, Flat(batches), pending);
      err := None;
      if size > 0 {
        err := Execute(pending);
      }
    }

    /** The replay without recovery: one pass over the directory and one final flush. */
    method RunSinglePass(files: seq<File>, tables: seq<Table>, known: set<Table>) returns (err: Option<Error>)
      requires Buffered() && pending == [] && batches == []
      modifies this`fault, this`dest, this`batches, this`pending, this`size
      ensures err.None? ==> Flat(batches) == AllUpserts(files, set t | t in tables)
      ensures err.None? && !dryRun ==> dest == Apply(old(dest), AllUpserts(files, set t | t in tables))
    {
      ghost var wanted := set t | t in tables;
      for i := 0 to |files|
        invariant Stored(old(dest), AllUpserts(files[..i], wanted))
      {
        assert files[..i + 1][..i] == files[..i];
        var f := files[i];
        assert AllUpserts(files[..i], wanted) + [] == AllUpserts(files[..i], wanted);
        if f.table.Some? && f.table.value in tables {
          err := ProcessFile(old(dest), AllUpserts(files[..i], wanted), f.table.value, f.entries, known);
          if err.Some? {
            return;
          }
        }
      }
      assert files[..|files|] == files;
      err := ImportCompleted(old(dest), AllUpserts(files, wanted));
    }

    /** The files of one table. */
    method ReplayFiles(ghost d0: Destination, ghost us: seq<Upsert>, t: Table, files: seq<File>, known: set<Table>) returns (err: Option<Error>)
      requires Stored(d0, us) && Unmixed(t)
      requires forall i :: 0 <= i < |files| ==> files[i].table == Some(t)
      modifies this`fault, this`dest, this`batches, this`pending, this`size
      ensures OnlyChanged(old(dest), t) && Unmixed(t)
      ensures err.None? ==> Stored(d0, us + AllUpserts(files, {t}))
      ensures t in known ==> Calm(old(fault), fault, err)
      ensures t !in known ==> dest == old(dest) && pending == old(pending) && (err.None? ==> files == [])
    {
      assert us + [] == us;
      for i := 0 to |files|
        invariant Stored(d0, us + AllUpserts(files[..i], {t})) && Unmixed(t)
        invariant OnlyChanged(old(dest), t)
        invariant t in known && old(fault).Never? ==> fault.Never?
        invariant t !in known ==> i == 0 && dest == old(dest) && pending == old(pending)
      {
        UpsertsStep(files, t, i, us);
        err := ProcessFile(d0, us + AllUpserts(files[..i], {t}), t, files[i].entries, known);
        if err.Some? {
          return;
        }
      }
      assert files[..|files|] == files;
      err := None;
    }

    /** One table of the recovery replay: its files, the flush at the table boundary, then the marker. */
    method ImportTable(ghost d0: Destination, ghost us: seq<Upsert>, t: Table, files: seq<File>, known: set<Table>) returns (err: Option<Error>)
      requires Stored(d0, us) && pending == [] && SingleTableBatches(batches)
      requires forall i :: 0 <= i < |files| ==> files[i].table == Some(t)
      modifies this`fault, this`dest, this`batches, this`pending, this`size, this`markers
      ensures OnlyChanged(old(dest), t) && SingleTableBatches(batches)
      ensures markers == old(markers) || markers == old(markers) + {t}
      ensures t in markers && t !in old(markers) ==> Stored(d0, us + AllUpserts(files, {t})) && pending == []
      ensures err.None? ==> markers == old(markers) + {t} && pending == [] && Stored(d0, us + AllUpserts(files, {t}))
      ensures t in known ==> Calm(old(fault), fault, err)
      ensures t !in known ==> dest == old(dest) && (markers != old(markers) ==> files == [])
    {
      err := ReplayFiles(d0, us, t, files, known);
      if err.Some? {
        return;
      }
      err := FlushImported(d0, us + AllUpserts(files, {t}), t);
      if err.Some? {
        return;
      }
      err := Attempt();
      if err.None? {
        markers := markers + {t};
      }
    }

    /** Between tables: finished tables hold their load and a marker, the others are as they were. */
    ghost predicate TablesDone(d: Destination, ms: set<Table>, files: seq<File>, done: seq<Table>)
      reads this
    {
      && Stored(d, GroupedUpserts(files, done)) && pending == [] && SingleTableBatches(batches)
      && markers == ms + (set t | t in done)
      && Outcome(d, ms, files, done)
    }

    /** After an attempt, broken or not: a new marker means a complete load, and other tables are untouched. */
    ghost predicate Outcome(d: Destination, ms: set<Table>, files: seq<File>, tables: seq<Table>)
      reads this
    {
      && ms <= markers <= ms + (set t | t in tables)
      && (!dryRun ==> forall t :: t in markers && t !in ms ==> Rows(dest, t) == Loaded(Rows(d, t), files, t))
      && (forall t :: t !in tables ==> Rows(dest, t) == Rows(d, t))
      && (dryRun ==> dest == d)
    }

    /** Tables that the schema does not have are as they were, and newly marked only without files. */
    ghost predicate UnknownAsWere(d: Destination, ms: set<Table>, files: seq<File>, known: set<Table>)
      reads this
    {
      forall t :: t !in known ==> Rows(dest, t) == Rows(d, t) && (t in markers && t !in ms ==> FilesOf(files, t) == [])
    }

    method NextTable(ghost d: Destination, ghost ms: set<Table>, ghost files: seq<File>, ghost done: seq<Table>, t: Table, mine: seq<File>, known: set<Table>)
        returns (err: Option<Error>)
      requires TablesDone(d, ms, files, done) && UnknownAsWere(d, ms, files, known) && t !in done && mine == FilesOf(files, t)
      modifies this`fault, this`dest, this`batches, this`pending, this`size, this`markers
      ensures err.None? ==> TablesDone(d, ms, files, done + [t])
      ensures Outcome(d, ms, files, done + [t]) && UnknownAsWere(d, ms, files, known)
      ensures t in known ==> Calm(old(fault), fault, err)
    {
      FilesOfMembers(files, t);
      FilesOfUpserts(files, t);
      assert (done + [t])[..|done|] == done;
      ghost var was := dest;
      err := ImportTable(d, GroupedUpserts(files, done), t, mine, known);
      if t in markers && t !in ms && !dryRun {
        NewlyLoaded(d, files, done, t);
      }
      OutcomeStep(d, ms, files, done, t, was, old(markers));
    }

    /** The table that was just completed holds its load. */
    lemma NewlyLoaded(d: Destination, files: seq<File>, done: seq<Table>, t: Table)
      requires t !in done && !dryRun && pending == []
      requires Stored(d, GroupedUpserts(files, done) + AllUpserts(files, {t}))
      ensures Rows(dest, t) == Loaded(Rows(d, t), files, t)
    {
      assert Flat(batches) + [] == Flat(batches);
      GroupedOfTable(files, done, t);
      LastTableLoaded(d, GroupedUpserts(files, done), files, t);
    }

    /** One more table touched, from the destination `was` and the markers `marked`. */
    lemma OutcomeStep(d: Destination, ms: set<Table>, files: seq<File>, done: seq<Table>, t: Table, was: Destination, marked: set<Table>)
      requires t !in done && marked == ms + (set x | x in done)
      requires markers == marked || markers == marked + {t}
      requires OnlyChanged(was, t)
      requires !dryRun ==> forall x :: x in marked && x !in ms ==> Rows(was, x) == Loaded(Rows(d, x), files, x)
      requires forall x :: x !in done ==> Rows(was, x) == Rows(d, x)
      requires dryRun ==> was == d
      requires t in markers && t !in ms && !dryRun ==> Rows(dest, t) == Loaded(Rows(d, t), files, t)
      ensures Outcome(d, ms, files, done + [t])
      ensures markers == marked + {t} ==> markers == ms + (set x | x in done + [t])
    {
    }

    /** The tables in order, each with its files. */
    method ReplayTables(files: seq<File>, byTable: map<Table, seq<File>>, ordered: seq<Table>, known: set<Table>) returns (err: Option<Error>)
      requires Buffered() && pending == [] && batches == []
      requires DistinctTables(ordered) && forall t :: t in ordered ==> FilesOf(files, t) == FilesUnder(byTable, t)
      modifies this`fault, this`dest, this`batches, this`pending, this`size, this`markers
      ensures Outcome(old(dest), old(markers), files, ordered) && UnknownAsWere(old(dest), old(markers), files, known)
      ensures err.None? ==> TablesDone(old(dest), old(markers), files, ordered)
      ensures (forall t :: t in ordered ==> t in known) ==> Calm(old(fault), fault, err)
    {
      ghost var d, ms := dest, markers;
      NothingDone(d, ms, files, known);
      for i := 0 to |ordered|
        invariant TablesDone(d, ms, files, ordered[..i]) && UnknownAsWere(d, ms, files, known)
        invariant old(fault).Never? && (forall t :: t in ordered ==> t in known) ==> fault.Never?
      {
        var t := ordered[i];
        assert ordered[..i + 1] == ordered[..i] + [t];
        err := NextTable(d, ms, files, ordered[..i], t, FilesUnder(byTable, t), known);
        if err.Some? {
          OutcomeWidens(d, ms, files, ordered[..i + 1], ordered);
          return;
        }
      }
      assert ordered[..|ordered|] == ordered;
      err := None;
    }

    lemma NothingDone(d: Destination, ms: set<Table>, files: seq<File>, known: set<Table>)
      requires Buffered() && pending == [] && batches == [] && dest == d && markers == ms
      ensures TablesDone(d, ms, files, []) && UnknownAsWere(d, ms, files, known)
    {
    }

    lemma OutcomeWidens(d: Destination, ms: set<Table>, files: seq<File>, part: seq<Table>, tables: seq<Table>)
      requires Outcome(d, ms, files, part) && forall t :: t in part ==> t in tables
      ensures Outcome(d, ms, files, tables)
    {
    }

    /** The table-grouped replay. */
    method RunRecovery(files: seq<File>, tables: seq<Table>, known: set<Table>) returns (err: Option<Error>)
      requires Buffered() && pending == [] && batches == []
      requires DistinctTables(tables)
      modifies this`fault, this`dest, this`batches, this`pending, this`size, this`markers
      ensures Outcome(old(dest), old(markers), files, tables) && UnknownAsWere(old(dest), old(markers), files, known)
      ensures err.None? ==> markers == old(markers) + (set t | t in tables)
      ensures err.None? ==> Grouped(files, tables)
      ensures err.None? && !dryRun ==> forall t :: t in tables ==> Rows(dest, t) == Loaded(Rows(old(dest), t), files, t)
      ensures (forall t :: t in tables ==> t in known) ==> Calm(old(fault), fault, err)
    {
      var byTable, ordered := GroupFiles(files, tables);
      err := ReplayTables(files, byTable, ordered, known);
      if err.Some? {
        OutcomeWidens(old(dest), old(markers), files, ordered, tables);
        return;
      }
      EveryTableLoaded(old(dest), old(markers), files, tables, ordered);
      err := ImportCompleted(old(dest), GroupedUpserts(files, ordered));
    }

    /** What ran is every table's upserts, table after table, no batch mixing two tables. */
    ghost predicate Grouped(files: seq<File>, tables: seq<Table>)
      reads this
    {
      SingleTableBatches(batches) && exists order :: Permutes(order, tables) && Flat(batches) == GroupedUpserts(files, order)
    }

    lemma EveryTableLoaded(d: Destination, ms: set<Table>, files: seq<File>, tables: seq<Table>, order: seq<Table>)
      requires TablesDone(d, ms, files, order) && Permutes(order, tables)
      ensures Outcome(d, ms, files, tables) && markers == ms + (set t | t in tables) && Grouped(files, tables)
      ensures !dryRun ==> forall t :: t in tables ==> Rows(dest, t) == Loaded(Rows(d, t), files, t)
    {
      assert Flat(batches) + [] == Flat(batches);
      forall t | t in tables && !dryRun
        ensures Rows(dest, t) == Loaded(Rows(d, t), files, t)
      {
        GroupedLoadsAll(d, files, order, t);
      }
    }

    /** Drop and create the configured tables up to one missing from the schema, which stops it. */
    method CreateDatasource(tables: seq<Table>, known: set<Table>) returns (err: Option<Error>)
      modifies this`fault, this`dest
      ensures forall t :: t !in tables || t !in known ==> Rows(dest, t) == Rows(old(dest), t)
      ensures err.None? ==> forall t :: t in tables ==> t in known
      ensures err.None? && !dryRun ==> forall t :: t in tables ==> Rows(dest, t) == map[]
      ensures dryRun ==> dest == old(dest)
      ensures err.Some? && IsRecoverable(err.value) ==>
                exists t :: t in tables && t !in known && t in transportNames
      ensures (forall t :: t in tables ==> t in known) ==> Calm(old(fault), fault, err)
      ensures (forall t :: t in tables ==> t in known) && !dryRun && old(fault).Fault? && old(fault).after >= |tables| ==>
                err.None? && fault == old(fault).(after := old(fault).after - |tables|)
    {
      for i := 0 to |tables|
        invariant forall t :: t !in tables || t !in known ==> Rows(dest, t) == Rows(old(dest), t)
        invariant forall t :: t in tables[..i] ==> t in known && (!dryRun ==> Rows(dest, t) == map[])
        invariant dryRun ==> dest == old(dest)
        invariant old(fault).Never? ==> fault.Never?
        invariant !dryRun && old(fault).Fault? && old(fault).after >= |tables| ==>
                    fault == old(fault).(after := old(fault).after - i)
      {
        assert tables[..i + 1] == tables[..i] + [tables[i]];
        if tables[i] !in known {
          return Some(Missing(tables[i]));
        }
        err := CreateTable(tables[i]);
        if err.Some? {
          return;
        }
      }
      assert tables[..|tables|] == tables;
      err := None;
    }

    /** Recreate the configured tables, unless deletes are off. */
    method RecreateTables(c: Config, ghost w: World) returns (err: Option<Error>)
      requires dest == w.dest && dryRun == c.dryRun
      modifies this`fault, this`dest
      ensures err.None? ==> Recreated(w, c, dest)
      ensures forall t :: t !in c.tables || t !in c.known ==> Rows(dest, t) == Rows(w.dest, t)
      ensures dryRun ==> dest == w.dest
      ensures AllKnown(c) ==> Calm(old(fault), fault, err)
      ensures c.noDelete ==> err.None? && fault == old(fault)
      ensures !c.noDelete && AllKnown(c) && !dryRun && old(fault).Fault? && old(fault).after >= |c.tables| ==>
                err.None? && fault == old(fault).(after := old(fault).after - |c.tables|)
    {
      err := None;
      if !c.noDelete {
        err := CreateDatasource(c.tables, c.known);
      }
    }

    /** The first half of an attempt: connect, recreate the tables unless deletes are off, and list the directory. */
    method PrepareImport(c: Config, ghost files: seq<File>, fault: Fault) returns (err: Option<Error>)
      modifies this
      ensures markers == old(markers) && dryRun == c.dryRun
      ensures err.Some? ==> Leaves(old(Durable()), c, files, fault, Durable(), err)
      ensures err.None? ==> Recreated(old(Durable()), c, dest) && !BreaksAfterRecreate(c, fault)
      ensures err.None? ==> Buffered() && pending == [] && batches == []
      ensures fault.Never? && AllKnown(c) ==> err.None? && this.fault.Never?
    {
      this.fault, single, dryRun, transportNames := fault, c.single, c.dryRun, c.transportNames;
      ghost var w := Durable();
      err := Attempt();
      if err.Some? {
        UnstartedLeaves(w, c, files, fault, dest, err);
        return;
      }
      pending, size, batches := [], 0, [];
      err := RecreateTables(c, w);
      if err.Some? {
        UnstartedLeaves(w, c, files, fault, dest, err);
        return;
      }
      err := Attempt();
      if err.Some? {
        UnreplayedLeaves(w, c, files, fault, dest, err);
      }
    }

    /**
     One import attempt with recovery on. However it ends, a marker it wrote means that the table
     holds exactly its base content plus the complete files of this attempt, tables it was not
     given are untouched, and a normal end marks every table it was given.
     */
    method RunImport(c: Config, files: seq<File>, fault: Fault) returns (err: Option<Error>)
      requires DistinctTables(c.tables)
      modifies this
      ensures Leaves(old(Durable()), c, files, fault, Durable(), err)
      ensures err.None? ==> Grouped(files, c.tables)
      ensures !c.dryRun ==> forall t :: (t in markers && t !in old(markers)) || (err.None? && t in c.tables) ==>
                HoldsRecords(Rows(dest, t), if c.noDelete then Rows(old(dest), t) else map[], files, t)
    {
      ghost var w := Durable();
      err := PrepareImport(c, files, fault);
      if err.Some? {
        return;
      }
      ghost var d := dest;
      err := RunRecovery(files, c.tables, c.known);
      ReplayedLeaves(w, c, files, fault, d, Durable(), err);
      if !c.dryRun {
        LeavesRecords(w, c, files, fault, Durable(), err);
      }
    }
  }

  /** The destination between recreating the tables and replaying the files. */
  ghost predicate Recreated(w: World, c: Config, d: Destination) {
    && (c.noDelete || c.dryRun ==> d == w.dest)
    && (!c.noDelete ==> AllKnown(c))
    && (forall t :: t !in c.tables ==> Rows(d, t) == Rows(w.dest, t))
    && (forall t :: t !in c.known ==> Rows(d, t) == Rows(w.dest, t))
    && (!c.dryRun ==> forall t :: t in c.tables ==> Rows(d, t) == Base(w, c, t))
  }

  /** An attempt that ends before all its tables are recreated. */
  lemma UnstartedLeaves(w: World, c: Config, files: seq<File>, fault: Fault, d: Destination, err: Option<Error>)
    requires err.Some? && (fault.Never? ==> !AllKnown(c)) && !BreaksAfterRecreate(c, fault)
    requires forall t :: t !in c.tables || t !in c.known ==> Rows(d, t) == Rows(w.dest, t)
    requires c.dryRun ==> d == w.dest
    ensures Leaves(w, c, files, fault, World(d, w.markers), err)
  {
  }

  lemma UnreplayedLeaves(w: World, c: Config, files: seq<File>, fault: Fault, d: Destination, err: Option<Error>)
    requires Recreated(w, c, d) && err.Some? && !fault.Never?
    requires BreaksAfterRecreate(c, fault) ==> err == Some(fault.kind)
    ensures Leaves(w, c, files, fault, World(d, w.markers), err)
  {
  }

  lemma ReplayedLeaves(w: World, c: Config, files: seq<File>, fault: Fault, d: Destination, w': World, err: Option<Error>)
    requires Recreated(w, c, d) && !BreaksAfterRecreate(c, fault)
    requires Replayed(d, w.markers, c, files, w') && UnknownLeft(World(d, w.markers), c, files, w')
    requires err.None? ==> w'.markers == w.markers + (set t | t in c.tables)
    requires err.None? && !c.dryRun ==> forall t :: t in c.tables ==> Rows(w'.dest, t) == Loaded(Rows(d, t), files, t)
    requires fault.Never? && AllKnown(c) ==> err.None?
    ensures Leaves(w, c, files, fault, w', err)
  {
  }

  /** Tables that the schema does not have are as they were, and newly marked only with deletes off and without files. */
  ghost predicate UnknownLeft(w: World, c: Config, files: seq<File>, w': World) {
    forall t :: t !in c.known ==>
      Rows(w'.dest, t) == Rows(w.dest, t) && (t in w'.markers && t !in w.markers ==> c.noDelete && FilesOf(files, t) == [])
  }

  /** What a replay, broken or not, makes of a destination and its markers. */
  ghost predicate Replayed(d: Destination, ms: set<Table>, c: Config, files: seq<File>, w': World) {
    && ms <= w'.markers <= ms + (set t | t in c.tables)
    && (!c.dryRun ==> forall t :: t in w'.markers && t !in ms ==> Rows(w'.dest, t) == Loaded(Rows(d, t), files, t))
    && (forall t :: t !in c.tables ==> Rows(w'.dest, t) == Rows(d, t))
    && (c.dryRun ==> w'.dest == d)
  }

  // ---------- What an attempt can leave ----------

  /** A table before the replay: recreated, or kept with deletes off. */
  function Base(w: World, c: Config, t: Table): Content {
    if c.noDelete then Rows(w.dest, t) else map[]
  }

  ghost predicate AllKnown(c: Config) {
    forall t :: t in c.tables ==> t in c.known
  }

  /** Whatever happens, only the given tables are marked or changed, and a new marker means a complete load. */
  ghost predicate LeavesMarkersHonest(w: World, c: Config, files: seq<File>, w': World) {
    && w.markers <= w'.markers <= w.markers + (set t | t in c.tables)
    && (forall t :: t !in c.tables ==> Rows(w'.dest, t) == Rows(w.dest, t))
    && (c.dryRun ==> w'.dest == w.dest)
    && (!c.dryRun ==> forall t :: t in w'.markers && t !in w.markers ==> Rows(w'.dest, t) == Loaded(Base(w, c, t), files, t))
  }

  /** A normal end completed and marked every table; with deletes on it means that the schema has them all. */
  ghost predicate LeavesComplete(w: World, c: Config, files: seq<File>, w': World) {
    && w'.markers == w.markers + (set t | t in c.tables)
    && (!c.dryRun ==> forall t :: t in c.tables ==> Rows(w'.dest, t) == Loaded(Base(w, c, t), files, t))
    && (!c.noDelete ==> AllKnown(c))
  }

  /** The fault that hits when the tables were recreated and the directory is about to be listed. */
  ghost predicate BreaksAfterRecreate(c: Config, fault: Fault) {
    !c.dryRun && !c.noDelete && AllKnown(c) && fault.Fault? && fault.after == 1 + |c.tables|
  }

  /**
   Everything an attempt that starts in `w` can leave, and how it ends: the fault decides, and for
   no fault and for a break right after the tables were recreated the outcome is determined.
   */
  ghost predicate Leaves(w: World, c: Config, files: seq<File>, fault: Fault, w': World, err: Option<Error>) {
    && LeavesMarkersHonest(w, c, files, w')
    && (err.None? ==> LeavesComplete(w, c, files, w'))
    && UnknownLeft(w, c, files, w')
    && (fault.Never? && AllKnown(c) ==> err.None?)
    && (BreaksAfterRecreate(c, fault) ==>
          err == Some(fault.kind) && w'.markers == w.markers && forall t :: t in c.tables ==> Rows(w'.dest, t) == map[])
  }

  /** What an attempt that marks or completes a table leaves in it, record by record. */
  lemma LeavesRecords(w: World, c: Config, files: seq<File>, fault: Fault, w': World, err: Option<Error>)
    requires Leaves(w, c, files, fault, w', err) && !c.dryRun
    ensures forall t :: (t in w'.markers && t !in w.markers) || (err.None? && t in c.tables) ==>
              HoldsRecords(Rows(w'.dest, t), if c.noDelete then Rows(w.dest, t) else map[], files, t)
  {
    forall t | (t in w'.markers && t !in w.markers) || (err.None? && t in c.tables)
      ensures HoldsRecords(Rows(w'.dest, t), if c.noDelete then Rows(w.dest, t) else map[], files, t)
    {
      LoadHoldsRecords(Base(w, c, t), files, t);
    }
  }

  lemma {:induction false} ApplyAppend(d: Destination, us: seq<Upsert>, vs: seq<Upsert>)
    ensures Apply(d, us + vs) == Apply(Apply(d, us), vs)
  {
    if vs == [] {
      assert us + vs == us;
    } else {
      assert (us + vs)[..|us + vs| - 1] == us + vs[..|vs| - 1];
      ApplyAppend(d, us, vs[..|vs| - 1]);
    }
  }

  lemma PartOfOneTable(d: Destination, us: seq<Upsert>, t: Table)
    requires OneTable(us, t)
    ensures forall t' :: t' != t ==> Rows(Apply(d, us), t') == Rows(d, t')
    ensures forall n, t' :: 0 <= n <= |us| && t' != t ==> Rows(Apply(d, us[..n]), t') == Rows(d, t')
  {
    ApplyOneTable(d, us, t);
    forall n, t' | 0 <= n <= |us| && t' != t
      ensures Rows(Apply(d, us[..n]), t') == Rows(d, t')
    {
      ApplyOneTable(d, us[..n], t);
    }
  }

  lemma {:induction false} EntriesAreOfTable(t: Table, es: seq<Entry>)
    ensures OneTable(EntryUpserts(t, es), t)
  {
    if es == [] {
    } else {
      EntriesAreOfTable(t, es[..|es| - 1]);
    }
  }

  lemma {:induction false} UpsertsAreOfTable(files: seq<File>, t: Table)
    ensures OneTable(AllUpserts(files, {t}), t)
  {
    if files == [] {
    } else {
      UpsertsAreOfTable(files[..|files| - 1], t);
      EntriesAreOfTable(t, files[|files| - 1].entries);
    }
  }

  /** After the other tables' upserts, a table's own upserts complete it. */
  lemma LastTableLoaded(d: Destination, us: seq<Upsert>, files: seq<File>, t: Table)
    requires OfTable(us, t) == []
    ensures Rows(Apply(d, us + AllUpserts(files, {t})), t) == Loaded(Rows(d, t), files, t)
  {
    var mine := AllUpserts(files, {t});
    UpsertsAreOfTable(files, t);
    OneTableOfTable(mine, t, t);
    OfTableAppend(us, mine, t);
    assert [] + mine == mine;
    ApplyByTable(d, us + mine, t);
  }

  lemma {:induction false} GroupedOfTable(files: seq<File>, done: seq<Table>, t: Table)
    requires t !in done
    ensures OfTable(GroupedUpserts(files, done), t) == []
  {
    if done == [] {
    } else {
      var front, last := done[..|done| - 1], done[|done| - 1];
      GroupedOfTable(files, front, t);
      GroupStep(files, front, last, t);
    }
  }

  lemma {:induction false} OfTableAppend(us: seq<Upsert>, vs: seq<Upsert>, t: Table)
    ensures OfTable(us + vs, t) == OfTable(us, t) + OfTable(vs, t)
  {
    if vs == [] {
      assert us + vs == us;
    } else {
      assert (us + vs)[..|us + vs| - 1] == us + vs[..|vs| - 1];
      OfTableAppend(us, vs[..|vs| - 1], t);
    }
  }

  ghost predicate Permutes(a: seq<Table>, b: seq<Table>) {
    && DistinctTables(a)
    && (forall t :: t in a <==> t in b)
  }

  /** The upserts of the listed tables, table after table. */
  ghost function GroupedUpserts(files: seq<File>, order: seq<Table>): seq<Upsert> {
    if order == [] then []
    else GroupedUpserts(files, order[..|order| - 1]) + AllUpserts(files, {order[|order| - 1]})
  }

  function FilesOf(files: seq<File>, t: Table): seq<File> {
    if files == [] then []
    else FilesOf(files[..|files| - 1], t) + if files[|files| - 1].table == Some(t) then [files[|files| - 1]] else []
  }

  lemma {:induction false} FilesOfMembers(files: seq<File>, t: Table)
    ensures forall i :: 0 <= i < |FilesOf(files, t)| ==> FilesOf(files, t)[i].table == Some(t)
  {
    if files == [] {
    } else {
      FilesOfMembers(files[..|files| - 1], t);
    }
  }

  lemma {:induction false} FilesOfUpserts(files: seq<File>, t: Table)
    ensures AllUpserts(FilesOf(files, t), {t}) == AllUpserts(files, {t})
  {
    if files == [] {
    } else {
      FilesOfUpserts(files[..|files| - 1], t);
      var mine := FilesOf(files, t);
      if files[|files| - 1].table == Some(t) {
        assert mine[..|mine| - 1] == FilesOf(files[..|files| - 1], t);
      } else {
        assert mine == FilesOf(files[..|files| - 1], t);
      }
    }
  }

  ghost predicate DistinctTables(ts: seq<Table>) {
    forall i, j :: 0 <= i < j < |ts| ==> ts[i] != ts[j]
  }

  /** The dictionary's entry for a table, empty when there is none. */
  function FilesUnder(byTable: map<Table, seq<File>>, t: Table): seq<File> {
    if t in byTable then byTable[t] else []
  }

  /** The grouping after the first `i` files: a dictionary, and its keys in insertion order. */
  ghost predicate FilesGrouped(byTable: map<Table, seq<File>>, ordered: seq<Table>, files: seq<File>, tables: seq<Table>, i: nat)
    requires i <= |files|
  {
    && DistinctTables(ordered)
    && (forall t :: t in ordered <==> t in byTable)
    && (forall t :: t in byTable ==> t in tables)
    && (forall t :: t in tables ==> FilesOf(files[..i], t) == FilesUnder(byTable, t))
  }

  /** A key inserted into a dictionary keeps its place or goes last. */
  function WithTable(ordered: seq<Table>, t: Table): (r: seq<Table>)
    ensures forall u :: u in r <==> u in ordered || u == t
    ensures DistinctTables(ordered) ==> DistinctTables(r)
  {
    if t in ordered then ordered else ordered + [t]
  }

  /** Filing one more file under its table. */
  lemma FiledUnder(byTable: map<Table, seq<File>>, files: seq<File>, tables: seq<Table>, i: nat, t: Table)
    requires i < |files| && files[i].table == Some(t)
    requires forall u :: u in tables ==> FilesOf(files[..i], u) == FilesUnder(byTable, u)
    ensures var byTable' := byTable[t := FilesUnder(byTable, t) + [files[i]]];
            forall u :: u in tables ==> FilesOf(files[..i + 1], u) == FilesUnder(byTable', u)
  {
    assert files[..i + 1][..i] == files[..i];
  }

  lemma NotFiled(files: seq<File>, tables: seq<Table>, i: nat)
    requires i < |files| && (files[i].table.Some? ==> files[i].table.value !in tables)
    ensures forall u :: u in tables ==> FilesOf(files[..i + 1], u) == FilesOf(files[..i], u)
  {
    assert files[..i + 1][..i] == files[..i];
  }

  method GroupFile(byTable: map<Table, seq<File>>, ordered: seq<Table>, files: seq<File>, tables: seq<Table>, i: nat)
      returns (byTable': map<Table, seq<File>>, ordered': seq<Table>)
    requires i < |files| && FilesGrouped(byTable, ordered, files, tables, i)
    ensures FilesGrouped(byTable', ordered', files, tables, i + 1)
  {
    byTable', ordered' := byTable, ordered;
    var f := files[i];
    if f.table.Some? && f.table.value in tables {
      var t := f.table.value;
      ordered' := WithTable(ordered, t);
      FiledUnder(byTable, files, tables, i, t);
      byTable' := byTable[t := FilesUnder(byTable, t) + [f]];
    } else {
      NotFiled(files, tables, i);
    }
  }

  /** Files by table, and the tables: those with files in directory order, then the rest. */
  method GroupFiles(files: seq<File>, tables: seq<Table>) returns (byTable: map<Table, seq<File>>, ordered: seq<Table>)
    requires DistinctTables(tables)
    ensures Permutes(ordered, tables)
    ensures forall t :: t in tables ==> FilesOf(files, t) == FilesUnder(byTable, t)
  {
    byTable, ordered := map[], [];
    for i := 0 to |files|
      invariant FilesGrouped(byTable, ordered, files, tables, i)
    {
      byTable, ordered := GroupFile(byTable, ordered, files, tables, i);
    }
    assert files[..|files|] == files;
    ordered := AddTablesWithoutFiles(byTable, ordered, tables);
  }

  method AddTablesWithoutFiles(byTable: map<Table, seq<File>>, withFiles: seq<Table>, tables: seq<Table>)
      returns (ordered: seq<Table>)
    requires DistinctTables(withFiles) && DistinctTables(tables)
    requires forall t :: t in withFiles <==> t in byTable
    requires forall t :: t in byTable ==> t in tables
    ensures Permutes(ordered, tables)
  {
    ordered := withFiles;
    for i := 0 to |tables|
      invariant DistinctTables(ordered)
      invariant forall t :: t in ordered <==> t in byTable || t in tables[..i]
    {
      assert tables[..i + 1] == tables[..i] + [tables[i]];
      if tables[i] !in byTable {
        assert tables[i] !in tables[..i];
        ordered := ordered + [tables[i]];
      }
    }
    assert tables[..|tables|] == tables;
  }

  /** No batch mixes two tables. */
  ghost predicate SingleTableBatches(batches: seq<seq<Upsert>>) {
    forall b :: b in batches ==> OfOneTable(b)
  }

  ghost predicate OfOneTable(b: seq<Upsert>) {
    exists t :: OneTable(b, t)
  }

  lemma FlatStep(batches: seq<seq<Upsert>>, b: seq<Upsert>)
    ensures Flat(batches + [b]) == Flat(batches) + b
  {
    assert (batches + [b])[..|batches|] == batches;
  }

  lemma UpsertsStep(files: seq<File>, t: Table, i: nat, us: seq<Upsert>)
    requires i < |files| && files[i].table == Some(t)
    ensures us + AllUpserts(files[..i], {t}) + EntryUpserts(t, files[i].entries) == us + AllUpserts(files[..i + 1], {t})
  {
    assert files[..i + 1][..i] == files[..i];
  }

  lemma EntryStep(t: Table, es: seq<Entry>, i: nat, us: seq<Upsert>)
    requires i < |es|
    ensures us + EntryUpserts(t, es[..i + 1]) ==
            if es[i].accepted then us + EntryUpserts(t, es[..i]) + [ToUpsert(t, es[i])] else us + EntryUpserts(t, es[..i])
  {
    assert es[..i + 1][..i] == es[..i];
  }

  // ---------- Grouping does not show in the result ----------

  lemma {:induction false} FilesOfTable(files: seq<File>, wanted: set<Table>, t: Table)
    ensures OfTable(AllUpserts(files, wanted), t) == if t in wanted then AllUpserts(files, {t}) else []
  {
    if files == [] {
    } else {
      var front, f := files[..|files| - 1], files[|files| - 1];
      FilesOfTable(front, wanted, t);
      OfTableAppend(AllUpserts(front, wanted), FileUpserts(f, wanted), t);
      if f.table.Some? {
        EntriesAreOfTable(f.table.value, f.entries);
        OneTableOfTable(EntryUpserts(f.table.value, f.entries), f.table.value, t);
      }
    }
  }

  lemma {:induction false} GroupsOfTable(files: seq<File>, order: seq<Table>, t: Table)
    requires DistinctTables(order)
    ensures OfTable(GroupedUpserts(files, order), t) == if t in order then AllUpserts(files, {t}) else []
  {
    if order == [] {
    } else {
      var front, last := order[..|order| - 1], order[|order| - 1];
      assert order == front + [last];
      GroupsOfTable(files, front, t);
      GroupStep(files, front, last, t);
    }
  }

  lemma GroupStep(files: seq<File>, front: seq<Table>, last: Table, t: Table)
    ensures OfTable(GroupedUpserts(files, front) + AllUpserts(files, {last}), t) ==
            OfTable(GroupedUpserts(files, front), t) + if last == t then AllUpserts(files, {t}) else []
  {
    UpsertsAreOfTable(files, last);
    OneTableOfTable(AllUpserts(files, {last}), last, t);
    OfTableAppend(GroupedUpserts(files, front), AllUpserts(files, {last}), t);
  }

  /** A complete grouped replay completes every listed table. */
  lemma GroupedLoadsAll(d: Destination, files: seq<File>, order: seq<Table>, t: Table)
    requires DistinctTables(order)
    requires t in order
    ensures Rows(Apply(d, GroupedUpserts(files, order)), t) == Loaded(Rows(d, t), files, t)
  {
    ApplyByTable(d, GroupedUpserts(files, order), t);
    GroupsOfTable(files, order, t);
  }

  /** Replaying table by table, in any order of tables, leaves what one pass over the directory leaves. */
  lemma GroupedEqualsSinglePass(d: Destination, files: seq<File>, tables: seq<Table>, order: seq<Table>, t: Table)
    requires Permutes(order, tables)
    ensures Rows(Apply(d, GroupedUpserts(files, order)), t) == Rows(Apply(d, AllUpserts(files, set x | x in tables)), t)
  {
    var wanted := set x | x in tables;
    ApplyByTable(d, GroupedUpserts(files, order), t);
    ApplyByTable(d, AllUpserts(files, wanted), t);
    GroupsOfTable(files, order, t);
    FilesOfTable(files, wanted, t);
  }
}

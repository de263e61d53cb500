/**
 The same event under two recorded versions: a redelivered message is rendered with the columns
 recorded by then, and exactly when that shows in the destination.
 */
module Rendering {
  import opened Wrappers
  import opened MySql
  import opened Audit
  import opened EffectivelyOnce

  /** What the event says about a column. */
  function Given(e: Event, c: Column): Value {
    if c in e.snapshot then e.snapshot[c] else Null
  }

  /** What the column holds after the event is rendered under a version: a column the version lacks is not written. */
  function ValueUnder(s: Schema, e: Event, c: Column): Value {
    if c in s.Columns() then Coerce(s.PropertyOf(c), Given(e, c)) else Null
  }

  /** Two versions of one table, which may each lack columns of the other, give the event the same key. */
  predicate SameKey(s: Schema, s': Schema, e: Event) {
    && s.table == s'.table && s.primaryKeys == s'.primaryKeys
    && (e.IsDelete() || forall c :: c in s.primaryKeys ==> ValueUnder(s, e, c) == ValueUnder(s', e, c))
  }

  /** The version has no literal to write for an absent value of the column. */
  predicate DefaultsToNull(s: Schema, c: Column) {
    var p := s.PropertyOf(c);
    p.kind.Scalar? || (p.kind.Object? && p.nullable)
  }

  /** The versions coerce the column alike; if only one has it, the event gives it nothing and nor does the version. */
  predicate ColumnAgrees(s: Schema, s': Schema, e: Event, c: Column) {
    if c in s.Columns() && c in s'.Columns() then Coerce(s.PropertyOf(c), Given(e, c)) == Coerce(s'.PropertyOf(c), Given(e, c))
    else if c in s.Columns() then Given(e, c).Null? && DefaultsToNull(s, c)
    else if c in s'.Columns() then Given(e, c).Null? && DefaultsToNull(s', c)
    else true
  }

  ghost predicate ColumnsAgree(s: Schema, s': Schema, e: Event) {
    e.IsDelete() || forall c :: c in s.Columns() || c in s'.Columns() ==> ColumnAgrees(s, s', e, c)
  }

  lemma ColumnAgreesIff(s: Schema, s': Schema, e: Event, c: Column)
    ensures ColumnAgrees(s, s', e, c) <==> ValueUnder(s, e, c) == ValueUnder(s', e, c)
  {
    CoerceIsIdempotent(s.PropertyOf(c), Given(e, c));
    CoerceIsIdempotent(s'.PropertyOf(c), Given(e, c));
  }

  /** A row of the table with all the given columns: what was not written is NULL, as after ADD COLUMN. */
  function Pad(row: Row, cols: set<Column>): Row {
    row + map c | c in cols - row.Keys :: Null
  }

  function PadStmt(st: Stmt, cols: set<Column>): Stmt {
    if st.Replace? then st.(row := Pad(st.row, cols)) else st
  }

  /** The event's statement under a recorded version, in the table as it finally is. */
  function Render(s: Schema, e: Event, cols: set<Column>): Stmt
    requires Buildable(s, e)
  {
    PadStmt(ToSql(s, e), cols)
  }

  lemma RenderedValue(s: Schema, e: Event, cols: set<Column>, c: Column)
    requires !e.IsDelete() && s.Columns() <= cols && c in cols
    ensures Render(s, e, cols).row.Keys == cols && Render(s, e, cols).row[c] == ValueUnder(s, e, c)
  {
  }

  lemma SameKeySameRow(s: Schema, s': Schema, e: Event, cols: set<Column>)
    requires SameKey(s, s', e) && Buildable(s, e)
    ensures Target(Render(s, e, cols)) == Target(Render(s', e, cols))
  {
    if e.IsDelete() {
    } else {
      assert forall c :: c in s.primaryKeys ==> UpsertRow(s, e)[c] == ValueUnder(s, e, c) && UpsertRow(s', e)[c] == ValueUnder(s', e, c);
      assert KeyOf(s, UpsertRow(s, e)) == KeyOf(s', UpsertRow(s', e));
    }
  }

  /** Any two versions that give the event the same key name the same row, and write the same exactly when their columns agree. */
  lemma RenderingsAgreeIff(s: Schema, s': Schema, e: Event, cols: set<Column>)
    requires SameKey(s, s', e) && s.Columns() + s'.Columns() <= cols && Buildable(s, e)
    ensures Target(Render(s, e, cols)) == Target(Render(s', e, cols))
    ensures Effect(Render(s, e, cols)) == Effect(Render(s', e, cols)) <==> ColumnsAgree(s, s', e)
  {
    SameKeySameRow(s, s', e, cols);
    if e.IsDelete() {
    } else {
      var row, row' := Render(s, e, cols).row, Render(s', e, cols).row;
      forall c | c in cols
        ensures row.Keys == row'.Keys == cols
        ensures row[c] == row'[c] <==> ColumnAgrees(s, s', e, c)
      {
        RenderedValue(s, e, cols, c);
        RenderedValue(s', e, cols, c);
        ColumnAgreesIff(s, s', e, c);
      }
      if ColumnsAgree(s, s', e) {
        assert forall c :: c in cols ==> row[c] == row'[c];
        assert row == row';
      }
    }
  }

  /**
   A later version that lacks a column of the earlier one shows even when the columns it adds get no
   value: an absent array column is written as an empty array by the first and left NULL by the second.
   The added column is what makes the migration record the second version.
   */
  lemma LackedColumnShows(table: string, id: Column, x: Column, d: Column, e: Event, cols: set<Column>)
    requires id != x && id != d && x != d && {id, x, d} <= cols
    requires !e.IsDelete() && x !in e.snapshot && d !in e.snapshot
    ensures var s := Schema(table, [id], map[x := Property(Array, true)]);
            var s' := Schema(table, [id], map[d := Property(Scalar, true)]);
            && d in s'.Columns() - s.Columns() && SameKey(s, s', e)
            && (forall c :: c in s'.Columns() - s.Columns() ==> ValueUnder(s', e, c) == Null)
            && Effect(Render(s, e, cols)) != Effect(Render(s', e, cols))
  {
    var s := Schema(table, [id], map[x := Property(Array, true)]);
    var s' := Schema(table, [id], map[d := Property(Scalar, true)]);
    assert s.Columns() == {id, x} && s'.Columns() == {id, d};
    assert SameKey(s, s', e) by {
      assert forall c :: c in s.primaryKeys ==> c == id;
    }
    RenderingsAgreeIff(s, s', e, cols);
    assert !ColumnAgrees(s, s', e, x);
  }

  /** Events, and the version recorded when each was rendered. */
  ghost predicate AllBuildableWith(ss: seq<Schema>, es: seq<Event>) {
    |ss| == |es| && forall i :: 0 <= i < |es| ==> Buildable(ss[i], es[i])
  }

  ghost function RenderAll(ss: seq<Schema>, es: seq<Event>, cols: set<Column>): (r: seq<Stmt>)
    requires AllBuildableWith(ss, es)
    ensures |r| == |es| && forall i :: 0 <= i < |es| ==> r[i] == Render(ss[i], es[i], cols)
  {
    seq(|es|, i requires 0 <= i < |es| => Render(ss[i], es[i], cols))
  }

  /** The versions recorded when the messages were last executed, whatever their columns, give each event the key it had. */
  ghost predicate OtherVersions(first: seq<Schema>, last: seq<Schema>, es: seq<Event>, cols: set<Column>) {
    && AllBuildableWith(first, es) && AllBuildableWith(last, es)
    && forall i :: 0 <= i < |es| ==> SameKey(first[i], last[i], es[i]) && first[i].Columns() + last[i].Columns() <= cols
  }

  /** Event `i` is the last one of its row. */
  ghost predicate IsLastOfRow(r: seq<Stmt>, i: int) {
    0 <= i < |r| && forall j :: i < j < |r| ==> Target(r[j]) != Target(r[i])
  }

  lemma {:induction false} LastForIs(r: seq<Stmt>, i: int)
    requires IsLastOfRow(r, i)
    ensures LastFor(r, Target(r[i])) == Some(r[i])
  {
    if i == |r| - 1 {
    } else {
      assert IsLastOfRow(r[..|r| - 1], i) by {
        assert forall j :: 0 <= j < |r| - 1 ==> r[..|r| - 1][j] == r[j];
      }
      LastForIs(r[..|r| - 1], i);
    }
  }

  lemma {:induction false} LastForIndex(r: seq<Stmt>, k: (string, PrimaryKey)) returns (i: int)
    requires LastFor(r, k).Some?
    ensures IsLastOfRow(r, i) && Target(r[i]) == k && LastFor(r, k) == Some(r[i])
  {
    if Target(r[|r| - 1]) == k {
      i := |r| - 1;
    } else {
      i := LastForIndex(r[..|r| - 1], k);
      assert forall j :: 0 <= j < |r| - 1 ==> r[..|r| - 1][j] == r[j];
    }
  }

  /**
   Effectively once under migration: when messages were last executed with other versions than one
   pass would have used, the destination is the one-pass destination if and only if, for the last event
   of each row, the two versions' columns agree. An array column added in between, for instance, is
   written as an empty array where one pass leaves NULL.
   */
  lemma VersionsAgreeIff(db: Database, first: seq<Schema>, last: seq<Schema>, es: seq<Event>, cols: set<Column>)
    requires OtherVersions(first, last, es, cols)
    ensures ExecAll(db, RenderAll(last, es, cols)) == ExecAll(db, RenderAll(first, es, cols)) <==>
            forall i :: IsLastOfRow(RenderAll(first, es, cols), i) ==> ColumnsAgree(first[i], last[i], es[i])
  {
    var a, b := RenderAll(first, es, cols), RenderAll(last, es, cols);
    forall i | 0 <= i < |es|
      ensures Target(a[i]) == Target(b[i]) && (Effect(a[i]) == Effect(b[i]) <==> ColumnsAgree(first[i], last[i], es[i]))
    {
      RenderingsAgreeIff(first[i], last[i], es[i], cols);
    }
    NamesCover(a, b);
    NamesCover(b, a);
    SameOutcomeIff(db, b, a);
    EndAlikeByRow(a, b);
  }

  lemma NamesCover(a: seq<Stmt>, b: seq<Stmt>)
    requires NamesAlike(a, b)
    ensures Covers(a, b)
  {
    forall k | LastFor(b, k).Some?
      ensures LastFor(a, k).Some?
    {
      AlikeNamesTheSame(a, b, k);
    }
  }

  /** Runs that name the same rows end alike exactly when the last statements of each row have the same effect. */
  lemma EndAlikeByRow(a: seq<Stmt>, b: seq<Stmt>)
    requires NamesAlike(a, b)
    ensures EndAlike(b, a) <==> forall i :: IsLastOfRow(a, i) ==> Effect(a[i]) == Effect(b[i])
  {
    forall i | IsLastOfRow(a, i)
      ensures LastFor(a, Target(a[i])) == Some(a[i]) && LastFor(b, Target(a[i])) == Some(b[i])
    {
      LastForIs(a, i);
      LastForIs(b, i);
    }
    if forall i :: IsLastOfRow(a, i) ==> Effect(a[i]) == Effect(b[i]) {
      forall k | LastFor(b, k).Some?
        ensures LastFor(a, k).Some? && Effect(LastFor(b, k).value) == Effect(LastFor(a, k).value)
      {
        var i := LastForIndex(b, k);
        assert IsLastOfRow(a, i);
      }
    }
  }
}

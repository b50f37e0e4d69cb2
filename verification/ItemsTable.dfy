/** What the database does with the repository's statements. UPDATE is executed from its text, by
    the parser of `UpdateSql`; the meaning theorem compares that with the intended record update. */
module ItemsTable {
  import opened Prelude
  import opened UpdateSql
  import opened Errors
  import opened Rows

  /** A bind argument. */
  datatype Cell = Text(text: string) | Uuid(id: nat) | Time(at: int)

  datatype Column = IdColumn | NameColumn | DescriptionColumn | CreatedAtColumn | UpdatedAtColumn

  const NAME_LIMIT := 255

  /** PostgreSQL's text types hold any character but U+0000. */
  predicate Storable(text: Option<string>) {
    text.Some? ==> '\0' !in text.value
  }

  /** A value for the VARCHAR(255) column, if one is given. */
  predicate NameFits(name: Option<string>) {
    Storable(name) && (name.Some? ==> |name.value| <= NAME_LIMIT)
  }

  function FoldChar(c: char): char {
    if 'A' <= c <= 'Z' then (c as int + 32) as char else c
  }

  /** Unquoted SQL names are folded to lower case. */
  function Fold(name: string): string {
    seq(|name|, i requires 0 <= i < |name| => FoldChar(name[i]))
  }

  function ColumnNamed(name: string): Option<Column> {
    var n := Fold(name);
    if n == "id" then Some(IdColumn)
    else if n == "name" then Some(NameColumn)
    else if n == "description" then Some(DescriptionColumn)
    else if n == "created_at" then Some(CreatedAtColumn)
    else if n == "updated_at" then Some(UpdatedAtColumn)
    else None
  }

  predicate TypeMatches(c: Column, v: Cell) {
    match c
    case IdColumn => v.Uuid?
    case NameColumn => v.Text?
    case DescriptionColumn => v.Text?
    case CreatedAtColumn => v.Time?
    case UpdatedAtColumn => v.Time?
  }

  /** The cell can be stored in the column: right type, storable text, and VARCHAR(255) for the name. */
  predicate Fits(c: Column, v: Cell) {
    TypeMatches(c, v) && (v.Text? ==> Storable(Some(v.text))) && (c.NameColumn? ==> NameFits(Some(v.text)))
  }

  function CellAt(row: Row, c: Column): Option<Cell> {
    match c
    case IdColumn => Some(Uuid(row.id))
    case NameColumn => Some(Text(row.name))
    case DescriptionColumn => if row.description.Some? then Some(Text(row.description.value)) else None
    case CreatedAtColumn => Some(Time(row.createdAt))
    case UpdatedAtColumn => Some(Time(row.updatedAt))
  }

  function SetCell(row: Row, c: Column, v: Cell): Row
    requires TypeMatches(c, v)
  {
    match c
    case IdColumn => row.(id := v.id)
    case NameColumn => row.(name := v.text)
    case DescriptionColumn => row.(description := Some(v.text))
    case CreatedAtColumn => row.(createdAt := v.at)
    case UpdatedAtColumn => row.(updatedAt := v.at)
  }

  /** The texts the database takes: U+0000 anywhere is refused, any other text is stored, a name if it
      has at most 255 characters. */
  lemma TextsTaken(a: string, b: string, text: string)
    ensures !Storable(Some(a + "\U{0}" + b)) && Storable(None) && NameFits(None)
    ensures (forall i | 0 <= i < |text| :: text[i] as int != 0) ==>
            Storable(Some(text)) && (NameFits(Some(text)) <==> |text| <= 255)
  {
    assert (a + "\U{0}" + b)[|a|] == '\U{0}';
  }

  /** Letter k of the capitals is folded to letter k of the small ones; nothing else changes. */
  lemma FoldExactly(name: string, i: nat)
    requires i < |name|
    ensures var (capitals, small) := ("ABCDEFGHIJKLMNOPQRSTUVWXYZ", "abcdefghijklmnopqrstuvwxyz");
            && |Fold(name)| == |name|
            && (forall k | 0 <= k < 26 :: name[i] == capitals[k] ==> Fold(name)[i] == small[k])
            && (name[i] !in capitals ==> Fold(name)[i] == name[i])
  {
    var capitals := "ABCDEFGHIJKLMNOPQRSTUVWXYZ";
    if 'A' <= name[i] <= 'Z' {
      assert capitals[name[i] as int - 'A' as int] == name[i];
    }
  }

  /** A written cell is read back, and no other cell changes. */
  lemma CellWritten(row: Row, c: Column, v: Cell, d: Column)
    requires TypeMatches(c, v)
    ensures CellAt(SetCell(row, c, v), d) == if d == c then Some(v) else CellAt(row, d)
  {
  }

  // ---------- Executing a parsed UPDATE ----------

  type Write = (Column, Cell)

  /** The write an assignment denotes, once arguments are bound. */
  function Bind(a: Assignment, args: seq<Cell>, now: int): Option<Write> {
    var c := ColumnNamed(a.column);
    if c.None? then None
    else match a.value
      case Now => Some((c.value, Time(now)))
      case Placeholder(k) => if 1 <= k <= |args| then Some((c.value, args[k - 1])) else None
  }

  function BindAll(list: seq<Assignment>, args: seq<Cell>, now: int): Option<seq<Write>> {
    if list == [] then Some([])
    else
      var first, rest := Bind(list[0], args, now), BindAll(list[1..], args, now);
      if first.None? || rest.None? then None else Some([first.value] + rest.value)
  }

  predicate DistinctColumns(ws: seq<Write>) {
    forall i, j | 0 <= i < j < |ws| :: ws[i].0 != ws[j].0
  }

  predicate AllFit(ws: seq<Write>) {
    forall i | 0 <= i < |ws| :: Fits(ws[i].0, ws[i].1)
  }

  /** The driver checks types, then the server each text, then the column its length. */
  function Misfit(ws: seq<Write>): PyError {
    if exists i | 0 <= i < |ws| :: !TypeMatches(ws[i].0, ws[i].1) then BAD_VALUE
    else if exists i | 0 <= i < |ws| :: ws[i].1.Text? && !Storable(Some(ws[i].1.text)) then BAD_TEXT
    else TOO_LONG
  }

  function HighestPlaceholder(list: seq<Assignment>): nat {
    if list == [] then 0
    else Max(if list[0].value.Placeholder? then list[0].value.index else 0, HighestPlaceholder(list[1..]))
  }

  function ApplyWrites(row: Row, ws: seq<Write>): Row
    requires AllFit(ws)
    decreases |ws|
  {
    if ws == [] then row else ApplyWrites(SetCell(row, ws[0].0, ws[0].1), ws[1..])
  }

  function WrittenRows(rows: seq<Row>, key: Column, cell: Cell, ws: seq<Write>): seq<Row>
    requires AllFit(ws)
  {
    if rows == [] then []
    else [if CellAt(rows[0], key) == Some(cell) then ApplyWrites(rows[0], ws) else rows[0]]
         + WrittenRows(rows[1..], key, cell, ws)
  }

  function ReturnedRows(rows: seq<Row>, key: Column, cell: Cell, ws: seq<Write>): seq<Row>
    requires AllFit(ws)
  {
    if rows == [] then []
    else (if CellAt(rows[0], key) == Some(cell) then [ApplyWrites(rows[0], ws)] else [])
         + ReturnedRows(rows[1..], key, cell, ws)
  }

  predicate ReturnsWholeRow(names: seq<string>) {
    |names| == 5
    && ColumnNamed(names[0]) == Some(IdColumn)
    && ColumnNamed(names[1]) == Some(NameColumn)
    && ColumnNamed(names[2]) == Some(DescriptionColumn)
    && ColumnNamed(names[3]) == Some(CreatedAtColumn)
    && ColumnNamed(names[4]) == Some(UpdatedAtColumn)
  }

  /** New table and returned rows, or the error that leaves the table alone. */
  function EvalUpdate(s: UpdateStatement, args: seq<Cell>, rows: seq<Row>, now: int)
    : Result<(seq<Row>, seq<Row>), PyError>
  {
    var key := ColumnNamed(s.key);
    var ws := BindAll(s.assignments, args, now);
    if Fold(s.table) != "items" || key.None? || !ReturnsWholeRow(s.returning) then Failure(BAD_STATEMENT)
    else if Max(s.keyIndex, HighestPlaceholder(s.assignments)) != |args| || s.keyIndex == 0 then
      Failure(BAD_ARGUMENT_COUNT)
    else if ws.None? || !DistinctColumns(ws.value) then Failure(BAD_STATEMENT)
    else if !TypeMatches(key.value, args[s.keyIndex - 1]) then Failure(BAD_VALUE)
    else if !AllFit(ws.value) then Failure(Misfit(ws.value))
    else
      var cell := args[s.keyIndex - 1];
      var after := WrittenRows(rows, key.value, cell, ws.value);
      if !NoDuplicateIds(after) then Failure(DUPLICATE_KEY)
      else Success((after, ReturnedRows(rows, key.value, cell, ws.value)))
  }

  // ---------- The intended update ----------

  type Fields = seq<(string, Option<Cell>)>
  type Given = seq<(string, Cell)>

  /** The value the caller gave for column `c`, if any. */
  function Assigned(given: Given, c: Column): Option<Cell> {
    if given == [] then None
    else if ColumnNamed(given[0].0) == Some(c) then Some(given[0].1)
    else Assigned(given[1..], c)
  }

  /** The fields name distinct columns other than `updated_at`, with values those columns accept. */
  ghost predicate Acceptable(given: Given) {
    && (forall i | 0 <= i < |given| ::
          var c := ColumnNamed(given[i].0);
          c.Some? && c.value != UpdatedAtColumn && Fits(c.value, given[i].1))
    && (forall i, j | 0 <= i < j < |given| :: ColumnNamed(given[i].0) != ColumnNamed(given[j].0))
  }

  /** The fields name distinct columns other than `updated_at`. */
  ghost predicate Nameable(given: Given) {
    && (forall i | 0 <= i < |given| ::
          var c := ColumnNamed(given[i].0);
          c.Some? && c.value != UpdatedAtColumn)
    && (forall i, j | 0 <= i < j < |given| :: ColumnNamed(given[i].0) != ColumnNamed(given[j].0))
  }

  /** Every value is of its column's type. */
  ghost predicate WellTyped(given: Given) {
    forall i | 0 <= i < |given| :: ColumnNamed(given[i].0).Some? ==> TypeMatches(ColumnNamed(given[i].0).value, given[i].1)
  }

  ghost predicate AllStorable(given: Given) {
    forall i | 0 <= i < |given| :: given[i].1.Text? ==> Storable(Some(given[i].1.text))
  }

  /** The error of an update that is refused: bad columns, else a value of the wrong type, else a text
      that cannot be stored, else a name too long, else a taken id. */
  ghost function Refusal(given: Given): PyError {
    if !Nameable(given) then BAD_STATEMENT
    else if !WellTyped(given) then BAD_VALUE
    else if !AllStorable(given) then BAD_TEXT
    else if !Acceptable(given) then TOO_LONG
    else DUPLICATE_KEY
  }

  /** The record with the given fields replaced and its time stamp renewed. */
  function Patched(row: Row, given: Given, now: int): Row {
    var id, name := Assigned(given, IdColumn), Assigned(given, NameColumn);
    var description, created := Assigned(given, DescriptionColumn), Assigned(given, CreatedAtColumn);
    Row(if id.Some? && id.value.Uuid? then id.value.id else row.id,
        if name.Some? && name.value.Text? then name.value.text else row.name,
        if description.Some? && description.value.Text? then Some(description.value.text) else row.description,
        if created.Some? && created.value.Time? then created.value.at else row.createdAt,
        now)
  }

  /** Only the row with this id is patched; order and every other row stay. */
  function PatchedTable(rows: seq<Row>, id: nat, given: Given, now: int): (after: seq<Row>)
    ensures |after| == |rows|
    ensures forall i | 0 <= i < |rows| ::
              after[i] == if rows[i].id == id then Patched(rows[i], given, now) else rows[i]
  {
    seq(|rows|, i requires 0 <= i < |rows| =>
      if rows[i].id == id then Patched(rows[i], given, now) else rows[i])
  }

  /** The caller moves the row onto an id another row already has. */
  predicate IdClash(rows: seq<Row>, id: nat, given: Given) {
    var target := Assigned(given, IdColumn);
    target.Some? && target.value.Uuid? && target.value.id != id && HasId(rows, id) && HasId(rows, target.value.id)
  }

  // ---------- Both agree ----------

  ghost predicate Known(given: Given) {
    forall i | 0 <= i < |given| :: ColumnNamed(given[i].0).Some?
  }

  ghost function WritesOf(given: Given): (ws: seq<Write>)
    requires Known(given)
    ensures |ws| == |given|
    ensures forall i | 0 <= i < |ws| :: ws[i] == (ColumnNamed(given[i].0).value, given[i].1)
  {
    seq(|given|, i requires 0 <= i < |given| => (ColumnNamed(given[i].0).value, given[i].1))
  }

  lemma StampColumn()
    ensures ColumnNamed("updated_at") == Some(UpdatedAtColumn)
  {
    var n := Fold("updated_at");
    assert n == "updated_at";
    assert n[0] == 'u' && |n| == 10;
    assert n != "id" && n != "name" && n != "description";
    assert "created_at"[0] == 'c';
  }

  lemma FixedNames()
    ensures ColumnNamed("id") == Some(IdColumn) && Fold("items") == "items" && ReturnsWholeRow(RETURNED)
  {
    assert Fold("id") == "id";
    assert Fold("name") == "name";
    assert Fold("description") == "description";
    assert Fold("created_at") == "created_at";
    assert Fold("items") == "items";
    StampColumn();
  }

  function Stamp(now: int): seq<Write> {
    [(UpdatedAtColumn, Time(now))]
  }

  lemma BindStamp(args: seq<Cell>, now: int)
    ensures BindAll([Assignment("updated_at", Now)], args, now) == Some(Stamp(now))
  {
    StampColumn();
    var list := [Assignment("updated_at", Now)];
    assert list[1..] == [];
    assert BindAll(list[1..], args, now) == Some([]);
    assert Bind(list[0], args, now) == Some((UpdatedAtColumn, Time(now)));
    assert [(UpdatedAtColumn, Time(now))] + [] == Stamp(now);
  }

  /** Binding the intended assignments: field i receives argument i. */
  lemma {:induction false} BindIntended(given: Given, index: nat, args: seq<Cell>, now: int)
    requires 1 <= index && index - 1 + |given| <= |args|
    requires forall i | 0 <= i < |given| :: args[index - 1 + i] == given[i].1
    ensures BindAll(Intended(given, index), args, now)
         == if Known(given) then Some(WritesOf(given) + Stamp(now)) else None
  {
    hide ColumnNamed;
    if given == [] {
      BindStamp(args, now);
      assert WritesOf(given) + Stamp(now) == Stamp(now);
    } else {
      var list := Intended(given, index);
      BindIntended(given[1..], index + 1, args, now);
      assert list[1..] == Intended(given[1..], index + 1);
      if Known(given) {
        assert Known(given[1..]);
        assert WritesOf(given) + Stamp(now)
            == [(ColumnNamed(given[0].0).value, given[0].1)] + (WritesOf(given[1..]) + Stamp(now));
      } else if ColumnNamed(given[0].0).Some? {
        assert !Known(given[1..]);
      }
    }
  }

  lemma {:induction false} HighestIntended<V>(given: seq<(string, V)>, index: nat)
    ensures HighestPlaceholder(Intended(given, index)) <= index + |given|
  {
    if given != [] {
      HighestIntended(given[1..], index + 1);
    } else {
      assert Intended(given, index)[1..] == [];
    }
  }

  /** Writing the columns one after the other is the record update. */
  lemma {:induction false} ApplyWritesPatches(row: Row, given: Given, now: int)
    requires Acceptable(given) && Known(given)
    requires AllFit(WritesOf(given) + Stamp(now))
    ensures ApplyWrites(row, WritesOf(given) + Stamp(now)) == Patched(row, given, now)
    decreases |given|
  {
    hide ColumnNamed;
    var ws := WritesOf(given) + Stamp(now);
    if given == [] {
      assert ws[1..] == [];
    } else {
      var c, v, rest := ColumnNamed(given[0].0).value, given[0].1, given[1..];
      assert ws[1..] == WritesOf(rest) + Stamp(now);
      assert Acceptable(rest);
      assert ws[0] == (c, v);
      ApplyWritesPatches(SetCell(row, c, v), rest, now);
      NotReassigned(given);
    }
  }

  lemma NotReassigned(given: Given)
    requires Acceptable(given) && given != []
    ensures Assigned(given[1..], ColumnNamed(given[0].0).value) == None
  {
    hide ColumnNamed;
    AssignedNone(given[1..], ColumnNamed(given[0].0).value);
  }

  lemma {:induction false} AssignedNone(given: Given, c: Column)
    requires forall i | 0 <= i < |given| :: ColumnNamed(given[i].0) != Some(c)
    ensures Assigned(given, c) == None
  {
    hide ColumnNamed;
    if given != [] {
      AssignedNone(given[1..], c);
    }
  }

  lemma {:induction false} WrittenIsPatched(rows: seq<Row>, id: nat, given: Given, now: int)
    requires Acceptable(given) && Known(given)
    requires AllFit(WritesOf(given) + Stamp(now))
    ensures WrittenRows(rows, IdColumn, Uuid(id), WritesOf(given) + Stamp(now))
         == PatchedTable(rows, id, given, now)
    ensures ReturnedRows(rows, IdColumn, Uuid(id), WritesOf(given) + Stamp(now))
         == PatchedRows(WithId(rows, id), given, now)
  {
    hide ColumnNamed, ApplyWrites, Patched, WritesOf, Acceptable, Known, AllFit;
    if rows != [] {
      WrittenIsPatched(rows[1..], id, given, now);
      ApplyWritesPatches(rows[0], given, now);
      assert PatchedTable(rows, id, given, now)
          == [if rows[0].id == id then Patched(rows[0], given, now) else rows[0]]
             + PatchedTable(rows[1..], id, given, now);
      if rows[0].id == id {
        PatchedRowsCons(rows[0], WithId(rows[1..], id), given, now);
      } else {
        assert WithId(rows, id) == WithId(rows[1..], id);
      }
    }
  }

  function PatchedRows(rows: seq<Row>, given: Given, now: int): seq<Row> {
    if rows == [] then [] else [Patched(rows[0], given, now)] + PatchedRows(rows[1..], given, now)
  }

  lemma PatchedRowsCons(row: Row, rows: seq<Row>, given: Given, now: int)
    ensures PatchedRows([row] + rows, given, now) == [Patched(row, given, now)] + PatchedRows(rows, given, now)
  {
    hide Patched;
    assert ([row] + rows)[1..] == rows;
  }

  lemma StampFits(now: int)
    ensures Fits(UpdatedAtColumn, Time(now))
  {
  }

  lemma AcceptableIffWritable(given: Given, now: int)
    ensures Acceptable(given) <==>
            Known(given) && DistinctColumns(WritesOf(given) + Stamp(now))
            && AllFit(WritesOf(given) + Stamp(now))
    ensures Nameable(given) <==> Known(given) && DistinctColumns(WritesOf(given) + Stamp(now))
  {
    hide ColumnNamed, Fits;
    if Known(given) {
      var ws := WritesOf(given) + Stamp(now);
      StampFits(now);
      assert forall i | 0 <= i < |given| :: ws[i] == (ColumnNamed(given[i].0).value, given[i].1);
      assert ws[|given|] == (UpdatedAtColumn, Time(now));
    }
  }

  lemma PatchedId(row: Row, given: Given, now: int)
    ensures Patched(row, given, now).id
         == if Assigned(given, IdColumn).Some? && Assigned(given, IdColumn).value.Uuid?
            then Assigned(given, IdColumn).value.id else row.id
  {
  }

  lemma ClashIffDuplicate(rows: seq<Row>, id: nat, given: Given, now: int)
    requires UniqueIds(rows)
    ensures UniqueIds(PatchedTable(rows, id, given, now)) <==> !IdClash(rows, id, given)
  {
  }

  lemma AcceptableThroughout(given: Given)
    ensures Acceptable(given) ==> Nameable(given) && WellTyped(given) && AllStorable(given)
  {
    hide ColumnNamed;
  }

  lemma MisfitOf(given: Given, now: int)
    requires Nameable(given) && Known(given) && !Acceptable(given)
    ensures Misfit(WritesOf(given) + Stamp(now)) == Refusal(given)
  {
    hide ColumnNamed, Storable, NameFits;
    var ws := WritesOf(given) + Stamp(now);
    assert forall i | 0 <= i < |given| :: ws[i] == (ColumnNamed(given[i].0).value, given[i].1);
    assert ws[|given|] == (UpdatedAtColumn, Time(now)) && TypeMatches(UpdatedAtColumn, Time(now));
    if i :| 0 <= i < |given| && !TypeMatches(ColumnNamed(given[i].0).value, given[i].1) {
      assert !TypeMatches(ws[i].0, ws[i].1);
    } else if i :| 0 <= i < |given| && given[i].1.Text? && !Storable(Some(given[i].1.text)) {
      assert ws[i].1.Text? && !Storable(Some(ws[i].1.text));
    }
  }

  /** Execution of a statement of the built form, once its assignments are bound. */
  lemma EvalBound(list: seq<Assignment>, args: seq<Cell>, id: nat, rows: seq<Row>, now: int)
    requires args != [] && args[|args| - 1] == Uuid(id) && HighestPlaceholder(list) <= |args|
    ensures var ws := BindAll(list, args, now);
            EvalUpdate(UpdateStatement("items", list, "id", |args|, RETURNED), args, rows, now)
            == if ws.None? || !DistinctColumns(ws.value) then Failure(BAD_STATEMENT)
               else if !AllFit(ws.value) then Failure(Misfit(ws.value))
               else if !NoDuplicateIds(WrittenRows(rows, IdColumn, Uuid(id), ws.value)) then Failure(DUPLICATE_KEY)
               else Success((WrittenRows(rows, IdColumn, Uuid(id), ws.value),
                             ReturnedRows(rows, IdColumn, Uuid(id), ws.value)))
  {
    FixedNames();
    hide ColumnNamed, ReturnsWholeRow, Fold, HighestPlaceholder, BindAll, DistinctColumns, AllFit, Misfit,
      WrittenRows, ReturnedRows;
  }

  lemma EvalIntended(given: Given, id: nat, rows: seq<Row>, now: int)
    requires UniqueIds(rows)
    ensures var s := UpdateStatement("items", Intended(given, 1), "id", |given| + 1, RETURNED);
            var r := EvalUpdate(s, Values(given) + [Uuid(id)], rows, now);
            && (r.Success? <==> Acceptable(given) && !IdClash(rows, id, given))
            && (r.Success? ==>
                  r.value == (PatchedTable(rows, id, given, now), PatchedRows(WithId(rows, id), given, now)))
            && (r.Failure? ==> r.error == Refusal(given))
  {
    hide EvalUpdate, WithId, IdClash, PatchedRows, PatchedTable, Intended, HighestPlaceholder, WrittenRows, ReturnedRows,
      BindAll, Acceptable, Nameable, WellTyped, AllStorable, Misfit, Known, DistinctColumns, AllFit, WritesOf, UniqueIds;
    var args := Values(given) + [Uuid(id)];
    BindIntended(given, 1, args, now);
    HighestIntended(given, 1);
    AcceptableIffWritable(given, now);
    if Nameable(given) && !Acceptable(given) {
      MisfitOf(given, now);
    }
    AcceptableThroughout(given);
    EvalBound(Intended(given, 1), args, id, rows, now);
    if Acceptable(given) {
      WrittenIsPatched(rows, id, given, now);
      ClashIffDuplicate(rows, id, given, now);
    }
  }

  /** Meaning preservation. The text `update` builds, read back and executed with the arguments it
      sends, succeeds exactly when the fields are acceptable and do not move the row onto a taken
      id; it then replaces exactly the given fields of the row with that id, renews `updated_at`,
      leaves all else alone, and returns the patched row or nothing if the id is absent. */
  lemma UpdateMeaning(given: Given, id: nat, rows: seq<Row>, now: int)
    requires Identifiers(given) && UniqueIds(rows)
    ensures Parse(BuiltText(given)).Some?
    ensures var r := EvalUpdate(Parse(BuiltText(given)).value, Values(given) + [Uuid(id)], rows, now);
            && (r.Success? <==> Acceptable(given) && !IdClash(rows, id, given))
            && (r.Success? ==>
                  r.value == (PatchedTable(rows, id, given, now), PatchedRows(WithId(rows, id), given, now)))
            && (r.Failure? ==> r.error == Refusal(given))
  {
    hide *;
    UpdateRoundTrip(given);
    EvalIntended(given, id, rows, now);
  }
}

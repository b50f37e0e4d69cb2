/** The database server: the repository's statements as atomic steps on the stored table, and the
    algebra of updates that follows from the meaning of the built text. */
module Database {
  import opened Prelude
  import opened Strings
  import opened UpdateSql
  import opened Errors
  import opened Rows
  import opened Pagination
  import opened ItemsTable

  datatype Statement =
    | InsertItem(id: nat, name: Option<string>, description: Option<string>)
    | SelectById(id: nat)
    | SelectPage(limit: nat, offset: nat)
    | CountItems
    | UpdateItems(text: string, args: seq<Cell>)
    | DeleteById(id: nat)

  /** What the driver hands back: records, one value, or a command tag. */
  datatype Answer = Fetched(rows: seq<Row>) | Scalar(value: nat) | Tag(text: string)

  /** New table and answer, or the error of a statement that had no effect. `now` is the start of
      the transaction, `tie` the plan's order among equal time stamps. */
  function Execute(rows: seq<Row>, s: Statement, now: int, tie: Row -> int): Result<(seq<Row>, Answer), PyError> {
    match s
    case InsertItem(id, name, description) =>
      if !Storable(name) || !Storable(description) then Failure(BAD_TEXT)
      else if name.None? then Failure(NULL_IN_COLUMN)
      else if !NameFits(name) then Failure(TOO_LONG)
      else if HasId(rows, id) then Failure(DUPLICATE_KEY)
      else
        var row := Row(id, name.value, description, now, now);
        Success((rows + [row], Fetched([row])))
    case SelectById(id) => Success((rows, Fetched(WithId(rows, id))))
    case SelectPage(limit, offset) => Success((rows, Fetched(Page(Listing(rows, tie), limit, offset))))
    case CountItems => Success((rows, Scalar(|rows|)))
    case UpdateItems(text, args) =>
      var parsed := Parse(text);
      if parsed.None? then Failure(BAD_STATEMENT)
      else
        var r := EvalUpdate(parsed.value, args, rows, now);
        if r.Failure? then Failure(r.error) else Success((r.value.0, Fetched(r.value.1)))
    case DeleteById(id) =>
      Success((WithoutId(rows, id), Tag("DELETE " + Render(|WithId(rows, id)|))))
  }

  /** The statement `ItemRepository.update` sends for these fields. */
  function UpdateStatementFor(id: nat, fields: Fields): Statement {
    var given := Present(fields);
    if given == [] then SelectById(id)
    else UpdateItems(BuiltText(given), Values(given) + [Uuid(id)])
  }

  /** Executing the update call: a pure read when every field is None, otherwise the intended
      record update, refused as a whole when a field is not acceptable or the id would clash. */
  lemma UpdateExecutes(rows: seq<Row>, id: nat, fields: Fields, now: int, tie: Row -> int)
    requires UniqueIds(rows) && Identifiers(Present(fields))
    ensures var given := Present(fields);
            var r := Execute(rows, UpdateStatementFor(id, fields), now, tie);
            if given == [] then r == Success((rows, Fetched(WithId(rows, id))))
            else
              && (r.Success? <==> Acceptable(given) && !IdClash(rows, id, given))
              && (r.Success? ==>
                    r.value == (PatchedTable(rows, id, given, now),
                                Fetched(PatchedRows(WithId(rows, id), given, now))))
              && (r.Failure? ==> r.error == Refusal(given))
  {
    hide EvalUpdate, Parse, BuiltText, PatchedRows, WithId, Acceptable, Refusal, IdClash;
    var given := Present(fields);
    if given != [] {
      UpdateMeaning(given, id, rows, now);
    }
  }

  /** The command tag says "DELETE 1" exactly when one row went. */
  lemma DeleteTag(n: nat)
    ensures "DELETE " + Render(n) == "DELETE 1" <==> n == 1
  {
    RenderRoundTrip(n);
    RenderRoundTrip(1);
    assert "DELETE 1" == "DELETE " + Render(1);
    var a, b := "DELETE " + Render(n), "DELETE " + Render(1);
    assert a[7..] == Render(n) && b[7..] == Render(1);
  }

  // ---------- Update algebra ----------

  /** The fields of `f` that `g` does not give. */
  function Kept(f: Given, g: Given): Given {
    if f == [] then []
    else
      var c := ColumnNamed(f[0].0);
      (if c.Some? && Assigned(g, c.value).Some? then [] else [f[0]]) + Kept(f[1..], g)
  }

  /** `f` overridden by `g`. */
  function Override(f: Given, g: Given): Given {
    g + Kept(f, g)
  }

  lemma {:induction false} AssignedAppend(a: Given, b: Given, c: Column)
    ensures Assigned(a + b, c) == if Assigned(a, c).Some? then Assigned(a, c) else Assigned(b, c)
  {
    hide ColumnNamed;
    if a == [] {
      assert a + b == b;
    } else {
      assert (a + b)[1..] == a[1..] + b;
      AssignedAppend(a[1..], b, c);
    }
  }

  lemma {:induction false} AssignedKept(f: Given, g: Given, c: Column)
    ensures Assigned(Kept(f, g), c) == if Assigned(g, c).Some? then None else Assigned(f, c)
  {
    hide ColumnNamed;
    if f != [] {
      AssignedKept(f[1..], g, c);
      var d := ColumnNamed(f[0].0);
      var head := if d.Some? && Assigned(g, d.value).Some? then [] else [f[0]];
      AssignedAppend(head, Kept(f[1..], g), c);
      if head != [] {
        assert head[1..] == [];
      }
    }
  }

  lemma {:induction false} AssignedFits(given: Given, c: Column)
    requires Acceptable(given)
    ensures Assigned(given, c).Some? ==> Fits(c, Assigned(given, c).value)
  {
    hide ColumnNamed;
    if given != [] {
      assert Acceptable(given[1..]);
      AssignedFits(given[1..], c);
    }
  }

  lemma OverrideAssigned(f: Given, g: Given, c: Column)
    ensures Assigned(Override(f, g), c) == if Assigned(g, c).Some? then Assigned(g, c) else Assigned(f, c)
  {
    AssignedAppend(g, Kept(f, g), c);
    AssignedKept(f, g, c);
  }

  lemma {:induction false} KeptFrom(f: Given, g: Given, i: nat) returns (j: nat)
    requires i < |Kept(f, g)|
    ensures j < |f| && Kept(f, g)[i] == f[j]
    ensures ColumnNamed(f[j].0).Some? ==> Assigned(g, ColumnNamed(f[j].0).value).None?
  {
    hide ColumnNamed;
    var head := |Kept(f, g)| - |Kept(f[1..], g)|;
    if i < head {
      j := 0;
    } else {
      j := KeptFrom(f[1..], g, i - head);
      j := j + 1;
    }
  }

  lemma {:induction false} KeptAcceptable(f: Given, g: Given)
    requires Acceptable(f)
    ensures Acceptable(Kept(f, g))
  {
    hide ColumnNamed, Fits;
    if f != [] {
      assert Acceptable(f[1..]);
      KeptAcceptable(f[1..], g);
      var rest := Kept(f[1..], g);
      forall i | 0 <= i < |rest|
        ensures ColumnNamed(rest[i].0) != ColumnNamed(f[0].0)
      {
        var j := KeptFrom(f[1..], g, i);
        assert f[1..][j] == f[j + 1];
      }
    }
  }

  lemma {:induction false} AssignedGiven(g: Given, i: nat)
    requires i < |g| && ColumnNamed(g[i].0).Some?
    ensures Assigned(g, ColumnNamed(g[i].0).value).Some?
  {
    hide ColumnNamed;
    if i > 0 {
      AssignedGiven(g[1..], i - 1);
    }
  }

  lemma OverrideAcceptable(f: Given, g: Given)
    requires Acceptable(f) && Acceptable(g)
    ensures Acceptable(Override(f, g))
  {
    hide ColumnNamed, Fits, Kept, Assigned;
    KeptAcceptable(f, g);
    var k := Kept(f, g);
    forall i, j | 0 <= i < |g| && 0 <= j < |k|
      ensures ColumnNamed(g[i].0) != ColumnNamed(k[j].0)
    {
      AssignedGiven(g, i);
      var m := KeptFrom(f, g, j);
    }
  }

  lemma OverrideFits(f: Given, g: Given, c: Column)
    requires Acceptable(f) && Acceptable(g)
    ensures Assigned(Override(f, g), c) == if Assigned(g, c).Some? then Assigned(g, c) else Assigned(f, c)
    ensures Assigned(f, c).Some? ==> Fits(c, Assigned(f, c).value)
    ensures Assigned(g, c).Some? ==> Fits(c, Assigned(g, c).value)
  {
    OverrideAssigned(f, g, c);
    AssignedFits(f, c);
    AssignedFits(g, c);
  }

  lemma PatchedTwice(row: Row, f: Given, g: Given, t1: int, t2: int)
    requires Acceptable(f) && Acceptable(g)
    ensures Patched(Patched(row, f, t1), g, t2) == Patched(row, Override(f, g), t2)
  {
    hide ColumnNamed, Override, Acceptable, Assigned;
    OverrideFits(f, g, IdColumn);
    OverrideFits(f, g, NameColumn);
    OverrideFits(f, g, DescriptionColumn);
    OverrideFits(f, g, CreatedAtColumn);
  }

  /** On the stored table: patching twice is patching once with the override. */
  lemma PatchedTableTwice(rows: seq<Row>, id: nat, f: Given, g: Given, t1: int, t2: int)
    requires Acceptable(f) && Acceptable(g) && Assigned(f, IdColumn).None?
    ensures PatchedTable(PatchedTable(rows, id, f, t1), id, g, t2) == PatchedTable(rows, id, Override(f, g), t2)
  {
    hide Patched, Override, Acceptable, Assigned;
    var once := PatchedTable(rows, id, f, t1);
    forall i | 0 <= i < |rows|
      ensures PatchedTable(once, id, g, t2)[i] == PatchedTable(rows, id, Override(f, g), t2)[i]
    {
      PatchedId(rows[i], f, t1);
      PatchedTwice(rows[i], f, g, t1, t2);
    }
  }

  /** The rows an update returns are the patched ones, found again in the patched table. */
  lemma {:induction false} FoundPatched(rows: seq<Row>, id: nat, f: Given, now: int)
    requires Assigned(f, IdColumn).None?
    ensures WithId(PatchedTable(rows, id, f, now), id) == PatchedRows(WithId(rows, id), f, now)
  {
    hide Patched, Assigned;
    if rows != [] {
      FoundPatched(rows[1..], id, f, now);
      PatchedId(rows[0], f, now);
      var after := PatchedTable(rows, id, f, now);
      assert after[1..] == PatchedTable(rows[1..], id, f, now);
      if rows[0].id == id {
        assert WithId(rows, id)[1..] == WithId(rows[1..], id);
        assert WithId(after, id) == [after[0]] + WithId(after[1..], id);
      } else {
        assert WithId(rows, id) == WithId(rows[1..], id);
        assert WithId(after, id) == WithId(after[1..], id);
      }
    }
  }

  // ---------- The algebra of update calls ----------

  /** Keyword arguments that all carry a value. */
  function AllGiven(given: Given): (fields: Fields)
    ensures |fields| == |given| && forall i | 0 <= i < |given| :: fields[i] == (given[i].0, Some(given[i].1))
  {
    seq(|given|, i requires 0 <= i < |given| => (given[i].0, Some(given[i].1)))
  }

  lemma {:induction false} PresentAllGiven(given: Given)
    ensures Present(AllGiven(given)) == given
  {
    if given != [] {
      PresentAllGiven(given[1..]);
      assert AllGiven(given)[1..] == AllGiven(given[1..]);
      assert [given[0]] + given[1..] == given;
    }
  }

  /** The keyword arguments of `f` overridden by the ones of `g` that are not None. */
  function OverrideFields(f: Fields, g: Fields): Fields {
    AllGiven(Override(Present(f), Present(g)))
  }

  /** An update call the database does not refuse, and that leaves the row its id. */
  ghost predicate Harmless(fields: Fields) {
    var given := Present(fields);
    Identifiers(given) && Acceptable(given) && Assigned(given, IdColumn).None?
  }

  /** The effect of an update call on the table. */
  function UpdatedTable(rows: seq<Row>, id: nat, fields: Fields, now: int): seq<Row> {
    if Present(fields) == [] then rows else PatchedTable(rows, id, Present(fields), now)
  }

  /** A harmless update call succeeds, keeps ids unique and returns the row as now stored. */
  lemma HarmlessUpdate(rows: seq<Row>, id: nat, fields: Fields, now: int, tie: Row -> int)
    requires UniqueIds(rows) && Harmless(fields)
    ensures UniqueIds(UpdatedTable(rows, id, fields, now))
    ensures Execute(rows, UpdateStatementFor(id, fields), now, tie)
         == Success((UpdatedTable(rows, id, fields, now), Fetched(WithId(UpdatedTable(rows, id, fields, now), id))))
  {
    hide Execute, UpdateStatementFor, WithId, Assigned, Acceptable, PatchedRows, Patched, Present;
    UpdateExecutes(rows, id, fields, now, tie);
    var given := Present(fields);
    if given != [] {
      ClashIffDuplicate(rows, id, given, now);
      FoundPatched(rows, id, given, now);
    }
  }

  lemma {:induction false} KeptAll(f: Given)
    ensures Kept(f, []) == f
  {
    if f != [] {
      KeptAll(f[1..]);
      assert [f[0]] + f[1..] == f;
    }
  }

  lemma {:induction false} KeptIdentifiers(f: Given, g: Given)
    requires Identifiers(f)
    ensures Identifiers(Kept(f, g))
  {
    hide ColumnNamed, IsIdentifier;
    if f != [] {
      KeptIdentifiers(f[1..], g);
    }
  }

  lemma OverrideHarmless(f: Fields, g: Fields)
    requires Harmless(f) && Harmless(g)
    ensures Harmless(OverrideFields(f, g)) && Present(OverrideFields(f, g)) == Override(Present(f), Present(g))
  {
    var a, b := Present(f), Present(g);
    PresentAllGiven(Override(a, b));
    OverrideAcceptable(a, b);
    OverrideAssigned(a, b, IdColumn);
    KeptIdentifiers(a, b);
    hide Present, Acceptable, Assigned, Kept, IsIdentifier;
  }

  lemma UpdatedTableTwice(rows: seq<Row>, id: nat, f: Fields, g: Fields, t1: int, t2: int)
    requires Harmless(f) && Harmless(g)
    ensures UpdatedTable(UpdatedTable(rows, id, f, t1), id, g, t2)
         == UpdatedTable(rows, id, OverrideFields(f, g), if Present(g) == [] then t1 else t2)
  {
    OverrideHarmless(f, g);
    var a, b := Present(f), Present(g);
    if a == [] {
      assert Override(a, b) == b;
    } else if b == [] {
      KeptAll(a);
      assert Override(a, b) == a;
    } else {
      PatchedTableTwice(rows, id, a, b, t1, t2);
    }
    hide Present, Acceptable, Assigned, Kept, OverrideFields, Harmless;
  }

  /** Two update calls, with f at t1 and then with g at t2, are one call with f overridden by g: the
      same table and the same returned row, for any fields, None or not, on any table. The stamp is
      t2 if g sets something, else t1 if f does; if neither does, nothing is written. */
  lemma UpdateTwice(rows: seq<Row>, id: nat, f: Fields, g: Fields, t1: int, t2: int, tie: Row -> int)
    requires UniqueIds(rows) && Harmless(f) && Harmless(g)
    ensures var first := Execute(rows, UpdateStatementFor(id, f), t1, tie);
            first.Success? &&
            var second := Execute(first.value.0, UpdateStatementFor(id, g), t2, tie);
            var stamp := if Present(g) == [] then t1 else t2;
            && second.Success?
            && second == Execute(rows, UpdateStatementFor(id, OverrideFields(f, g)), stamp, tie)
  {
    hide Execute, UpdateStatementFor, UpdatedTable, Harmless, OverrideFields, WithId, UniqueIds;
    var stamp := if Present(g) == [] then t1 else t2;
    OverrideHarmless(f, g);
    HarmlessUpdate(rows, id, f, t1, tie);
    HarmlessUpdate(UpdatedTable(rows, id, f, t1), id, g, t2, tie);
    HarmlessUpdate(rows, id, OverrideFields(f, g), stamp, tie);
    UpdatedTableTwice(rows, id, f, g, t1, t2);
  }

  lemma PatchedAgain(row: Row, f: Given, t1: int, t2: int)
    ensures Patched(Patched(row, f, t1), f, t2) == Patched(row, f, t1).(updatedAt := t2)
  {
    hide Assigned;
  }

  /** Repeating an update call changes nothing but the time stamp of its row, and not even that when
      the call sets nothing. */
  lemma UpdateAgain(rows: seq<Row>, id: nat, f: Fields, t1: int, t2: int, tie: Row -> int)
    requires UniqueIds(rows) && Harmless(f)
    ensures var first := Execute(rows, UpdateStatementFor(id, f), t1, tie);
            first.Success? &&
            var once := first.value.0;
            var second := Execute(once, UpdateStatementFor(id, f), t2, tie);
            && second.Success? && |second.value.0| == |once|
            && forall i | 0 <= i < |once| ::
                 second.value.0[i]
                 == if once[i].id == id && Present(f) != [] then once[i].(updatedAt := t2) else once[i]
  {
    HarmlessUpdate(rows, id, f, t1, tie);
    var once := UpdatedTable(rows, id, f, t1);
    HarmlessUpdate(once, id, f, t2, tie);
    hide Execute, UpdateStatementFor, Harmless, WithId, UniqueIds, Present, Patched, Assigned;
    var given := Present(f);
    if given != [] {
      forall i | 0 <= i < |once|
        ensures PatchedTable(once, id, given, t2)[i] == if once[i].id == id then once[i].(updatedAt := t2) else once[i]
      {
        HarmlessKeepsId(rows[i], f, t1);
        PatchedAgain(rows[i], given, t1, t2);
      }
    }
  }

  lemma HarmlessKeepsId(row: Row, f: Fields, now: int)
    requires Harmless(f)
    ensures Patched(row, Present(f), now).id == row.id
  {
    PatchedId(row, Present(f), now);
  }
}

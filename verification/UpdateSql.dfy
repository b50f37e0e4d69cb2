/** The statement text `ItemRepository.update` assembles, and an independent reading of it:
    a lexer and a parser for `UPDATE t SET c = e, ... WHERE c = $k RETURNING c, ...`. */
module UpdateSql {
  import opened Prelude
  import opened Strings

  // ---------- Reading: characters to tokens ----------

  datatype Token = Word(text: string) | Param(index: nat) | Equals | Comma | OpenParen | CloseParen

  /** Length of the longest prefix of `s` made of identifier characters. */
  function WordRun(s: string): (n: nat)
    ensures n <= |s|
  {
    if s == "" || !IsWordChar(s[0]) then 0 else 1 + WordRun(s[1..])
  }

  /** Length of the longest prefix of `s` made of digits. */
  function DigitRun(s: string): (n: nat)
    ensures n <= |s| && forall i | 0 <= i < n :: IsDigit(s[i])
  {
    if s == "" || !IsDigit(s[0]) then 0 else 1 + DigitRun(s[1..])
  }

  /** What stands at the front of `s`: a blank (no token) or one token, and how long it is. */
  function Scan(s: string): (r: Option<(seq<Token>, nat)>)
    requires s != ""
    ensures r.Some? ==> 1 <= r.value.1 <= |s|
  {
    if s[0] == ' ' then Some(([], 1))
    else if s[0] == '=' then Some(([Equals], 1))
    else if s[0] == ',' then Some(([Comma], 1))
    else if s[0] == '(' then Some(([OpenParen], 1))
    else if s[0] == ')' then Some(([CloseParen], 1))
    else if IsWordStart(s[0]) then
      var n := 1 + WordRun(s[1..]);
      Some(([Word(s[..n])], n))
    else if s[0] == '$' then
      var n := DigitRun(s[1..]);
      if n == 0 then None else Some(([Param(NumeralValue(s[1..][..n]))], 1 + n))
    else None
  }

  function Concat(ts: seq<Token>, rest: Option<seq<Token>>): Option<seq<Token>> {
    if rest.Some? then Some(ts + rest.value) else None
  }

  function Lex(s: string): Option<seq<Token>>
    decreases |s|
  {
    if s == "" then Some([])
    else
      var front := Scan(s);
      if front.None? then None else Concat(front.value.0, Lex(s[front.value.1..]))
  }

  // ---------- Reading: tokens to a statement ----------

  datatype Expr = Placeholder(index: nat) | Now

  datatype Assignment = Assignment(column: string, value: Expr)

  datatype UpdateStatement = UpdateStatement(
    table: string, assignments: seq<Assignment>, key: string, keyIndex: nat, returning: seq<string>)

  /** `col = $k` or `col = now()`, then a comma and more, or the end of the list. */
  function ParseAssignments(ts: seq<Token>): Option<(seq<Assignment>, seq<Token>)> {
    if |ts| < 3 || !ts[0].Word? || ts[1] != Equals then None
    else
      var right: Option<(Expr, seq<Token>)> :=
        if ts[2].Param? then Some((Placeholder(ts[2].index), ts[3..]))
        else if |ts| >= 5 && ts[2..5] == [Word("now"), OpenParen, CloseParen] then Some((Now, ts[5..]))
        else None;
      if right.None? then None
      else
        var first, rest := Assignment(ts[0].text, right.value.0), right.value.1;
        if rest != [] && rest[0] == Comma then
          var more := ParseAssignments(rest[1..]);
          if more.None? then None else Some(([first] + more.value.0, more.value.1))
        else Some(([first], rest))
  }

  /** A comma-separated, non-empty list of names up to the end of the statement. */
  function ParseNames(ts: seq<Token>): Option<seq<string>> {
    if ts == [] || !ts[0].Word? then None
    else if |ts| == 1 then Some([ts[0].text])
    else if ts[1] != Comma then None
    else
      var more := ParseNames(ts[2..]);
      if more.None? then None else Some([ts[0].text] + more.value)
  }

  function ParseTokens(ts: seq<Token>): Option<UpdateStatement> {
    if |ts| < 3 || ts[0] != Word("UPDATE") || !ts[1].Word? || ts[2] != Word("SET") then None
    else
      var list := ParseAssignments(ts[3..]);
      if list.None? then None
      else
        var tail := list.value.1;
        if |tail| < 5 || tail[0] != Word("WHERE") || !tail[1].Word? || tail[2] != Equals
           || !tail[3].Param? || tail[4] != Word("RETURNING") then None
        else
          var names := ParseNames(tail[5..]);
          if names.None? then None
          else Some(UpdateStatement(ts[1].text, list.value.0, tail[1].text, tail[3].index, names.value))
  }

  function Parse(text: string): Option<UpdateStatement> {
    var ts := Lex(text);
    if ts.None? then None else ParseTokens(ts.value)
  }

  // ---------- Writing: the builder ----------

  const RETURNED := ["id", "name", "description", "created_at", "updated_at"]

  function Clause(key: string, index: nat): string {
    key + " = $" + Render(index)
  }

  /** The column list of every RETURNING and SELECT in the repository, `id, name, description,
      created_at, updated_at`, piece by piece. */
  const COLUMN_LIST := "id, " + ("name, " + ("description, " + ("created_at, " + "updated_at")))

  function WhereText(keyIndex: nat): string {
    "WHERE id = $" + Render(keyIndex) + " " + ("RETURNING " + COLUMN_LIST)
  }

  function UpdateText(clauses: seq<string>, keyIndex: nat): string {
    "UPDATE items SET " + Join(", ", clauses) + " " + WhereText(keyIndex)
  }

  /** The keyword fields that carry a value, in the order given. */
  function Present<V>(fields: seq<(string, Option<V>)>): seq<(string, V)> {
    if fields == [] then []
    else
      var rest := Present(fields[1..]);
      if fields[0].1.Some? then [(fields[0].0, fields[0].1.value)] + rest else rest
  }

  function Values<V>(present: seq<(string, V)>): (vs: seq<V>)
    ensures |vs| == |present| && forall i | 0 <= i < |vs| :: vs[i] == present[i].1
  {
    seq(|present|, i requires 0 <= i < |present| => present[i].1)
  }

  /** Clauses for `present`, the first of them numbered `index`. */
  function Clauses<V>(present: seq<(string, V)>, index: nat): (cs: seq<string>)
    ensures |cs| == |present|
  {
    if present == [] then [] else [Clause(present[0].0, index)] + Clauses(present[1..], index + 1)
  }

  lemma {:induction false} PresentAppend<V>(fields: seq<(string, Option<V>)>, f: (string, Option<V>))
    ensures Present(fields + [f]) == Present(fields) + (if f.1.Some? then [(f.0, f.1.value)] else [])
  {
    if fields == [] {
      assert fields + [f] == [f];
    } else {
      assert (fields + [f])[1..] == fields[1..] + [f];
      PresentAppend(fields[1..], f);
    }
  }

  lemma {:induction false} ClausesAppend<V>(present: seq<(string, V)>, p: (string, V), index: nat)
    ensures Clauses(present + [p], index) == Clauses(present, index) + [Clause(p.0, index + |present|)]
  {
    if present == [] {
      assert present + [p] == [p];
    } else {
      assert (present + [p])[1..] == present[1..] + [p];
      ClausesAppend(present[1..], p, index + 1);
    }
  }

  /** The text `update` sends for these fields. */
  function BuiltText<V>(present: seq<(string, V)>): string {
    UpdateText(Clauses(present, 1) + ["updated_at = now()"], |present| + 1)
  }

  /** The builder loop. `None` is the all-None call, which sends no UPDATE. */
  method BuildUpdate<V>(itemId: V, fields: seq<(string, Option<V>)>)
    returns (query: Option<string>, args: seq<V>)
    ensures query.None? <==> Present(fields) == []
    ensures query.Some? ==> query.value == BuiltText(Present(fields))
    ensures query.Some? ==> args == Values(Present(fields)) + [itemId]
  {
    var setClauses: seq<string> := [];
    args := [];
    var idx := 1;
    for n := 0 to |fields|
      invariant setClauses == Clauses(Present(fields[..n]), 1)
      invariant args == Values(Present(fields[..n]))
      invariant idx == |Present(fields[..n])| + 1
    {
      var (key, value) := fields[n];
      PresentAppend(fields[..n], fields[n]);
      assert fields[..n + 1] == fields[..n] + [fields[n]];
      assert Present(fields[..n]) + [] == Present(fields[..n]);
      if value.Some? {
        ClausesAppend(Present(fields[..n]), (key, value.value), 1);
        setClauses := setClauses + [Clause(key, idx)];
        args := args + [value.value];
        idx := idx + 1;
      }
    }
    assert fields[..|fields|] == fields;
    if setClauses == [] {
      return None, [];
    }
    setClauses := setClauses + ["updated_at = now()"];
    args := args + [itemId];
    query := Some(UpdateText(setClauses, idx));
  }

  // ---------- Lexing what was written ----------

  function TokenText(t: Token): string {
    match t
    case Word(w) => w
    case Param(k) => "$" + Render(k)
    case Equals => "="
    case Comma => ","
    case OpenParen => "("
    case CloseParen => ")"
  }

  /** A comma or parenthesis follows its neighbour directly, anything else after one blank. */
  function Gap(next: Token): string {
    if next.Comma? || next.OpenParen? || next.CloseParen? then "" else " "
  }

  /** The tokens written out with that spacing. */
  function Show(ts: seq<Token>): string {
    if ts == [] then ""
    else if |ts| == 1 then TokenText(ts[0])
    else TokenText(ts[0]) + (Gap(ts[1]) + Show(ts[1..]))
  }

  ghost predicate Writable(ts: seq<Token>) {
    forall i | 0 <= i < |ts| :: ts[i].Word? ==> IsIdentifier(ts[i].text)
  }

  /** `rest` cannot extend a word or a numeral that ends just before it. */
  predicate Breaks(rest: string) {
    rest == "" || !IsWordChar(rest[0])
  }

  lemma {:induction false} WordRunStops(w: string, rest: string)
    requires forall i | 0 <= i < |w| :: IsWordChar(w[i])
    requires Breaks(rest)
    ensures WordRun(w + rest) == |w|
  {
    if w == "" {
      assert w + rest == rest;
    } else {
      assert (w + rest)[1..] == w[1..] + rest;
      WordRunStops(w[1..], rest);
    }
  }

  lemma {:induction false} DigitRunStops(w: string, rest: string)
    requires forall i | 0 <= i < |w| :: IsDigit(w[i])
    requires Breaks(rest)
    ensures DigitRun(w + rest) == |w|
  {
    if w == "" {
      assert w + rest == rest;
    } else {
      assert (w + rest)[1..] == w[1..] + rest;
      DigitRunStops(w[1..], rest);
    }
  }

  lemma ScanWord(w: string, rest: string)
    requires IsIdentifier(w) && Breaks(rest)
    ensures Scan(w + rest) == Some(([Word(w)], |w|))
  {
    var s := w + rest;
    assert s[..|w|] == w && s[1..] == w[1..] + rest;
    WordRunStops(w[1..], rest);
  }

  lemma ScanParam(k: nat, rest: string)
    requires Breaks(rest)
    ensures Scan("$" + Render(k) + rest) == Some(([Param(k)], 1 + |Render(k)|))
  {
    hide Render;
    var d := Render(k);
    var s := "$" + d + rest;
    RenderRoundTrip(k);
    assert s[1..] == d + rest;
    DigitRunStops(d, rest);
    assert s[1..][..|d|] == d;
  }

  lemma ScanToken(t: Token, rest: string)
    requires t.Word? ==> IsIdentifier(t.text)
    requires Breaks(rest)
    ensures TokenText(t) != "" && Scan(TokenText(t) + rest) == Some(([t], |TokenText(t)|))
  {
    if t.Word? {
      hide Scan;
      ScanWord(t.text, rest);
    } else if t.Param? {
      hide Scan;
      ScanParam(t.index, rest);
    }
  }

  lemma LexToken(t: Token, rest: string)
    requires t.Word? ==> IsIdentifier(t.text)
    requires Breaks(rest)
    ensures Lex(TokenText(t) + rest) == Concat([t], Lex(rest))
  {
    hide Scan, TokenText;
    ScanToken(t, rest);
    assert (TokenText(t) + rest)[|TokenText(t)|..] == rest;
  }

  lemma LexBlank(rest: string)
    ensures Lex(" " + rest) == Lex(rest)
  {
    assert (" " + rest)[1..] == rest;
    assert Scan(" " + rest) == Some(([], 1));
    if Lex(rest).Some? {
      assert [] + Lex(rest).value == Lex(rest).value;
    }
  }

  lemma LexGap(t: Token, rest: string)
    ensures Lex(Gap(t) + rest) == Lex(rest)
  {
    hide Lex;
    if Gap(t) == "" {
      assert Gap(t) + rest == rest;
    } else {
      LexBlank(rest);
    }
  }

  lemma GapBreaks(ts: seq<Token>)
    requires ts != [] && Writable(ts)
    ensures Breaks(Gap(ts[0]) + Show(ts))
  {
    var w := TokenText(ts[0]);
    assert w <= Show(ts);
    assert w != "" && (Gap(ts[0]) == "" ==> !IsWordChar(w[0]));
  }

  /** Reading undoes writing, for every sequence of tokens whose words are identifiers. */
  lemma {:induction false} LexShow(ts: seq<Token>)
    requires Writable(ts)
    ensures Lex(Show(ts)) == Some(ts)
  {
    hide Lex, TokenText, Gap;
    if ts == [] {
      LexEmpty();
    } else if |ts| == 1 {
      LexEmpty();
      LexToken(ts[0], "");
      assert TokenText(ts[0]) + "" == TokenText(ts[0]);
      assert [ts[0]] + [] == ts;
    } else {
      var more := ts[1..];
      LexShow(more);
      GapBreaks(more);
      LexGap(more[0], Show(more));
      LexToken(ts[0], Gap(more[0]) + Show(more));
      assert [ts[0]] + more == ts;
    }
  }

  lemma LexEmpty()
    ensures Lex("") == Some([])
  {
  }

  // ---------- The built text is written with that spacing ----------

  /** The time stamp clause. */
  const STAMP := [Word("updated_at"), Equals, Word("now"), OpenParen, CloseParen]

  /** The tokens of the SET list: one `key = $i` per field, then the time stamp. */
  function SetTokens<V>(present: seq<(string, V)>, index: nat): (ts: seq<Token>)
    ensures ts != []
  {
    if present == [] then STAMP
    else [Word(present[0].0), Equals, Param(index), Comma] + SetTokens(present[1..], index + 1)
  }

  const NAMES :=
    [Word("id"), Comma, Word("name"), Comma, Word("description"), Comma,
     Word("created_at"), Comma, Word("updated_at")]

  function WhereTokens(keyIndex: nat): seq<Token> {
    [Word("WHERE"), Word("id"), Equals, Param(keyIndex), Word("RETURNING")] + NAMES
  }

  function TextTokens<V>(present: seq<(string, V)>): seq<Token> {
    [Word("UPDATE"), Word("items"), Word("SET")] + SetTokens(present, 1) + WhereTokens(|present| + 1)
  }

  ghost predicate Identifiers<V>(present: seq<(string, V)>) {
    forall i | 0 <= i < |present| :: IsIdentifier(present[i].0)
  }

  lemma {:induction false} SetTokensWritable<V>(present: seq<(string, V)>, index: nat)
    requires Identifiers(present)
    ensures Writable(SetTokens(present, index))
  {
    if present != [] {
      SetTokensWritable(present[1..], index + 1);
    }
  }

  lemma ShowCons(t: Token, ts: seq<Token>)
    requires ts != []
    ensures Show([t] + ts) == TokenText(t) + (Gap(ts[0]) + Show(ts))
  {
  }

  lemma {:induction false} ShowAppend(a: seq<Token>, b: seq<Token>)
    requires a != [] && b != []
    ensures Show(a + b) == Show(a) + (Gap(b[0]) + Show(b))
  {
    hide Show, Gap, TokenText;
    var head, tail := [a[0]], a[1..];
    assert a == head + tail && a + b == head + (tail + b);
    ShowCons(a[0], tail + b);
    if tail == [] {
      assert tail + b == b && a == head;
      ShowOne(a[0]);
    } else {
      ShowAppend(tail, b);
      ShowCons(a[0], tail);
      ShowTail(TokenText(a[0]), Gap(tail[0]), Show(tail), Gap(b[0]) + Show(b));
    }
  }

  lemma ShowTail(text: string, gap: string, a: string, b: string)
    ensures text + (gap + (a + b)) == text + (gap + a) + b
  {
  }

  lemma ShowClause(key: string, index: nat)
    ensures Show([Word(key), Equals, Param(index)]) == Clause(key, index)
  {
    ShowCons(Equals, [Param(index)]);
    ShowCons(Word(key), [Equals, Param(index)]);
    assert [Word(key)] + [Equals, Param(index)] == [Word(key), Equals, Param(index)];
    assert [Equals] + [Param(index)] == [Equals, Param(index)];
  }

  lemma ShowStamp()
    ensures Show(STAMP) == "updated_at = now()"
  {
    ShowCons(OpenParen, [CloseParen]);
    ShowCons(Word("now"), [OpenParen] + [CloseParen]);
    var call := [Word("now")] + ([OpenParen] + [CloseParen]);
    ShowCons(Equals, call);
    ShowCons(Word("updated_at"), [Equals] + call);
    assert [Word("updated_at")] + ([Equals] + call) == STAMP;
  }

  /** `name, rest` */
  lemma ShowListed(name: string, rest: seq<Token>)
    requires rest != [] && rest[0].Word?
    ensures Show([Word(name), Comma] + rest) == name + (", " + Show(rest))
  {
    hide Show;
    ShowCons(Comma, rest);
    ShowCons(Word(name), [Comma] + rest);
    assert [Word(name)] + ([Comma] + rest) == [Word(name), Comma] + rest;
  }

  lemma Separated(name: string, rest: string)
    ensures name + ", " + rest == name + (", " + rest)
  {
  }

  lemma ColumnListNested()
    ensures COLUMN_LIST
         == "id" + (", " + ("name" + (", " + ("description" + (", " + ("created_at" + (", " + "updated_at")))))))
  {
    assert "created_at, " == "created_at" + ", ";
    assert "description, " == "description" + ", ";
    assert "name, " == "name" + ", ";
    assert "id, " == "id" + ", ";
    var c := "created_at, " + "updated_at";
    Separated("created_at", "updated_at");
    var d := "description, " + c;
    Separated("description", c);
    var n := "name, " + d;
    Separated("name", d);
    Separated("id", n);
  }

  lemma ShowNames()
    ensures Show(NAMES) == COLUMN_LIST
  {
    hide Show;
    var e := [Word("updated_at")];
    ShowOne(e[0]);
    ShowListed("created_at", e);
    var d := [Word("created_at"), Comma] + e;
    ShowListed("description", d);
    var c := [Word("description"), Comma] + d;
    ShowListed("name", c);
    var b := [Word("name"), Comma] + c;
    ShowListed("id", b);
    assert NAMES == [Word("id"), Comma] + b;
    ColumnListNested();
  }

  lemma ShowOne(t: Token)
    ensures Show([t]) == TokenText(t)
  {
  }

  lemma ShowReturning()
    ensures Show([Word("RETURNING")] + NAMES) == "RETURNING " + COLUMN_LIST
  {
    hide Show;
    ShowNames();
    ShowCons(Word("RETURNING"), NAMES);
    assert "RETURNING " == "RETURNING" + " ";
  }

  lemma ShowWhere(keyIndex: nat)
    ensures Show(WhereTokens(keyIndex)) == WhereText(keyIndex)
  {
    hide Show;
    var returning := [Word("RETURNING")] + NAMES;
    var cond := [Word("id"), Equals, Param(keyIndex)];
    ShowReturning();
    ShowClause("id", keyIndex);
    ShowAppend(cond, returning);
    ShowCons(Word("WHERE"), cond + returning);
    assert [Word("WHERE")] + (cond + returning) == WhereTokens(keyIndex);
    WhereTextNested(keyIndex, Show(returning));
  }

  lemma WhereTextNested(keyIndex: nat, returning: string)
    ensures "WHERE id = $" + Render(keyIndex) + " " + returning
         == "WHERE" + (" " + (Clause("id", keyIndex) + (" " + returning)))
  {
  }

  lemma {:induction false} ShowSetList<V>(present: seq<(string, V)>, index: nat)
    ensures Show(SetTokens(present, index)) == Join(", ", Clauses(present, index) + ["updated_at = now()"])
  {
    hide Show;
    var cs := Clauses(present, index) + ["updated_at = now()"];
    if present == [] {
      ShowStamp();
    } else {
      var rest := SetTokens(present[1..], index + 1);
      ShowSetList(present[1..], index + 1);
      assert cs[1..] == Clauses(present[1..], index + 1) + ["updated_at = now()"];
      ShowNextClause(present[0].0, index, rest);
      assert SetTokens(present, index) == [Word(present[0].0), Equals, Param(index), Comma] + rest;
      assert Join(", ", cs) == Clause(present[0].0, index) + ", " + Show(rest);
    }
  }

  lemma ShowNextClause(key: string, index: nat, rest: seq<Token>)
    requires rest != [] && rest[0].Word?
    ensures Show([Word(key), Equals, Param(index), Comma] + rest) == Clause(key, index) + ", " + Show(rest)
  {
    hide Show;
    var clause := [Word(key), Equals, Param(index)];
    ShowClause(key, index);
    ShowCons(Comma, rest);
    ShowAppend(clause, [Comma] + rest);
    assert clause + ([Comma] + rest) == [Word(key), Equals, Param(index), Comma] + rest;
    assert Gap(Comma) + (TokenText(Comma) + (Gap(rest[0]) + Show(rest))) == ", " + Show(rest);
  }

  lemma BuiltTextShown<V>(present: seq<(string, V)>)
    ensures BuiltText(present) == Show(TextTokens(present))
  {
    hide Show, WhereText, WhereTokens, SetTokens;
    var list, tail := SetTokens(present, 1), WhereTokens(|present| + 1);
    ShowSetList(present, 1);
    ShowWhere(|present| + 1);
    WhereTokensStart(|present| + 1);
    ShowAppend(list, tail);
    SetTokensStart(present, 1);
    ShowCons(Word("SET"), list + tail);
    ShowCons(Word("items"), [Word("SET")] + (list + tail));
    ShowCons(Word("UPDATE"), [Word("items")] + ([Word("SET")] + (list + tail)));
    assert TextTokens(present) == [Word("UPDATE")] + ([Word("items")] + ([Word("SET")] + (list + tail)));
    PrefixNested(Show(list), Show(tail));
  }

  lemma WhereTokensStart(keyIndex: nat)
    ensures WhereTokens(keyIndex) != [] && WhereTokens(keyIndex)[0] == Word("WHERE")
  {
  }

  lemma SetTokensStart<V>(present: seq<(string, V)>, index: nat)
    ensures SetTokens(present, index)[0].Word?
  {
  }

  lemma PrefixNested(list: string, tail: string)
    ensures "UPDATE items SET " + list + " " + tail
         == "UPDATE" + (" " + ("items" + (" " + ("SET" + (" " + (list + (" " + tail)))))))
  {
    assert "UPDATE" + (" " + ("items" + (" " + ("SET" + " ")))) == "UPDATE items SET ";
  }

  lemma TextTokensWritable<V>(present: seq<(string, V)>)
    requires Identifiers(present)
    ensures Writable(TextTokens(present))
  {
    SetTokensWritable(present, 1);
    WhereTokensWritable(|present| + 1);
    var head := [Word("UPDATE"), Word("items"), Word("SET")];
    assert Writable(head);
    hide IsIdentifier, SetTokens, WhereTokens;
    WritableAppend(head, SetTokens(present, 1));
    WritableAppend(head + SetTokens(present, 1), WhereTokens(|present| + 1));
  }

  lemma ShortNames()
    ensures IsIdentifier("id") && IsIdentifier("name")
  {
  }

  lemma DescriptionName()
    ensures IsIdentifier("description")
  {
  }

  lemma StampNames()
    ensures IsIdentifier("created_at") && IsIdentifier("updated_at")
  {
  }

  lemma NamesWritable()
    ensures Writable(NAMES)
  {
    ShortNames();
    DescriptionName();
    StampNames();
    hide IsIdentifier;
  }

  lemma WhereTokensWritable(keyIndex: nat)
    ensures Writable(WhereTokens(keyIndex))
  {
    var head := [Word("WHERE"), Word("id"), Equals, Param(keyIndex), Word("RETURNING")];
    assert Writable(head);
    NamesWritable();
    hide IsIdentifier;
    WritableAppend(head, NAMES);
  }

  lemma WritableAppend(a: seq<Token>, b: seq<Token>)
    requires Writable(a) && Writable(b)
    ensures Writable(a + b)
  {
    hide IsIdentifier;
  }

  /** The token stream of the built text, for any number of identifier-named fields. */
  lemma LexBuiltText<V>(present: seq<(string, V)>)
    requires Identifiers(present)
    ensures Lex(BuiltText(present)) == Some(TextTokens(present))
  {
    hide BuiltText, TextTokens, Show, Lex;
    TextTokensWritable(present);
    BuiltTextShown(present);
    LexShow(TextTokens(present));
  }

  // ---------- Parsing what was written ----------

  /** What the text is meant to say: field i takes placeholder i, then the time stamp. */
  function Intended<V>(present: seq<(string, V)>, index: nat): seq<Assignment> {
    if present == [] then [Assignment("updated_at", Now)]
    else [Assignment(present[0].0, Placeholder(index))] + Intended(present[1..], index + 1)
  }

  lemma {:induction false} ParseSetTokens<V>(present: seq<(string, V)>, index: nat, rest: seq<Token>)
    requires rest != [] && rest[0] != Comma
    ensures ParseAssignments(SetTokens(present, index) + rest) == Some((Intended(present, index), rest))
  {
    var ts := SetTokens(present, index) + rest;
    if present == [] {
      assert ts[2..5] == [Word("now"), OpenParen, CloseParen];
      assert ts[5..] == rest;
    } else {
      var tail := SetTokens(present[1..], index + 1) + rest;
      ParseSetTokens(present[1..], index + 1, rest);
      assert ts == [Word(present[0].0), Equals, Param(index), Comma] + tail;
      hide SetTokens;
      ParseAnother(present[0].0, index, tail);
    }
  }

  lemma ParseAnother(key: string, index: nat, tail: seq<Token>)
    requires ParseAssignments(tail).Some?
    ensures var more := ParseAssignments(tail).value;
            ParseAssignments([Word(key), Equals, Param(index), Comma] + tail)
            == Some(([Assignment(key, Placeholder(index))] + more.0, more.1))
  {
    var ts := [Word(key), Equals, Param(index), Comma] + tail;
    assert ts[3..][0] == Comma && ts[3..][1..] == tail;
  }

  lemma ParseListed(name: string, ts: seq<Token>)
    requires ParseNames(ts).Some?
    ensures ParseNames([Word(name), Comma] + ts) == Some([name] + ParseNames(ts).value)
  {
  }

  lemma ParseReturning()
    ensures ParseNames(NAMES) == Some(RETURNED)
  {
    var e := [Word("updated_at")];
    assert ParseNames(e) == Some(["updated_at"]);
    hide ParseNames;
    ParseListed("created_at", e);
    var d := [Word("created_at"), Comma] + e;
    ParseListed("description", d);
    var c := [Word("description"), Comma] + d;
    ParseListed("name", c);
    var b := [Word("name"), Comma] + c;
    ParseListed("id", b);
    assert NAMES == [Word("id"), Comma] + b;
    assert ["id"] + (["name"] + (["description"] + (["created_at"] + ["updated_at"]))) == RETURNED;
  }

  lemma ParseWhole(list: seq<Token>, keyIndex: nat)
    requires ParseAssignments(list + WhereTokens(keyIndex)).Some?
    requires ParseAssignments(list + WhereTokens(keyIndex)).value.1 == WhereTokens(keyIndex)
    ensures ParseTokens([Word("UPDATE"), Word("items"), Word("SET")] + list + WhereTokens(keyIndex))
         == Some(UpdateStatement("items", ParseAssignments(list + WhereTokens(keyIndex)).value.0,
                                 "id", keyIndex, RETURNED))
  {
    hide ParseAssignments, ParseNames;
    var tail := WhereTokens(keyIndex);
    var ts := [Word("UPDATE"), Word("items"), Word("SET")] + list + tail;
    assert ts[3..] == list + tail;
    assert tail[5..] == NAMES;
    ParseReturning();
  }

  /** Print/parse round trip: reading the built text gives back exactly the non-None fields, in
      order, field i bound to `$i` and the row key to `$n+1`. */
  lemma UpdateRoundTrip<V>(present: seq<(string, V)>)
    requires Identifiers(present)
    ensures Parse(BuiltText(present))
         == Some(UpdateStatement("items", Intended(present, 1), "id", |present| + 1, RETURNED))
  {
    hide BuiltText, Lex, ParseNames, ParseAssignments, SetTokens;
    LexBuiltText(present);
    var tail := WhereTokens(|present| + 1);
    WhereTokensStart(|present| + 1);
    ParseSetTokens(present, 1, tail);
    ParseReturning();
    ParseWhole(SetTokens(present, 1), |present| + 1);
  }

  // ---------- Placeholders ----------

  /** The indexes of the `$k` tokens, in textual order. */
  function Placeholders(ts: seq<Token>): seq<nat> {
    if ts == [] then []
    else (if ts[0].Param? then [ts[0].index] else []) + Placeholders(ts[1..])
  }

  lemma {:induction false} PlaceholdersAppend(a: seq<Token>, b: seq<Token>)
    ensures Placeholders(a + b) == Placeholders(a) + Placeholders(b)
  {
    if a == [] {
      assert a + b == b;
    } else {
      PlaceholdersAppend(a[1..], b);
      hide Placeholders;
      var head, tail := [a[0]], a[1..];
      assert a == head + tail && a + b == head + (tail + b);
      PlaceholdersCons(a[0], tail);
      PlaceholdersCons(a[0], tail + b);
      Associative(Placeholders(head), Placeholders(tail), Placeholders(b));
    }
  }

  lemma PlaceholdersCons(t: Token, ts: seq<Token>)
    ensures Placeholders([t] + ts) == Placeholders([t]) + Placeholders(ts)
  {
    assert ([t] + ts)[1..] == ts && [t][1..] == [];
    assert Placeholders([]) == [];
  }

  lemma Associative<T>(a: seq<T>, b: seq<T>, c: seq<T>)
    ensures a + (b + c) == a + b + c
  {
  }

  lemma {:induction false} NoPlaceholders(ts: seq<Token>)
    requires forall i | 0 <= i < |ts| :: !ts[i].Param?
    ensures Placeholders(ts) == []
  {
    if ts != [] {
      NoPlaceholders(ts[1..]);
    }
  }

  lemma PlaceholderAlone(index: nat)
    ensures Placeholders([Param(index)]) == [index]
  {
  }

  function Upward(from: nat, n: nat): (s: seq<nat>)
    ensures |s| == n && forall i | 0 <= i < n :: s[i] == from + i
  {
    seq(n, i => from + i)
  }

  lemma {:induction false} SetPlaceholders<V>(present: seq<(string, V)>, index: nat)
    ensures Placeholders(SetTokens(present, index)) == Upward(index, |present|)
  {
    if present == [] {
      NoPlaceholders(STAMP);
    } else {
      SetPlaceholders(present[1..], index + 1);
      var head := [Word(present[0].0), Equals, Param(index), Comma];
      PlaceholdersAppend(head, SetTokens(present[1..], index + 1));
      assert head[1..][1..][1..][1..] == [];
      assert head == [Word(present[0].0), Equals] + [Param(index)] + [Comma];
      PlaceholdersAppend([Word(present[0].0), Equals] + [Param(index)], [Comma]);
      PlaceholdersAppend([Word(present[0].0), Equals], [Param(index)]);
      NoPlaceholders([Word(present[0].0), Equals]);
      NoPlaceholders([Comma]);
      PlaceholderAlone(index);
    }
  }

  /** In the text itself the placeholders are $1, $2, ..., $n+1, each once and in this order,
      one for each argument sent along. */
  lemma PlaceholdersExactlyOnce<V>(present: seq<(string, V)>, itemId: V)
    requires Identifiers(present)
    ensures Lex(BuiltText(present)).Some?
    ensures Placeholders(Lex(BuiltText(present)).value) == Upward(1, |Values(present) + [itemId]|)
  {
    hide BuiltText, Lex, Placeholders, SetTokens;
    LexBuiltText(present);
    var head := [Word("UPDATE"), Word("items"), Word("SET")];
    var n := |present| + 1;
    NoPlaceholders(head);
    SetPlaceholders(present, 1);
    var w := [Word("WHERE"), Word("id"), Equals] + [Param(n)];
    var r := [Word("RETURNING")] + NAMES;
    assert WhereTokens(n) == w + r;
    NoPlaceholders([Word("WHERE"), Word("id"), Equals]);
    NoPlaceholders(r);
    PlaceholdersAppend([Word("WHERE"), Word("id"), Equals], [Param(n)]);
    PlaceholderAlone(n);
    PlaceholdersAppend(w, r);
    PlaceholdersAppend(head + SetTokens(present, 1), WhereTokens(n));
    PlaceholdersAppend(head, SetTokens(present, 1));
  }
}

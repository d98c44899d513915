/** The table editor page: a form that defines a table (a name and a list of
    column records), checks the names before asking the create-table route for
    the table, and then inserts rows into and deletes rows from the selected
    table. Requests, replies and the record list shown are handled by the
    server; here they are the values handed over and taken back. */
module DatabaseManager {
  import opened Wrappers
  import opened JsString
  import opened CreateTable

  /** A record as the page holds it: column name to the text typed or fetched. */
  type Row = map<string, string>

  const TableNameError: string := "❌ El nombre de la tabla debe contener solo letras, números o guiones bajos"
  const ColumnNameError: string := "❌ Los nombres de las columnas deben contener solo letras, números o guiones bajos"
  const NoTableError: string := "❌ Selecciona una tabla primero"
  const MissingValuePrefix: string := "❌ Debes proporcionar un valor para la columna "
  const ErrorPrefix: string := "❌ Error: "

  /** The column the page starts with. */
  const InitialColumn: Column := Column("id", "uuid", true)

  /** The column "Agregar columna" appends. */
  const BlankColumn: Column := Column("", "text", false)

  /** A character of the class `[a-zA-Z0-9_]`. */
  predicate IsIdentifierChar(c: char) {
    'a' <= c <= 'z' || 'A' <= c <= 'Z' || '0' <= c <= '9' || c == '_'
  }

  /** `/^[a-zA-Z0-9_]+$/.test(s)`: without the `m` flag `$` matches only at the end
      of the input, so the whole string must be one or more class characters. */
  predicate IsIdentifier(s: string) {
    |s| > 0 && forall i :: 0 <= i < |s| ==> IsIdentifierChar(s[i])
  }

  /** What `validateInputs` accepts: a valid table name and valid column names. */
  predicate ValidInputs(tableName: string, cols: seq<Column>) {
    IsIdentifier(tableName) && forall i :: 0 <= i < |cols| ==> IsIdentifier(cols[i].name)
  }

  /** How the create-table request settles: the route's JSON answer, or an
      exception carrying its `message`. */
  datatype CreateOutcome = Answered(reply: Reply) | Threw(message: string)

  /** One edit of a column record, as the three form controls make it. */
  datatype ColumnEdit = SetName(name: string) | SetType(typ: string) | SetPrimary(isPrimary: bool)

  /** `col[field] = value`: the edited field changes, the other two do not. */
  function Edited(c: Column, e: ColumnEdit): (r: Column)
    ensures r.name == (if e.SetName? then e.name else c.name)
    ensures r.typ == (if e.SetType? then e.typ else c.typ)
    ensures r.isPrimary == (if e.SetPrimary? then e.isPrimary else c.isPrimary)
  {
    match e
    case SetName(v) => c.(name := v)
    case SetType(v) => c.(typ := v)
    case SetPrimary(v) => c.(isPrimary := v)
  }

  /** The members every object inherits from `Object.prototype` (ECMAScript
      sections 20.1.3 and B.2.2). Reading one of these names from a record without
      an own property of that name finds the inherited function or object. */
  const InheritedNames: set<string> := {
    "constructor", "hasOwnProperty", "isPrototypeOf", "propertyIsEnumerable",
    "toLocaleString", "toString", "valueOf", "__defineGetter__", "__defineSetter__",
    "__lookupGetter__", "__lookupSetter__", "__proto__"}

  /** What `row[col]` reads: the record's own text, an inherited member, or `undefined`. */
  datatype Property = Own(value: string) | Inherited(name: string) | Undefined

  function Get(row: Row, col: string): Property {
    if col in row then Own(row[col])
    else if col in InheritedNames then Inherited(col)
    else Undefined
  }

  /** `!newRow[col]`: the value is `undefined` or the empty string; an inherited
      member is a function or an object and so is truthy. */
  predicate Falsy(newRow: Row, col: string) {
    match Get(newRow, col)
    case Own(v) => v == []
    case Inherited(_) => false
    case Undefined => true
  }

  /** A key column is missing exactly when the record has no text for it, unless its
      name is one every object inherits. */
  lemma FalsyIff(newRow: Row, col: string)
    ensures Falsy(newRow, col) <==>
      (col in newRow && newRow[col] == []) || (col !in newRow && col !in InheritedNames)
  {
  }

  /** A key column named `constructor` counts as given even when the form leaves it
      empty, because `newRow["constructor"]` finds `Object`. */
  lemma InheritedKeyCountsAsGiven(newRow: Row)
    requires "constructor" !in newRow
    ensures !Falsy(newRow, "constructor")
  {
    assert "constructor" in InheritedNames;
  }

  /** The key column that blocks an insert: the first of `pks` that is not `"id"`
      and has no value in `newRow`; `None` when every key column is given or is `"id"`. */
  function FirstMissingKey(pks: seq<string>, newRow: Row): (r: Option<string>)
    ensures r.None? <==> forall i :: 0 <= i < |pks| ==> pks[i] == "id" || !Falsy(newRow, pks[i])
    ensures r.Some? ==> exists i :: 0 <= i < |pks| && pks[i] == r.value
                          && r.value != "id" && Falsy(newRow, r.value)
                          && forall j :: 0 <= j < i ==> pks[j] == "id" || !Falsy(newRow, pks[j])
  {
    if pks == [] then None
    else if Falsy(newRow, pks[0]) && pks[0] != "id" then Some(pks[0])
    else
      var r := FirstMissingKey(pks[1..], newRow);
      assert forall i :: 1 <= i < |pks| ==> pks[i] == pks[1..][i - 1];
      r
  }

  function KeyParam(row: Row, enc: Property -> string, col: string): string {
    col + "=" + enc(Get(row, col))
  }

  /** The delete query: `col=enc(row[col])` for every primary-key column in column
      order, joined by `"&"`. `enc` stands for `encodeURIComponent` applied to what
      `row[col]` reads, an inherited member or `undefined` included. */
  function DeleteQuery(cols: seq<Column>, row: Row, enc: Property -> string): string {
    Join(Map(col => KeyParam(row, enc, col), PrimaryKeys(cols)), "&")
  }

  // ---------------------------------------------------------------- the page state

  class TableEditor {
    var tableName: string
    var columns: seq<Column>
    var rows: seq<Row>
    var message: string
    var newRow: Row
    var selectedTable: string

    /** The page as first rendered: one `id uuid` primary column, nothing else. */
    constructor ()
      ensures tableName == [] && columns == [InitialColumn] && rows == []
      ensures message == [] && newRow == map[] && selectedTable == []
    {
      tableName := [];
      columns := [InitialColumn];
      rows := [];
      message := [];
      newRow := map[];
      selectedTable := [];
    }

    method SetTableName(value: string)
      modifies this`tableName
      ensures tableName == value
    {
      tableName := value;
    }

    /** `handleAddColumn`: exactly one blank column is appended. */
    method AddColumn()
      modifies this`columns
      ensures columns == old(columns) + [BlankColumn]
    {
      columns := columns + [BlankColumn];
    }

    /** `handleColumnChange(index, field, value)` on a copy of the list, which
      then replaces the list. */
    method ColumnChange(index: nat, edit: ColumnEdit)
      requires index < |columns|
      modifies this`columns
      ensures |columns| == |old(columns)|
      ensures columns[index] == Edited(old(columns)[index], edit)
      ensures forall j :: 0 <= j < |columns| && j != index ==> columns[j] == old(columns)[j]
    {
      var updated := columns;
      updated := updated[index := Edited(updated[index], edit)];
      columns := updated;
    }

    /** `validateInputs`: the table name is checked first, then the columns in
        order; the first failing check sets its message and the answer is false.
        On success the message is left as it was. */
    method ValidateInputs() returns (ok: bool)
      modifies this`message
      ensures ok <==> ValidInputs(tableName, columns)
      ensures !IsIdentifier(tableName) ==> message == TableNameError
      ensures IsIdentifier(tableName) && !ok ==> message == ColumnNameError
      ensures ok ==> message == old(message)
    {
      if tableName == [] || !IsIdentifier(tableName) {
        message := TableNameError;
        return false;
      }
      var i := 0;
      while i < |columns|
        invariant 0 <= i <= |columns|
        invariant forall j :: 0 <= j < i ==> IsIdentifier(columns[j].name)
        invariant message == old(message)
      {
        var col := columns[i];
        if col.name == [] || !IsIdentifier(col.name) {
          message := ColumnNameError;
          return false;
        }
        i := i + 1;
      }
      return true;
    }

    /** `handleCreateTable` up to the request: the body it posts, or nothing when
        the names do not validate. */
    method CreateTableRequest() returns (req: Option<Request>)
      modifies this`message
      ensures req.Some? <==> ValidInputs(tableName, columns)
      ensures req.Some? ==> req.value == Body(Some(tableName), Some(columns))
      ensures !IsIdentifier(tableName) ==> message == TableNameError
      ensures IsIdentifier(tableName) && req.None? ==> message == ColumnNameError
      ensures req.Some? ==> message == old(message)
    {
      var ok := ValidateInputs();
      if !ok {
        return None;
      }
      return Some(Body(Some(tableName), Some(columns)));
    }

    /** `handleCreateTable` once the request has settled. The page tests
        `data.error` for truthiness, so an error reply with an empty message is
        taken for a success; an exception (a failed fetch or a body that is not
        JSON) shows its message, even an empty one, and selects nothing. */
    method CreateTableReply(outcome: CreateOutcome)
      modifies this`message, this`selectedTable, this`newRow
      ensures outcome.Threw? ==>
        (message == ErrorPrefix + outcome.message && selectedTable == old(selectedTable) && newRow == old(newRow))
      ensures outcome.Answered? && outcome.reply.ErrorReply? && outcome.reply.error != [] ==>
        (message == ErrorPrefix + outcome.reply.error && selectedTable == old(selectedTable) && newRow == old(newRow))
      ensures outcome.Answered? && (outcome.reply.Created? || outcome.reply.error == []) ==>
        (message == "✅ Tabla creada con éxito: " + tableName && selectedTable == tableName && newRow == map[])
    {
      match outcome {
        case Threw(text) =>
          message := ErrorPrefix + text;
        case Answered(reply) =>
          if reply.ErrorReply? && reply.error != [] {
            message := ErrorPrefix + reply.error;
          } else {
            message := "✅ Tabla creada con éxito: " + tableName;
            selectedTable := tableName;
            newRow := map[];
          }
      }
    }

    /** Typing into the insert form: `{...newRow, [col]: value}`. */
    method SetRowField(col: string, value: string)
      modifies this`newRow
      ensures newRow == old(newRow)[col := value]
    {
      newRow := newRow[col := value];
    }

    /** `handleInsertRow` up to the request: refuses without a selected table, then
        walks the primary-key columns and stops at the first one, other than
        `"id"`, with no value, naming it. Answers whether the row is posted. */
    method InsertRow() returns (send: bool)
      modifies this`message
      ensures selectedTable == [] ==> !send && message == NoTableError
      ensures selectedTable != [] ==>
        match FirstMissingKey(PrimaryKeys(columns), newRow)
        case Some(col) => !send && message == MissingValuePrefix + col
        case None => send && message == old(message)
    {
      if selectedTable == [] {
        message := NoTableError;
        return false;
      }
      var primaryKeyCols := PrimaryKeys(columns);
      var i := 0;
      while i < |primaryKeyCols|
        invariant 0 <= i <= |primaryKeyCols|
        invariant FirstMissingKey(primaryKeyCols, newRow) == FirstMissingKey(primaryKeyCols[i..], newRow)
        invariant message == old(message)
      {
        var col := primaryKeyCols[i];
        if Falsy(newRow, col) && col != "id" {
          message := MissingValuePrefix + col;
          return false;
        }
        assert primaryKeyCols[i..][1..] == primaryKeyCols[i + 1..];
        i := i + 1;
      }
      return true;
    }

    /** `handleDelete` up to the request: the URL it calls, or nothing without a
        selected table. */
    method DeleteRequest(row: Row, enc: Property -> string) returns (url: Option<string>)
      ensures url.None? <==> selectedTable == []
      ensures url.Some? ==> url.value == "/api/crud?table=" + selectedTable + "&" + DeleteQuery(columns, row, enc)
    {
      if selectedTable == [] {
        return None;
      }
      var queryParams := DeleteQuery(columns, row, enc);
      return Some("/api/crud?table=" + selectedTable + "&" + queryParams);
    }

    /** "Cambiar tabla": back to no selected table, no records, an empty insert
        form and no message; the table definition is kept. */
    method ChangeTable()
      modifies this`selectedTable, this`rows, this`newRow, this`message
      ensures selectedTable == [] && rows == [] && newRow == map[] && message == []
    {
      selectedTable := [];
      rows := [];
      newRow := map[];
      message := [];
    }
  }

  // ---------------------------------------------------------------- properties

  /** A freshly appended blank column fails validation until it is renamed. */
  lemma BlankColumnBlocksValidation(tableName: string, cols: seq<Column>)
    ensures !ValidInputs(tableName, cols + [BlankColumn])
  {
    var cols' := cols + [BlankColumn];
    assert cols'[|cols|].name == [];
  }

  /** Renaming one column changes validity only through that column's name. */
  lemma EditKeepsOtherNames(tableName: string, cols: seq<Column>, index: nat, edit: ColumnEdit)
    requires index < |cols| && ValidInputs(tableName, cols)
    ensures ValidInputs(tableName, cols[index := Edited(cols[index], edit)]) <==>
              (!edit.SetName? || IsIdentifier(edit.name))
  {
    var cols' := cols[index := Edited(cols[index], edit)];
    assert cols'[index] == Edited(cols[index], edit);
  }

  /** The route checks nothing itself, but what the page lets through is safe:
      if validation accepts, the table name and every column name in the
      statement are drawn from `[A-Za-z0-9_]`, and when no column type holds a
      `;` the statement's one `;` is its last character. */
  lemma ValidatedStatementIsSingle(tableName: string, cols: seq<Column>)
    requires ValidInputs(tableName, cols)
    requires forall i :: 0 <= i < |cols| ==> ';' !in cols[i].typ
    ensures var sql := CreateSql(tableName, cols);
      sql[|sql| - 1] == ';' && ';' !in sql[..|sql| - 1]
    ensures forall n :: n in PrimaryKeys(cols) ==> IsIdentifier(n)
  {
    forall i, j | 0 <= i < |cols| && 0 <= j < |cols[i].name| ensures cols[i].name[j] != ';' {
      assert IsIdentifierChar(cols[i].name[j]);
    }
    forall j | 0 <= j < |tableName| ensures tableName[j] != ';' {
      assert IsIdentifierChar(tableName[j]);
    }
    SqlSemicolons(tableName, cols);
    FilterMembers(IsPrimary, cols);
    forall n | n in PrimaryKeys(cols) ensures IsIdentifier(n) {
      var f := Filter(IsPrimary, cols);
      var k :| 0 <= k < |PrimaryKeys(cols)| && PrimaryKeys(cols)[k] == n;
      assert f[k] in cols;
    }
  }

  /** Without that validation the statement is not single: a table name holding a
      `;` puts a second `;` before the end. */
  lemma UnvalidatedNameSplitsStatement()
    ensures var sql := CreateSql("t; DROP TABLE users", [InitialColumn]);
      ';' in sql[..|sql| - 1]
  {
    SqlSemicolons("t; DROP TABLE users", [InitialColumn]);
  }

  /** With an `enc` that never produces `&` (as `encodeURIComponent` escapes it)
      and key names without `&`, the delete query splits back into exactly one
      `col=value` piece per key column, in column order. */
  lemma DeleteQueryPieces(cols: seq<Column>, row: Row, enc: Property -> string)
    requires |PrimaryKeys(cols)| >= 1
    requires forall i :: 0 <= i < |cols| ==> '&' !in cols[i].name
    requires forall v :: '&' !in enc(v)
    ensures var pks := PrimaryKeys(cols);
      var pieces := Split(DeleteQuery(cols, row, enc), '&');
      |pieces| == |pks| &&
      forall i :: 0 <= i < |pks| ==>
        pieces[i] == pks[i] + "=" + enc(Get(row, pks[i]))
  {
    var pks := PrimaryKeys(cols);
    var params := Map(col => KeyParam(row, enc, col), pks);
    var f := Filter(IsPrimary, cols);
    FilterMembers(IsPrimary, cols);
    forall i | 0 <= i < |params| ensures '&' !in params[i] {
      assert pks[i] == f[i].name && f[i] in cols;
    }
    SplitJoin(params, '&');
  }
}

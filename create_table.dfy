/** The `POST /api/createTable` route handler: it turns a table name and a list of
    column records into one `CREATE TABLE IF NOT EXISTS` statement and hands that
    statement to the database. */
module CreateTable {
  import opened Wrappers
  import opened JsString

  /** A column record as the table editor sends it: `{name, type, isPrimary}`. */
  datatype Column = Column(name: string, typ: string, isPrimary: bool)

  /** The request body. `Unparsable` is a body on which `req.json()` throws, with
      the exception's message; a `None` field was absent or `null` in the JSON. */
  datatype Request =
    | Unparsable(message: string)
    | Body(tableName: Option<string>, columns: Option<seq<Column>>)

  /** The JSON the route answers with: `{error}` or `{success: true, tableName}`. */
  datatype Reply = ErrorReply(error: string) | Created(tableName: string)

  datatype Response = Response(status: int, reply: Reply)

  const MissingData: string := "Faltan datos"
  const Prefix: string := "CREATE TABLE IF NOT EXISTS "

  /** `${c.name} ${c.type}` */
  function ColumnDef(c: Column): string {
    c.name + " " + c.typ
  }

  function ColumnName(c: Column): string {
    c.name
  }

  function IsPrimary(c: Column): bool {
    c.isPrimary
  }

  /** The column definitions, in input order, separated by `", "`. */
  function ColumnDefs(cols: seq<Column>): string {
    Join(Map(ColumnDef, cols), ", ")
  }

  /** The names of the primary-key columns, in input order. */
  function PrimaryKeys(cols: seq<Column>): seq<string> {
    Map(ColumnName, Filter(IsPrimary, cols))
  }

  /** The table-level key clause; empty when no column is primary. */
  function PkDef(cols: seq<Column>): string {
    var pks := PrimaryKeys(cols);
    if |pks| > 0 then ", PRIMARY KEY (" + Join(pks, ", ") + ")" else ""
  }

  /** The statement the route executes; names and types are inserted verbatim. */
  function CreateSql(tableName: string, cols: seq<Column>): string {
    Prefix + tableName + " (" + ColumnDefs(cols) + PkDef(cols) + ");"
  }

  /** True when the request lacks a table name or a non-empty column list
      (`!tableName || !columns?.length`). */
  predicate MissingFields(tableName: Option<string>, columns: Option<seq<Column>>) {
    tableName.None? || tableName.value == [] || columns.None? || |columns.value| == 0
  }

  /** The route. `exec` stands for the database's `exec_sql` procedure: given the
      statement it returns the error message the database reports, if any. */
  function Post(req: Request, exec: string -> Option<string>): Response {
    match req
    case Unparsable(message) => Response(500, ErrorReply(message))
    case Body(tableName, columns) =>
      if MissingFields(tableName, columns) then Response(400, ErrorReply(MissingData))
      else
        match exec(CreateSql(tableName.value, columns.value))
        case Some(error) => Response(400, ErrorReply(error))
        case None => Response(200, Created(tableName.value))
  }

  // ---------------------------------------------------------------- properties

  /** Missing data is answered with 400 "Faltan datos" and the database is never
      consulted: the answer is the same whatever the database would do. */
  lemma MissingDataRejected(req: Request, exec: string -> Option<string>, exec': string -> Option<string>)
    requires req.Body? && MissingFields(req.tableName, req.columns)
    ensures Post(req, exec) == Response(400, ErrorReply(MissingData))
    ensures Post(req, exec) == Post(req, exec')
  {
  }

  /** With complete data the database receives exactly `CreateSql`, and the
      answer is 200 exactly when the database reports no error. */
  lemma CompleteDataExecuted(tableName: string, cols: seq<Column>, exec: string -> Option<string>)
    requires tableName != [] && |cols| > 0
    ensures var r := Post(Body(Some(tableName), Some(cols)), exec);
      (r.status == 200 <==> exec(CreateSql(tableName, cols)).None?)
      && (r.status == 200 ==> r.reply == Created(tableName))
      && (r.status != 200 ==> r.status == 400 && r.reply == ErrorReply(exec(CreateSql(tableName, cols)).value))
  {
  }

  /** The primary keys of a concatenation are those of each part, in order, and a
      single column contributes its name exactly when it is primary: together,
      `PrimaryKeys` is the order-preserving subsequence of the primary names. */
  lemma PrimaryKeysConcat(xs: seq<Column>, ys: seq<Column>)
    ensures PrimaryKeys(xs + ys) == PrimaryKeys(xs) + PrimaryKeys(ys)
  {
    FilterConcat(IsPrimary, xs, ys);
    MapConcat(ColumnName, Filter(IsPrimary, xs), Filter(IsPrimary, ys));
  }

  lemma PrimaryKeysSingle(c: Column)
    ensures PrimaryKeys([c]) == if c.isPrimary then [c.name] else []
  {
    assert [c][1..] == [];
  }

  /** The key clause is empty exactly when no column is primary. */
  lemma PkDefEmptyIff(cols: seq<Column>)
    ensures PkDef(cols) == [] <==> forall i :: 0 <= i < |cols| ==> !cols[i].isPrimary
  {
    var f := Filter(IsPrimary, cols);
    FilterMembers(IsPrimary, cols);
    if f != [] {
      assert f[0] in cols && f[0].isPrimary;
    }
  }

  /** With no comma inside any name or type, the definition list holds exactly one
      `", "` separator fewer than there are columns. */
  lemma ColumnDefsSeparators(cols: seq<Column>)
    requires |cols| >= 1
    requires forall i :: 0 <= i < |cols| ==> ',' !in cols[i].name && ',' !in cols[i].typ
    ensures Count(ColumnDefs(cols), ',') == |cols| - 1
  {
    var defs := Map(ColumnDef, cols);
    CountJoin(defs, ", ", ',');
    CountAllAbsent(defs, ',');
    assert Count(", ", ',') == 1 by {
      assert ", "[1..] == " ";
      assert " "[1..] == "";
    }
  }

  /** The statement opens with the fixed prefix, the table name and `" ("`, and
      closes with `");"`. */
  lemma SqlFraming(tableName: string, cols: seq<Column>)
    ensures var sql := CreateSql(tableName, cols);
      && |sql| >= |Prefix| + |tableName| + 4
      && sql[..|Prefix| + |tableName| + 2] == Prefix + tableName + " ("
      && sql[|sql| - 2..] == ");"
  {
  }

  /** When no column field contains `;`, the statement's only `;` is its last
      character exactly when the table name has none. Nothing is escaped: a `;`
      in the table name reaches the statement before its end. */
  lemma SqlSemicolons(tableName: string, cols: seq<Column>)
    requires forall i :: 0 <= i < |cols| ==> ';' !in cols[i].name && ';' !in cols[i].typ
    ensures var sql := CreateSql(tableName, cols);
      sql[|sql| - 1] == ';' && (';' !in sql[..|sql| - 1] <==> ';' !in tableName)
  {
    var sql := CreateSql(tableName, cols);
    ColumnDefsHaveNoSemicolon(cols);
    PkDefHasNoSemicolon(cols);
    assert sql[..|sql| - 1] == Prefix + tableName + " (" + ColumnDefs(cols) + PkDef(cols) + ")";
  }

  lemma ColumnDefsHaveNoSemicolon(cols: seq<Column>)
    requires forall i :: 0 <= i < |cols| ==> ';' !in cols[i].name && ';' !in cols[i].typ
    ensures ';' !in ColumnDefs(cols)
  {
    JoinAbsent(Map(ColumnDef, cols), ", ", ';');
  }

  lemma PkDefHasNoSemicolon(cols: seq<Column>)
    requires forall i :: 0 <= i < |cols| ==> ';' !in cols[i].name
    ensures ';' !in PkDef(cols)
  {
    var pks := PrimaryKeys(cols);
    var f := Filter(IsPrimary, cols);
    FilterMembers(IsPrimary, cols);
    forall i | 0 <= i < |pks| ensures ';' !in pks[i] {
      assert pks[i] == f[i].name && f[i] in cols;
    }
    JoinAbsent(pks, ", ", ';');
  }
}

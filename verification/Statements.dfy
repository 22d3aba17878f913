/** Whole statements around a WHERE text: queries and their counts, mutations, and the
    conversion of mutation inputs that the mutation builder relies on. */
module Statements {
  import opened Text
  import opened Filters

  // ---------------------------------------------------------------------
  // convertMutationFilter
  // ---------------------------------------------------------------------

  /** A GraphQL filter input; its operator is the enum value's name. */
  datatype Input = Input(field: string, operator: string, value: Value)

  function ConvertOperator(operator: string): (r: Op)
    ensures !r.Unknown?
  {
    if operator == "EQ" then EQ
    else if operator == "NEQ" then NEQ
    else if operator == "GT" then GT
    else if operator == "GTE" then GTE
    else if operator == "LT" then LT
    else if operator == "LTE" then LTE
    else if operator == "LIKE" then LIKE
    else if operator == "IN" then IN
    else if operator == "NOT_IN" then NOT_IN
    else if operator == "IS_NULL" then IS_NULL
    else if operator == "IS_NOT_NULL" then IS_NOT_NULL
    else EQ
  }

  function ConvertMutationFilter(input: Option<Input>): Result<Filter> {
    match input
    case None => Err("nil filter input")
    case Some(Input(field, operator, value)) =>
      var op := ConvertOperator(operator);
      if operator == "IS_NULL" || operator == "IS_NOT_NULL" then Ok(Filter(field, op, Null))
      else if operator == "IN" || operator == "NOT_IN" then
        if value.Null? then Err("IN/NOT_IN filter requires a non-null array value")
        else if !value.List? then Err("IN/NOT_IN filter value must be a JSON array")
        else if value.items == [] then Err("IN/NOT_IN filter requires a non-empty array value")
        else Ok(Filter(field, op, value))
      else if value.Null? then Err("filter operator requires a non-null value")
      else Ok(Filter(field, op, value))
  }

  /** The operators by the names that clients use. */
  function OpName(op: Op): string {
    match op
    case EQ => "EQ"
    case NEQ => "NEQ"
    case GT => "GT"
    case GTE => "GTE"
    case LT => "LT"
    case LTE => "LTE"
    case LIKE => "LIKE"
    case IN => "IN"
    case NOT_IN => "NOT_IN"
    case IS_NULL => "IS_NULL"
    case IS_NOT_NULL => "IS_NOT_NULL"
    case Unknown(_) => ""
  }

  predicate IsOperator(name: string) {
    name in {"EQ", "NEQ", "GT", "GTE", "LT", "LTE", "LIKE", "IN", "NOT_IN", "IS_NULL", "IS_NOT_NULL"}
  }

  /** The value that an operator needs, by the operator's name. */
  predicate HasItsValue(input: Input) {
    if input.operator in {"IS_NULL", "IS_NOT_NULL"} then true
    else if input.operator in {"IN", "NOT_IN"} then NonemptyList(input.value)
    else !input.value.Null?
  }

  /** The filter is what the input asks for: its field, the operator of its name, and its value. */
  predicate Asked(input: Input, f: Filter) {
    && f.field == input.field
    && (if IsOperator(input.operator) then OpName(f.op) == input.operator else f.op == EQ)
    && f.value == (if input.operator in {"IS_NULL", "IS_NOT_NULL"} then Null else input.value)
  }

  /** A conversion succeeds exactly when the input has the value that its operator needs, and what
      it yields is what the input asks for and meets the mutation builder's precondition. */
  lemma ConversionEstablishesThePrecondition(input: Input)
    ensures var r := ConvertMutationFilter(Some(input));
            && (r.Ok? <==> HasItsValue(input))
            && (r.Ok? ==> Asked(input, r.value) && Stated(r.value) == r.value)
            && (r.Ok? && IsWord(input.field) ==> WellFormed(r.value))
  {
    OperatorIsNamed(input.operator);
  }

  lemma OperatorIsNamed(name: string)
    ensures IsOperator(name) ==> OpName(ConvertOperator(name)) == name
    ensures !IsOperator(name) ==> ConvertOperator(name) == EQ
  {
  }

  predicate AllConverted(inputs: seq<Input>, filters: seq<Filter>) {
    |inputs| == |filters| &&
    forall i :: 0 <= i < |inputs| ==>
      IsWord(inputs[i].field) && ConvertMutationFilter(Some(inputs[i])) == Ok(filters[i])
  }

  /** Converted filters never reach the fallback of the mutation builder: its text reads back as
      exactly these filters, each what its input asks for, and it is what the validating builder
      would have written. */
  lemma ConvertedFiltersReadBack(inputs: seq<Input>, filters: seq<Filter>, allowed: set<string>)
    requires filters != [] && AllConverted(inputs, filters)
    ensures AllWellFormed(filters)
    ensures ReadWhere(WhereOf(filters).text, WhereOf(filters).params) == Some(filters)
    ensures forall i :: 0 <= i < |filters| ==> Asked(inputs[i], filters[i])
    ensures (forall i :: 0 <= i < |filters| ==> filters[i].field in allowed) ==> AllAcceptable(filters, allowed)
  {
    forall i | 0 <= i < |filters| ensures WellFormed(filters[i]) && StatedAsAsked(inputs[i], filters[i]) {
      ConvertedIsAsked(inputs[i], filters[i]);
    }
    WhereRoundTrip(filters);
    AllStated(inputs, filters);
  }

  predicate StatedAsAsked(input: Input, f: Filter) {
    Asked(input, f) && Stated(f) == f
  }

  lemma ConvertedIsAsked(input: Input, f: Filter)
    requires IsWord(input.field) && ConvertMutationFilter(Some(input)) == Ok(f)
    ensures WellFormed(f) && StatedAsAsked(input, f)
  {
    ConversionEstablishesThePrecondition(input);
  }

  lemma AllStated(inputs: seq<Input>, filters: seq<Filter>)
    requires |inputs| == |filters| && forall i :: 0 <= i < |filters| ==> StatedAsAsked(inputs[i], filters[i])
    ensures StatedAll(filters) == filters && forall i :: 0 <= i < |filters| ==> Asked(inputs[i], filters[i])
  {
  }

  /** Both builders on the same filters: whatever the validating one accepts, the other one
      writes in the same words and with the same parameters. */
  method BuildBoth(filters: seq<Filter>, allowed: set<string>) returns (read: Result<Where>, mutation: Where)
    ensures read.Ok? <==> AllAcceptable(filters, allowed)
    ensures read.Ok? ==> read.value == mutation
    ensures read.Ok? && filters != [] ==> ReadWhere(mutation.text, mutation.params) == Some(StatedAll(filters))
    ensures read.Ok? ==> Placeholders(mutation.text) == |mutation.params|
  {
    read := BuildWhereClause(filters, allowed);
    mutation := BuildMutationWhereClause(filters);
    if read.Ok? {
      assert forall i :: 0 <= i < |filters| ==> Acceptable(filters[i], allowed);
      OnePlaceholderPerParameter(filters);
      if filters != [] {
        WhereRoundTrip(filters);
      }
    }
  }

  // ---------------------------------------------------------------------
  // Mutations
  // ---------------------------------------------------------------------

  predicate Words(names: seq<string>) {
    forall i :: 0 <= i < |names| ==> IsWord(names[i])
  }

  /** Column names in backticks, each followed by `suffix`, separated by commas. */
  function Columns(cols: seq<string>, suffix: string): string {
    if cols == [] then ""
    else if |cols| == 1 then QuoteIdentifier(cols[0]) + suffix
    else Columns(cols[..|cols| - 1], suffix) + ", " + QuoteIdentifier(cols[|cols| - 1]) + suffix
  }

  method WriteColumns(cols: seq<string>, suffix: string) returns (r: string)
    ensures r == Columns(cols, suffix)
  {
    r := "";
    for i := 0 to |cols|
      invariant r == Columns(cols[..i], suffix)
    {
      assert cols[..i + 1][..i] == cols[..i];
      if i > 0 {
        r := r + ", ";
      }
      r := r + QuoteIdentifier(cols[i]) + suffix;
      assert i == 0 ==> "" + QuoteIdentifier(cols[i]) + suffix == QuoteIdentifier(cols[i]) + suffix;
    }
    assert cols[..|cols|] == cols;
  }

  function UpdateHead(table: string, setCols: seq<string>): string {
    "UPDATE " + QuoteIdentifier(table) + " SET " + Columns(setCols, " = ?") + " WHERE "
  }

  method BuildUpdate(table: string, setCols: seq<string>, setVals: seq<Value>, filters: seq<Filter>) returns (r: Where)
    ensures r == Where(UpdateHead(table, setCols) + WhereOf(filters).text, setVals + WhereOf(filters).params)
  {
    var sql := "UPDATE " + QuoteIdentifier(table) + " SET ";
    var columns := WriteColumns(setCols, " = ?");
    sql := sql + columns + " WHERE ";
    var params := setVals;
    var condition := BuildMutationWhereClause(filters);
    return Where(sql + condition.text, params + condition.params);
  }

  function DeleteHead(table: string): string {
    "DELETE FROM " + QuoteIdentifier(table) + " WHERE "
  }

  method BuildDelete(table: string, filters: seq<Filter>) returns (r: Where)
    ensures r == Where(DeleteHead(table) + WhereOf(filters).text, WhereOf(filters).params)
  {
    var sql := "DELETE FROM " + QuoteIdentifier(table) + " WHERE ";
    var condition := BuildMutationWhereClause(filters);
    return Where(sql + condition.text, condition.params);
  }

  lemma ColumnPlaceholders(name: string, suffix: string)
    requires IsWord(name)
    ensures Placeholders(QuoteIdentifier(name) + suffix) == Placeholders(suffix)
  {
    IdentifierIsUnmarked(name);
    PlaceholdersConcat(QuoteIdentifier(name), suffix);
  }

  lemma OneMoreTime(n: nat, m: nat)
    ensures (n + 1) * m == n * m + m
  {
  }

  lemma {:induction false} ColumnsPlaceholders(cols: seq<string>, suffix: string)
    requires Words(cols)
    ensures Placeholders(Columns(cols, suffix)) == |cols| * Placeholders(suffix)
    decreases |cols|
  {
    if cols != [] {
      var front, item := cols[..|cols| - 1], QuoteIdentifier(cols[|cols| - 1]) + suffix;
      ColumnPlaceholders(cols[|cols| - 1], suffix);
      if |cols| > 1 {
        ColumnsPlaceholders(front, suffix);
        CommaBetween(Columns(front, suffix), item);
        assert Columns(cols, suffix) == Columns(front, suffix) + ", " + item;
        OneMoreTime(|front|, Placeholders(suffix));
      }
    }
  }

  lemma Framed(a: string, b: string, c: string)
    requires NoMark(a) && NoMark(c)
    ensures Placeholders(a + b + c) == Placeholders(b)
  {
    NoPlaceholder(a);
    NoPlaceholder(c);
    PlaceholdersConcat(a, b);
    PlaceholdersConcat(a + b, c);
  }

  lemma AssignmentPlaceholders(cols: seq<string>, suffix: string)
    requires Words(cols) && suffix == " = ?"
    ensures Placeholders(Columns(cols, suffix)) == |cols|
  {
    LastIsPlaceholder(suffix);
    ColumnsPlaceholders(cols, suffix);
  }

  lemma UpdateHeadPlaceholders(table: string, setCols: seq<string>)
    requires IsWord(table) && Words(setCols)
    ensures Placeholders(UpdateHead(table, setCols)) == |setCols|
  {
    IdentifierIsUnmarked(table);
    AssignmentPlaceholders(setCols, " = ?");
    Framed("UPDATE " + QuoteIdentifier(table) + " SET ", Columns(setCols, " = ?"), " WHERE ");
  }

  lemma DeleteHeadPlaceholders(table: string)
    requires IsWord(table)
    ensures Placeholders(DeleteHead(table)) == 0
  {
    IdentifierIsUnmarked(table);
    NoPlaceholder(DeleteHead(table));
  }

  /** In an update the SET values line up with the placeholders before WHERE and the filter
      parameters with those after it; in a delete all of them belong to the filters. */
  lemma MutationParametersLineUp(table: string, setCols: seq<string>, setVals: seq<Value>, filters: seq<Filter>)
    requires IsWord(table) && Words(setCols) && |setCols| == |setVals| && Named(filters)
    ensures Placeholders(UpdateHead(table, setCols)) == |setVals|
    ensures Placeholders(DeleteHead(table)) == 0
    ensures Placeholders(WhereOf(filters).text) == |WhereOf(filters).params|
    ensures Placeholders(UpdateHead(table, setCols) + WhereOf(filters).text) == |setVals + WhereOf(filters).params|
    ensures Placeholders(DeleteHead(table) + WhereOf(filters).text) == |WhereOf(filters).params|
  {
    UpdateHeadPlaceholders(table, setCols);
    DeleteHeadPlaceholders(table);
    OnePlaceholderPerParameter(filters);
    PlaceholdersConcat(UpdateHead(table, setCols), WhereOf(filters).text);
    PlaceholdersConcat(DeleteHead(table), WhereOf(filters).text);
  }

  // ---------------------------------------------------------------------
  // Batch insert
  // ---------------------------------------------------------------------

  function RowMarks(n: nat): string {
    "(" + Marks(n) + ")"
  }

  function Rows(count: nat, row: string): string {
    if count == 0 then "" else if count == 1 then row else Rows(count - 1, row) + ", " + row
  }

  function Flatten(rows: seq<seq<Value>>): seq<Value> {
    if rows == [] then [] else Flatten(rows[..|rows| - 1]) + rows[|rows| - 1]
  }

  function InsertHead(table: string, columns: seq<string>): string {
    "INSERT INTO " + QuoteIdentifier(table) + " (" + Columns(columns, "") + ") VALUES "
  }

  method BuildBatchInsert(table: string, columns: seq<string>, rows: seq<seq<Value>>) returns (r: Where)
    requires columns != [] && rows != [] && forall i :: 0 <= i < |rows| ==> |rows[i]| == |columns|
    ensures r == Where(InsertHead(table, columns) + Rows(|rows|, RowMarks(|columns|)), Flatten(rows))
  {
    var sql := "INSERT INTO " + QuoteIdentifier(table) + " (";
    var names := WriteColumns(columns, "");
    sql := sql + names + ") VALUES ";
    var marks := WriteMarks(|columns|);
    var rowTemplate := "(" + marks + ")";
    var body, params := "", [];
    for i := 0 to |rows|
      invariant body == Rows(i, rowTemplate) && params == Flatten(rows[..i])
    {
      assert rows[..i + 1][..i] == rows[..i];
      if i > 0 {
        body := body + ", ";
      }
      body := body + rowTemplate;
      params := params + rows[i];
    }
    assert rows[..|rows|] == rows;
    return Where(sql + body, params);
  }

  /** BuildInsert writes what the batch builder writes for a single row. */
  method BuildInsert(table: string, columns: seq<string>, values: seq<Value>) returns (r: Where)
    requires columns != [] && |columns| == |values|
    ensures r == Where(InsertHead(table, columns) + Rows(1, RowMarks(|columns|)), Flatten([values]))
  {
    var sql := "INSERT INTO " + QuoteIdentifier(table) + " (";
    var names := WriteColumns(columns, "");
    sql := sql + names + ") VALUES ";
    var marks := WriteMarks(|values|);
    assert [values][..0] == [] && [] + values == values;
    return Where(sql + ("(" + marks + ")"), values);
  }

  lemma CommaBetween(a: string, b: string)
    ensures Placeholders(a + ", " + b) == Placeholders(a) + Placeholders(b)
  {
    NoPlaceholder(", ");
    PlaceholdersConcat(a, ", ");
    PlaceholdersConcat(a + ", ", b);
  }

  lemma {:induction false} RowsPlaceholders(count: nat, row: string)
    ensures Placeholders(Rows(count, row)) == count * Placeholders(row)
  {
    if count > 1 {
      RowsPlaceholders(count - 1, row);
      CommaBetween(Rows(count - 1, row), row);
    }
  }

  /** The parameter at a row's offset plus a column's index is the value of that row and column. */
  lemma {:induction false} FlattenFacts(rows: seq<seq<Value>>, width: nat, r: nat, c: nat)
    requires forall i :: 0 <= i < |rows| ==> |rows[i]| == width
    ensures |Flatten(rows)| == |rows| * width
    ensures r < |rows| && c < width ==>
              0 <= r * width + c < |Flatten(rows)| && Flatten(rows)[r * width + c] == rows[r][c]
  {
    if rows != [] {
      var front := rows[..|rows| - 1];
      FlattenFacts(front, width, r, c);
      OneMoreTime(|front|, width);
      if r < |rows| && c < width {
        if r == |front| {
          assert Flatten(rows)[|front| * width + c] == rows[r][c];
        } else {
          assert Flatten(rows)[r * width + c] == Flatten(front)[r * width + c];
        }
      }
    }
  }

  lemma InsertHeadPlaceholders(table: string, columns: seq<string>)
    requires IsWord(table) && Words(columns)
    ensures Placeholders(InsertHead(table, columns)) == 0
  {
    IdentifierIsUnmarked(table);
    ColumnsPlaceholders(columns, "");
    Framed("INSERT INTO " + QuoteIdentifier(table) + " (", Columns(columns, ""), ") VALUES ");
  }

  lemma RowMarksPlaceholders(n: nat)
    ensures Placeholders(RowMarks(n)) == n
  {
    MarksPlaceholders(n);
    Framed("(", Marks(n), ")");
  }

  lemma BatchInsertPlaceholders(table: string, columns: seq<string>, count: nat)
    requires IsWord(table) && Words(columns)
    ensures Placeholders(InsertHead(table, columns) + Rows(count, RowMarks(|columns|))) == count * |columns|
  {
    InsertHeadPlaceholders(table, columns);
    RowMarksPlaceholders(|columns|);
    RowsPlaceholders(count, RowMarks(|columns|));
    PlaceholdersConcat(InsertHead(table, columns), Rows(count, RowMarks(|columns|)));
  }

  /** A batch insert has one placeholder per parameter, all of them in its rows and as many to a
      row as there are columns. */
  lemma BatchInsertLinesUp(table: string, columns: seq<string>, rows: seq<seq<Value>>)
    requires IsWord(table) && Words(columns)
    requires forall i :: 0 <= i < |rows| ==> |rows[i]| == |columns|
    ensures Placeholders(InsertHead(table, columns) + Rows(|rows|, RowMarks(|columns|))) == |Flatten(rows)|
    ensures Placeholders(InsertHead(table, columns)) == 0
    ensures Placeholders(RowMarks(|columns|)) == |columns|
  {
    InsertHeadPlaceholders(table, columns);
    RowMarksPlaceholders(|columns|);
    BatchInsertPlaceholders(table, columns, |rows|);
    FlattenFacts(rows, |columns|, 0, 0);
  }

  // ---------------------------------------------------------------------
  // Queries and their counts
  // ---------------------------------------------------------------------

  datatype Order = Order(field: string, descending: bool)

  /** `after` is the decoded cursor, negative if it could not be decoded. */
  datatype Pagination = Pagination(first: Option<int>, limit: Option<int>, after: Option<int>, offset: Option<int>)

  datatype Request = Request(
    fields: seq<string>, filters: seq<Filter>, orderBy: seq<Order>, pagination: Option<Pagination>)

  type Schema = map<string, set<string>>

  predicate Selectable(name: string, allowed: set<string>) {
    IsWord(name) && name in allowed
  }

  predicate CountableRequest(schema: Schema, req: Request, table: string) {
    IsWord(table) && table in schema && AllAcceptable(req.filters, schema[table])
  }

  predicate BuildableRequest(schema: Schema, req: Request, table: string) {
    && CountableRequest(schema, req, table)
    && (forall i :: 0 <= i < |req.fields| ==> Selectable(req.fields[i], schema[table]))
    && (forall i :: 0 <= i < |req.orderBy| ==> Selectable(req.orderBy[i].field, schema[table]))
  }

  function SelectClause(fields: seq<string>): string {
    if fields == [] then "*" else Columns(fields, "")
  }

  function OrderItem(o: Order): string {
    QuoteIdentifier(o.field) + (if o.descending then " DESC" else " ASC")
  }

  function OrderItems(orderBy: seq<Order>): string {
    if orderBy == [] then ""
    else
      var o := orderBy[|orderBy| - 1];
      (if |orderBy| == 1 then "" else OrderItems(orderBy[..|orderBy| - 1]) + ", ")
      + OrderItem(o)
  }

  function LimitClause(p: Option<Pagination>): string {
    match p
    case None => ""
    case Some(Pagination(first, limit, after, offset)) =>
      var l := if first.Some? then first else limit;
      var o := if after.Some? then if after.value >= 0 then after else None else offset;
      (if l.Some? then " LIMIT " + Itoa(l.value) else "") + (if o.Some? then " OFFSET " + Itoa(o.value) else "")
  }

  function WhereClause(filters: seq<Filter>): string {
    if filters == [] then "" else " WHERE " + WhereOf(filters).text
  }

  function QueryHead(fields: seq<string>, table: string): string {
    "SELECT " + SelectClause(fields) + " FROM " + QuoteIdentifier(table)
  }

  function QueryTail(req: Request): string {
    (if req.orderBy == [] then "" else " ORDER BY " + OrderItems(req.orderBy)) + LimitClause(req.pagination)
  }

  function QueryText(req: Request, table: string): string {
    QueryHead(req.fields, table) + WhereClause(req.filters) + QueryTail(req)
  }

  function CountHead(table: string): string {
    "SELECT COUNT(*) FROM " + QuoteIdentifier(table)
  }

  function CountText(req: Request, table: string): string {
    CountHead(table) + WhereClause(req.filters)
  }

  /** The query and the count of one request are sent with the same parameters, the filters', and
      every placeholder of either is one of them. */
  lemma ListAndCountAgree(schema: Schema, req: Request, table: string)
    requires BuildableRequest(schema, req, table)
    ensures Placeholders(QueryText(req, table)) == |WhereOf(req.filters).params|
    ensures Placeholders(CountText(req, table)) == |WhereOf(req.filters).params|
  {
    assert forall i :: 0 <= i < |req.filters| ==> Acceptable(req.filters[i], schema[table]);
    WherePlaceholders(req.filters);
    QueryHeadPlaceholders(req.fields, table, schema[table]);
    QueryTailPlaceholders(req, schema[table]);
    CountHeadPlaceholders(table);
    var head, tail := QueryHead(req.fields, table), QueryTail(req);
    PlaceholdersConcat(head, WhereClause(req.filters));
    PlaceholdersConcat(head + WhereClause(req.filters), tail);
    PlaceholdersConcat(CountHead(table), WhereClause(req.filters));
  }

  lemma QueryHeadPlaceholders(fields: seq<string>, table: string, allowed: set<string>)
    requires IsWord(table) && forall i :: 0 <= i < |fields| ==> Selectable(fields[i], allowed)
    ensures Placeholders(QueryHead(fields, table)) == 0
  {
    SelectPlaceholders(fields, allowed);
    IdentifierIsUnmarked(table);
    var rest := " FROM " + QuoteIdentifier(table);
    Framed("SELECT ", SelectClause(fields), rest);
    assert QueryHead(fields, table) == "SELECT " + SelectClause(fields) + rest;
  }

  lemma CountHeadPlaceholders(table: string)
    requires IsWord(table)
    ensures Placeholders(CountHead(table)) == 0
  {
    IdentifierIsUnmarked(table);
    NoPlaceholder(CountHead(table));
  }

  lemma QueryTailPlaceholders(req: Request, allowed: set<string>)
    requires forall i :: 0 <= i < |req.orderBy| ==> Selectable(req.orderBy[i].field, allowed)
    ensures Placeholders(QueryTail(req)) == 0
  {
    OrderPlaceholders(req.orderBy, allowed);
    LimitPlaceholders(req.pagination);
    var order := if req.orderBy == [] then "" else " ORDER BY " + OrderItems(req.orderBy);
    if req.orderBy != [] {
      Framed(" ORDER BY ", OrderItems(req.orderBy), "");
      assert order == " ORDER BY " + OrderItems(req.orderBy) + "";
    }
    PlaceholdersConcat(order, LimitClause(req.pagination));
  }

  lemma WherePlaceholders(filters: seq<Filter>)
    requires Named(filters)
    ensures Placeholders(WhereClause(filters)) == |WhereOf(filters).params|
  {
    OnePlaceholderPerParameter(filters);
    Framed(" WHERE ", WhereOf(filters).text, "");
    assert " WHERE " + WhereOf(filters).text + "" == " WHERE " + WhereOf(filters).text;
  }

  lemma SelectPlaceholders(fields: seq<string>, allowed: set<string>)
    requires forall i :: 0 <= i < |fields| ==> Selectable(fields[i], allowed)
    ensures Placeholders(SelectClause(fields)) == 0
  {
    if fields == [] {
      NoPlaceholder(SelectClause(fields));
    } else {
      ColumnsPlaceholders(fields, "");
    }
  }

  lemma OrderItemPlaceholders(o: Order)
    requires IsWord(o.field)
    ensures Placeholders(OrderItem(o)) == 0
  {
    IdentifierIsUnmarked(o.field);
    NoPlaceholder(OrderItem(o));
  }

  lemma {:induction false} OrderPlaceholders(orderBy: seq<Order>, allowed: set<string>)
    requires forall i :: 0 <= i < |orderBy| ==> Selectable(orderBy[i].field, allowed)
    ensures Placeholders(OrderItems(orderBy)) == 0
  {
    if orderBy != [] {
      var o := orderBy[|orderBy| - 1];
      var front := OrderItems(orderBy[..|orderBy| - 1]);
      var item := OrderItem(o);
      OrderItemPlaceholders(o);
      if |orderBy| == 1 {
        assert OrderItems(orderBy) == item;
      } else {
        OrderPlaceholders(orderBy[..|orderBy| - 1], allowed);
        CommaBetween(front, item);
        assert OrderItems(orderBy) == front + ", " + item;
      }
    }
  }

  lemma NumberHasNoPlaceholder(keyword: string, n: int)
    requires NoMark(keyword)
    ensures Placeholders(keyword + Itoa(n)) == 0
  {
    var d := Digits(if n < 0 then -n else n);
    forall i | 0 <= i < |Itoa(n)| ensures Itoa(n)[i] != '?' {
      assert n < 0 ==> Itoa(n) == "-" + d;
      assert n < 0 && i > 0 ==> IsDigit(d[i - 1]);
      assert n >= 0 ==> IsDigit(d[i]);
    }
    NoPlaceholder(keyword + Itoa(n));
  }

  lemma LimitPlaceholders(p: Option<Pagination>)
    ensures Placeholders(LimitClause(p)) == 0
  {
    if p.Some? {
      var l := if p.value.first.Some? then p.value.first else p.value.limit;
      var o := if p.value.after.Some? then if p.value.after.value >= 0 then p.value.after else None else p.value.offset;
      var a := if l.Some? then " LIMIT " + Itoa(l.value) else "";
      var b := if o.Some? then " OFFSET " + Itoa(o.value) else "";
      if l.Some? {
        NumberHasNoPlaceholder(" LIMIT ", l.value);
      }
      if o.Some? {
        NumberHasNoPlaceholder(" OFFSET ", o.value);
      }
      PlaceholdersConcat(a, b);
    }
  }

  // ---------------------------------------------------------------------
  // The query builder
  // ---------------------------------------------------------------------

  method BuildSelectClause(fields: seq<string>, allowed: set<string>) returns (r: Result<string>)
    ensures r.Ok? <==> forall i :: 0 <= i < |fields| ==> Selectable(fields[i], allowed)
    ensures r.Ok? ==> r.value == SelectClause(fields)
  {
    if |fields| == 0 {
      return Ok("*");
    }
    for i := 0 to |fields|
      invariant forall k :: 0 <= k < i ==> Selectable(fields[k], allowed)
    {
      if !IsWord(fields[i]) {
        return Err("invalid identifier");
      }
      if fields[i] !in allowed {
        return Err("field is not in the allowed columns");
      }
    }
    var columns := WriteColumns(fields, "");
    return Ok(columns);
  }

  method BuildOrderByClause(orderBy: seq<Order>, allowed: set<string>) returns (r: Result<string>)
    ensures r.Ok? <==> forall i :: 0 <= i < |orderBy| ==> Selectable(orderBy[i].field, allowed)
    ensures r.Ok? ==> r.value == OrderItems(orderBy)
  {
    var text := "";
    for i := 0 to |orderBy|
      invariant text == OrderItems(orderBy[..i])
      invariant forall k :: 0 <= k < i ==> Selectable(orderBy[k].field, allowed)
    {
      var o := orderBy[i];
      assert orderBy[..i + 1][..i] == orderBy[..i];
      if !IsWord(o.field) {
        return Err("invalid identifier");
      }
      if o.field !in allowed {
        return Err("order by field is not in the allowed columns");
      }
      var dir := " ASC";
      if o.descending {
        dir := " DESC";
      }
      if i > 0 {
        text := text + ", ";
      }
      text := text + (QuoteIdentifier(o.field) + dir);
    }
    assert orderBy[..|orderBy|] == orderBy;
    return Ok(text);
  }

  /** buildLimitClause, with the blank before it. */
  method BuildLimitClause(p: Option<Pagination>) returns (r: string)
    ensures r == LimitClause(p)
  {
    if p.None? {
      return "";
    }
    var parts := [];
    var limit: Option<int> := None;
    if p.value.first.Some? {
      limit := p.value.first;
    } else if p.value.limit.Some? {
      limit := p.value.limit;
    }
    var offset: Option<int> := None;
    if p.value.after.Some? {
      if p.value.after.value >= 0 {
        offset := p.value.after;
      }
    } else if p.value.offset.Some? {
      offset := p.value.offset;
    }
    if limit.Some? {
      parts := parts + ["LIMIT " + Itoa(limit.value)];
    }
    if offset.Some? {
      parts := parts + ["OFFSET " + Itoa(offset.value)];
    }
    assert " " + "LIMIT " == " LIMIT " && " " + "OFFSET " == " OFFSET ";
    if limit.Some? && offset.Some? {
      TwoParts("LIMIT ", Itoa(limit.value), "OFFSET ", Itoa(offset.value));
    } else if limit.Some? {
      OnePart("LIMIT ", Itoa(limit.value));
      assert " LIMIT " + Itoa(limit.value) + "" == " LIMIT " + Itoa(limit.value);
    } else if offset.Some? {
      OnePart("OFFSET ", Itoa(offset.value));
      assert "" + (" OFFSET " + Itoa(offset.value)) == " OFFSET " + Itoa(offset.value);
    }
    if parts == [] {
      return "";
    }
    return " " + Join(parts, " ");
  }

  lemma OnePart(keyword: string, number: string)
    ensures " " + Join([keyword + number], " ") == " " + keyword + number
  {
  }

  lemma TwoParts(keyword: string, number: string, keyword': string, number': string)
    ensures " " + Join([keyword + number, keyword' + number'], " ")
         == (" " + keyword + number) + (" " + keyword' + number')
  {
    var a, b := keyword + number, keyword' + number';
    assert [a, b][1..] == [b];
    assert Join([a, b], " ") == a + " " + b;
  }

  method Build(schema: Schema, req: Request, table: string) returns (r: Result<Where>)
    ensures r.Ok? <==> BuildableRequest(schema, req, table)
    ensures r.Ok? ==> r.value == Where(QueryText(req, table), WhereOf(req.filters).params)
  {
    if !IsWord(table) || table !in schema {
      return Err("invalid table");
    }
    var selectClause := BuildSelectClause(req.fields, schema[table]);
    if selectClause.Err? {
      return Err(selectClause.error);
    }
    var whereClause := BuildWhereClause(req.filters, schema[table]);
    if whereClause.Err? {
      return Err(whereClause.error);
    }
    var orderByClause := BuildOrderByClause(req.orderBy, schema[table]);
    if orderByClause.Err? {
      return Err(orderByClause.error);
    }
    var sql := "SELECT " + selectClause.value + " FROM " + QuoteIdentifier(table);
    assert sql == QueryHead(req.fields, table);
    var condition := "";
    if |req.filters| > 0 {
      condition := " WHERE " + whereClause.value.text;
    }
    assert condition == WhereClause(req.filters);
    var tail := BuildLimitClause(req.pagination);
    if |req.orderBy| > 0 {
      tail := " ORDER BY " + orderByClause.value + tail;
    }
    assert |req.orderBy| == 0 ==> tail == "" + LimitClause(req.pagination);
    assert tail == QueryTail(req);
    return Ok(Where(sql + condition + tail, whereClause.value.params));
  }

  method BuildCount(schema: Schema, req: Request, table: string) returns (r: Result<Where>)
    ensures r.Ok? <==> CountableRequest(schema, req, table)
    ensures r.Ok? ==> r.value == Where(CountText(req, table), WhereOf(req.filters).params)
  {
    if !IsWord(table) || table !in schema {
      return Err("invalid table");
    }
    var whereClause := BuildWhereClause(req.filters, schema[table]);
    if whereClause.Err? {
      return Err(whereClause.error);
    }
    var sql := "SELECT COUNT(*) FROM " + QuoteIdentifier(table);
    if |req.filters| > 0 {
      sql := sql + (" WHERE " + whereClause.value.text);
    }
    return Ok(Where(sql, whereClause.value.params));
  }
}

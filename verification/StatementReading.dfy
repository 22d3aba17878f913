/** Reading built queries and counts back: their columns, table, condition, order and bounds. */
module StatementReading {
  import opened Text
  import opened Filters
  import opened Statements
  import opened Reading

  datatype Query = Query(fields: seq<string>, table: string, filters: seq<Filter>, closing: Closing)

  datatype Count = Count(table: string, filters: seq<Filter>)

  /** A query for no column in particular is one for all of them. */
  function ReadQuery(sql: string, params: seq<Value>): Option<Query> {
    match Behind("SELECT ", sql)
    case None => None
    case Some(columns) => ReadSelected(columns, params)
  }

  function ReadSelected(t: string, params: seq<Value>): Option<Query> {
    match Behind("*", t)
    case Some(rest) => ReadFrom([], rest, params)
    case None =>
      match ReadColumns(t, "")
      case None => None
      case Some(Names(fields, rest)) => ReadFrom(fields, rest, params)
  }

  function ReadFrom(fields: seq<string>, t: string, params: seq<Value>): Option<Query> {
    match ReadName(" FROM ", t)
    case None => None
    case Some(Name(table, rest)) => ReadQueried(fields, table, rest, params)
  }

  function ReadQueried(fields: seq<string>, table: string, t: string, params: seq<Value>): Option<Query> {
    match ReadCondition(t, params)
    case None => None
    case Some(Condition(filters, rest)) =>
      match ReadClosing(rest)
      case None => None
      case Some(tail) => Some(Query(fields, table, filters, tail))
  }

  function ReadCount(sql: string, params: seq<Value>): Option<Count> {
    match ReadName("SELECT COUNT(*) FROM ", sql)
    case None => None
    case Some(Name(table, rest)) =>
      match ReadCondition(rest, params)
      case None => None
      case Some(Condition(filters, end)) => if end == "" then Some(Count(table, filters)) else None
  }

  datatype Condition = Condition(filters: seq<Filter>, rest: string)

  /** Every parameter has to belong to the condition. */
  function ReadCondition(t: string, params: seq<Value>): Option<Condition> {
    match Behind(" WHERE ", t)
    case None => if params == [] then Some(Condition([], t)) else None
    case Some(condition) =>
      match ReadConditions(condition, params)
      case None => None
      case Some(Conditions(filters, rest, left)) => if left == [] then Some(Condition(filters, rest)) else None
  }

  // ---------------------------------------------------------------------
  // The condition is found
  // ---------------------------------------------------------------------

  /** What may follow the condition, or the table if there is none. */
  predicate Follows(tail: string) {
    Ending(tail) && !(" WHERE " <= tail)
  }

  lemma ConditionIsFound(filters: seq<Filter>, tail: string)
    requires AllWellFormed(filters) && Follows(tail)
    ensures ReadCondition(WhereClause(filters) + tail, WhereOf(filters).params)
         == Some(Condition(StatedAll(filters), tail))
  {
    if filters == [] {
      assert WhereClause(filters) + tail == tail;
    } else {
      ConditionsReadBack(filters, tail, []);
      assert WhereOf(filters).params + [] == WhereOf(filters).params;
      BehindWhere(" WHERE ", WhereOf(filters).text, tail);
    }
  }

  lemma BehindWhere(keyword: string, text: string, tail: string)
    ensures Behind(keyword, keyword + text + tail) == Some(text + tail)
  {
    ThreeAlike(keyword, text, tail);
    TakesPrefix(keyword, text + tail);
  }

  // ---------------------------------------------------------------------
  // Order and bounds are found
  // ---------------------------------------------------------------------

  function QuotedFields(orderBy: seq<Order>): (r: seq<string>)
    ensures |r| == |orderBy| && forall i :: 0 <= i < |r| ==> r[i] == QuoteIdentifier(orderBy[i].field)
  {
    seq(|orderBy|, i requires 0 <= i < |orderBy| => QuoteIdentifier(orderBy[i].field))
  }

  lemma {:induction false} ItemsAreJoined(orderBy: seq<Order>)
    ensures OrderItems(orderBy) == Join(Items(QuotedFields(orderBy), orderBy), ", ")
    decreases |orderBy|
  {
    if orderBy != [] {
      var front, last := orderBy[..|orderBy| - 1], orderBy[|orderBy| - 1];
      var items := Items(QuotedFields(orderBy), orderBy);
      ItemsAreJoined(front);
      assert items == Items(QuotedFields(front), front) + [OrderItem(last)];
      JoinAppend(Items(QuotedFields(front), front), OrderItem(last), ", ");
    }
  }

  lemma NameInOrder(field: string)
    requires IsWord(field)
    ensures NamesField(QuoteIdentifier(field), field)
  {
    forall rest: string | rest != "" && rest[0] == ' ' ensures Quoted(QuoteIdentifier(field), field, rest) {
      OnePartQuoted(field, rest);
    }
  }

  /** The bounds that a pagination asks for: `first` counts before `limit`, and a cursor, unless it
      could not be decoded, before and instead of `offset`. */
  predicate AsksFor(p: Option<Pagination>, limit: Option<int>, offset: Option<int>) {
    match p
    case None => limit.None? && offset.None?
    case Some(Pagination(first, l, after, o)) =>
      && (first.Some? ==> limit == first)
      && (first.None? ==> limit == l)
      && (after.Some? && after.value >= 0 ==> offset == after)
      && (after.Some? && after.value < 0 ==> offset.None?)
      && (after.None? ==> offset == o)
  }

  lemma LimitClauseShape(p: Option<Pagination>) returns (limit: Option<int>, offset: Option<int>)
    ensures LimitClause(p) == Bound(" LIMIT ", limit) + Bound(" OFFSET ", offset)
    ensures AsksFor(p, limit, offset)
  {
    match p
    case None =>
      limit, offset := None, None;
      assert "" + "" == "";
    case Some(Pagination(first, l, after, o)) =>
      limit := if first.Some? then first else l;
      offset := if after.Some? then if after.value >= 0 then after else None else o;
  }

  lemma QueryTailReadsBack(req: Request) returns (limit: Option<int>, offset: Option<int>)
    requires forall i :: 0 <= i < |req.orderBy| ==> IsWord(req.orderBy[i].field)
    ensures AsksFor(req.pagination, limit, offset)
    ensures ReadClosing(QueryTail(req)) == Some(Closing(req.orderBy, limit, offset))
  {
    limit, offset := LimitClauseShape(req.pagination);
    ItemsAreJoined(req.orderBy);
    var printed := QuotedFields(req.orderBy);
    forall i | 0 <= i < |req.orderBy| ensures NamesField(printed[i], req.orderBy[i].field) {
      NameInOrder(req.orderBy[i].field);
    }
    ClosingReadsBack(printed, req.orderBy, limit, offset, " ORDER BY ", " LIMIT ", " OFFSET ");
  }

  lemma TailFollows(req: Request)
    ensures Follows(QueryTail(req))
  {
    var order := if req.orderBy == [] then "" else " ORDER BY " + OrderItems(req.orderBy);
    var limit := LimitClause(req.pagination);
    assert order != "" ==> order[0] == ' ' && order[1] == 'O';
    LimitFollows(req.pagination);
    assert order != "" ==> QueryTail(req)[0] == order[0] && QueryTail(req)[1] == order[1];
    assert order == "" ==> QueryTail(req) == limit;
  }

  lemma LimitFollows(p: Option<Pagination>)
    ensures LimitClause(p) != "" ==>
              |LimitClause(p)| > 1 && LimitClause(p)[0] == ' ' && (LimitClause(p)[1] == 'L' || LimitClause(p)[1] == 'O')
  {
  }

  // ---------------------------------------------------------------------
  // Columns and table are found
  // ---------------------------------------------------------------------

  lemma TableIsFound(fields: seq<string>, from: string, table: string, rest: string, params: seq<Value>)
    requires IsWord(table) && from == " FROM "
    ensures ReadFrom(fields, from + (QuoteIdentifier(table) + rest), params) == ReadQueried(fields, table, rest, params)
  {
    NameIsFound(from, table, rest);
  }

  lemma FieldsAreFound(fields: seq<string>, rest: string, params: seq<Value>)
    requires Words(fields) && rest != "" && rest[0] == ' '
    ensures ReadSelected(SelectClause(fields) + rest, params) == ReadFrom(fields, rest, params)
  {
    if fields == [] {
      TakesPrefix("*", rest);
    } else {
      assert [fields[0]] + fields[1..] == fields;
      ColumnsReadBack(fields[0], fields[1..], "", rest);
      ColumnsStart(fields, rest);
    }
  }

  lemma ColumnsStart(fields: seq<string>, rest: string)
    requires fields != []
    ensures !("*" <= Columns(fields, "") + rest)
  {
    if |fields| > 1 {
      assert [fields[0]] + fields[1..] == fields;
      ColumnsFirst(fields[0], fields[1..], "");
    }
    assert (Columns(fields, "") + rest)[0] == '`';
  }

  lemma QueryIsFound(select: string, fields: seq<string>, from: string, table: string, rest: string, params: seq<Value>)
    requires select == "SELECT " && from == " FROM " && Words(fields) && IsWord(table)
    ensures ReadQuery(select + SelectClause(fields) + from + QuoteIdentifier(table) + rest, params)
         == ReadQueried(fields, table, rest, params)
  {
    var behind := from + (QuoteIdentifier(table) + rest);
    TableIsFound(fields, from, table, rest, params);
    assert behind[0] == ' ';
    FieldsAreFound(fields, behind, params);
    FivePieces(select, SelectClause(fields), from, QuoteIdentifier(table), rest);
    TakesPrefix(select, SelectClause(fields) + behind);
  }

  lemma FivePieces(a: string, b: string, c: string, d: string, e: string)
    ensures a + b + c + d + e == a + (b + (c + (d + e)))
  {
  }

  lemma CountIsFound(count: string, table: string, rest: string)
    requires IsWord(table)
    ensures ReadName(count, count + QuoteIdentifier(table) + rest) == Some(Name(table, rest))
  {
    NameIsFound(count, table, rest);
    ThreeAlike(count, QuoteIdentifier(table), rest);
  }

  /** All names that a statement mentions are columns of the table as the schema lists them. */
  predicate Whitelisted(schema: Schema, q: Query) {
    && q.table in schema
    && (forall i :: 0 <= i < |q.fields| ==> q.fields[i] in schema[q.table])
    && (forall i :: 0 <= i < |q.filters| ==> q.filters[i].field in schema[q.table])
    && (forall i :: 0 <= i < |q.closing.orders| ==> q.closing.orders[i].field in schema[q.table])
  }

  /** A request can be built exactly if every name in it is a word, its filters have the values that
      their operators need, and all that its query will mention is on the lists of the schema. */
  lemma BuildableIff(schema: Schema, req: Request, table: string, limit: Option<int>, offset: Option<int>)
    ensures var q := Query(req.fields, table, StatedAll(req.filters), Closing(req.orderBy, limit, offset));
            BuildableRequest(schema, req, table) <==>
              && Whitelisted(schema, q) && IsWord(table) && Words(req.fields) && AllWellFormed(req.filters)
              && forall i :: 0 <= i < |req.orderBy| ==> IsWord(req.orderBy[i].field)
  {
    if table in schema {
      assert forall i :: 0 <= i < |req.filters| ==>
               (Acceptable(req.filters[i], schema[table])
                <==> WellFormed(req.filters[i]) && StatedAll(req.filters)[i].field in schema[table]);
    }
  }

  /** Read back with their parameters, the query and the count of one request name its table and
      exactly its filters, and the query its columns, its order and the bounds it asks for, all of
      them columns on the list of the table. */
  lemma ListAndCountReadBack(schema: Schema, req: Request, table: string)
    returns (limit: Option<int>, offset: Option<int>)
    requires BuildableRequest(schema, req, table)
    ensures AsksFor(req.pagination, limit, offset)
    ensures var q := Query(req.fields, table, StatedAll(req.filters), Closing(req.orderBy, limit, offset));
            ReadQuery(QueryText(req, table), WhereOf(req.filters).params) == Some(q) && Whitelisted(schema, q)
    ensures ReadCount(CountText(req, table), WhereOf(req.filters).params) == Some(Count(table, StatedAll(req.filters)))
  {
    BuildableIff(schema, req, table, None, None);
    limit, offset := QueryTailReadsBack(req);
    BuildableIff(schema, req, table, limit, offset);
    QueryReadsBack(req, table);
    CountReadsBack(req, table);
  }

  lemma QueryReadsBack(req: Request, table: string)
    requires AllWellFormed(req.filters) && Words(req.fields) && IsWord(table)
    ensures ReadQuery(QueryText(req, table), WhereOf(req.filters).params)
         == match ReadClosing(QueryTail(req))
            case None => None
            case Some(tail) => Some(Query(req.fields, table, StatedAll(req.filters), tail))
  {
    var rest := WhereClause(req.filters) + QueryTail(req);
    TailFollows(req);
    ConditionIsFound(req.filters, QueryTail(req));
    QueryIsFound("SELECT ", req.fields, " FROM ", table, rest, WhereOf(req.filters).params);
    ThreeAlike(QueryHead(req.fields, table), WhereClause(req.filters), QueryTail(req));
  }

  lemma CountReadsBack(req: Request, table: string)
    requires AllWellFormed(req.filters) && IsWord(table)
    ensures ReadCount(CountText(req, table), WhereOf(req.filters).params) == Some(Count(table, StatedAll(req.filters)))
  {
    ConditionIsFound(req.filters, "");
    assert WhereClause(req.filters) + "" == WhereClause(req.filters);
    CountIsFound("SELECT COUNT(*) FROM ", table, WhereClause(req.filters));
  }
}

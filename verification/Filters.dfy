/** Filters and the WHERE builders: the validating one behind queries and the non-validating
    one behind mutations, each with its loop, and what their output means. */
module Filters {
  import opened Text

  /** A filter or column value: nothing, an opaque scalar, or a JSON array. */
  datatype Value = Null | Scalar(text: string) | List(items: seq<Value>)

  datatype Op = EQ | NEQ | GT | GTE | LT | LTE | LIKE | IN | NOT_IN | IS_NULL | IS_NOT_NULL | Unknown(code: int)

  datatype Filter = Filter(field: string, op: Op, value: Value)

  function QuoteIdentifier(name: string): string {
    "`" + name + "`"
  }

  predicate IsList(op: Op) { op == IN || op == NOT_IN }

  predicate IsNullTest(op: Op) { op == IS_NULL || op == IS_NOT_NULL }

  predicate NonemptyList(v: Value) { v.List? && v.items != [] }

  /** The text after the column, up to and including the first placeholder or bracket. */
  function Marker(op: Op): string {
    match op
    case EQ => " = ?"
    case NEQ => " != ?"
    case GT => " > ?"
    case GTE => " >= ?"
    case LT => " < ?"
    case LTE => " <= ?"
    case LIKE => " LIKE ?"
    case IN => " IN ("
    case NOT_IN => " NOT IN ("
    case IS_NULL => " IS NULL"
    case IS_NOT_NULL => " IS NOT NULL"
    case Unknown(_) => ""
  }

  /** `n` placeholders separated by commas. */
  function Marks(n: nat): string {
    if n == 0 then "" else if n == 1 then "?" else "?, " + Marks(n - 1)
  }

  /** A clause after its column. */
  function Tail(f: Filter): string {
    Marker(f.op) + if IsList(f.op) then Marks(if NonemptyList(f.value) then |f.value.items| else 1) + ")" else ""
  }

  function Clause(f: Filter): string {
    QuoteIdentifier(f.field) + Tail(f)
  }

  /** The parameters of one clause; outside its precondition an IN filter passes its value on. */
  function Params(f: Filter): seq<Value> {
    if IsNullTest(f.op) || f.op.Unknown? then []
    else if IsList(f.op) && NonemptyList(f.value) then f.value.items
    else [f.value]
  }

  function ClauseOf(f: Filter): seq<string> {
    if f.op.Unknown? then [] else [Clause(f)]
  }

  function Clauses(filters: seq<Filter>): seq<string> {
    if filters == [] then [] else ClauseOf(filters[0]) + Clauses(filters[1..])
  }

  function AllParams(filters: seq<Filter>): seq<Value> {
    if filters == [] then [] else Params(filters[0]) + AllParams(filters[1..])
  }

  lemma Regroup<T>(a: seq<T>, b: seq<T>, c: seq<T>)
    ensures a + (b + c) == (a + b) + c
  {
  }

  lemma {:induction false} OneMoreClause(filters: seq<Filter>, f: Filter)
    ensures Clauses(filters + [f]) == Clauses(filters) + ClauseOf(f)
    decreases |filters|
  {
    if filters == [] {
      assert (filters + [f])[1..] == [];
    } else {
      assert (filters + [f])[1..] == filters[1..] + [f];
      OneMoreClause(filters[1..], f);
      Regroup(ClauseOf(filters[0]), Clauses(filters[1..]), ClauseOf(f));
    }
  }

  lemma {:induction false} OneMoreParams(filters: seq<Filter>, f: Filter)
    ensures AllParams(filters + [f]) == AllParams(filters) + Params(f)
    decreases |filters|
  {
    if filters == [] {
      assert (filters + [f])[1..] == [];
    } else {
      assert (filters + [f])[1..] == filters[1..] + [f];
      OneMoreParams(filters[1..], f);
      Regroup(Params(filters[0]), AllParams(filters[1..]), Params(f));
    }
  }

  lemma OneMore(filters: seq<Filter>, f: Filter)
    ensures Clauses(filters + [f]) == Clauses(filters) + ClauseOf(f)
    ensures AllParams(filters + [f]) == AllParams(filters) + Params(f)
  {
    OneMoreClause(filters, f);
    OneMoreParams(filters, f);
  }

  lemma NextClause(filters: seq<Filter>, f: Filter)
    requires !f.op.Unknown?
    ensures Clauses(filters + [f]) == Clauses(filters) + [Clause(f)]
    ensures AllParams(filters + [f]) == AllParams(filters) + Params(f)
  {
    OneMore(filters, f);
  }

  datatype Where = Where(text: string, params: seq<Value>)

  function WhereOf(filters: seq<Filter>): Where {
    Where(Join(Clauses(filters), " AND "), AllParams(filters))
  }

  // ---------------------------------------------------------------------
  // The two builders
  // ---------------------------------------------------------------------

  predicate Acceptable(f: Filter, allowed: set<string>) {
    IsWord(f.field) && f.field in allowed && !f.op.Unknown? && (IsList(f.op) ==> NonemptyList(f.value))
  }

  predicate AllAcceptable(filters: seq<Filter>, allowed: set<string>) {
    forall i :: 0 <= i < |filters| ==> Acceptable(filters[i], allowed)
  }

  method BuildINClause(col: string, value: Value, negate: bool) returns (r: Result<Where>)
    ensures r.Ok? <==> NonemptyList(value)
    ensures r.Ok? ==>
              var text := Marker(if negate then NOT_IN else IN) + (Marks(|value.items|) + ")");
              r.value == Where(col + text, value.items)
  {
    if !value.List? {
      return Err("IN/NOT IN operator requires a slice value");
    }
    if |value.items| == 0 {
      return Err("IN/NOT IN operator requires at least one value");
    }
    var placeholders := seq(|value.items|, i => "?");
    JoinedMarks(|value.items|);
    var op := "IN";
    if negate {
      op := "NOT IN";
    }
    var clause := col + " " + op + " (" + Join(placeholders, ", ") + ")";
    InClauseShape(col, op, Marks(|value.items|));
    InMarker(op, negate);
    return Ok(Where(clause, value.items));
  }

  lemma InMarker(op: string, negate: bool)
    requires op == if negate then "NOT IN" else "IN"
    ensures " " + op + " (" == Marker(if negate then NOT_IN else IN)
  {
  }

  lemma InClauseShape(col: string, op: string, marks: string)
    ensures col + " " + op + " (" + marks + ")" == col + ((" " + op + " (") + (marks + ")"))
  {
  }

  lemma {:induction false} JoinedMarks(n: nat)
    ensures Join(seq(n, i => "?"), ", ") == Marks(n)
  {
    if n > 1 {
      var all := seq(n, i => "?");
      assert all[1..] == seq(n - 1, i => "?");
      JoinedMarks(n - 1);
    }
  }

  /** The comparison branches of both builders. */
  method Comparison(col: string, f: Filter) returns (clause: string)
    requires !IsList(f.op) && !f.op.Unknown? && col == QuoteIdentifier(f.field)
    ensures clause == Clause(f)
  {
    assert col + (Marker(f.op) + "") == col + Marker(f.op);
    match f.op
    case EQ => clause := col + " = ?";
    case NEQ => clause := col + " != ?";
    case GT => clause := col + " > ?";
    case GTE => clause := col + " >= ?";
    case LT => clause := col + " < ?";
    case LTE => clause := col + " <= ?";
    case LIKE => clause := col + " LIKE ?";
    case IS_NULL => clause := col + " IS NULL";
    case IS_NOT_NULL => clause := col + " IS NOT NULL";
  }

  /** The operator switch of buildWhereClause. */
  method BuildClause(f: Filter) returns (r: Result<Where>)
    ensures r.Ok? <==> !f.op.Unknown? && (IsList(f.op) ==> NonemptyList(f.value))
    ensures r.Ok? ==> r.value == Where(Clause(f), Params(f))
  {
    var col := QuoteIdentifier(f.field);
    if f.op.Unknown? {
      return Err("unsupported filter operator");
    } else if f.op == IN || f.op == NOT_IN {
      var inClause := BuildINClause(col, f.value, f.op == NOT_IN);
      return inClause;
    } else {
      var clause := Comparison(col, f);
      if f.op == IS_NULL || f.op == IS_NOT_NULL {
        return Ok(Where(clause, []));
      }
      return Ok(Where(clause, [f.value]));
    }
  }

  /** The turn of the loop for one filter. */
  method CheckedClause(f: Filter, allowedCols: set<string>) returns (r: Result<Where>)
    ensures r.Ok? <==> Acceptable(f, allowedCols)
    ensures r.Ok? ==> r.value == Where(Clause(f), Params(f))
  {
    if !IsWord(f.field) {
      return Err("invalid identifier");
    }
    if f.field !in allowedCols {
      return Err("filter field is not in the allowed columns");
    }
    r := BuildClause(f);
  }

  /** buildWhereClause: validates, and fails on the first filter it does not accept. */
  method BuildWhereClause(filters: seq<Filter>, allowedCols: set<string>) returns (r: Result<Where>)
    ensures r.Ok? <==> AllAcceptable(filters, allowedCols)
    ensures r.Ok? ==> r.value == WhereOf(filters)
  {
    if |filters| == 0 {
      return Ok(Where("", []));
    }
    var clauses, params := [], [];
    ghost var done: seq<Filter> := [];
    for i := 0 to |filters|
      invariant done == filters[..i] && AllAcceptable(done, allowedCols)
      invariant clauses == Clauses(done) && params == AllParams(done)
    {
      var clause := CheckedClause(filters[i], allowedCols);
      if clause.Err? {
        return Err(clause.error);
      }
      NextClause(done, filters[i]);
      clauses, params := clauses + [clause.value.text], params + clause.value.params;
      done := done + [filters[i]];
    }
    assert done == filters;
    return Ok(Where(Join(clauses, " AND "), params));
  }

  /** The bracketed list that the mutation builder writes placeholder by placeholder. */
  method WriteMarks(n: nat) returns (r: string)
    ensures r == Marks(n)
  {
    r := "";
    for i := 0 to n
      invariant r == Marks(i)
    {
      MarksAppend(i);
      if i > 0 {
        r := r + ", ";
      }
      r := r + "?";
    }
  }

  lemma {:induction false} MarksAppend(n: nat)
    ensures Marks(n + 1) == if n == 0 then "?" else Marks(n) + ", ?"
  {
    if n > 1 {
      MarksAppend(n - 1);
    }
  }

  /** The IN and NOT IN branches of the mutation builder, with their fallback. */
  method WriteINClause(col: string, f: Filter) returns (r: Where)
    requires IsList(f.op) && col == QuoteIdentifier(f.field)
    ensures r == Where(Clause(f), Params(f))
  {
    var head := if f.op == IN then " IN (" else " NOT IN (";
    if !f.value.List? || |f.value.items| == 0 {
      assert col + head + "?)" == col + (head + ("?" + ")"));
      return Where(col + head + "?)", [f.value]);
    }
    var marks := WriteMarks(|f.value.items|);
    assert col + head + marks + ")" == col + (head + (marks + ")"));
    return Where(col + head + marks + ")", f.value.items);
  }

  /** buildMutationWhereClause: no validation and no error; unknown operators are skipped. */
  method BuildMutationWhereClause(filters: seq<Filter>) returns (r: Where)
    ensures r == WhereOf(filters)
  {
    var clauses, params := [], [];
    for i := 0 to |filters|
      invariant clauses == Clauses(filters[..i]) && params == AllParams(filters[..i])
    {
      var f := filters[i];
      OneMore(filters[..i], f);
      assert filters[..i + 1] == filters[..i] + [f];
      var col := QuoteIdentifier(f.field);
      if f.op.Unknown? {
        continue;
      } else if f.op == IN || f.op == NOT_IN {
        var inClause := WriteINClause(col, f);
        clauses := clauses + [inClause.text];
        params := params + inClause.params;
      } else {
        var clause := Comparison(col, f);
        clauses := clauses + [clause];
        if f.op != IS_NULL && f.op != IS_NOT_NULL {
          params := params + [f.value];
        }
      }
    }
    assert filters[..|filters|] == filters;
    return Where(Join(clauses, " AND "), params);
  }

  // ---------------------------------------------------------------------
  // Placeholders and parameters
  // ---------------------------------------------------------------------

  function Placeholders(t: string): nat {
    if t == "" then 0 else (if t[0] == '?' then 1 else 0) + Placeholders(t[1..])
  }

  lemma {:induction false} PlaceholdersConcat(a: string, b: string)
    ensures Placeholders(a + b) == Placeholders(a) + Placeholders(b)
  {
    if a == "" {
      assert a + b == b;
    } else {
      assert (a + b)[1..] == a[1..] + b;
      PlaceholdersConcat(a[1..], b);
    }
  }

  lemma {:induction false} NoPlaceholder(t: string)
    requires forall i :: 0 <= i < |t| ==> t[i] != '?'
    ensures Placeholders(t) == 0
  {
    if t != "" {
      NoPlaceholder(t[1..]);
    }
  }

  predicate NoMark(t: string) {
    forall i :: 0 <= i < |t| ==> t[i] != '?'
  }

  lemma IdentifierIsUnmarked(name: string)
    requires IsWord(name)
    ensures NoMark(QuoteIdentifier(name)) && Placeholders(QuoteIdentifier(name)) == 0
  {
    forall i | 0 <= i < |QuoteIdentifier(name)| ensures QuoteIdentifier(name)[i] != '?' {
      if 0 < i <= |name| {
        assert IsWordChar(name[i - 1]);
      }
    }
    NoPlaceholder(QuoteIdentifier(name));
  }

  lemma {:induction false} MarksPlaceholders(n: nat)
    ensures Placeholders(Marks(n)) == n
  {
    if n == 1 {
      assert "?"[1..] == "";
    } else if n > 1 {
      MarksPlaceholders(n - 1);
      PlaceholdersConcat("?, ", Marks(n - 1));
      NoPlaceholder(", ");
      assert "?, "[1..] == ", ";
    }
  }

  lemma LastIsPlaceholder(t: string)
    requires t != "" && t[|t| - 1] == '?'
    requires forall i :: 0 <= i < |t| - 1 ==> t[i] != '?'
    ensures Placeholders(t) == 1
  {
    var head := t[..|t| - 1];
    NoPlaceholder(head);
    PlaceholdersConcat(head, "?");
    assert head + "?" == t;
    assert "?"[1..] == "";
  }

  lemma MarkerPlaceholders(op: Op)
    ensures Placeholders(Marker(op)) == if IsList(op) || IsNullTest(op) || op.Unknown? then 0 else 1
  {
    if IsList(op) || IsNullTest(op) || op.Unknown? {
      NoPlaceholder(Marker(op));
    } else {
      LastIsPlaceholder(Marker(op));
    }
  }

  lemma ClausePlaceholders(f: Filter)
    requires IsWord(f.field) && !f.op.Unknown?
    ensures Placeholders(Clause(f)) == |Params(f)|
  {
    var marker := Marker(f.op);
    IdentifierIsUnmarked(f.field);
    MarkerPlaceholders(f.op);
    PlaceholdersConcat(QuoteIdentifier(f.field), Tail(f));
    if IsList(f.op) {
      var n := if NonemptyList(f.value) then |f.value.items| else 1;
      MarksPlaceholders(n);
      NoPlaceholder(")");
      PlaceholdersConcat(Marks(n), ")");
      PlaceholdersConcat(marker, Marks(n) + ")");
    } else {
      assert Tail(f) == marker;
    }
  }

  predicate Named(filters: seq<Filter>) {
    forall i :: 0 <= i < |filters| ==> IsWord(filters[i].field)
  }

  /** Every WHERE text has exactly one placeholder per parameter, even outside the builder's
      precondition, as long as the columns are identifiers. */
  lemma {:induction false} OnePlaceholderPerParameter(filters: seq<Filter>)
    requires Named(filters)
    ensures Placeholders(WhereOf(filters).text) == |WhereOf(filters).params|
    decreases |filters|
  {
    if filters != [] {
      var f, others := filters[0], filters[1..];
      OnePlaceholderPerParameter(others);
      if f.op.Unknown? {
        assert Clauses(filters) == Clauses(others);
      } else {
        ClausePlaceholders(f);
        JoinedPlaceholders(Clause(f), Clauses(others));
      }
    }
  }

  lemma JoinedPlaceholders(first: string, others: seq<string>)
    ensures Placeholders(Join([first] + others, " AND ")) == Placeholders(first) + Placeholders(Join(others, " AND "))
  {
    assert ([first] + others)[1..] == others;
    if others == [] {
      assert Join([first] + others, " AND ") == first;
    } else {
      NoPlaceholder(" AND ");
      PlaceholdersConcat(first, " AND ");
      PlaceholdersConcat(first + " AND ", Join(others, " AND "));
    }
  }

  // ---------------------------------------------------------------------
  // Reading a WHERE text back
  // ---------------------------------------------------------------------

  /** The operator that a text after a column can only belong to. */
  function GuessOp(t: string): Option<Op> {
    if |t| < 6 then
      if |t| < 4 then None
      else if t[1] == '=' then Some(EQ)
      else if t[1] == '>' && t[2] == ' ' then Some(GT)
      else if t[1] == '<' && t[2] == ' ' then Some(LT)
      else if t[1] == '!' then Some(NEQ)
      else if t[1] == '>' then Some(GTE)
      else if t[1] == '<' then Some(LTE)
      else None
    else match t[1]
      case '=' => Some(EQ)
      case '!' => Some(NEQ)
      case '>' => Some(if t[2] == '=' then GTE else GT)
      case '<' => Some(if t[2] == '=' then LTE else LT)
      case 'L' => Some(LIKE)
      case 'N' => Some(NOT_IN)
      case 'I' => Some(if t[2] == 'N' then IN else if t[5] == 'U' then IS_NULL else IS_NOT_NULL)
      case _ => None
  }

  function ReadOp(t: string): Option<Op> {
    match GuessOp(t)
    case None => None
    case Some(op) => if Marker(op) <= t then Some(op) else None
  }

  /** Placeholders up to the closing bracket: their number and the text after it. */
  function ReadMarks(t: string): (r: Option<(nat, string)>)
    ensures r.Some? ==> |r.value.1| < |t|
    decreases |t|
  {
    if "?)" <= t then Some((1, t[2..]))
    else if "?, " <= t then
      match ReadMarks(t[3..])
      case None => None
      case Some((n, rest)) => Some((n + 1, rest))
    else None
  }

  function NameEnd(t: string): (r: nat)
    ensures r <= |t|
  {
    if t == "" || t[0] == '`' then 0 else 1 + NameEnd(t[1..])
  }

  datatype Reading = Reading(filter: Filter, text: string, params: seq<Value>)

  /** One clause, with the text and the parameters that follow it. */
  function ReadClause(t: string, params: seq<Value>): (r: Option<Reading>)
    ensures r.Some? ==> |r.value.text| < |t|
  {
    if t == "" || t[0] != '`' then None
    else
      var n := NameEnd(t[1..]);
      if n == |t[1..]| then None
      else ReadTail(t[1..][..n], t[1..][n + 1..], params)
  }

  function ReadTail(field: string, t: string, params: seq<Value>): (r: Option<Reading>)
    ensures r.Some? ==> |r.value.text| <= |t|
  {
    match ReadOp(t)
    case None => None
    case Some(op) =>
      var rest := t[|Marker(op)|..];
      if IsNullTest(op) then Some(Reading(Filter(field, op, Null), rest, params))
      else if IsList(op) then
        match ReadMarks(rest) {
          case None => None
          case Some((n, after)) =>
            if n > |params| then None
            else Some(Reading(Filter(field, op, List(params[..n])), after, params[n..]))
        }
      else if params == [] then None
      else Some(Reading(Filter(field, op, params[0]), rest, params[1..]))
  }

  datatype Conditions = Conditions(filters: seq<Filter>, text: string, params: seq<Value>)

  /** Clauses joined by AND, as many as there are, with the text and the parameters that follow. */
  function ReadConditions(t: string, params: seq<Value>): Option<Conditions>
    decreases |t|
  {
    match ReadClause(t, params)
    case None => None
    case Some(Reading(f, rest, left)) =>
      if !(" AND " <= rest) then Some(Conditions([f], rest, left))
      else match ReadConditions(rest[5..], left)
        case None => None
        case Some(Conditions(fs, text, unread)) => Some(Conditions([f] + fs, text, unread))
  }

  /** A whole WHERE text with exactly its parameters. */
  function ReadWhere(t: string, params: seq<Value>): Option<seq<Filter>> {
    match ReadConditions(t, params)
    case None => None
    case Some(Conditions(fs, text, left)) => if text == "" && left == [] then Some(fs) else None
  }

  /** A filter as its clause states it: the null tests have no value. */
  function Stated(f: Filter): Filter {
    if IsNullTest(f.op) then f.(value := Null) else f
  }

  function StatedAll(filters: seq<Filter>): (r: seq<Filter>)
    ensures |r| == |filters| && forall i :: 0 <= i < |r| ==> r[i] == Stated(filters[i])
  {
    seq(|filters|, i requires 0 <= i < |filters| => Stated(filters[i]))
  }

  /** What the builders' callers establish. */
  predicate WellFormed(f: Filter) {
    IsWord(f.field) && !f.op.Unknown? && (IsList(f.op) ==> NonemptyList(f.value))
  }

  lemma OpReadsBack(op: Op, rest: string)
    requires !op.Unknown? && (if IsList(op) then rest != "" else rest == "" || rest[0] == ' ')
    ensures ReadOp(Marker(op) + rest) == Some(op)
  {
    var m, t := Marker(op), Marker(op) + rest;
    assert forall i :: 0 <= i < |m| ==> t[i] == m[i];
    assert m <= t;
    match op {
      case EQ => {}
      case NEQ => {}
      case GT => {}
      case GTE => {}
      case LT => {}
      case LTE => {}
      case LIKE => {}
      case IN => {}
      case NOT_IN => {}
      case IS_NULL => {}
      case IS_NOT_NULL => {}
    }
  }

  lemma {:induction false} MarksReadBack(n: nat, rest: string)
    requires n > 0
    ensures ReadMarks(Marks(n) + ")" + rest) == Some((n, rest))
  {
    var t := Marks(n) + ")" + rest;
    if n == 1 {
      assert t[..2] == "?)" && t[2..] == rest;
    } else {
      MarksReadBack(n - 1, rest);
      assert t[1] == ',';
      assert t[..3] == "?, " && t[3..] == Marks(n - 1) + ")" + rest;
    }
  }

  lemma {:induction false} NameReadsBack(name: string, rest: string)
    requires forall i :: 0 <= i < |name| ==> IsWordChar(name[i])
    ensures NameEnd(name + "`" + rest) == |name|
  {
    var t := name + "`" + rest;
    if name != "" {
      assert IsWordChar(name[0]) && t[0] == name[0];
      assert t[1..] == name[1..] + "`" + rest;
      NameReadsBack(name[1..], rest);
    } else {
      assert t[0] == '`';
    }
  }

  lemma ListReadsBack(f: Filter, rest: string, more: seq<Value>)
    requires WellFormed(f) && IsList(f.op)
    ensures ReadTail(f.field, Tail(f) + rest, Params(f) + more) == Some(Reading(Stated(f), rest, more))
  {
    var m, n := Marker(f.op), |f.value.items|;
    var after := Marks(n) + ")" + rest;
    OpReadsBack(f.op, after);
    MarksReadBack(n, rest);
    assert Tail(f) + rest == m + after;
    assert (m + after)[|m|..] == after;
    assert (f.value.items + more)[..n] == f.value.items && (f.value.items + more)[n..] == more;
  }

  lemma TailReadsBack(f: Filter, rest: string, more: seq<Value>)
    requires WellFormed(f) && (rest == "" || rest[0] == ' ')
    ensures ReadTail(f.field, Tail(f) + rest, Params(f) + more) == Some(Reading(Stated(f), rest, more))
  {
    var m := Marker(f.op);
    if IsList(f.op) {
      ListReadsBack(f, rest, more);
    } else {
      OpReadsBack(f.op, rest);
      assert Tail(f) + rest == m + rest;
      assert (m + rest)[|m|..] == rest;
      assert [] + more == more;
      assert ([f.value] + more)[1..] == more;
    }
  }

  lemma ColumnReadsBack(field: string, tail: string, params: seq<Value>)
    requires IsWord(field)
    ensures ReadClause(QuoteIdentifier(field) + tail, params) == ReadTail(field, tail, params)
  {
    var t := QuoteIdentifier(field) + tail;
    assert t == "`" + (field + "`" + tail);
    assert t[1..] == field + "`" + tail;
    NameReadsBack(field, tail);
    assert t[1..][..|field|] == field;
    assert t[1..][|field| + 1..] == tail;
  }

  lemma ClauseReadsBack(f: Filter, rest: string, more: seq<Value>)
    requires WellFormed(f) && (rest == "" || rest[0] == ' ')
    ensures ReadClause(Clause(f) + rest, Params(f) + more) == Some(Reading(Stated(f), rest, more))
  {
    ColumnReadsBack(f.field, Tail(f) + rest, Params(f) + more);
    Regroup(QuoteIdentifier(f.field), Tail(f), rest);
    TailReadsBack(f, rest, more);
  }

  predicate AllWellFormed(filters: seq<Filter>) {
    forall i :: 0 <= i < |filters| ==> WellFormed(filters[i])
  }

  /** A text that can follow the conditions of a statement. */
  predicate Ending(tail: string) {
    tail == "" || (tail[0] == ' ' && !(" AND " <= tail))
  }

  lemma ReadOnly(f: Filter, tail: string, more: seq<Value>)
    requires WellFormed(f) && Ending(tail)
    ensures ReadConditions(Clause(f) + tail, Params(f) + more) == Some(Conditions([Stated(f)], tail, more))
  {
    ClauseReadsBack(f, tail, more);
  }

  lemma ReadFirst(f: Filter, rest: string, more: seq<Value>)
    requires WellFormed(f)
    ensures ReadConditions(Clause(f) + (" AND " + rest), Params(f) + more)
         == match ReadConditions(rest, more)
            case None => None
            case Some(Conditions(fs, text, left)) => Some(Conditions([Stated(f)] + fs, text, left))
  {
    var tail := " AND " + rest;
    ClauseReadsBack(f, tail, more);
    assert tail[5..] == rest && " AND " <= tail;
  }

  /** The text and parameters of a list with more than one filter, first filter apart. */
  lemma WhereFirst(f: Filter, others: seq<Filter>)
    requires WellFormed(f) && others != [] && AllWellFormed(others)
    ensures WhereOf([f] + others)
         == Where(Clause(f) + " AND " + WhereOf(others).text, Params(f) + WhereOf(others).params)
  {
    assert ([f] + others)[1..] == others;
    assert WellFormed(others[0]);
    assert Clauses(others) != [];
    assert ([Clause(f)] + Clauses(others))[1..] == Clauses(others);
  }

  lemma WhereOne(f: Filter)
    requires WellFormed(f)
    ensures WhereOf([f]) == Where(Clause(f), Params(f))
  {
    assert [f][1..] == [];
    assert Clauses([f]) == [Clause(f)] && AllParams([f]) == Params(f);
  }

  /** Parsing a WHERE text with its parameters, in front of others, gives back what the filters
      state and leaves the others. */
  predicate ReadsBack(filters: seq<Filter>, w: Where, tail: string, more: seq<Value>) {
    ReadConditions(w.text + tail, w.params + more) == Some(Conditions(StatedAll(filters), tail, more))
  }

  lemma OneReadsBack(f: Filter, tail: string, more: seq<Value>)
    requires WellFormed(f) && Ending(tail)
    ensures ReadsBack([f], Where(Clause(f), Params(f)), tail, more)
  {
    ReadOnly(f, tail, more);
    assert StatedAll([f]) == [Stated(f)];
  }

  lemma StatedFirst(f: Filter, others: seq<Filter>)
    ensures StatedAll([f] + others) == [Stated(f)] + StatedAll(others)
  {
  }

  lemma ReadChained(f: Filter, others: seq<Filter>, t: string, params: seq<Value>, t': string, params': seq<Value>,
                    tail: string, more: seq<Value>)
    requires WellFormed(f) && t' == Clause(f) + (" AND " + t) && params' == Params(f) + params
    requires ReadConditions(t, params) == Some(Conditions(StatedAll(others), tail, more))
    ensures ReadConditions(t', params') == Some(Conditions(StatedAll([f] + others), tail, more))
  {
    ReadFirst(f, t, params);
    StatedFirst(f, others);
  }

  lemma TextsRegroup(a: string, sep: string, b: string, tail: string)
    ensures a + sep + b + tail == a + (sep + (b + tail))
  {
  }

  /** The induction step, with the texts of both lists as opaque values. */
  lemma FirstReadsBack(f: Filter, others: seq<Filter>, w: Where, w': Where, tail: string, more: seq<Value>)
    requires WellFormed(f) && ReadsBack(others, w, tail, more)
    requires w'.text == Clause(f) + " AND " + w.text && w'.params == Params(f) + w.params
    ensures ReadsBack([f] + others, w', tail, more)
  {
    TextsRegroup(Clause(f), " AND ", w.text, tail);
    Regroup(Params(f), w.params, more);
    ReadChained(f, others, w.text + tail, w.params + more, w'.text + tail, w'.params + more, tail, more);
  }

  lemma {:induction false} AllReadBack(f: Filter, others: seq<Filter>, tail: string, more: seq<Value>)
    requires WellFormed(f) && AllWellFormed(others) && Ending(tail)
    ensures ReadsBack([f] + others, WhereOf([f] + others), tail, more)
    decreases |others|
  {
    if others == [] {
      assert [f] + others == [f];
      WhereOne(f);
      OneReadsBack(f, tail, more);
    } else {
      var g, rest := others[0], others[1..];
      assert [g] + rest == others;
      assert WellFormed(g);
      AllReadBack(g, rest, tail, more);
      WhereFirst(f, others);
      FirstReadsBack(f, others, WhereOf(others), WhereOf([f] + others), tail, more);
    }
  }

  lemma ConditionsReadBack(filters: seq<Filter>, tail: string, more: seq<Value>)
    requires filters != [] && AllWellFormed(filters) && Ending(tail)
    ensures ReadsBack(filters, WhereOf(filters), tail, more)
  {
    AllReadBack(filters[0], filters[1..], tail, more);
    assert [filters[0]] + filters[1..] == filters;
  }

  /** Text and parameters together determine the filters: parsing gives them back, up to the
      values of null tests, which the builders ignore. */
  lemma WhereRoundTrip(filters: seq<Filter>)
    requires filters != [] && AllWellFormed(filters)
    ensures ReadWhere(WhereOf(filters).text, WhereOf(filters).params) == Some(StatedAll(filters))
  {
    ConditionsReadBack(filters, "", []);
    var w := WhereOf(filters);
    assert w.text + "" == w.text && w.params + [] == w.params;
  }

  /** Two accepted filter lists with the same text and parameters state the same filters. */
  lemma WhereIsInjective(a: seq<Filter>, b: seq<Filter>)
    requires a != [] && b != []
    requires AllWellFormed(a) && AllWellFormed(b)
    requires WhereOf(a) == WhereOf(b)
    ensures StatedAll(a) == StatedAll(b)
  {
    WhereRoundTrip(a);
    WhereRoundTrip(b);
  }

  // ---------------------------------------------------------------------
  // Outside the mutation builder's precondition
  // ---------------------------------------------------------------------

  /** IN and NOT IN take any value that is not a nonempty list as their only item. */
  function Wrapped(f: Filter): Filter {
    if IsList(f.op) && !NonemptyList(f.value) then f.(value := List([f.value])) else f
  }

  /** The filters whose condition the mutation builder writes down: unknown operators are lost. */
  function Meant(filters: seq<Filter>): seq<Filter> {
    if filters == [] then []
    else (if filters[0].op.Unknown? then [] else [Wrapped(filters[0])]) + Meant(filters[1..])
  }

  lemma WrappedFacts(f: Filter)
    requires IsWord(f.field) && !f.op.Unknown?
    ensures WellFormed(Wrapped(f))
    ensures Clause(Wrapped(f)) == Clause(f) && Params(Wrapped(f)) == Params(f)
    ensures Stated(Wrapped(f)) == Stated(f) <==> WellFormed(f)
  {
    if !NonemptyList(f.value) {
      assert NonemptyList(List([f.value]));
    }
  }

  lemma {:induction false} MeantIsWellFormed(filters: seq<Filter>)
    requires Named(filters)
    ensures AllWellFormed(Meant(filters)) && |Meant(filters)| <= |filters|
    decreases |filters|
  {
    if filters != [] {
      MeantIsWellFormed(filters[1..]);
      if !filters[0].op.Unknown? {
        WrappedFacts(filters[0]);
      }
    }
  }

  lemma {:induction false} MeantWritesTheSame(filters: seq<Filter>)
    requires Named(filters)
    ensures Clauses(Meant(filters)) == Clauses(filters) && AllParams(Meant(filters)) == AllParams(filters)
    decreases |filters|
  {
    if filters != [] {
      var f, rest := filters[0], Meant(filters[1..]);
      MeantWritesTheSame(filters[1..]);
      if f.op.Unknown? {
        assert Meant(filters) == rest;
        assert [] + Clauses(filters[1..]) == Clauses(filters[1..]);
        assert [] + AllParams(filters[1..]) == AllParams(filters[1..]);
      } else {
        WrappedFacts(f);
        assert ([Wrapped(f)] + rest)[1..] == rest;
      }
    }
  }

  lemma {:induction false} MeantIffWellFormed(filters: seq<Filter>)
    requires Named(filters)
    ensures StatedAll(Meant(filters)) == StatedAll(filters) <==> AllWellFormed(filters)
    decreases |filters|
  {
    if filters != [] {
      var f, others := filters[0], filters[1..];
      MeantIffWellFormed(others);
      MeantIsWellFormed(others);
      assert [f] + others == filters;
      StatedFirst(f, others);
      assert AllWellFormed(filters) <==> WellFormed(f) && AllWellFormed(others);
      if f.op.Unknown? {
        assert |Meant(filters)| < |filters|;
      } else {
        WrappedFacts(f);
        StatedFirst(Wrapped(f), Meant(others));
        FirstsDiffer(Stated(Wrapped(f)), StatedAll(Meant(others)), Stated(f), StatedAll(others));
      }
    }
  }

  lemma FirstsDiffer(a: Filter, s: seq<Filter>, b: Filter, t: seq<Filter>)
    ensures [a] + s == [b] + t <==> a == b && s == t
  {
    assert ([a] + s)[0] == a && ([b] + t)[0] == b;
    assert ([a] + s)[1..] == s && ([b] + t)[1..] == t;
  }

  lemma NothingMeant(filters: seq<Filter>)
    requires Named(filters) && filters != [] && Meant(filters) == []
    ensures ReadWhere(WhereOf(filters).text, WhereOf(filters).params).None? && !AllWellFormed(filters)
  {
    MeantWritesTheSame(filters);
    MeantIffWellFormed(filters);
    assert WhereOf(filters).text == "";
  }

  /** What the mutation builder writes reads back as the filters it was given exactly when its
      precondition holds for each of them; otherwise it states other filters without a word, or,
      for unknown operators only, nothing that can be read. */
  lemma MutationWhereMeans(filters: seq<Filter>)
    requires Named(filters) && filters != []
    ensures var read := ReadWhere(WhereOf(filters).text, WhereOf(filters).params);
            && read == (if Meant(filters) == [] then None else Some(StatedAll(Meant(filters))))
            && (read == Some(StatedAll(filters)) <==> AllWellFormed(filters))
  {
    if Meant(filters) == [] {
      NothingMeant(filters);
    } else {
      MeantIsWellFormed(filters);
      MeantWritesTheSame(filters);
      MeantIffWellFormed(filters);
      WhereRoundTrip(Meant(filters));
    }
  }
}

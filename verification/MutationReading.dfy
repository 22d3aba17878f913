/** Reading built mutations back: their table, columns with their own values, and filters. */
module MutationReading {
  import opened Text
  import opened Filters
  import opened Statements
  import opened Reading

  datatype Update = Update(table: string, columns: seq<string>, values: seq<Value>, filters: seq<Filter>)

  /** An update takes as many parameters for its columns as there are, and the rest for its condition. */
  function ReadUpdate(sql: string, params: seq<Value>): Option<Update> {
    match ReadName("UPDATE ", sql)
    case None => None
    case Some(Name(table, rest)) => ReadSet(table, rest, params)
  }

  function ReadSet(table: string, t: string, params: seq<Value>): Option<Update> {
    match Behind(" SET ", t)
    case None => None
    case Some(assignments) =>
      match ReadColumns(assignments, " = ?")
      case None => None
      case Some(Names(columns, rest)) => ReadUpdated(table, columns, rest, params)
  }

  function ReadUpdated(table: string, columns: seq<string>, t: string, params: seq<Value>): Option<Update> {
    if |columns| > |params| then None
    else match ReadCondition(t, params[|columns|..])
      case None => None
      case Some(filters) => Some(Update(table, columns, params[..|columns|], filters))
  }

  function ReadCondition(t: string, params: seq<Value>): Option<seq<Filter>> {
    match Behind(" WHERE ", t)
    case None => None
    case Some(condition) => ReadWhere(condition, params)
  }

  datatype Delete = Delete(table: string, filters: seq<Filter>)

  function ReadDelete(sql: string, params: seq<Value>): Option<Delete> {
    match ReadName("DELETE FROM ", sql)
    case None => None
    case Some(Name(table, rest)) =>
      match ReadCondition(rest, params)
      case None => None
      case Some(filters) => Some(Delete(table, filters))
  }

  datatype Insert = Insert(table: string, columns: seq<string>, rows: seq<seq<Value>>)

  /** An insert takes a row of parameters for every bracket of placeholders, up to the end of the text. */
  function ReadInsert(sql: string, params: seq<Value>): Option<Insert> {
    match ReadName("INSERT INTO ", sql)
    case None => None
    case Some(Name(table, rest)) => ReadInserted(table, rest, params)
  }

  function ReadInserted(table: string, t: string, params: seq<Value>): Option<Insert> {
    match Behind(" (", t)
    case None => None
    case Some(names) =>
      match ReadColumns(names, "")
      case None => None
      case Some(Names(columns, rest)) =>
        match Behind(") VALUES ", rest)
        case None => None
        case Some(brackets) =>
          match ReadRows(brackets, params)
          case None => None
          case Some(rows) => Some(Insert(table, columns, rows))
  }

  function ReadRows(t: string, params: seq<Value>): Option<seq<seq<Value>>>
    decreases |t|
  {
    if !("(" <= t) then None
    else match ReadMarks(t[1..])
      case None => None
      case Some((n, rest)) =>
        if n > |params| then None
        else if rest == "" then if n == |params| then Some([params]) else None
        else if !(", " <= rest) then None
        else match ReadRows(rest[2..], params[n..])
          case None => None
          case Some(rows) => Some([params[..n]] + rows)
  }

  // ---------------------------------------------------------------------
  // Updates and deletes
  // ---------------------------------------------------------------------

  lemma ConditionIsRead(where: string, text: string, params: seq<Value>)
    requires where == " WHERE "
    ensures ReadCondition(where + text, params) == ReadWhere(text, params)
  {
    TakesPrefix(where, text);
  }

  lemma UpdateShape(update: string, name: string, assign: string, columns: string, where: string, text: string)
    ensures update + name + assign + columns + where + text == update + (name + (assign + (columns + (where + text))))
  {
  }

  lemma SetIsRead(table: string, assign: string, setCols: seq<string>, where: string, text: string, setVals: seq<Value>,
                  params: seq<Value>)
    requires assign == " SET " && where == " WHERE "
    requires Words(setCols) && |setCols| == |setVals|
    ensures ReadSet(table, assign + (Columns(setCols, " = ?") + (where + text)), setVals + params)
         == if setCols == [] || ReadWhere(text, params).None? then None
            else Some(Update(table, setCols, setVals, ReadWhere(text, params).value))
  {
    TakesPrefix(assign, Columns(setCols, " = ?") + (where + text));
    assert (where + text)[0] == ' ';
    if setCols == [] {
      NoColumns(where + text, " = ?");
    } else {
      assert [setCols[0]] + setCols[1..] == setCols;
      ColumnsReadBack(setCols[0], setCols[1..], " = ?", where + text);
      assert (setVals + params)[..|setCols|] == setVals && (setVals + params)[|setCols|..] == params;
      ConditionIsRead(where, text, params);
    }
  }

  lemma UpdateIsRead(table: string, setCols: seq<string>, setVals: seq<Value>, w: Where)
    requires IsWord(table) && Words(setCols) && |setCols| == |setVals|
    ensures ReadUpdate(UpdateHead(table, setCols) + w.text, setVals + w.params)
         == if setCols == [] || ReadWhere(w.text, w.params).None? then None
            else Some(Update(table, setCols, setVals, ReadWhere(w.text, w.params).value))
  {
    var rest := " SET " + (Columns(setCols, " = ?") + (" WHERE " + w.text));
    UpdateShape("UPDATE ", QuoteIdentifier(table), " SET ", Columns(setCols, " = ?"), " WHERE ", w.text);
    NameIsFound("UPDATE ", table, rest);
    SetIsRead(table, " SET ", setCols, " WHERE ", w.text, setVals, w.params);
  }

  lemma DeleteShape(delete: string, name: string, where: string, text: string)
    ensures delete + name + where + text == delete + (name + (where + text))
  {
  }

  lemma DeleteIsRead(table: string, w: Where)
    requires IsWord(table)
    ensures ReadDelete(DeleteHead(table) + w.text, w.params)
         == if ReadWhere(w.text, w.params).None? then None
            else Some(Delete(table, ReadWhere(w.text, w.params).value))
  {
    DeleteShape("DELETE FROM ", QuoteIdentifier(table), " WHERE ", w.text);
    NameIsFound("DELETE FROM ", table, " WHERE " + w.text);
    ConditionIsRead(" WHERE ", w.text, w.params);
  }

  lemma ConditionMeans(filters: seq<Filter>)
    requires Named(filters)
    ensures ReadWhere(WhereOf(filters).text, WhereOf(filters).params)
         == if Meant(filters) == [] then None else Some(StatedAll(Meant(filters)))
    ensures ReadWhere(WhereOf(filters).text, WhereOf(filters).params) == Some(StatedAll(filters))
       <==> filters != [] && AllWellFormed(filters)
  {
    if filters != [] {
      MutationWhereMeans(filters);
    } else {
      assert WhereOf(filters).text == "";
    }
  }

  /** An update, read back with the parameters it is sent with, names its table, gives each of its
      columns its own value and has the condition that the WHERE builder means; this is the request
      that was made exactly if there are columns and filters and the filters meet the builder's
      precondition. */
  lemma UpdateReadsBack(table: string, setCols: seq<string>, setVals: seq<Value>, filters: seq<Filter>)
    requires IsWord(table) && Words(setCols) && |setCols| == |setVals| && Named(filters)
    ensures var w := WhereOf(filters);
            var read := ReadUpdate(UpdateHead(table, setCols) + w.text, setVals + w.params);
            && read == (if setCols == [] || Meant(filters) == [] then None
                        else Some(Update(table, setCols, setVals, StatedAll(Meant(filters)))))
            && (read == Some(Update(table, setCols, setVals, StatedAll(filters)))
                <==> setCols != [] && filters != [] && AllWellFormed(filters))
  {
    ConditionMeans(filters);
    UpdateIsRead(table, setCols, setVals, WhereOf(filters));
  }

  /** The same for a delete. */
  lemma DeleteReadsBack(table: string, filters: seq<Filter>)
    requires IsWord(table) && Named(filters)
    ensures var read := ReadDelete(DeleteHead(table) + WhereOf(filters).text, WhereOf(filters).params);
            && read == (if Meant(filters) == [] then None else Some(Delete(table, StatedAll(Meant(filters)))))
            && (read == Some(Delete(table, StatedAll(filters))) <==> filters != [] && AllWellFormed(filters))
  {
    ConditionMeans(filters);
    DeleteIsRead(table, WhereOf(filters));
  }

  // ---------------------------------------------------------------------
  // Inserts
  // ---------------------------------------------------------------------

  lemma {:induction false} RowsFirst(count: nat, row: string)
    requires count > 1
    ensures Rows(count, row) == row + ", " + Rows(count - 1, row)
  {
    if count > 2 {
      RowsFirst(count - 1, row);
      FiveAlike(row, ", ", Rows(count - 2, row), row);
    }
  }

  lemma {:induction false} FlattenFirst(row: seq<Value>, others: seq<seq<Value>>)
    ensures Flatten([row] + others) == row + Flatten(others)
    decreases |others|
  {
    if others == [] {
      assert ([row] + others)[..0] == [];
      assert [] + row == row && row + [] == row;
    } else {
      var front, last := others[..|others| - 1], others[|others| - 1];
      assert ([row] + others)[..|others|] == [row] + front;
      FlattenFirst(row, front);
      Regroup(row, Flatten(front), last);
    }
  }

  lemma BracketReadsBack(open: string, marks: string, n: nat, rest: string)
    requires n > 0 && open == "(" && marks == Marks(n)
    ensures open <= open + marks + ")" + rest
    ensures ReadMarks((open + marks + ")" + rest)[1..]) == Some((n, rest))
  {
    MarksReadBack(n, rest);
    assert open + marks + ")" + rest == open + (marks + ")" + rest);
    TakesPrefix(open, marks + ")" + rest);
  }

  lemma LastRow(row: seq<Value>)
    requires row != []
    ensures ReadRows(RowMarks(|row|), row) == Some([row])
  {
    BracketReadsBack("(", Marks(|row|), |row|, "");
    assert "(" + Marks(|row|) + ")" + "" == RowMarks(|row|);
  }

  lemma FirstRow(row: seq<Value>, comma: string, more: string, params: seq<Value>)
    requires row != [] && comma == ", "
    ensures ReadRows(RowMarks(|row|) + (comma + more), row + params)
         == match ReadRows(more, params)
            case None => None
            case Some(rows) => Some([row] + rows)
  {
    BracketReadsBack("(", Marks(|row|), |row|, comma + more);
    TakesPrefix(comma, more);
    assert (row + params)[..|row|] == row && (row + params)[|row|..] == params;
  }

  /** The printed brackets are read with these parameters as these rows. */
  predicate ReadAsRows(printed: string, params: seq<Value>, rows: seq<seq<Value>>) {
    ReadRows(printed, params) == Some(rows)
  }

  lemma {:induction false} RowsReadBack(row: seq<Value>, others: seq<seq<Value>>)
    requires row != [] && forall i :: 0 <= i < |others| ==> |others[i]| == |row|
    ensures ReadAsRows(Rows(|others| + 1, RowMarks(|row|)), Flatten([row] + others), [row] + others)
    decreases |others|
  {
    FlattenFirst(row, others);
    if others == [] {
      LastRow(row);
      assert row + [] == row && [row] + others == [row];
    } else {
      var next, rest := others[0], others[1..];
      assert [next] + rest == others && |next| == |row|;
      RowsReadBack(next, rest);
      RowsFirst(|others| + 1, RowMarks(|row|));
      OneMoreRow(row, others, Rows(|others|, RowMarks(|row|)), ", ", Flatten(others));
    }
  }

  lemma OneMoreRow(row: seq<Value>, others: seq<seq<Value>>, printed: string, comma: string, params: seq<Value>)
    requires row != [] && comma == ", " && ReadAsRows(printed, params, others)
    ensures ReadAsRows(RowMarks(|row|) + comma + printed, row + params, [row] + others)
  {
    ThreeAlike(RowMarks(|row|), comma, printed);
    FirstRow(row, comma, printed, params);
  }

  lemma InsertShape(insert: string, name: string, open: string, columns: string, values: string, rows: string)
    ensures insert + name + open + columns + values + rows
         == insert + (name + (open + (columns + (values + rows))))
  {
  }

  lemma InsertedIsRead(table: string, open: string, columns: seq<string>, values: string, body: string,
                       params: seq<Value>, rows: seq<seq<Value>>)
    requires open == " (" && values == ") VALUES " && columns != [] && Words(columns)
    requires ReadRows(body, params) == Some(rows)
    ensures ReadInserted(table, open + (Columns(columns, "") + (values + body)), params)
         == Some(Insert(table, columns, rows))
  {
    TakesPrefix(open, Columns(columns, "") + (values + body));
    assert (values + body)[0] == ')';
    assert [columns[0]] + columns[1..] == columns;
    ColumnsReadBack(columns[0], columns[1..], "", values + body);
    TakesPrefix(values, body);
  }

  /** A batch insert, read back, names its table and columns and gives every row its own values. */
  lemma InsertReadsBack(table: string, columns: seq<string>, rows: seq<seq<Value>>)
    requires IsWord(table) && Words(columns) && columns != [] && rows != []
    requires forall i :: 0 <= i < |rows| ==> |rows[i]| == |columns|
    ensures ReadInsert(InsertHead(table, columns) + Rows(|rows|, RowMarks(|columns|)), Flatten(rows))
         == Some(Insert(table, columns, rows))
  {
    var body := Rows(|rows|, RowMarks(|columns|));
    assert [rows[0]] + rows[1..] == rows && |rows[0]| == |columns|;
    RowsReadBack(rows[0], rows[1..]);
    InsertShape("INSERT INTO ", QuoteIdentifier(table), " (", Columns(columns, ""), ") VALUES ", body);
    NameIsFound("INSERT INTO ", table, " (" + (Columns(columns, "") + (") VALUES " + body)));
    InsertedIsRead(table, " (", columns, ") VALUES ", body, Flatten(rows), rows);
  }
}

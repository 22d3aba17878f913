/** Reading page and count statements back: what they select from the template, in which order and
    within which bounds; and which identifiers and directions they can hold. */
module PageReading {
  import opened Text
  import opened Wrapping
  import Filters
  import Statements
  import opened Reading

  // ---------------------------------------------------------------------
  // Identifiers
  // ---------------------------------------------------------------------

  predicate DotFree(s: string) {
    forall i :: 0 <= i < |s| ==> s[i] != '.'
  }

  lemma {:induction false} SplitFirst(a: string, dot: string, rest: string)
    requires DotFree(a) && dot == "."
    ensures Split(a + (dot + rest), '.') == [a] + Split(rest, '.')
    ensures Split(a, '.') == [a]
  {
    if a == "" {
      assert a + (dot + rest) == dot + rest && (dot + rest)[1..] == rest;
    } else {
      assert (a + (dot + rest))[1..] == a[1..] + (dot + rest);
      SplitFirst(a[1..], dot, rest);
      var more := Split(rest, '.');
      assert ([a[1..]] + more)[1..] == more;
      assert [a[0]] + a[1..] == a;
    }
  }

  /** Texts without dots, joined with dots, are split again into just these texts. */
  lemma {:induction false} JoinThenSplit(parts: seq<string>, dot: string)
    requires parts != [] && dot == "." && forall i :: 0 <= i < |parts| ==> DotFree(parts[i])
    ensures Split(Join(parts, dot), '.') == parts
  {
    SplitFirst(parts[0], dot, "");
    if |parts| > 1 {
      JoinThenSplit(parts[1..], dot);
      SplitFirst(parts[0], dot, Join(parts[1..], dot));
      assert parts[0] + dot + Join(parts[1..], dot) == parts[0] + (dot + Join(parts[1..], dot));
    }
  }

  predicate IsNameCharacter(c: char) {
    'a' <= c <= 'z' || 'A' <= c <= 'Z' || c in "0123456789_"
  }

  /** Accepted as an identifier are one or two parts of 1 to 64 letters, digits and underscores. */
  lemma IdentifierIff(parts: seq<string>)
    requires parts != [] && forall i :: 0 <= i < |parts| ==> DotFree(parts[i])
    ensures ValidIdentifier(Join(parts, ".")) <==>
            && |parts| <= 2
            && forall i :: 0 <= i < |parts| ==>
                 1 <= |parts[i]| <= 64 && forall k :: 0 <= k < |parts[i]| ==> IsNameCharacter(parts[i][k])
  {
    JoinThenSplit(parts, ".");
    assert forall c :: IsNameCharacter(c) <==> IsWordChar(c);
  }

  lemma SameInPrint(w: string)
    ensures Backticked(w) == Filters.QuoteIdentifier(w)
  {
  }

  /** A printed identifier is read as that identifier. */
  lemma IdentifierReadsBack(s: string, rest: string)
    requires ValidIdentifier(s) && !(".`" <= rest)
    ensures Quoted(QuotedIdentifier(s), s, rest)
  {
    var segments := Split(s, '.');
    IdentifierShape(s);
    SameInPrint(segments[0]);
    if |segments| == 1 {
      OnePartQuoted(segments[0], rest);
    } else {
      SameInPrint(segments[1]);
      TwoPartsQuoted(segments[0], segments[1], ".", rest);
    }
  }

  // ---------------------------------------------------------------------
  // The select list
  // ---------------------------------------------------------------------

  function ReadFields(t: string): Option<Names>
    decreases |t|
  {
    match ReadQuoted(t)
    case None => None
    case Some(Name(field, rest)) =>
      if !(", " <= rest) then Some(Names([field], rest))
      else match ReadFields(rest[2..])
        case None => None
        case Some(Names(fields, end)) => Some(Names([field] + fields, end))
  }

  /** The fields in front of the derived table, none for all of them, and the text behind its
      opening parenthesis. */
  function ReadHead(t: string): Option<Names> {
    match Behind("SELECT ", t)
    case None => None
    case Some(list) =>
      match Behind("*", list)
      case Some(rest) => ReadOpening([], rest)
      case None =>
        match ReadFields(list)
        case None => None
        case Some(Names(fields, rest)) => ReadOpening(fields, rest)
  }

  function ReadOpening(fields: seq<string>, t: string): Option<Names> {
    match Behind(" FROM (", t)
    case None => None
    case Some(rest) => Some(Names(fields, rest))
  }

  predicate ReadAsFields(printed: string, fields: seq<string>, tail: string) {
    ReadFields(printed + tail) == Some(Names(fields, tail))
  }

  lemma OneField(printed: string, field: string, tail: string)
    requires Quoted(printed, field, tail) && !(", " <= tail)
    ensures ReadAsFields(printed, [field], tail)
  {
  }

  lemma MoreFields(t: string, field: string, comma: string, more: string, read: Names)
    requires comma == ", " && ReadQuoted(t) == Some(Name(field, comma + more)) && ReadFields(more) == Some(read)
    ensures ReadFields(t) == Some(Names([field] + read.names, read.rest))
  {
    TakesPrefix(comma, more);
  }

  lemma OneMoreField(printed: string, field: string, comma: string, more: string, others: seq<string>, tail: string)
    requires comma == ", " && ReadAsFields(more, others, tail) && Quoted(printed, field, comma + (more + tail))
    ensures ReadAsFields(printed + comma + more, [field] + others, tail)
  {
    FourAlike(printed, comma, more, tail);
    MoreFields(printed + (comma + (more + tail)), field, comma, more + tail, Names(others, tail));
  }

  lemma {:induction false} FieldsReadBack(fields: seq<string>, tail: string)
    requires fields != [] && forall i :: 0 <= i < |fields| ==> ValidIdentifier(fields[i])
    requires tail != "" && tail[0] == ' '
    ensures ReadAsFields(Join(FieldParts(fields), ", "), fields, tail)
    decreases |fields|
  {
    var parts := FieldParts(fields);
    if |fields| == 1 {
      IdentifierReadsBack(fields[0], tail);
      OneField(parts[0], fields[0], tail);
      assert [fields[0]] == fields;
    } else {
      assert parts[1..] == FieldParts(fields[1..]);
      FieldsReadBack(fields[1..], tail);
      NextField(fields[0], ", ", Join(parts[1..], ", "), fields[1..], tail);
      assert [fields[0]] + fields[1..] == fields;
    }
  }

  lemma NextField(field: string, comma: string, more: string, others: seq<string>, tail: string)
    requires ValidIdentifier(field) && comma == ", " && ReadAsFields(more, others, tail)
    ensures ReadAsFields(QuotedIdentifier(field) + comma + more, [field] + others, tail)
  {
    assert (comma + (more + tail))[0] == ',';
    IdentifierReadsBack(field, comma + (more + tail));
    OneMoreField(QuotedIdentifier(field), field, comma, more, others, tail);
  }

  lemma NoStar(fields: seq<string>, tail: string)
    requires fields != [] && forall i :: 0 <= i < |fields| ==> ValidIdentifier(fields[i])
    ensures !("*" <= Join(FieldParts(fields), ", ") + tail)
  {
    IdentifierIsFixed(fields[0]);
    assert Delimited(FieldParts(fields)[0]);
    assert (Join(FieldParts(fields), ", ") + tail)[0] == '`';
  }

  /** The head of a page statement names the requested fields, in their order. */
  lemma HeadReadsBack(fields: seq<string>, select: string, from: string, rest: string)
    requires forall i :: 0 <= i < |fields| ==> ValidIdentifier(fields[i])
    requires select == "SELECT " && from == " FROM ("
    ensures ReadHead(select + FieldSelection(fields) + from + rest) == Some(Names(fields, rest))
  {
    FourAlike(select, FieldSelection(fields), from, rest);
    TakesPrefix(select, FieldSelection(fields) + (from + rest));
    TakesPrefix(from, rest);
    assert (from + rest)[0] == ' ';
    if fields == [] {
      TakesPrefix("*", from + rest);
    } else {
      NoStar(fields, from + rest);
      FieldsReadBack(fields, from + rest);
    }
  }

  // ---------------------------------------------------------------------
  // Order and bounds
  // ---------------------------------------------------------------------

  /** A direction as the resolver takes it: descending is DESC in any case, in Unicode's sense. */
  lemma DescendingIff(d: string)
    ensures EqualFold(d, "DESC") <==>
            |d| == 4 && d[0] in {'D', 'd'} && d[1] in {'E', 'e'} && d[2] in {'S', 's', '\U{017F}'} && d[3] in {'C', 'c'}
  {
    FoldsTo('D', 'd');
    FoldsTo('E', 'e');
    FoldsTo('C', 'c');
    assert forall c :: FoldChar(c) == 'S' <==> c in {'S', 's', '\U{017F}'};
  }

  lemma FoldsTo(upper: char, lower: char)
    requires upper in {'D', 'E', 'C'} && lower == upper - 'A' + 'a'
    ensures forall c :: FoldChar(c) == upper <==> c in {upper, lower}
  {
  }

  /** The order that a request asks for. */
  function Wanted(orderBy: seq<OrderBy>): (r: seq<Statements.Order>)
    ensures |r| == |orderBy|
    ensures forall i :: 0 <= i < |r| ==>
              r[i] == Statements.Order(orderBy[i].field, EqualFold(orderBy[i].direction, "DESC"))
  {
    seq(|orderBy|, i requires 0 <= i < |orderBy| =>
      Statements.Order(orderBy[i].field, EqualFold(orderBy[i].direction, "DESC")))
  }

  function QuotedFields(orderBy: seq<OrderBy>): (r: seq<string>)
    ensures |r| == |orderBy| && forall i :: 0 <= i < |r| ==> r[i] == QuotedIdentifier(orderBy[i].field)
  {
    seq(|orderBy|, i requires 0 <= i < |orderBy| => QuotedIdentifier(orderBy[i].field))
  }

  lemma OrderItemIs(o: OrderBy, descending: bool)
    requires descending == EqualFold(o.direction, "DESC")
    ensures OrderPart(o) == Item(QuotedIdentifier(o.field), descending)
  {
    ThreeAlike(QuotedIdentifier(o.field), " ", Direction(o.direction));
    assert " " + "DESC" == " DESC" && " " + "ASC" == " ASC";
  }

  lemma OrderItemsAre(orderBy: seq<OrderBy>)
    ensures OrderParts(orderBy) == Items(QuotedFields(orderBy), Wanted(orderBy))
  {
    forall i | 0 <= i < |orderBy| ensures OrderParts(orderBy)[i] == Items(QuotedFields(orderBy), Wanted(orderBy))[i] {
      OrderItemIs(orderBy[i], Wanted(orderBy)[i].descending);
    }
  }

  lemma FieldInOrder(field: string)
    requires ValidIdentifier(field)
    ensures NamesField(QuotedIdentifier(field), field)
  {
    forall rest: string | rest != "" && rest[0] == ' ' ensures Quoted(QuotedIdentifier(field), field, rest) {
      IdentifierReadsBack(field, rest);
    }
  }

  /** The text behind the closing parenthesis: the alias of the derived table, and what follows. */
  function ReadPageEnd(t: string): Option<Closing> {
    match Behind(") AS __tq_wrapper__", t)
    case None => None
    case Some(rest) => ReadClosing(rest)
  }

  lemma PageEndReadsBack(orderBy: seq<OrderBy>, limit: int, offset: int, alias: string)
    requires forall i :: 0 <= i < |orderBy| ==> ValidIdentifier(orderBy[i].field)
    requires alias == ") AS __tq_wrapper__"
    ensures ReadPageEnd(alias + OrderByClause(orderBy) + (" LIMIT " + Itoa(limit)) + (" OFFSET " + Itoa(offset)))
         == Some(Closing(Wanted(orderBy), Some(limit), Some(offset)))
  {
    var printed, orders := QuotedFields(orderBy), Wanted(orderBy);
    forall i | 0 <= i < |orders| ensures NamesField(printed[i], orders[i].field) {
      FieldInOrder(orderBy[i].field);
    }
    OrderItemsAre(orderBy);
    ClosingReadsBack(printed, orders, Some(limit), Some(offset), " ORDER BY ", " LIMIT ", " OFFSET ");
    AliasIsRead(alias, OrderByClause(orderBy), " LIMIT " + Itoa(limit), " OFFSET " + Itoa(offset));
  }

  lemma AliasIsRead(alias: string, order: string, limit: string, offset: string)
    requires alias == ") AS __tq_wrapper__"
    ensures ReadPageEnd(alias + order + limit + offset) == ReadClosing(order + (limit + offset))
  {
    FourAlike(alias, order, limit, offset);
    TakesPrefix(alias, order + (limit + offset));
  }

  // ---------------------------------------------------------------------
  // Whole statements
  // ---------------------------------------------------------------------

  lemma TemplateBetween(head: string, sql: string, tail: string)
    ensures head + sql + tail == head + (sql + tail)
    ensures sql <= sql + tail && (sql + tail)[|sql|..] == tail
  {
  }

  /** What a page statement says of its template: the requested fields in their order, the requested
      order, as many rows as the page or else the row limit holds and one more, in Go's arithmetic,
      and to start at the offset. */
  lemma PageReadsBack(sql: string, fields: seq<string>, orderBy: seq<OrderBy>,
                      first: Option<int>, offset: Option<int>, maxRows: int)
    requires ValidRequest(fields, orderBy)
    ensures var page := Paginated(sql, fields, orderBy, Limit(first, maxRows), Offset(offset));
            var rows := if first.Some? then first.value else maxRows;
            var start := if offset.Some? then offset.value else 0;
            exists rest ::
              && ReadHead(page) == Some(Names(fields, rest)) && sql <= rest
              && ReadPageEnd(rest[|sql|..]) == Some(Closing(Wanted(orderBy), Some(Wrap(rows + 1)), Some(start)))
  {
    PageIsRead(sql, fields, orderBy, Limit(first, maxRows), Offset(offset));
  }

  /** The same for any bounds. */
  lemma PageIsRead(sql: string, fields: seq<string>, orderBy: seq<OrderBy>, limit: int, offset: int)
    requires ValidRequest(fields, orderBy)
    ensures var rest := sql + PageTail(orderBy, limit, offset);
            && ReadHead(Paginated(sql, fields, orderBy, limit, offset)) == Some(Names(fields, rest))
            && sql <= rest
            && ReadPageEnd(rest[|sql|..]) == Some(Closing(Wanted(orderBy), Some(limit), Some(offset)))
  {
    var tail := PageTail(orderBy, limit, offset);
    TemplateBetween(PageHead(fields), sql, tail);
    HeadReadsBack(fields, "SELECT ", " FROM (", sql + tail);
    PageEndReadsBack(orderBy, limit, offset, ") AS __tq_wrapper__");
  }

  /** A count statement counts the rows of its template, whole. */
  lemma CountReadsBack(sql: string)
    ensures var count := Counted(sql);
            var rest := Behind("SELECT COUNT(*) AS total_count FROM (", count);
            rest.Some? && sql <= rest.value && rest.value[|sql|..] == ") AS __tq_cnt__"
  {
    TemplateBetween(CountHead(), sql, CountTail());
    TakesPrefix(CountHead(), sql + CountTail());
  }
}

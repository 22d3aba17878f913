/** Identifier quoting, and the pagination and count statements built around a
    sanitized template. */
module Wrapping {
  import opened Text
  import opened Sanitizer

  // ---------------------------------------------------------------------
  // safeIdentifier
  // ---------------------------------------------------------------------

  predicate ValidSegment(seg: string) {
    |seg| <= 64 && IsWord(seg)
  }

  predicate ValidIdentifier(s: string) {
    var segments := Split(s, '.');
    |segments| <= 2 && forall i :: 0 <= i < |segments| ==> ValidSegment(segments[i])
  }

  function Backticked(seg: string): string {
    "`" + seg + "`"
  }

  function BacktickedAll(segments: seq<string>): (r: seq<string>)
    ensures |r| == |segments| && forall i :: 0 <= i < |r| ==> r[i] == Backticked(segments[i])
  {
    seq(|segments|, i requires 0 <= i < |segments| => Backticked(segments[i]))
  }

  function QuotedIdentifier(s: string): string {
    Join(BacktickedAll(Split(s, '.')), ".")
  }

  method SafeIdentifier(s: string) returns (r: Result<string>)
    ensures r.Ok? <==> ValidIdentifier(s)
    ensures r.Ok? ==> r.value == QuotedIdentifier(s)
  {
    if s == "" {
      assert !ValidSegment(Split(s, '.')[0]);
      return Err("empty identifier");
    }
    var segments := Split(s, '.');
    if |segments| > 2 {
      return Err("too many segments (max 2)");
    }
    var parts := [];
    for k := 0 to |segments|
      invariant parts == BacktickedAll(segments)[..k]
      invariant forall i :: 0 <= i < k ==> ValidSegment(segments[i])
    {
      var seg := segments[k];
      if |seg| == 0 || |seg| > 64 {
        return Err("segment length must be 1-64 chars");
      }
      if !IsWord(seg) {
        return Err("illegal characters");
      }
      parts := parts + ["`" + seg + "`"];
    }
    assert BacktickedAll(segments)[..|segments|] == BacktickedAll(segments);
    return Ok(Join(parts, "."));
  }

  lemma ClosingBacktick()
    ensures Lex(Backtick, "`") == Lexed("`", Marks(1, Backtick), Normal)
  {
    LexUnfolds(Backtick, "`");
    assert "`"[1..] == "";
    assert Marks(1, Backtick) + [] == Marks(1, Backtick);
  }

  lemma NonBacktickExtends(c: char, tail: string)
    requires c != '`'
    requires Lex(Backtick, tail) == Lexed(tail, Marks(|tail|, Backtick), Normal)
    ensures Lex(Backtick, [c] + tail) == Lexed([c] + tail, Marks(|[c] + tail|, Backtick), Normal)
  {
    var e := [c];
    assert (e + tail)[0] == c;
    KeptStep(Backtick, e, tail, Backtick, Marks(|tail|, Backtick), Normal);
    assert Marks(|e|, Backtick) + Marks(|tail|, Backtick) == Marks(|e + tail|, Backtick);
  }

  lemma FirstOfWord(w: string, q: string)
    requires w != ""
    ensures w + q == [w[0]] + (w[1..] + q)
  {
  }

  lemma {:induction false} WordStaysInside(w: string)
    requires forall i :: 0 <= i < |w| ==> IsWordChar(w[i])
    ensures Lex(Backtick, w + "`") == Lexed(w + "`", Marks(|w| + 1, Backtick), Normal)
  {
    if w == "" {
      ClosingBacktick();
      assert w + "`" == "`";
    } else {
      WordStaysInside(w[1..]);
      FirstOfWord(w, "`");
      NonBacktickExtends(w[0], w[1..] + "`");
    }
  }

  lemma BacktickedIsFixed(w: string)
    requires forall i :: 0 <= i < |w| ==> IsWordChar(w[i])
    ensures Lex(Normal, Backticked(w)) == Lexed(Backticked(w), Marks(|w| + 2, Backtick), Normal)
  {
    WordStaysInside(w);
    OpeningBacktick("`", w + "`");
    assert Backticked(w) == "`" + (w + "`");
  }

  lemma OpeningBacktick(q: string, tail: string)
    requires q == "`" && Lex(Backtick, tail) == Lexed(tail, Marks(|tail|, Backtick), Normal)
    ensures Lex(Normal, q + tail) == Lexed(q + tail, Marks(|tail| + 1, Backtick), Normal)
  {
    assert (q + tail)[0] == '`';
    KeptStep(Normal, q, tail, Backtick, Marks(|tail|, Backtick), Normal);
    assert Marks(|q|, Backtick) + Marks(|tail|, Backtick) == Marks(|tail| + 1, Backtick);
  }

  predicate AllPlain(t: string) {
    forall i :: 0 <= i < |t| ==> PlainChar(t[i])
  }

  lemma PlainBefore(k: string, t: string)
    requires AllPlain(k) && Fixed(t)
    ensures Fixed(k + t)
  {
    PlainIsFixed(k);
    FixedConcat(k, t);
  }

  lemma PlainAfter(t: string, k: string)
    requires Fixed(t) && AllPlain(k) && (k != "" ==> k[0] != '*')
    ensures Fixed(t + k)
  {
    PlainIsFixed(k);
    FixedConcat(t, k);
  }

  lemma JoinTwo(a: string, b: string)
    ensures Join([a, b], ".") == a + "." + b
  {
    assert [a, b][1..] == [b];
  }

  /** A text delimited by backticks on both sides. */
  predicate Delimited(t: string) {
    t != "" && t[0] == '`' && t[|t| - 1] == '`'
  }

  lemma DottedIsFixed(a: string, b: string)
    requires Fixed(a) && Fixed(b) && Delimited(a)
    ensures Fixed(a + "." + b)
  {
    PlainBefore(".", b);
    FixedConcat(a, "." + b);
    assert a + ("." + b) == a + "." + b;
  }

  lemma StripDotted(a: string, b: string)
    ensures Replace(a + "." + b, '`', "") == Replace(a, '`', "") + "." + Replace(b, '`', "")
  {
    ReplaceConcat(a + ".", b, '`', "");
    ReplaceConcat(a, ".", '`', "");
    assert Replace(".", '`', "") == "." by { assert "."[1..] == ""; }
  }

  /** The printed form of an identifier of one or two segments. */
  lemma IdentifierShape(s: string)
    requires ValidIdentifier(s)
    ensures var segments := Split(s, '.');
            && (|segments| == 1 ==> QuotedIdentifier(s) == Backticked(segments[0]) && s == segments[0])
            && (|segments| == 2 ==>
                  && QuotedIdentifier(s) == Backticked(segments[0]) + "." + Backticked(segments[1])
                  && s == segments[0] + "." + segments[1])
  {
    var segments := Split(s, '.');
    SplitThenJoin(s, '.');
    if |segments| == 2 {
      assert segments == [segments[0], segments[1]];
      assert BacktickedAll(segments) == [Backticked(segments[0]), Backticked(segments[1])];
      JoinTwo(Backticked(segments[0]), Backticked(segments[1]));
      JoinTwo(segments[0], segments[1]);
    }
  }

  /** An accepted identifier is printed as text the scanner leaves alone, and taking the
      backticks out again gives the identifier back. */
  lemma IdentifierIsFixed(s: string)
    requires ValidIdentifier(s)
    ensures Fixed(QuotedIdentifier(s))
    ensures Replace(QuotedIdentifier(s), '`', "") == s
    ensures Delimited(QuotedIdentifier(s))
  {
    var segments := Split(s, '.');
    IdentifierShape(s);
    var first := Backticked(segments[0]);
    BacktickedIsFixed(segments[0]);
    StripBackticks(segments[0]);
    if |segments| == 2 {
      var second := Backticked(segments[1]);
      BacktickedIsFixed(segments[1]);
      StripBackticks(segments[1]);
      DottedIsFixed(first, second);
      StripDotted(first, second);
    }
  }

  lemma {:induction false} NothingToStrip(w: string)
    requires forall i :: 0 <= i < |w| ==> IsWordChar(w[i])
    ensures Replace(w, '`', "") == w
  {
    if w != "" {
      NothingToStrip(w[1..]);
      assert IsWordChar(w[0]);
      assert [w[0]] + w[1..] == w;
    }
  }

  lemma StripBackticks(w: string)
    requires forall i :: 0 <= i < |w| ==> IsWordChar(w[i])
    ensures Replace(Backticked(w), '`', "") == w
  {
    NothingToStrip(w);
    ReplaceConcat("`" + w, "`", '`', "");
    ReplaceConcat("`", w, '`', "");
    assert Replace("`", '`', "") == "" by { assert "`"[1..] == ""; }
  }

  // ---------------------------------------------------------------------
  // wrapWithPagination and wrapWithCount
  // ---------------------------------------------------------------------

  datatype OrderBy = OrderBy(field: string, direction: string)

  const MAX_INT: int := 0x7fff_ffff_ffff_ffff

  /** Go's int is 64 bits wide and wraps around. */
  function Wrap(n: int): (r: int)
    ensures -MAX_INT - 1 <= r <= MAX_INT
    ensures -MAX_INT - 1 <= n <= MAX_INT ==> r == n
  {
    (n + MAX_INT + 1) % (2 * (MAX_INT + 1)) - MAX_INT - 1
  }

  /** One row more than asked for, so that the resolver can see whether a next page exists. */
  function Limit(first: Option<int>, maxResultRows: int): int {
    if first.Some? then Wrap(first.value + 1) else Wrap(maxResultRows + 1)
  }

  function Offset(offset: Option<int>): int {
    if offset.Some? then offset.value else 0
  }

  function Direction(d: string): string {
    if EqualFold(d, "DESC") then "DESC" else "ASC"
  }

  function FieldPart(f: string): string {
    QuotedIdentifier(f)
  }

  function OrderPart(o: OrderBy): string {
    QuotedIdentifier(o.field) + " " + Direction(o.direction)
  }

  function FieldParts(fields: seq<string>): (r: seq<string>)
    ensures |r| == |fields| && forall i :: 0 <= i < |r| ==> r[i] == FieldPart(fields[i])
  {
    seq(|fields|, i requires 0 <= i < |fields| => FieldPart(fields[i]))
  }

  function OrderParts(orderBy: seq<OrderBy>): (r: seq<string>)
    ensures |r| == |orderBy| && forall i :: 0 <= i < |r| ==> r[i] == OrderPart(orderBy[i])
  {
    seq(|orderBy|, i requires 0 <= i < |orderBy| => OrderPart(orderBy[i]))
  }

  function FieldSelection(fields: seq<string>): string {
    if fields == [] then "*" else Join(FieldParts(fields), ", ")
  }

  function OrderByClause(orderBy: seq<OrderBy>): string {
    if orderBy == [] then "" else " ORDER BY " + Join(OrderParts(orderBy), ", ")
  }

  predicate ValidRequest(fields: seq<string>, orderBy: seq<OrderBy>) {
    && (forall i :: 0 <= i < |fields| ==> ValidIdentifier(fields[i]))
    && (forall i :: 0 <= i < |orderBy| ==> ValidIdentifier(orderBy[i].field))
  }

  /** The text up to and including the parenthesis that opens the derived table. */
  function PageHead(fields: seq<string>): string {
    "SELECT " + FieldSelection(fields) + " FROM ("
  }

  /** The text from the closing parenthesis on. */
  function PageTail(orderBy: seq<OrderBy>, limit: int, offset: int): string {
    ") AS __tq_wrapper__" + OrderByClause(orderBy) + (" LIMIT " + Itoa(limit)) + (" OFFSET " + Itoa(offset))
  }

  function Paginated(sql: string, fields: seq<string>, orderBy: seq<OrderBy>, limit: int, offset: int): string {
    PageHead(fields) + sql + PageTail(orderBy, limit, offset)
  }

  function CountHead(): string { "SELECT COUNT(*) AS total_count FROM (" }

  function CountTail(): string { ") AS __tq_cnt__" }

  function Counted(sql: string): string {
    CountHead() + sql + CountTail()
  }

  /** The field loop of wrapWithPagination. */
  method SelectFields(fields: seq<string>) returns (r: Result<string>)
    ensures r.Ok? <==> forall i :: 0 <= i < |fields| ==> ValidIdentifier(fields[i])
    ensures r.Ok? ==> r.value == FieldSelection(fields)
  {
    if |fields| == 0 {
      return Ok("*");
    }
    var safeParts := [];
    for k := 0 to |fields|
      invariant safeParts == FieldParts(fields)[..k]
      invariant forall i :: 0 <= i < k ==> ValidIdentifier(fields[i])
    {
      var safe := SafeIdentifier(fields[k]);
      if safe.Err? {
        return Err("invalid field name");
      }
      safeParts := safeParts + [safe.value];
    }
    assert FieldParts(fields)[..|fields|] == FieldParts(fields);
    return Ok(Join(safeParts, ", "));
  }

  /** The orderBy loop of wrapWithPagination. */
  method OrderRows(orderBy: seq<OrderBy>) returns (r: Result<string>)
    ensures r.Ok? <==> forall i :: 0 <= i < |orderBy| ==> ValidIdentifier(orderBy[i].field)
    ensures r.Ok? ==> r.value == OrderByClause(orderBy)
  {
    if |orderBy| == 0 {
      return Ok("");
    }
    var obParts := [];
    for k := 0 to |orderBy|
      invariant obParts == OrderParts(orderBy)[..k]
      invariant forall i :: 0 <= i < k ==> ValidIdentifier(orderBy[i].field)
    {
      var safe := SafeIdentifier(orderBy[k].field);
      if safe.Err? {
        return Err("invalid orderBy field");
      }
      var dir := "ASC";
      if EqualFold(orderBy[k].direction, "DESC") {
        dir := "DESC";
      }
      obParts := obParts + [safe.value + " " + dir];
    }
    assert OrderParts(orderBy)[..|orderBy|] == OrderParts(orderBy);
    return Ok(" ORDER BY " + Join(obParts, ", "));
  }

  method WrapWithPagination(sql: string, fields: seq<string>, orderBy: seq<OrderBy>,
                            first: Option<int>, offset: Option<int>, maxResultRows: int)
    returns (r: Result<string>)
    ensures r.Ok? <==> ValidRequest(fields, orderBy)
    ensures r.Ok? ==> r.value == Paginated(sql, fields, orderBy, Limit(first, maxResultRows), Offset(offset))
  {
    var limit := Wrap(maxResultRows + 1);
    if first.Some? {
      limit := Wrap(first.value + 1);
    }
    var off := 0;
    if offset.Some? {
      off := offset.value;
    }
    var fieldSelection := SelectFields(fields);
    if fieldSelection.Err? {
      return fieldSelection;
    }
    var orderByClause := OrderRows(orderBy);
    if orderByClause.Err? {
      return orderByClause;
    }
    return Ok("SELECT " + fieldSelection.value + " FROM (" + sql + (") AS __tq_wrapper__" + orderByClause.value
              + (" LIMIT " + Itoa(limit)) + (" OFFSET " + Itoa(off))));
  }

  // ---------------------------------------------------------------------
  // The wrapped statement is itself left alone by the scanner
  // ---------------------------------------------------------------------

  lemma {:induction false} JoinIsFixed(parts: seq<string>)
    requires parts != []
    requires forall i :: 0 <= i < |parts| ==> Fixed(parts[i]) && parts[i] != ""
    ensures Fixed(Join(parts, ", ")) && Join(parts, ", ") != ""
  {
    if |parts| > 1 {
      JoinIsFixed(parts[1..]);
      var rest := Join(parts[1..], ", ");
      PlainAfter(parts[0], ", ");
      FixedConcat(parts[0] + ", ", rest);
    }
  }

  lemma OrderPartIsFixed(o: OrderBy)
    requires ValidIdentifier(o.field)
    ensures Fixed(OrderPart(o)) && OrderPart(o) != ""
  {
    IdentifierIsFixed(o.field);
    DirectionIsWord(o.direction);
    BlankWordAfter(QuotedIdentifier(o.field), Direction(o.direction));
  }

  lemma DirectionIsWord(d: string)
    ensures IsWord(Direction(d))
  {
  }

  lemma BlankWordAfter(t: string, w: string)
    requires Fixed(t) && IsWord(w)
    ensures Fixed(t + " " + w)
  {
    PlainAfter(t, " ");
    WordAfter(t + " ", w);
  }

  lemma WordAfter(t: string, w: string)
    requires Fixed(t) && IsWord(w)
    ensures Fixed(t + w)
  {
    forall i | 0 <= i < |w| ensures PlainChar(w[i]) {
      assert IsWordChar(w[i]);
    }
    assert IsWordChar(w[0]);
    PlainAfter(t, w);
  }

  lemma OrderPartsAreFixed(orderBy: seq<OrderBy>)
    requires orderBy != [] && forall i :: 0 <= i < |orderBy| ==> ValidIdentifier(orderBy[i].field)
    ensures Fixed(Join(OrderParts(orderBy), ", "))
  {
    var parts := OrderParts(orderBy);
    forall i | 0 <= i < |parts| ensures Fixed(parts[i]) && parts[i] != "" {
      OrderPartIsFixed(orderBy[i]);
    }
    JoinIsFixed(parts);
  }

  lemma KeywordBefore(keyword: string, t: string)
    requires AllPlain(keyword) && keyword != "" && Fixed(t)
    ensures Fixed(keyword + t) && (keyword + t)[0] == keyword[0]
  {
    PlainBefore(keyword, t);
  }

  lemma OrderByClauseIsFixed(orderBy: seq<OrderBy>)
    requires forall i :: 0 <= i < |orderBy| ==> ValidIdentifier(orderBy[i].field)
    ensures Fixed(OrderByClause(orderBy))
    ensures orderBy != [] ==> OrderByClause(orderBy)[0] == ' '
  {
    if orderBy != [] {
      OrderPartsAreFixed(orderBy);
      KeywordsArePlain();
      KeywordBefore(" ORDER BY ", Join(OrderParts(orderBy), ", "));
    }
  }

  lemma FieldSelectionIsFixed(fields: seq<string>)
    requires forall i :: 0 <= i < |fields| ==> ValidIdentifier(fields[i])
    ensures Fixed(FieldSelection(fields))
  {
    if fields == [] {
      PlainIsFixed("*");
    } else {
      var parts := FieldParts(fields);
      forall i | 0 <= i < |parts| ensures Fixed(parts[i]) && parts[i] != "" {
        IdentifierIsFixed(fields[i]);
      }
      JoinIsFixed(parts);
    }
  }

  lemma NumberIsFixed(n: int)
    ensures Fixed(Itoa(n)) && Itoa(n) != "" && PlainChar(Itoa(n)[|Itoa(n)| - 1])
  {
    var d := Digits(if n < 0 then -n else n);
    assert IsDigit(d[0]) && IsDigit(d[|d| - 1]);
    PlainIsFixed(d);
    if n < 0 {
      MinusIsFixed();
      FixedConcat("-", d);
    }
  }

  lemma MinusIsFixed()
    ensures Fixed("-")
  {
    LexUnfolds(Normal, "-");
    assert "-"[1..] == "";
  }

  /** A keyword between blanks followed by any integer. */
  lemma KeywordNumberIsFixed(keyword: string, n: int)
    requires AllPlain(keyword)
    ensures Fixed(keyword + Itoa(n)) && PlainChar((keyword + Itoa(n))[|keyword + Itoa(n)| - 1])
  {
    NumberIsFixed(n);
    PlainBefore(keyword, Itoa(n));
  }

  lemma PageHeadIsFixed(fields: seq<string>)
    requires forall i :: 0 <= i < |fields| ==> ValidIdentifier(fields[i])
    ensures Fixed(PageHead(fields)) && PageHead(fields)[|PageHead(fields)| - 1] == '('
  {
    FieldSelectionIsFixed(fields);
    KeywordsArePlain();
    HeadShape("SELECT ", FieldSelection(fields), " FROM (");
  }

  lemma HeadShape(before: string, selection: string, behind: string)
    requires AllPlain(before) && Fixed(selection) && AllPlain(behind) && behind != "" && behind[0] != '*'
    ensures Fixed(before + selection + behind)
    ensures (before + selection + behind)[|before + selection + behind| - 1] == behind[|behind| - 1]
  {
    PlainBefore(before, selection);
    PlainAfter(before + selection, behind);
  }

  /** A blank never glues to what stands before it. */
  lemma BlankAfter(a: string, b: string)
    requires Fixed(a) && Fixed(b) && (b == "" || b[0] == ' ')
    ensures Fixed(a + b)
  {
    FixedConcat(a, b);
  }

  lemma TailShape(head: string, ob: string, l: string, o: string)
    requires AllPlain(head) && head != "" && Fixed(ob) && Fixed(l) && Fixed(o)
    requires ob == "" || ob[0] == ' '
    requires l != "" && l[0] == ' ' && o != "" && o[0] == ' '
    ensures Fixed(head + ob + l + o)
    ensures (head + ob + l + o)[0] == head[0]
  {
    PlainBefore(head, ob);
    BlankAfter(head + ob, l);
    BlankAfter(head + ob + l, o);
  }

  lemma KeywordsArePlain()
    ensures AllPlain("SELECT ") && AllPlain(" FROM (") && AllPlain(" ORDER BY ")
    ensures AllPlain(" LIMIT ") && AllPlain(" OFFSET ") && AllPlain(") AS __tq_wrapper__")
  {
  }

  lemma PageTailIsFixed(orderBy: seq<OrderBy>, limit: int, offset: int)
    requires forall i :: 0 <= i < |orderBy| ==> ValidIdentifier(orderBy[i].field)
    ensures Fixed(PageTail(orderBy, limit, offset)) && PageTail(orderBy, limit, offset)[0] == ')'
  {
    KeywordsArePlain();
    OrderByClauseIsFixed(orderBy);
    KeywordNumberIsFixed(" LIMIT ", limit);
    KeywordNumberIsFixed(" OFFSET ", offset);
    TailShape(") AS __tq_wrapper__", OrderByClause(orderBy), " LIMIT " + Itoa(limit), " OFFSET " + Itoa(offset));
  }

  /** Splicing a sanitized statement between an open and a closing parenthesis: each piece is
      scanned as if it stood alone, so the parenthesis after it is read in the normal state. */
  lemma SpliceIsFixed(head: string, sql: string, tail: string)
    requires Fixed(head) && head != "" && head[|head| - 1] == '('
    requires Fixed(tail) && tail != "" && tail[0] == ')'
    requires Sanitized(sql) == Clean(sql)
    ensures Fixed(head + sql) && Fixed(head + sql + tail)
    ensures Lex(Normal, head + sql + tail).marks
         == Lex(Normal, head).marks + Lex(Normal, sql).marks + Lex(Normal, tail).marks
  {
    FixedIffClean(sql);
    FixedConcat(head, sql);
    FixedConcat(head + sql, tail);
  }

  /** The paginated statement is a fixpoint of the sanitizer for every sanitized template,
      every accepted field and order list and all integers. */
  lemma PaginationIsFixpoint(sql: string, fields: seq<string>, orderBy: seq<OrderBy>, limit: int, offset: int)
    requires Sanitized(sql) == Clean(sql)
    requires ValidRequest(fields, orderBy)
    ensures Fixed(PageHead(fields)) && Fixed(PageHead(fields) + sql) && Fixed(PageTail(orderBy, limit, offset))
    ensures var page := Paginated(sql, fields, orderBy, limit, offset);
            && Sanitized(page) == Clean(page)
            && Lex(Normal, page).marks == Lex(Normal, PageHead(fields)).marks
                 + Lex(Normal, sql).marks + Lex(Normal, PageTail(orderBy, limit, offset)).marks
  {
    PageHeadIsFixed(fields);
    PageTailIsFixed(orderBy, limit, offset);
    SpliceIsFixed(PageHead(fields), sql, PageTail(orderBy, limit, offset));
    FixedIffClean(Paginated(sql, fields, orderBy, limit, offset));
  }

  lemma CountIsFixpoint(sql: string)
    requires Sanitized(sql) == Clean(sql)
    ensures Sanitized(Counted(sql)) == Clean(Counted(sql))
    ensures Lex(Normal, Counted(sql)).marks
         == Marks(|CountHead()|, Normal) + Lex(Normal, sql).marks + Marks(|CountTail()|, Normal)
    ensures Fixed(CountHead() + sql)
  {
    CountFrameIsPlain();
    SpliceBetweenPlain(CountHead(), sql, CountTail());
  }

  lemma CountFrameIsPlain()
    ensures AllPlain(CountHead()) && AllPlain(CountTail())
    ensures CountHead()[|CountHead()| - 1] == '(' && CountTail()[0] == ')'
  {
  }

  lemma SpliceBetweenPlain(head: string, sql: string, tail: string)
    requires AllPlain(head) && head != "" && head[|head| - 1] == '('
    requires AllPlain(tail) && tail != "" && tail[0] == ')'
    requires Sanitized(sql) == Clean(sql)
    ensures Fixed(head + sql) && Sanitized(head + sql + tail) == Clean(head + sql + tail)
    ensures Lex(Normal, head + sql + tail).marks
         == Marks(|head|, Normal) + Lex(Normal, sql).marks + Marks(|tail|, Normal)
  {
    PlainIsFixed(head);
    PlainIsFixed(tail);
    SpliceIsFixed(head, sql, tail);
    FixedIffClean(head + sql + tail);
  }

  /** From rendered text to the statements that reach the database. */
  lemma RenderedThenWrapped(rendered: string, fields: seq<string>, orderBy: seq<OrderBy>, limit: int, offset: int)
    requires Sanitized(rendered).Clean?
    requires ValidRequest(fields, orderBy)
    ensures var page := Paginated(Sanitized(rendered).sql, fields, orderBy, limit, offset);
            Sanitized(page) == Clean(page)
    ensures var count := Counted(Sanitized(rendered).sql);
            Sanitized(count) == Clean(count)
  {
    SanitizeIsFixpoint(rendered);
    PaginationIsFixpoint(Sanitized(rendered).sql, fields, orderBy, limit, offset);
    CountIsFixpoint(Sanitized(rendered).sql);
  }
}

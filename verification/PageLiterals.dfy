/** The literals of a rendered template are those of every statement that reaches the database:
    sanitizing keeps each literal, and the pagination and count frames add none. */
module PageLiterals {
  import opened Text
  import opened Sanitizer
  import opened Literals
  import opened LiteralReading
  import opened Wrapping

  // ---------------------------------------------------------------------
  // Sanitizing keeps every literal
  // ---------------------------------------------------------------------

  lemma StepCopies(t: string)
    requires t != "" && !Closes(t) && Lex(SingleQuote, t).Lexed?
    ensures var w := StepOf(SingleQuote, t).width;
            Lex(SingleQuote, t[w..]).Lexed? && Lex(SingleQuote, t).text == t[..w] + Lex(SingleQuote, t[w..]).text
  {
    StepInside(t);
    LexUnfolds(SingleQuote, t);
    assert StepOf(SingleQuote, t).emit == t[..StepOf(SingleQuote, t).width];
  }

  /** The scanner writes what the reader takes at once unchanged. */
  lemma UnitIsCopied(t: string)
    requires t != "" && !Closes(t) && Lex(SingleQuote, t).Lexed?
    ensures Lex(SingleQuote, t[Unit(t)..]).Lexed?
    ensures Lex(SingleQuote, t).text == t[..Unit(t)] + Lex(SingleQuote, t[Unit(t)..]).text
  {
    UnitIsScanned(t);
    StepInside(t);
    StepCopies(t);
    if StepOf(SingleQuote, t).width < Unit(t) {
      assert !Closes(t[1..]);
      StepCopies(t[1..]);
      assert t[1..][1..] == t[2..] && t[1..][..1] == [t[1]];
      assert t[..1] + ([t[1]] + Lex(SingleQuote, t[2..]).text) == t[..2] + Lex(SingleQuote, t[2..]).text;
    }
  }

  lemma UnitIsReadAgain(t: string, x: string, other: char -> string)
    requires t != "" && !Closes(t) && t != "\\"
    ensures ReadBody(t[..Unit(t)] + x, other) == Prepend(Meaning(t, other), ReadBody(x, other))
  {
    var unit := t[..Unit(t)];
    assert Unit(unit) == Unit(t) && !Closes(unit) && Meaning(unit, other) == Meaning(t, other);
    UnitExtends(unit, x);
    SameMeaning(unit, x, other);
    ReadsUnitFirst(unit + x, other);
    assert unit[Unit(t)..] + x == x;
  }

  lemma NothingOpensBehind(rest: string)
    requires Lex(Normal, rest).Lexed? && !StartsWithQuote(rest)
    ensures !StartsWithQuote(Lex(Normal, rest).text)
  {
    if Lex(Normal, rest).text != "" {
      FirstEmitted(Normal, rest);
    }
  }

  lemma ClosingIsCopied(t: string, other: char -> string)
    requires Closes(t) && Lex(SingleQuote, t).Lexed?
    ensures Lex(Normal, t[1..]).Lexed?
    ensures ReadBody(Lex(SingleQuote, t).text, other) == Some(Literal("", Lex(Normal, t[1..]).text))
  {
    StepInside(t);
    LexUnfolds(SingleQuote, t);
    NothingOpensBehind(t[1..]);
    var rest := Lex(Normal, t[1..]).text;
    assert ("'" + rest)[1..] == rest;
  }

  lemma LoneBackslashIsOpen(t: string)
    requires t == "\\" && Lex(SingleQuote, t).Lexed?
    ensures Lex(SingleQuote, t).last == SingleQuote
  {
    LexUnfolds(SingleQuote, t);
  }

  /** A literal is read from the output with its value, and behind it stands what sanitizing makes
      of the text behind it. */
  lemma {:induction false} LiteralIsKept(t: string, other: char -> string)
    requires Lex(SingleQuote, t).Lexed? && Lex(SingleQuote, t).last != SingleQuote
    ensures ReadBody(t, other).Some? && Lex(Normal, ReadBody(t, other).value.rest).Lexed?
    ensures ReadBody(Lex(SingleQuote, t).text, other)
         == Some(Literal(ReadBody(t, other).value.value, Lex(Normal, ReadBody(t, other).value.rest).text))
    decreases |t|
  {
    if t == "" {
      NothingOpens(t);
    } else if Closes(t) {
      ClosingIsCopied(t, other);
    } else {
      if t == "\\" {
        LoneBackslashIsOpen(t);
      }
      UnitIsScanned(t);
      UnitIsCopied(t);
      LiteralIsKept(t[Unit(t)..], other);
      ReadsUnitFirst(t, other);
      UnitIsReadAgain(t, Lex(SingleQuote, t[Unit(t)..]).text, other);
    }
  }

  lemma OpeningIsCopied(s: string)
    requires StartsWithQuote(s) && Lex(Normal, s).Lexed?
    ensures Lex(SingleQuote, s[1..]).Lexed? && Lex(SingleQuote, s[1..]).last == Lex(Normal, s).last
    ensures Lex(Normal, s).text == "'" + Lex(SingleQuote, s[1..]).text
  {
    LexUnfolds(Normal, s);
  }

  lemma NoQuoteIsEmitted(st: State, s: string)
    requires st != SingleQuote && s != "" && !(st == Normal && s[0] == '\'')
    requires StepOf(st, s).Advance? && StepOf(st, s).emit != ""
    ensures var step := StepOf(st, s);
            && step.next != SingleQuote && Visible(step.next) == step.next
            && !(Visible(st) == Normal && step.emit[0] == '\'')
  {
  }

  lemma ReadsOn(st: State, emit: string, rest: string, next: State, other: char -> string)
    requires st != SingleQuote && next != SingleQuote && emit != "" && !(st == Normal && emit[0] == '\'')
    requires StepOf(st, emit + rest) == Advance(next, |emit|, emit)
    ensures ReadLiterals(st, emit + rest, other) == ReadLiterals(next, rest, other)
  {
    assert (emit + rest)[|emit|..] == rest;
  }

  /** A step outside literals that writes something is made by the reader of the output too. */
  lemma KeptStepIsRead(st: State, s: string, other: char -> string)
    requires st != SingleQuote && s != "" && !(st == Normal && s[0] == '\'')
    requires Lex(st, s).Lexed? && StepOf(st, s).Advance? && StepOf(st, s).emit != ""
    ensures var step := StepOf(st, s);
            var rest := Lex(step.next, s[step.width..]);
            && step.next != SingleQuote && rest.Lexed?
            && ReadLiterals(Visible(st), Lex(st, s).text, other) == ReadLiterals(Visible(step.next), rest.text, other)
  {
    var step := StepOf(st, s);
    var tail := s[step.width..];
    LexUnfolds(st, s);
    var rest := Lex(step.next, tail).text;
    if rest != "" {
      FirstEmitted(step.next, tail);
    }
    StepSurvives(st, s, rest);
    NoQuoteIsEmitted(st, s);
    ReadsOn(Visible(st), step.emit, rest, step.next, other);
  }

  /** Sanitizing keeps the literals: a reader of the output finds exactly what a reader of the
      input finds. */
  lemma {:induction false} SanitizingKeepsLiterals(st: State, s: string, other: char -> string)
    requires st != SingleQuote && Lex(st, s).Lexed? && Lex(st, s).last != SingleQuote
    ensures ReadLiterals(Visible(st), Lex(st, s).text, other) == ReadLiterals(st, s, other)
    decreases |s|
  {
    if s == "" {
    } else if st == Normal && s[0] == '\'' {
      OpeningIsCopied(s);
      LiteralIsKept(s[1..], other);
      BodyFollowsScan(s[1..], other);
      var Literal(value, rest) := ReadBody(s[1..], other).value;
      SanitizingKeepsLiterals(Normal, rest, other);
      OpeningIsRead(s, Literal(value, rest), other);
      var out := Lex(Normal, s).text;
      assert out[1..] == Lex(SingleQuote, s[1..]).text;
      OpeningIsRead(out, Literal(value, Lex(Normal, rest).text), other);
    } else {
      LexUnfolds(st, s);
      var step := StepOf(st, s);
      SanitizingKeepsLiterals(step.next, s[step.width..], other);
      if step.emit == "" {
        SilentStep(st, s);
      } else {
        KeptStepIsRead(st, s, other);
      }
    }
  }

  // ---------------------------------------------------------------------
  // The frames hold no literal
  // ---------------------------------------------------------------------

  predicate QuoteFree(t: string) {
    forall i :: 0 <= i < |t| ==> t[i] != '\''
  }

  /** A text without quotes has no literals. */
  lemma {:induction false} NoQuoteNoLiteral(st: State, t: string, other: char -> string)
    requires st != SingleQuote && Lex(st, t).Lexed? && QuoteFree(t)
    ensures ReadLiterals(st, t, other) == Some([])
    decreases |t|
  {
    if t != "" {
      LexUnfolds(st, t);
      var step := StepOf(st, t);
      assert t[0] != '\'' && step.next != SingleQuote;
      NoQuoteNoLiteral(step.next, t[step.width..], other);
    }
  }

  lemma PlainIsFree(t: string)
    requires AllPlain(t)
    ensures QuoteFree(t)
  {
    forall i | 0 <= i < |t| ensures t[i] != '\'' {
      assert PlainChar(t[i]);
    }
  }

  lemma BothFree(a: string, b: string)
    requires QuoteFree(a) && QuoteFree(b)
    ensures QuoteFree(a + b)
  {
  }

  lemma {:induction false} JoinIsFree(parts: seq<string>, sep: string)
    requires QuoteFree(sep) && forall i :: 0 <= i < |parts| ==> QuoteFree(parts[i])
    ensures QuoteFree(Join(parts, sep))
  {
    if |parts| > 1 {
      JoinIsFree(parts[1..], sep);
      BothFree(parts[0], sep);
      BothFree(parts[0] + sep, Join(parts[1..], sep));
    }
  }

  lemma BacktickedIsFree(w: string)
    requires IsWord(w)
    ensures QuoteFree(Backticked(w))
  {
    forall i | 0 <= i < |w| ensures w[i] != '\'' {
      assert IsWordChar(w[i]);
    }
  }

  lemma IdentifierIsFree(s: string)
    requires ValidIdentifier(s)
    ensures QuoteFree(QuotedIdentifier(s))
  {
    var segments := Split(s, '.');
    forall i | 0 <= i < |segments| ensures QuoteFree(BacktickedAll(segments)[i]) {
      assert ValidSegment(segments[i]);
      BacktickedIsFree(segments[i]);
    }
    JoinIsFree(BacktickedAll(segments), ".");
  }

  lemma OrderPartIsFree(o: OrderBy)
    requires ValidIdentifier(o.field)
    ensures QuoteFree(OrderPart(o))
  {
    IdentifierIsFree(o.field);
    BothFree(QuotedIdentifier(o.field), " ");
    BothFree(QuotedIdentifier(o.field) + " ", Direction(o.direction));
  }

  lemma HeadParts(a: string, b: string, c: string)
    requires QuoteFree(a) && QuoteFree(b) && QuoteFree(c)
    ensures QuoteFree(a + b + c)
  {
    BothFree(a, b);
    BothFree(a + b, c);
  }

  lemma HeadIsFree(fields: seq<string>)
    requires forall i :: 0 <= i < |fields| ==> ValidIdentifier(fields[i])
    ensures QuoteFree(PageHead(fields))
  {
    if fields != [] {
      forall i | 0 <= i < |fields| ensures QuoteFree(FieldParts(fields)[i]) {
        IdentifierIsFree(fields[i]);
      }
      JoinIsFree(FieldParts(fields), ", ");
    }
    HeadParts("SELECT ", FieldSelection(fields), " FROM (");
  }

  lemma OrderIsFree(orderBy: seq<OrderBy>)
    requires forall i :: 0 <= i < |orderBy| ==> ValidIdentifier(orderBy[i].field)
    ensures QuoteFree(OrderByClause(orderBy))
  {
    if orderBy != [] {
      forall i | 0 <= i < |orderBy| ensures QuoteFree(OrderParts(orderBy)[i]) {
        OrderPartIsFree(orderBy[i]);
      }
      JoinIsFree(OrderParts(orderBy), ", ");
      BothFree(" ORDER BY ", Join(OrderParts(orderBy), ", "));
    }
  }

  lemma NumberIsFree(keyword: string, n: int)
    requires QuoteFree(keyword)
    ensures QuoteFree(keyword + Itoa(n))
  {
    var d := Digits(if n < 0 then -n else n);
    forall i | 0 <= i < |d| ensures d[i] != '\'' {
      assert IsDigit(d[i]);
    }
    BothFree("-", d);
    BothFree(keyword, Itoa(n));
  }

  lemma TailParts(a: string, b: string, c: string, d: string)
    requires AllPlain(a) && QuoteFree(b) && QuoteFree(c) && QuoteFree(d)
    ensures QuoteFree(a + b + c + d)
  {
    PlainIsFree(a);
    HeadParts(a, b, c);
    BothFree(a + b + c, d);
  }

  lemma TailIsFree(orderBy: seq<OrderBy>, limit: int, offset: int)
    requires forall i :: 0 <= i < |orderBy| ==> ValidIdentifier(orderBy[i].field)
    ensures QuoteFree(PageTail(orderBy, limit, offset))
  {
    KeywordsArePlain();
    OrderIsFree(orderBy);
    NumberIsFree(" LIMIT ", limit);
    NumberIsFree(" OFFSET ", offset);
    TailParts(") AS __tq_wrapper__", OrderByClause(orderBy), " LIMIT " + Itoa(limit), " OFFSET " + Itoa(offset));
  }

  // ---------------------------------------------------------------------
  // The statements that reach the database
  // ---------------------------------------------------------------------

  /** A statement between two texts without literals has that statement's literals. */
  lemma FramedLiterals(head: string, sql: string, tail: string, other: char -> string)
    requires Fixed(head) && Fixed(sql) && Fixed(tail) && QuoteFree(head) && QuoteFree(tail)
    requires head != "" && head[|head| - 1] == '(' && tail != "" && tail[0] == ')'
    ensures ReadLiterals(Normal, head + sql + tail, other) == ReadLiterals(Normal, sql, other)
  {
    NoQuoteNoLiteral(Normal, head, other);
    NoQuoteNoLiteral(Normal, tail, other);
    LexedIsRead(Normal, sql, other);
    var l := ReadLiterals(Normal, sql, other);
    ReadApart(Normal, head, sql, other);
    NothingBefore(l);
    FixedConcat(head, sql);
    ReadApart(Normal, head + sql, tail, other);
    assert l.value + [] == l.value;
  }

  /** The page and the count statement hold exactly the literals of the rendered template. */
  lemma DatabaseReadsTheTemplate(rendered: string, fields: seq<string>, orderBy: seq<OrderBy>,
                                 limit: int, offset: int, other: char -> string)
    requires Sanitized(rendered).Clean? && ValidRequest(fields, orderBy)
    ensures var l := ReadLiterals(Normal, rendered, other);
            && l.Some?
            && ReadLiterals(Normal, Paginated(Sanitized(rendered).sql, fields, orderBy, limit, offset), other) == l
            && ReadLiterals(Normal, Counted(Sanitized(rendered).sql), other) == l
  {
    var sql := Sanitized(rendered).sql;
    LexedIsRead(Normal, rendered, other);
    SanitizingKeepsLiterals(Normal, rendered, other);
    SanitizeIsFixpoint(rendered);
    PageHeadIsFixed(fields);
    PageTailIsFixed(orderBy, limit, offset);
    HeadIsFree(fields);
    TailIsFree(orderBy, limit, offset);
    FramedLiterals(PageHead(fields), sql, PageTail(orderBy, limit, offset), other);
    CountFrameIsPlain();
    PlainIsFixed(CountHead());
    PlainIsFixed(CountTail());
    PlainIsFree(CountHead());
    PlainIsFree(CountTail());
    FramedLiterals(CountHead(), sql, CountTail(), other);
  }

  /** A value printed into a template reaches the database as it is, less its NUL bytes and among
      the template's own literals, if and only if no quote of the template touches it. */
  lemma DatabaseReadsTheValue(pre: string, v: string, post: string, fields: seq<string>, orderBy: seq<OrderBy>,
                              limit: int, offset: int, other: char -> string)
    requires Lex(Normal, pre).Lexed? && Lex(Normal, pre).last == Normal && Sanitized(post).Clean?
    requires ValidRequest(fields, orderBy)
    ensures Sanitized(pre + Quote(v) + post).Clean?
    ensures ReadLiterals(Normal, pre, other).Some? && ReadLiterals(Normal, post, other).Some?
    ensures var sql := Sanitized(pre + Quote(v) + post).sql;
            var expected := ReadLiterals(Normal, pre, other).value + [StripNul(v)]
                              + ReadLiterals(Normal, post, other).value;
            && (ReadLiterals(Normal, Paginated(sql, fields, orderBy, limit, offset), other) == Some(expected)
                <==> !EndsWithQuote(pre) && !StartsWithQuote(post))
            && (ReadLiterals(Normal, Counted(sql), other) == Some(expected)
                <==> !EndsWithQuote(pre) && !StartsWithQuote(post))
  {
    SubstitutionIsIndependent(pre, v, post);
    ValueIsReadBack(pre, v, post, other);
    DatabaseReadsTheTemplate(pre + Quote(v) + post, fields, orderBy, limit, offset, other);
  }
}

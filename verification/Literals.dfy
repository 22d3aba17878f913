/** The escaping functions that templates print values with, and what the
    scanner and a SQL reader make of the printed text. */
module Literals {
  import opened Text
  import opened Sanitizer

  const NUL := '\0'

  function SafeString(s: string): string {
    Replace(Replace(Replace(s, NUL, ""), '\\', "\\\\"), '\'', "''")
  }

  function Quote(s: string): string {
    "'" + SafeString(s) + "'"
  }

  function SafeLike(s: string): string {
    Replace(Replace(Replace(s, '\\', "\\\\"), '%', "\\%"), '_', "\\_")
  }

  function StripNul(s: string): string {
    Replace(s, NUL, "")
  }

  function Quotes(items: seq<string>): (r: seq<string>)
    ensures |r| == |items| && forall i :: 0 <= i < |r| ==> r[i] == Quote(items[i])
  {
    seq(|items|, i requires 0 <= i < |items| => Quote(items[i]))
  }

  function InList(items: seq<string>): string {
    Join(Quotes(items), ",")
  }

  method SafeInList(items: seq<string>) returns (r: Result<string>)
    ensures r.Ok? <==> items != []
    ensures r.Ok? ==> r.value == InList(items)
  {
    if |items| == 0 {
      return Err("empty slice (IN () is invalid SQL)");
    }
    var parts := [];
    for k := 0 to |items|
      invariant parts == Quotes(items)[..k]
    {
      parts := parts + ["'" + SafeString(items[k]) + "'"];
    }
    assert Quotes(items)[..|items|] == Quotes(items);
    return Ok(Join(parts, ","));
  }

  // ---------------------------------------------------------------------
  // The replacement chains, one character at a time
  // ---------------------------------------------------------------------

  function EscapeChar(c: char): string {
    if c == NUL then "" else if c == '\\' then "\\\\" else if c == '\'' then "''" else [c]
  }

  function Escape(s: string): string {
    if s == "" then "" else EscapeChar(s[0]) + Escape(s[1..])
  }

  function LikeChar(c: char): string {
    if c in {'\\', '%', '_'} then ['\\', c] else [c]
  }

  function LikeEscape(s: string): string {
    if s == "" then "" else LikeChar(s[0]) + LikeEscape(s[1..])
  }

  lemma ReplaceOne(c: char, what: char, with: string)
    ensures Replace([c], what, with) == if c == what then with else [c]
  {
    assert [c][1..] == "";
  }

  lemma ReplaceTwo(c: char, d: char, what: char, with: string)
    ensures Replace([c, d], what, with) == (if c == what then with else [c]) + (if d == what then with else [d])
  {
    assert [c, d][1..] == [d];
    ReplaceOne(d, what, with);
  }

  lemma {:induction false} SafeStringIsEscape(s: string)
    ensures SafeString(s) == Escape(s)
  {
    if s != "" {
      var c := s[0];
      SafeStringIsEscape(s[1..]);
      var a := if c == NUL then "" else [c];
      var a' := Replace(s[1..], NUL, "");
      ReplaceConcat(a, a', '\\', "\\\\");
      ReplaceOne(c, '\\', "\\\\");
      var b := Replace(a, '\\', "\\\\");
      ReplaceConcat(b, Replace(a', '\\', "\\\\"), '\'', "''");
      ReplaceOne(c, '\'', "''");
      ReplaceTwo('\\', '\\', '\'', "''");
    }
  }

  lemma {:induction false} SafeLikeIsEscape(s: string)
    ensures SafeLike(s) == LikeEscape(s)
  {
    if s != "" {
      var c := s[0];
      SafeLikeIsEscape(s[1..]);
      var a := if c == '\\' then "\\\\" else [c];
      var a' := Replace(s[1..], '\\', "\\\\");
      ReplaceConcat(a, a', '%', "\\%");
      ReplaceOne(c, '%', "\\%");
      ReplaceTwo('\\', '\\', '%', "\\%");
      var b := Replace(a, '%', "\\%");
      ReplaceConcat(b, Replace(a', '%', "\\%"), '_', "\\_");
      ReplaceOne(c, '_', "\\_");
      ReplaceTwo('\\', '\\', '_', "\\_");
      ReplaceTwo('\\', '%', '_', "\\_");
    }
  }

  // ---------------------------------------------------------------------
  // What the scanner makes of a quoted value
  // ---------------------------------------------------------------------

  lemma EscapeIsOneStep(c: char, tail: string)
    requires EscapeChar(c) != ""
    ensures StepOf(SingleQuote, EscapeChar(c) + tail) == Advance(SingleQuote, |EscapeChar(c)|, EscapeChar(c))
  {
    var s := EscapeChar(c) + tail;
    assert s[0] == EscapeChar(c)[0];
    assert |EscapeChar(c)| == 2 ==> s[1] == EscapeChar(c)[1];
  }

  lemma ClosingQuote()
    ensures Lex(SingleQuote, "'") == Lexed("'", Marks(1, SingleQuote), Normal)
  {
    LexUnfolds(SingleQuote, "'");
    assert "'"[1..] == "";
    assert Marks(1, SingleQuote) + [] == Marks(1, SingleQuote);
  }

  lemma EscapeExtends(c: char, tail: string)
    requires Lex(SingleQuote, tail) == Lexed(tail, Marks(|tail|, SingleQuote), Normal)
    ensures Lex(SingleQuote, EscapeChar(c) + tail)
         == Lexed(EscapeChar(c) + tail, Marks(|EscapeChar(c) + tail|, SingleQuote), Normal)
  {
    var e := EscapeChar(c);
    if e == "" {
      assert e + tail == tail;
    } else {
      EscapeIsOneStep(c, tail);
      KeptStep(SingleQuote, e, tail, SingleQuote, Marks(|tail|, SingleQuote), Normal);
      assert Marks(|e|, SingleQuote) + Marks(|tail|, SingleQuote) == Marks(|e + tail|, SingleQuote);
    }
  }

  lemma {:induction false} EscapedStaysInside(v: string)
    ensures var body := Escape(v) + "'";
            Lex(SingleQuote, body) == Lexed(body, Marks(|body|, SingleQuote), Normal)
  {
    if v == "" {
      ClosingQuote();
      assert Escape(v) + "'" == "'";
    } else {
      EscapedStaysInside(v[1..]);
      var tail := Escape(v[1..]) + "'";
      EscapeExtends(v[0], tail);
      assert Escape(v) + "'" == EscapeChar(v[0]) + tail;
    }
  }

  /** A quoted value is a single literal from its first character to its last. */
  lemma QuoteIsOneLiteral(v: string)
    ensures Lex(Normal, Quote(v)) == Lexed(Quote(v), Marks(|Quote(v)|, SingleQuote), Normal)
    ensures Fixed(Quote(v))
  {
    SafeStringIsEscape(v);
    EscapedStaysInside(v);
    var body := Escape(v) + "'";
    assert Quote(v) == "'" + body;
    assert Quote(v)[1..] == body;
    assert Marks(1, SingleQuote) + Marks(|body|, SingleQuote) == Marks(|Quote(v)|, SingleQuote);
  }

  predicate EndsWithQuote(s: string) { s != "" && s[|s| - 1] == '\'' }

  predicate StartsWithQuote(s: string) { s != "" && s[0] == '\'' }

  lemma QuoteDoesNotGlue(pre: string, t: string, post: string)
    requires StartsWithQuote(t) && EndsWithQuote(t)
    ensures !Glues(t, post) && !Glues(pre, t + post)
  {
    assert (t + post)[0] == t[0];
  }

  lemma LexAfter(pre: string, t: string, post: string)
    requires Lex(Normal, pre).Lexed? && Lex(Normal, pre).last == Normal
    requires StartsWithQuote(t) && EndsWithQuote(t)
    ensures Lex(Normal, pre + t + post) == Then(Lex(Normal, pre), Lex(Normal, t + post))
  {
    QuoteDoesNotGlue(pre, t, post);
    assert pre + t + post == pre + (t + post);
    Compose(Normal, pre, t + post);
  }

  /** A text the scanner leaves alone, delimited by quotes, scanned between two others. */
  lemma LexBetween(pre: string, t: string, post: string)
    requires Lex(Normal, pre).Lexed? && Lex(Normal, pre).last == Normal
    requires Fixed(t) && StartsWithQuote(t) && EndsWithQuote(t)
    ensures Lex(Normal, pre + t + post) == Then(Lex(Normal, pre), Then(Lex(Normal, t), Lex(Normal, post)))
  {
    LexAfter(pre, t, post);
    QuoteDoesNotGlue(pre, t, post);
    Compose(Normal, t, post);
  }

  lemma JudgeBetween(pre: Lexed, t: Lexed, post: Lexed)
    requires pre.Lexed? && t.Lexed?
    ensures Judge(Then(pre, Then(t, post)))
         == match Judge(post)
            case Unsafe(reason) => Unsafe(reason)
            case Clean(p) => Clean(pre.text + t.text + p)
  {
    if post.Lexed? {
      assert pre.text + (t.text + post.text) == pre.text + t.text + post.text;
    }
  }

  /** The verdict and the output around a substituted value do not depend on the value:
      `pre` and `post` are sanitized as if alone and the literal is copied unchanged, with
      every one of its characters read as part of a literal. This even holds next to a quote. */
  lemma SubstitutionIsIndependent(pre: string, v: string, post: string)
    requires Lex(Normal, pre).Lexed? && Lex(Normal, pre).last == Normal
    ensures Sanitized(pre + Quote(v) + post)
         == match Sanitized(post)
            case Unsafe(reason) => Unsafe(reason)
            case Clean(p) => Clean(Lex(Normal, pre).text + Quote(v) + p)
    ensures Lex(Normal, pre + Quote(v) + post)
         == Then(Lex(Normal, pre),
                 Then(Lexed(Quote(v), Marks(|Quote(v)|, SingleQuote), Normal), Lex(Normal, post)))
  {
    QuoteIsOneLiteral(v);
    LexBetween(pre, Quote(v), post);
    JudgeBetween(Lex(Normal, pre), Lex(Normal, Quote(v)), Lex(Normal, post));
  }

  lemma InListFirst(items: seq<string>)
    requires items != []
    ensures InList(items) == Quote(items[0]) + if |items| == 1 then "" else "," + InList(items[1..])
    ensures |items| == 1 ==> InList(items) == Quote(items[0])
    ensures StripNuls(items) == [StripNul(items[0])] + StripNuls(items[1..])
  {
    assert Quotes(items)[1..] == Quotes(items[1..]);
    assert StripNuls(items[1..]) == StripNuls(items)[1..];
  }

  lemma ListStep(first: string, comma: string, rest: string)
    requires Fixed(first) && StartsWithQuote(first) && |comma| == 1 && comma[0] == ',' && Fixed(comma)
    requires Fixed(rest) && StartsWithQuote(rest) && EndsWithQuote(rest)
    ensures Fixed(first + comma + rest)
    ensures StartsWithQuote(first + comma + rest) && EndsWithQuote(first + comma + rest)
  {
    FixedConcat(first, comma);
    FixedConcat(first + comma, rest);
  }

  lemma {:induction false} InListIsFixed(items: seq<string>)
    requires items != []
    ensures Fixed(InList(items)) && StartsWithQuote(InList(items)) && EndsWithQuote(InList(items))
  {
    QuoteIsOneLiteral(items[0]);
    if |items| > 1 {
      InListIsFixed(items[1..]);
      InListFirst(items);
      assert Quote(items[0]) + ("," + InList(items[1..])) == Quote(items[0]) + "," + InList(items[1..]);
      PlainIsFixed(",");
      ListStep(Quote(items[0]), ",", InList(items[1..]));
    } else {
      InListFirst(items);
    }
  }

  /** The same independence for a whole IN list. */
  lemma ListSubstitutionIsIndependent(pre: string, items: seq<string>, post: string)
    requires Lex(Normal, pre).Lexed? && Lex(Normal, pre).last == Normal
    requires items != []
    ensures Sanitized(pre + InList(items) + post)
         == match Sanitized(post)
            case Unsafe(reason) => Unsafe(reason)
            case Clean(p) => Clean(Lex(Normal, pre).text + InList(items) + p)
  {
    InListIsFixed(items);
    LexBetween(pre, InList(items), post);
    JudgeBetween(Lex(Normal, pre), Lex(Normal, InList(items)), Lex(Normal, post));
  }

  // ---------------------------------------------------------------------
  // Reading literals back
  // ---------------------------------------------------------------------

  /** A read literal: its value and the text after the closing quote. */
  datatype Literal = Literal(value: string, rest: string)

  /** Reads the body of a single-quoted literal. Backslash-backslash, backslash-quote and the
      doubled quote are the scanner's own escapes; `other` stands for whatever the database
      makes of a backslash before any other character. */
  function ReadBody(s: string, other: char -> string): (r: Option<Literal>)
    ensures r.Some? ==> |r.value.rest| < |s|
    decreases |s|
  {
    if s == "" then None
    else if s[0] == '\\' && |s| > 1 then
      Prepend(if s[1] == '\\' || s[1] == '\'' then [s[1]] else other(s[1]), ReadBody(s[2..], other))
    else if s[0] == '\'' && At(s, 1, '\'') then Prepend("'", ReadBody(s[2..], other))
    else if s[0] == '\'' then Some(Literal("", s[1..]))
    else Prepend([s[0]], ReadBody(s[1..], other))
  }

  function Prepend(p: string, l: Option<Literal>): Option<Literal> {
    match l
    case None => None
    case Some(Literal(value, rest)) => Some(Literal(p + value, rest))
  }

  function ReadLiteral(s: string, other: char -> string): Option<Literal> {
    if StartsWithQuote(s) then ReadBody(s[1..], other) else None
  }

  lemma EscapedCharReadsBack(c: char, tail: string, other: char -> string)
    requires c == '\'' || c == '\\' || EscapeChar(c) == "" || EscapeChar(c) == [c]
    ensures ReadBody(EscapeChar(c) + tail, other)
         == if EscapeChar(c) == "" then ReadBody(tail, other) else Prepend([c], ReadBody(tail, other))
  {
    var e := EscapeChar(c);
    var s := e + tail;
    assert s[|e|..] == tail;
    if e != "" {
      assert s[0] == e[0];
      assert |e| == 2 ==> s[1] == e[1];
    }
  }

  lemma FirstEscaped(v: string, post: string)
    requires v != ""
    ensures Escape(v) + "'" + post == EscapeChar(v[0]) + (Escape(v[1..]) + "'" + post)
    ensures StripNul(v) == if EscapeChar(v[0]) == "" then StripNul(v[1..]) else [v[0]] + StripNul(v[1..])
  {
    if v[0] == NUL {
      assert "" + StripNul(v[1..]) == StripNul(v[1..]);
    } else {
      assert EscapeChar(v[0])[0] == v[0];
    }
  }

  lemma {:induction false} EscapedReadsBack(v: string, post: string, other: char -> string)
    requires !StartsWithQuote(post)
    ensures ReadBody(Escape(v) + "'" + post, other) == Some(Literal(StripNul(v), post))
    decreases |v|
  {
    if v == "" {
      var s := Escape(v) + "'" + post;
      assert s == "'" + post;
      assert s[1..] == post;
    } else {
      EscapedReadsBack(v[1..], post, other);
      FirstEscaped(v, post);
      EscapedCharReadsBack(v[0], Escape(v[1..]) + "'" + post, other);
    }
  }

  /** A quote right after the literal becomes part of it. */
  lemma {:induction false} LiteralRunsOn(v: string, post: string, other: char -> string)
    requires StartsWithQuote(post)
    ensures var l := ReadBody(Escape(v) + "'" + post, other);
            l.Some? ==> |l.value.rest| < |post|
    decreases |v|
  {
    if v == "" {
      var s := Escape(v) + "'" + post;
      assert s[0] == '\'' && s[1] == '\'';
      assert s[2..] == post[1..];
    } else {
      LiteralRunsOn(v[1..], post, other);
      var tail := Escape(v[1..]) + "'" + post;
      assert Escape(v) + "'" + post == EscapeChar(v[0]) + tail;
      EscapedCharReadsBack(v[0], tail, other);
    }
  }

  /** Quoting round-trips: the literal denotes the value without its NUL bytes and ends exactly
      where the printed text ends, if and only if no quote follows it directly. */
  lemma QuoteRoundTrip(v: string, post: string, other: char -> string)
    ensures ReadLiteral(Quote(v) + post, other) == Some(Literal(StripNul(v), post)) <==> !StartsWithQuote(post)
  {
    SafeStringIsEscape(v);
    assert (Quote(v) + post)[1..] == Escape(v) + "'" + post;
    if StartsWithQuote(post) {
      LiteralRunsOn(v, post, other);
    } else {
      EscapedReadsBack(v, post, other);
    }
  }

  /** Reads a comma-separated list of literals. */
  function ReadList(s: string, other: char -> string): Option<seq<string>>
    decreases |s|
  {
    match ReadLiteral(s, other)
    case None => None
    case Some(Literal(value, rest)) =>
      if rest == "" then Some([value])
      else if rest[0] != ',' then None
      else match ReadList(rest[1..], other)
        case None => None
        case Some(values) => Some([value] + values)
  }

  function StripNuls(items: seq<string>): (r: seq<string>)
    ensures |r| == |items| && forall i :: 0 <= i < |r| ==> r[i] == StripNul(items[i])
  {
    seq(|items|, i requires 0 <= i < |items| => StripNul(items[i]))
  }

  lemma FirstItemReadsBack(v: string, rest: string, values: seq<string>, other: char -> string)
    requires ReadList(rest, other) == Some(values)
    ensures ReadList(Quote(v) + ("," + rest), other) == Some([StripNul(v)] + values)
  {
    QuoteRoundTrip(v, "," + rest, other);
    assert ("," + rest)[1..] == rest;
  }

  lemma OnlyItemReadsBack(v: string, other: char -> string)
    ensures ReadList(Quote(v), other) == Some([StripNul(v)])
  {
    QuoteRoundTrip(v, "", other);
    assert Quote(v) + "" == Quote(v);
  }

  /** An IN list reads back as the listed values, in order. */
  lemma {:induction false} InListRoundTrip(items: seq<string>, other: char -> string)
    requires items != []
    ensures ReadList(InList(items), other) == Some(StripNuls(items))
  {
    if |items| == 1 {
      InListFirst(items);
      OnlyItemReadsBack(items[0], other);
      assert StripNuls(items) == [StripNul(items[0])];
    } else {
      var rest := InList(items[1..]);
      InListRoundTrip(items[1..], other);
      InListFirst(items);
      FirstItemReadsBack(items[0], rest, StripNuls(items[1..]), other);
    }
  }

  // ---------------------------------------------------------------------
  // LIKE patterns
  // ---------------------------------------------------------------------

  /** SQL LIKE with backslash as the escape character. */
  predicate Like(pattern: string, t: string)
    decreases |pattern|, |t|
  {
    if pattern == "" then t == ""
    else if pattern[0] == '\\' && |pattern| > 1 then
      t != "" && t[0] == pattern[1] && Like(pattern[2..], t[1..])
    else if pattern[0] == '%' then Like(pattern[1..], t) || (t != "" && Like(pattern, t[1..]))
    else if pattern[0] == '_' then t != "" && Like(pattern[1..], t[1..])
    else t != "" && t[0] == pattern[0] && Like(pattern[1..], t[1..])
  }

  lemma {:induction false} LikeEscapeMatchesItself(s: string, t: string)
    ensures Like(LikeEscape(s), t) <==> t == s
  {
    if s != "" {
      var p := LikeEscape(s);
      var e := LikeChar(s[0]);
      assert p[|e|..] == LikeEscape(s[1..]);
      assert p[0] == e[0];
      assert |e| == 2 ==> p[1] == s[0];
      assert s == [s[0]] + s[1..];
      if t != "" {
        LikeEscapeMatchesItself(s[1..], t[1..]);
        assert t == [t[0]] + t[1..];
      }
    }
  }

  lemma {:induction false} LikeEscapeStripsNul(s: string)
    ensures StripNul(LikeEscape(s)) == LikeEscape(StripNul(s))
  {
    if s != "" {
      LikeEscapeStripsNul(s[1..]);
      var e := LikeChar(s[0]);
      ReplaceConcat(e, LikeEscape(s[1..]), NUL, "");
      if |e| == 2 {
        ReplaceTwo(e[0], e[1], NUL, "");
      } else {
        ReplaceOne(s[0], NUL, "");
      }
      if s[0] != NUL {
        assert StripNul(s) == [s[0]] + StripNul(s[1..]);
        assert StripNul(s)[1..] == StripNul(s[1..]);
      } else {
        assert StripNul(s) == StripNul(s[1..]);
      }
    }
  }

  /** `quote (safeLike s)` denotes a pattern that matches exactly the text `s` (less NUL bytes). */
  lemma QuotedLikeMatchesExactly(s: string, t: string, other: char -> string)
    ensures ReadLiteral(Quote(SafeLike(s)), other).Some?
    ensures var l := ReadLiteral(Quote(SafeLike(s)), other).value;
            l.rest == "" && (Like(l.value, t) <==> t == StripNul(s))
  {
    SafeLikeIsEscape(s);
    QuoteRoundTrip(SafeLike(s), "", other);
    assert Quote(SafeLike(s)) + "" == Quote(SafeLike(s));
    LikeEscapeStripsNul(s);
    LikeEscapeMatchesItself(StripNul(s), t);
  }
}

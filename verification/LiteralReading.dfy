/** What a SQL reader finds in a whole text: the values of all single-quoted literals. */
module LiteralReading {
  import opened Text
  import opened Sanitizer
  import opened Literals

  /** The values of the single-quoted literals in a text, in order, or nothing if one of them is
      not closed or a semicolon is met. Outside literals the reader moves like the scanner;
      `other` is what a backslash means before any other character. */
  function ReadLiterals(st: State, s: string, other: char -> string): Option<seq<string>>
    requires st != SingleQuote
    decreases |s|
  {
    if s == "" then Some([])
    else if st == Normal && s[0] == '\'' then
      match ReadBody(s[1..], other)
      case None => None
      case Some(Literal(value, rest)) => Cons(value, ReadLiterals(Normal, rest, other))
    else
      match StepOf(st, s)
      case Semicolon => None
      case Advance(next, width, _) => ReadLiterals(next, s[width..], other)
  }

  function Cons(value: string, values: Option<seq<string>>): Option<seq<string>> {
    match values
    case None => None
    case Some(vs) => Some([value] + vs)
  }

  /** Some literals, then some others. */
  function Both(a: Option<seq<string>>, b: Option<seq<string>>): Option<seq<string>> {
    if a.Some? && b.Some? then Some(a.value + b.value) else None
  }

  /** The last literal of `a` and the first of `b` as one, with a quote between their values. */
  function Merged(a: seq<string>, b: seq<string>): seq<string>
    requires a != [] && b != []
  {
    a[..|a| - 1] + [a[|a| - 1] + "'" + b[0]] + b[1..]
  }

  // ---------------------------------------------------------------------
  // The reader finds the literals that the scanner sees
  // ---------------------------------------------------------------------

  /** The characters that the reader takes at once inside a literal. */
  function Unit(t: string): (w: nat)
    requires t != ""
    ensures 1 <= w <= |t|
  {
    if |t| > 1 && (t[0] == '\\' || (t[0] == '\'' && t[1] == '\'')) then 2 else 1
  }

  predicate Closes(t: string) {
    t != "" && t[0] == '\'' && Unit(t) == 1
  }

  lemma OneStepInside(t: string)
    requires t != "" && StepOf(SingleQuote, t).next == SingleQuote
    ensures var w := StepOf(SingleQuote, t).width;
            Lex(SingleQuote, t).Lexed? ==>
              Lex(SingleQuote, t[w..]).Lexed? && Lex(SingleQuote, t[w..]).last == Lex(SingleQuote, t).last
  {
    LexUnfolds(SingleQuote, t);
  }

  lemma StepInside(t: string)
    requires t != ""
    ensures Closes(t) <==> StepOf(SingleQuote, t).next != SingleQuote
    ensures Closes(t) ==> StepOf(SingleQuote, t).next == Normal && StepOf(SingleQuote, t).width == 1
    ensures !Closes(t) && StepOf(SingleQuote, t).width < Unit(t) ==>
              Unit(t) == 2 && StepOf(SingleQuote, t[1..]).next == SingleQuote && StepOf(SingleQuote, t[1..]).width == 1
    ensures StepOf(SingleQuote, t).width <= Unit(t)
  {
  }

  /** The scanner is in the same state after what the reader takes at once. */
  lemma UnitIsScanned(t: string)
    requires t != "" && !Closes(t) && Lex(SingleQuote, t).Lexed?
    ensures var w := Unit(t);
            Lex(SingleQuote, t[w..]).Lexed? && Lex(SingleQuote, t[w..]).last == Lex(SingleQuote, t).last
  {
    StepInside(t);
    OneStepInside(t);
    if StepOf(SingleQuote, t).width < Unit(t) {
      OneStepInside(t[1..]);
      assert t[1..][1..] == t[2..];
    }
  }

  lemma ClosingIsScanned(t: string)
    requires Closes(t) && Lex(SingleQuote, t).Lexed?
    ensures Lex(Normal, t[1..]).Lexed? && Lex(Normal, t[1..]).last == Lex(SingleQuote, t).last
  {
    StepInside(t);
    LexUnfolds(SingleQuote, t);
  }

  lemma NothingOpens(t: string)
    requires t == ""
    ensures Lex(SingleQuote, t).Lexed? && Lex(SingleQuote, t).last == SingleQuote
  {
  }

  /** `rest` is the part of `t` behind one of its quotes. */
  predicate BehindAQuote(t: string, rest: string) {
    |rest| < |t| && t[|t| - |rest|..] == rest && t[|t| - |rest| - 1] == '\''
  }

  lemma BehindAQuoteOf(t: string, w: nat, rest: string)
    requires w <= |t| && BehindAQuote(t[w..], rest)
    ensures BehindAQuote(t, rest)
  {
    assert t[w..][|t| - w - |rest|..] == t[|t| - |rest|..];
  }

  lemma ReadUnit(t: string, other: char -> string)
    requires t != "" && !Closes(t) && ReadBody(t[Unit(t)..], other).Some?
    ensures ReadBody(t, other).Some? && ReadBody(t, other).value.rest == ReadBody(t[Unit(t)..], other).value.rest
  {
  }

  /** Where the scanner leaves a literal the reader has read it, and both go on alike. */
  lemma {:induction false} BodyFollowsScan(t: string, other: char -> string)
    requires Lex(SingleQuote, t).Lexed? && Lex(SingleQuote, t).last != SingleQuote
    ensures ReadBody(t, other).Some?
    ensures var rest := ReadBody(t, other).value.rest;
            BehindAQuote(t, rest) && Lex(Normal, rest).Lexed? && Lex(Normal, rest).last == Lex(SingleQuote, t).last
    decreases |t|
  {
    if t == "" {
      NothingOpens(t);
    } else if Closes(t) {
      ClosingIsScanned(t);
    } else {
      UnitIsScanned(t);
      BodyFollowsScan(t[Unit(t)..], other);
      ReadUnit(t, other);
      BehindAQuoteOf(t, Unit(t), ReadBody(t, other).value.rest);
    }
  }

  /** The reader reads every text that the scanner gets through without an open literal. */
  lemma {:induction false} LexedIsRead(st: State, s: string, other: char -> string)
    requires st != SingleQuote && Lex(st, s).Lexed? && Lex(st, s).last != SingleQuote
    ensures ReadLiterals(st, s, other).Some?
    decreases |s|
  {
    if s != "" {
      LexUnfolds(st, s);
      if st == Normal && s[0] == '\'' {
        BodyFollowsScan(s[1..], other);
        LexedIsRead(Normal, ReadBody(s[1..], other).value.rest, other);
      } else {
        LexedIsRead(StepOf(st, s).next, s[StepOf(st, s).width..], other);
      }
    }
  }

  // ---------------------------------------------------------------------
  // Two texts in a row
  // ---------------------------------------------------------------------

  lemma UnitExtends(t: string, b: string)
    requires t != "" && !(t == "'" && StartsWithQuote(b))
    requires t != "\\"
    ensures Unit(t + b) == Unit(t) && (t + b)[0] == t[0] && (t + b)[..Unit(t)] == t[..Unit(t)]
    ensures (t + b)[Unit(t)..] == t[Unit(t)..] + b
  {
    if |t| > 1 {
      assert (t + b)[1] == t[1];
    } else if b != "" {
      assert (t + b)[1] == b[0];
    }
  }

  /** What one unit contributes to a literal's value. */
  function Meaning(t: string, other: char -> string): string
    requires t != "" && !Closes(t)
  {
    if t[0] == '\\' && |t| > 1 then if t[1] == '\\' || t[1] == '\'' then [t[1]] else other(t[1]) else [t[0]]
  }

  lemma ReadsUnitFirst(t: string, other: char -> string)
    requires t != "" && !Closes(t)
    ensures ReadBody(t, other) == Prepend(Meaning(t, other), ReadBody(t[Unit(t)..], other))
  {
  }

  lemma SameMeaning(t: string, b: string, other: char -> string)
    requires t != "" && !Closes(t) && t != "\\"
    ensures !Closes(t + b) && Meaning(t + b, other) == Meaning(t, other)
  {
    assert t != "'";
    UnitExtends(t, b);
    if |t| > 1 {
      assert (t + b)[1] == t[1];
    }
  }

  lemma LoneBackslash(t: string, other: char -> string)
    requires t == "\\"
    ensures ReadBody(t, other).None?
  {
    assert t[1..] == "";
  }

  lemma ClosedExtends(t: string, b: string, other: char -> string)
    requires Closes(t) && !(t == "'" && StartsWithQuote(b))
    ensures ReadBody(t, other) == Some(Literal("", t[1..])) && ReadBody(t + b, other) == Some(Literal("", t[1..] + b))
  {
    UnitExtends(t, b);
  }

  /** A literal with a text behind it reads the same, unless a quote follows it directly. */
  lemma {:induction false} BodyExtends(t: string, b: string, other: char -> string)
    requires ReadBody(t, other).Some? && !(ReadBody(t, other).value.rest == "" && StartsWithQuote(b))
    ensures ReadBody(t + b, other)
         == Some(Literal(ReadBody(t, other).value.value, ReadBody(t, other).value.rest + b))
    decreases |t|
  {
    if Closes(t) {
      ClosedExtends(t, b, other);
    } else {
      if t == "\\" {
        LoneBackslash(t, other);
      }
      ReadsUnitFirst(t, other);
      BodyExtends(t[Unit(t)..], b, other);
      UnitExtends(t, b);
      SameMeaning(t, b, other);
      ReadsUnitFirst(t + b, other);
    }
  }

  lemma PrependTwice(p: string, v: string, l: Option<Literal>)
    ensures Prepend(p, Prepend(v + "'", l)) == Prepend(p + v + "'", l)
  {
    if l.Some? {
      assert p + ((v + "'") + l.value.value) == (p + v + "'") + l.value.value;
    }
  }

  lemma DoubledQuote(t: string, b: string, other: char -> string)
    requires t == "'" && StartsWithQuote(b)
    ensures ReadBody(t + b, other) == Prepend("" + "'", ReadBody(b[1..], other))
  {
    assert (t + b)[0] == '\'' && (t + b)[1] == '\'' && (t + b)[2..] == b[1..];
    assert "" + "'" == "'";
  }

  /** If a quote follows it directly, the literal runs on with whatever that quote opens. */
  lemma {:induction false} BodyRunsOn(t: string, b: string, other: char -> string)
    requires ReadBody(t, other).Some? && ReadBody(t, other).value.rest == "" && StartsWithQuote(b)
    ensures ReadBody(t + b, other) == Prepend(ReadBody(t, other).value.value + "'", ReadBody(b[1..], other))
    decreases |t|
  {
    if Closes(t) {
      assert t[1..] == "";
      DoubledQuote(t, b, other);
    } else {
      if t == "\\" {
        LoneBackslash(t, other);
      }
      ReadsUnitFirst(t, other);
      BodyRunsOn(t[Unit(t)..], b, other);
      UnitExtends(t, b);
      SameMeaning(t, b, other);
      ReadsUnitFirst(t + b, other);
      PrependTwice(Meaning(t, other), ReadBody(t[Unit(t)..], other).value.value, ReadBody(b[1..], other));
    }
  }

  lemma ConsBoth(value: string, a: Option<seq<string>>, b: Option<seq<string>>)
    ensures Cons(value, Both(a, b)) == Both(Cons(value, a), b)
  {
    if a.Some? && b.Some? {
      assert [value] + (a.value + b.value) == ([value] + a.value) + b.value;
    }
  }

  lemma NothingBefore(b: Option<seq<string>>)
    ensures Both(Some([]), b) == b
  {
    if b.Some? {
      assert [] + b.value == b.value;
    }
  }

  /** The literal at the start of a text that is scanned to the normal state, and what follows it. */
  lemma FirstLiteral(a: string, other: char -> string)
    requires StartsWithQuote(a) && Lex(Normal, a).Lexed? && Lex(Normal, a).last == Normal
    ensures ReadBody(a[1..], other).Some?
    ensures var Literal(value, rest) := ReadBody(a[1..], other).value;
            && Lex(Normal, rest).Lexed? && Lex(Normal, rest).last == Normal && |rest| < |a|
            && (if rest == "" then EndsWithQuote(a) else rest[|rest| - 1] == a[|a| - 1])
            && ReadLiterals(Normal, a, other) == Cons(value, ReadLiterals(Normal, rest, other))
  {
    LexUnfolds(Normal, a);
    BodyFollowsScan(a[1..], other);
  }

  /** One move of the reader outside literals, which text behind `a` does not change. */
  lemma MoveOutside(st: State, a: string, b: string, other: char -> string)
    requires st != SingleQuote && a != "" && !(st == Normal && a[0] == '\'')
    requires Lex(st, a).Lexed? && Lex(st, a).last == Normal && !Glues(a, b) && !Doubles(st, a, b)
    ensures StepOf(st, a).Advance? && StepOf(st, a).next != SingleQuote
    ensures var Advance(next, width, _) := StepOf(st, a);
            var tail := a[width..];
            && Lex(next, tail).Lexed? && Lex(next, tail).last == Normal && |tail| < |a|
            && (tail == "" ==> !EndsWithQuote(a)) && (tail != "" ==> tail[|tail| - 1] == a[|a| - 1])
            && ReadLiterals(st, a, other) == ReadLiterals(next, tail, other)
            && ReadLiterals(st, a + b, other) == ReadLiterals(next, tail + b, other)
  {
    LastStep(st, a);
    StepIgnoresSuffix(st, a, b);
    LexUnfolds(st, a);
    var step := StepOf(st, a);
    DropOfConcat(a, b, step.width);
    assert (a + b)[0] == a[0];
    if step.width == |a| {
      LastCharOutside(st, a);
    }
  }

  /** No step outside literals ends on a quote. */
  lemma LastCharOutside(st: State, a: string)
    requires st != SingleQuote && a != "" && !(st == Normal && a[0] == '\'')
    requires StepOf(st, a).Advance? && StepOf(st, a).next == Normal && StepOf(st, a).width == |a|
    ensures !EndsWithQuote(a)
  {
  }

  lemma ReopenedIdentifier(st: State, a: string, b: string, other: char -> string)
    requires st != SingleQuote && Doubles(st, a, b)
    ensures ReadLiterals(st, a, other) == Some([])
    ensures ReadLiterals(st, a + b, other) == ReadLiterals(Normal, b, other)
  {
    assert (a + b)[0] == a[0] && (a + b)[1] == b[0] == a[0];
    assert (a + b)[2..] == b[1..] && a[1..] == "";
    assert StepOf(st, a + b) == Advance(st, 2, a + a);
    assert StepOf(st, a) == Advance(Normal, 1, a);
    assert StepOf(Normal, b) == Advance(st, 1, a);
  }

  lemma OpeningIsRead(s: string, l: Literal, other: char -> string)
    requires StartsWithQuote(s) && ReadBody(s[1..], other) == Some(l)
    ensures ReadLiterals(Normal, s, other) == Cons(l.value, ReadLiterals(Normal, l.rest, other))
  {
  }

  lemma FirstDropped(a: string, b: string)
    requires a != ""
    ensures (a + b)[0] == a[0] && (a + b)[1..] == a[1..] + b
  {
  }

  lemma LiteralThenMore(a: string, b: string, l: Literal, other: char -> string)
    requires StartsWithQuote(a) && ReadBody(a[1..], other) == Some(l)
    requires !(l.rest == "" && StartsWithQuote(b))
    ensures ReadLiterals(Normal, a + b, other) == Cons(l.value, ReadLiterals(Normal, l.rest + b, other))
  {
    BodyExtends(a[1..], b, other);
    FirstDropped(a, b);
    OpeningIsRead(a + b, Literal(l.value, l.rest + b), other);
  }

  lemma LiteralThenQuote(a: string, b: string, l: Literal, m: Literal, other: char -> string)
    requires StartsWithQuote(a) && ReadBody(a[1..], other) == Some(l) && l.rest == ""
    requires StartsWithQuote(b) && ReadBody(b[1..], other) == Some(m)
    ensures ReadLiterals(Normal, a + b, other) == Cons(l.value + "'" + m.value, ReadLiterals(Normal, m.rest, other))
  {
    BodyRunsOn(a[1..], b, other);
    FirstDropped(a, b);
    OpeningIsRead(a + b, Literal(l.value + "'" + m.value, m.rest), other);
  }

  /** Without quotes on both sides of the boundary, two texts in a row have the literals of the
      one and then those of the other. */
  lemma {:induction false} ReadApart(st: State, a: string, b: string, other: char -> string)
    requires st != SingleQuote && Lex(st, a).Lexed? && Lex(st, a).last == Normal
    requires !Glues(a, b) && !(EndsWithQuote(a) && StartsWithQuote(b))
    ensures ReadLiterals(st, a + b, other) == Both(ReadLiterals(st, a, other), ReadLiterals(Normal, b, other))
    decreases |a|
  {
    var l := ReadLiterals(Normal, b, other);
    if a == "" {
      assert a + b == b;
      NothingBefore(l);
    } else if st == Normal && a[0] == '\'' {
      FirstLiteral(a, other);
      var Literal(value, rest) := ReadBody(a[1..], other).value;
      LiteralThenMore(a, b, Literal(value, rest), other);
      ReadApart(Normal, rest, b, other);
      ConsBoth(value, ReadLiterals(Normal, rest, other), l);
    } else if Doubles(st, a, b) {
      ReopenedIdentifier(st, a, b, other);
      NothingBefore(l);
    } else {
      MoveOutside(st, a, b, other);
      ReadApart(StepOf(st, a).next, a[StepOf(st, a).width..], b, other);
    }
  }

  lemma MergedAfter(value: string, a: seq<string>, b: seq<string>)
    requires a != [] && b != []
    ensures [value] + Merged(a, b) == Merged([value] + a, b)
  {
    assert ([value] + a)[..|a|] == [value] + a[..|a| - 1];
  }

  lemma FirstsMerge(x: string, y: string, more: seq<string>)
    ensures Merged([x], [y] + more) == [x + "'" + y] + more
  {
    assert ([y] + more)[1..] == more;
  }

  lemma LastLiteralMerges(a: string, b: string, l: Literal, other: char -> string)
    requires StartsWithQuote(a) && ReadBody(a[1..], other) == Some(l) && l.rest == ""
    requires StartsWithQuote(b) && ReadLiterals(Normal, b, other).Some?
    ensures ReadLiterals(Normal, b, other).value != []
    ensures ReadLiterals(Normal, a + b, other) == Some(Merged([l.value], ReadLiterals(Normal, b, other).value))
  {
    var m := ReadBody(b[1..], other).value;
    OpeningIsRead(b, m, other);
    LiteralThenQuote(a, b, l, m, other);
    FirstsMerge(l.value, m.value, ReadLiterals(Normal, m.rest, other).value);
  }

  /** With quotes on both sides, the last literal of the one and the first of the other are one. */
  lemma {:induction false} ReadMerged(st: State, a: string, b: string, other: char -> string)
    requires st != SingleQuote && Lex(st, a).Lexed? && Lex(st, a).last == Normal
    requires EndsWithQuote(a) && StartsWithQuote(b) && ReadLiterals(Normal, b, other).Some?
    ensures ReadLiterals(st, a, other).Some? && ReadLiterals(st, a, other).value != []
    ensures ReadLiterals(Normal, b, other).value != []
    ensures ReadLiterals(st, a + b, other)
         == Some(Merged(ReadLiterals(st, a, other).value, ReadLiterals(Normal, b, other).value))
    decreases |a|
  {
    var l := ReadLiterals(Normal, b, other).value;
    if st == Normal && a[0] == '\'' {
      FirstLiteral(a, other);
      var Literal(value, rest) := ReadBody(a[1..], other).value;
      if rest == "" {
        LastLiteralMerges(a, b, Literal(value, rest), other);
      } else {
        LiteralThenMore(a, b, Literal(value, rest), other);
        ReadMerged(Normal, rest, b, other);
        MergedAfter(value, ReadLiterals(Normal, rest, other).value, l);
      }
    } else {
      MoveOutside(st, a, b, other);
      ReadMerged(StepOf(st, a).next, a[StepOf(st, a).width..], b, other);
    }
  }

  // ---------------------------------------------------------------------
  // A printed literal between two texts
  // ---------------------------------------------------------------------

  /** The literals of `pre + t + post` for a text `t` that begins and ends with a literal. */
  function Around(pre: string, between: seq<string>, post: string, other: char -> string): Option<seq<string>>
    requires between != []
  {
    var a, b := ReadLiterals(Normal, pre, other), ReadLiterals(Normal, post, other);
    if a.None? || b.None? then None
    else
      var right := if StartsWithQuote(post) && b.value != [] then Merged(between, b.value) else between + b.value;
      Some(if EndsWithQuote(pre) && a.value != [] then Merged(a.value, right) else a.value + right)
  }

  lemma ReadInFront(t: string, between: seq<string>, post: string, other: char -> string)
    requires Sanitized(post).Clean? && Fixed(t) && StartsWithQuote(t) && EndsWithQuote(t)
    requires between != [] && ReadLiterals(Normal, t, other) == Some(between)
    ensures ReadLiterals(Normal, post, other).Some?
    ensures var b := ReadLiterals(Normal, post, other).value;
            && (StartsWithQuote(post) ==> b != [])
            && ReadLiterals(Normal, t + post, other)
               == Some(if StartsWithQuote(post) then Merged(between, b) else between + b)
  {
    LexedIsRead(Normal, post, other);
    QuoteDoesNotGlue("", t, post);
    if StartsWithQuote(post) {
      ReadMerged(Normal, t, post, other);
    } else {
      ReadApart(Normal, t, post, other);
    }
  }

  /** What a reader finds around a printed literal or list: the literals before, those printed,
      and those after, where a quote that touches a printed one makes one literal of the two. */
  lemma ReadAround(pre: string, t: string, between: seq<string>, post: string, other: char -> string)
    requires Lex(Normal, pre).Lexed? && Lex(Normal, pre).last == Normal && Sanitized(post).Clean?
    requires Fixed(t) && StartsWithQuote(t) && EndsWithQuote(t)
    requires between != [] && ReadLiterals(Normal, t, other) == Some(between)
    ensures ReadLiterals(Normal, pre, other).Some? && ReadLiterals(Normal, post, other).Some?
    ensures EndsWithQuote(pre) ==> ReadLiterals(Normal, pre, other).value != []
    ensures StartsWithQuote(post) ==> ReadLiterals(Normal, post, other).value != []
    ensures ReadLiterals(Normal, pre + t + post, other) == Around(pre, between, post, other)
  {
    ReadInFront(t, between, post, other);
    ThreeTexts(pre, t, post);
    ReadBehind(pre, t + post, other);
  }

  lemma ThreeTexts(pre: string, t: string, post: string)
    requires StartsWithQuote(t)
    ensures pre + t + post == pre + (t + post)
    ensures StartsWithQuote(t + post) && !Glues(pre, t + post)
  {
    assert (t + post)[0] == t[0];
  }

  lemma ReadBehind(pre: string, right: string, other: char -> string)
    requires Lex(Normal, pre).Lexed? && Lex(Normal, pre).last == Normal && !Glues(pre, right)
    requires StartsWithQuote(right) && ReadLiterals(Normal, right, other).Some?
    ensures ReadLiterals(Normal, pre, other).Some?
    ensures var a, b := ReadLiterals(Normal, pre, other).value, ReadLiterals(Normal, right, other).value;
            && (EndsWithQuote(pre) ==> a != [] && b != [])
            && ReadLiterals(Normal, pre + right, other) == Some(if EndsWithQuote(pre) then Merged(a, b) else a + b)
  {
    LexedIsRead(Normal, pre, other);
    if EndsWithQuote(pre) {
      ReadMerged(Normal, pre, right, other);
    } else {
      ReadApart(Normal, pre, right, other);
    }
  }

  lemma OneFewer(a: seq<string>, between: seq<string>, b: seq<string>, left: bool, right: bool)
    requires between != [] && (left ==> a != []) && (right ==> b != [])
    ensures var tail := if right then Merged(between, b) else between + b;
            (if left then Merged(a, tail) else a + tail) == a + between + b <==> !left && !right
  {
    if !left && !right {
      assert a + (between + b) == a + between + b;
    } else {
      var tail := if right then Merged(between, b) else between + b;
      if right {
        MergedLength(between, b);
      }
      if left {
        MergedLength(a, tail);
      }
    }
  }

  lemma MergedLength(a: seq<string>, b: seq<string>)
    requires a != [] && b != []
    ensures |Merged(a, b)| == |a| + |b| - 1
  {
  }

  /** Literals, printed ones and literals again are all there as printed exactly when no quote
      touches the printed text, since a touching quote makes one literal fewer. */
  lemma AsPrintedIffApart(pre: string, t: string, between: seq<string>, post: string, other: char -> string)
    requires Lex(Normal, pre).Lexed? && Lex(Normal, pre).last == Normal && Sanitized(post).Clean?
    requires Fixed(t) && StartsWithQuote(t) && EndsWithQuote(t)
    requires between != [] && ReadLiterals(Normal, t, other) == Some(between)
    ensures ReadLiterals(Normal, pre, other).Some? && ReadLiterals(Normal, post, other).Some?
    ensures ReadLiterals(Normal, pre + t + post, other)
         == Some(ReadLiterals(Normal, pre, other).value + between + ReadLiterals(Normal, post, other).value)
       <==> !EndsWithQuote(pre) && !StartsWithQuote(post)
  {
    ReadAround(pre, t, between, post, other);
    OneFewer(ReadLiterals(Normal, pre, other).value, between, ReadLiterals(Normal, post, other).value,
             EndsWithQuote(pre), StartsWithQuote(post));
  }

  lemma QuoteIsRead(v: string, other: char -> string)
    ensures ReadLiterals(Normal, Quote(v), other) == Some([StripNul(v)])
  {
    QuoteRoundTrip(v, "", other);
    assert Quote(v) + "" == Quote(v);
    assert [StripNul(v)] + [] == [StripNul(v)];
  }

  /** In a statement around a quoted value a reader finds the literals before it, the value less
      its NUL bytes, and the literals after it, if and only if neither neighbour is a quote. */
  lemma ValueIsReadBack(pre: string, v: string, post: string, other: char -> string)
    requires Lex(Normal, pre).Lexed? && Lex(Normal, pre).last == Normal && Sanitized(post).Clean?
    ensures ReadLiterals(Normal, pre, other).Some? && ReadLiterals(Normal, post, other).Some?
    ensures ReadLiterals(Normal, pre + Quote(v) + post, other)
         == Some(ReadLiterals(Normal, pre, other).value + [StripNul(v)] + ReadLiterals(Normal, post, other).value)
       <==> !EndsWithQuote(pre) && !StartsWithQuote(post)
    ensures ReadLiterals(Normal, pre + Quote(v) + post, other) == Around(pre, [StripNul(v)], post, other)
  {
    QuoteIsRead(v, other);
    QuoteIsOneLiteral(v);
    ReadAround(pre, Quote(v), [StripNul(v)], post, other);
    AsPrintedIffApart(pre, Quote(v), [StripNul(v)], post, other);
  }

  /** The same for a whole IN list. */
  lemma ListIsReadBack(pre: string, items: seq<string>, post: string, other: char -> string)
    requires Lex(Normal, pre).Lexed? && Lex(Normal, pre).last == Normal && Sanitized(post).Clean?
    requires items != []
    ensures ReadLiterals(Normal, pre, other).Some? && ReadLiterals(Normal, post, other).Some?
    ensures ReadLiterals(Normal, pre + InList(items) + post, other)
         == Some(ReadLiterals(Normal, pre, other).value + StripNuls(items) + ReadLiterals(Normal, post, other).value)
       <==> !EndsWithQuote(pre) && !StartsWithQuote(post)
  {
    ListIsRead(items, other);
    InListIsFixed(items);
    AsPrintedIffApart(pre, InList(items), StripNuls(items), post, other);
  }

  lemma {:induction false} ListIsRead(items: seq<string>, other: char -> string)
    requires items != []
    ensures ReadLiterals(Normal, InList(items), other) == Some(StripNuls(items))
  {
    var first := Quote(items[0]);
    InListFirst(items);
    QuoteIsRead(items[0], other);
    QuoteIsOneLiteral(items[0]);
    if |items| > 1 {
      var rest := "," + InList(items[1..]);
      ListIsRead(items[1..], other);
      assert rest[1..] == InList(items[1..]);
      assert StepOf(Normal, rest) == Advance(Normal, 1, ",");
      ReadApart(Normal, first, rest, other);
    } else {
      assert StripNuls(items) == [StripNul(items[0])];
    }
  }

  lemma {:induction false} TwoQuotedValues(v: string, w: string, other: char -> string)
    ensures Lex(Normal, Quote(v)).Lexed? && Lex(Normal, Quote(v)).last == Normal
    ensures ReadLiterals(Normal, Quote(v) + Quote(w), other) == Some([StripNul(v) + "'" + StripNul(w)])
  {
    QuoteIsOneLiteral(v);
    QuoteIsOneLiteral(w);
    QuoteIsRead(v, other);
    QuoteIsRead(w, other);
    ReadMerged(Normal, Quote(v), Quote(w), other);
    var x, y := StripNul(v), StripNul(w);
    assert Merged([x], [y]) == [x + "'" + y];
  }

  /** A value right behind a literal: the two are read as one, and the value is read nowhere. */
  lemma ValueBehindALiteral(other: char -> string)
    ensures Lex(Normal, Quote("a")).Lexed? && Lex(Normal, Quote("a")).last == Normal
    ensures ReadLiterals(Normal, Quote("a") + Quote("b"), other) == Some(["a'b"])
  {
    TwoQuotedValues("a", "b", other);
    assert StripNul("a") == "a" && StripNul("b") == "b";
    assert "a" + "'" + "b" == "a'b";
  }
}

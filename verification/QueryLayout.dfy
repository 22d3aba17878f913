/** Which layout between tokens, blanks and comments, NormalizeQuery makes no difference of. */
module QueryLayout {
  import opened Text
  import opened Normalizing

  /** Blanks and comments with their line ends. */
  predicate Layout(g: string) {
    g == "" || (IsSpace(g[0]) && Layout(g[1..])) || (g[0] == '#' && CommentThenLayout(g[1..]))
  }

  predicate CommentThenLayout(g: string) {
    g != "" && if g[0] == '\n' then Layout(g[1..]) else CommentThenLayout(g[1..])
  }

  predicate Blank(w: string) {
    forall i :: 0 <= i < |w| ==> IsSpace(w[i])
  }

  lemma {:induction false} LayoutStripsToBlanks(s: Scan, g: string)
    requires (s.mode == Code && Layout(g)) || (s.mode == Comment && CommentThenLayout(g))
    ensures Blank(Strip(s, g)) && (g != "" ==> Strip(s, g) != "")
    ensures End(s, g) == if g == "" then s else Scan(Code, false)
    decreases |g|
  {
    if g != "" {
      var s' := Next(s, g[0]);
      LayoutStripsToBlanks(s', g[1..]);
      var rest := Strip(s', g[1..]);
      if Kept(s, g[0]) {
        assert IsSpace(g[0]);
        assert Strip(s, g) == [g[0]] + rest;
      } else {
        assert Strip(s, g) == rest;
      }
    }
  }

  lemma {:induction false} StripConcat(s: Scan, a: string, b: string)
    ensures Strip(s, a + b) == Strip(s, a) + Strip(End(s, a), b)
    decreases |a|
  {
    if a == "" {
      assert a + b == b;
    } else {
      assert (a + b)[0] == a[0] && (a + b)[1..] == a[1..] + b;
      StripConcat(Next(s, a[0]), a[1..], b);
    }
  }

  // ---------------------------------------------------------------------
  // Tokens of two texts in a row
  // ---------------------------------------------------------------------

  /** The tokens that are complete at the end of a text. */
  function Finished(current: string, t: string): seq<string>
    decreases |t|
  {
    if t == "" then []
    else if IsSpace(t[0]) then Flush(current) + Finished("", t[1..])
    else if DotsAt(t, 0) then Flush(current) + ["..."] + Finished("", t[3..])
    else if IsPunctuation(t[0]) then Flush(current) + [[t[0]]] + Finished("", t[1..])
    else Finished(current + [t[0]], t[1..])
  }

  /** The word that is still open at the end of a text. */
  function Pending(current: string, t: string): string
    decreases |t|
  {
    if t == "" then current
    else if IsSpace(t[0]) then Pending("", t[1..])
    else if DotsAt(t, 0) then Pending("", t[3..])
    else if IsPunctuation(t[0]) then Pending("", t[1..])
    else Pending(current + [t[0]], t[1..])
  }

  /** A spread begins in `t` and ends in the text `b` behind it. */
  predicate Crosses(t: string, b: string)
    decreases |t|
  {
    t != "" &&
    if DotsAt(t, 0) then Crosses(t[3..], b)
    else DotsAt(t + b, 0) || Crosses(t[1..], b)
  }

  lemma Regroup(first: seq<string>, unit: seq<string>, middle: seq<string>, last: seq<string>)
    ensures first + unit + (middle + last) == (first + unit + middle) + last
    ensures first + (middle + last) == (first + middle) + last
  {
  }

  /** Unless a spread crosses the boundary, the second text is read from the open word on. */
  lemma {:induction false} CutAt(current: string, a: string, b: string)
    requires !Crosses(a, b)
    ensures Tokens(current, a + b) == Finished(current, a) + Tokens(Pending(current, a), b)
    decreases |a|
  {
    var t := a + b;
    if a == "" {
      assert t == b;
    } else {
      assert t[0] == a[0] && t[1..] == a[1..] + b;
      if IsSpace(a[0]) {
        CutAt("", a[1..], b);
        Regroup(Flush(current), [], Finished("", a[1..]), Tokens(Pending("", a[1..]), b));
      } else if DotsAt(a, 0) {
        assert t[1] == a[1] && t[2] == a[2] && t[3..] == a[3..] + b;
        CutAt("", a[3..], b);
        Regroup(Flush(current), ["..."], Finished("", a[3..]), Tokens(Pending("", a[3..]), b));
      } else if IsPunctuation(a[0]) {
        CutAt("", a[1..], b);
        Regroup(Flush(current), [[a[0]]], Finished("", a[1..]), Tokens(Pending("", a[1..]), b));
      } else {
        CutAt(current + [a[0]], a[1..], b);
      }
    }
  }

  lemma {:induction false} NothingCrossesTheEnd(a: string)
    ensures !Crosses(a, "")
    decreases |a|
  {
    if a != "" {
      assert a + "" == a;
      if DotsAt(a, 0) {
        NothingCrossesTheEnd(a[3..]);
      } else {
        NothingCrossesTheEnd(a[1..]);
      }
    }
  }

  lemma AllTokens(a: string)
    ensures Tokens("", a) == Finished("", a) + Flush(Pending("", a))
  {
    NothingCrossesTheEnd(a);
    CutAt("", a, "");
    assert a + "" == a;
  }

  /** If one does, the open word loses its dots to the spread. */
  lemma {:induction false} SpreadCrosses(current: string, a: string, b: string) returns (q: string, rest: seq<string>)
    requires Crosses(a, b)
    ensures |q| < |Pending(current, a)| <= |q| + 2
    ensures Tokens(current, a + b) == Finished(current, a) + (Flush(q) + ["..."] + rest)
    decreases |a|
  {
    var t := a + b;
    assert t[0] == a[0] && t[1..] == a[1..] + b;
    if IsSpace(a[0]) {
      q, rest := SpreadCrosses("", a[1..], b);
      Regroup(Flush(current), [], Finished("", a[1..]), Flush(q) + ["..."] + rest);
    } else if DotsAt(a, 0) {
      assert t[1] == a[1] && t[2] == a[2] && t[3..] == a[3..] + b;
      q, rest := SpreadCrosses("", a[3..], b);
      Regroup(Flush(current), ["..."], Finished("", a[3..]), Flush(q) + ["..."] + rest);
    } else if IsPunctuation(a[0]) {
      q, rest := SpreadCrosses("", a[1..], b);
      Regroup(Flush(current), [[a[0]]], Finished("", a[1..]), Flush(q) + ["..."] + rest);
    } else if DotsAt(t, 0) {
      ShortDots(a, b);
      q, rest := current, Tokens("", t[3..]);
      FewDotsArePending(current, a);
      assert [] + (Flush(q) + ["..."] + rest) == Flush(q) + ["..."] + rest;
    } else {
      q, rest := SpreadCrosses(current + [a[0]], a[1..], b);
    }
  }

  lemma ShortDots(a: string, b: string)
    requires a != "" && !DotsAt(a, 0) && DotsAt(a + b, 0)
    ensures |a| <= 2 && AllDots(a)
  {
    assert forall i :: 0 <= i < |a| ==> (a + b)[i] == a[i];
  }

  lemma FewDotsArePending(current: string, a: string)
    requires a != "" && |a| <= 2 && AllDots(a)
    ensures Pending(current, a) == current + a && Finished(current, a) == []
  {
    if |a| == 2 {
      assert a[1..] == [a[1]] && [a[1]][1..] == "";
      assert Pending(current + [a[0]], [a[1]]) == current + [a[0]] + [a[1]];
      assert Finished(current + [a[0]], [a[1]]) == [];
    } else {
      assert a[1..] == "";
    }
  }

  // ---------------------------------------------------------------------
  // The characters around a boundary
  // ---------------------------------------------------------------------

  predicate AllDots(t: string) {
    forall i :: 0 <= i < |t| ==> t[i] == '.'
  }

  function TrailingDots(t: string): (n: nat)
    ensures n <= |t|
  {
    if AllDots(t) then |t| else TrailingDots(t[1..])
  }

  function LeadingDots(t: string): (n: nat)
    ensures n <= |t|
  {
    if t != "" && t[0] == '.' then 1 + LeadingDots(t[1..]) else 0
  }

  /** No word is open at the end of the text: dots are taken in threes, from the left. */
  predicate Closed(a: string) {
    a == "" || IsSpace(a[|a| - 1]) || IsPunctuation(a[|a| - 1])
    || (TrailingDots(a) > 0 && TrailingDots(a) % 3 == 0)
  }

  /** The text begins with layout or a punctuator. */
  predicate Parts(b: string) {
    b == "" || IsSpace(b[0]) || IsPunctuation(b[0]) || b[0] == '#'
  }

  /** The tokens on both sides are apart without anything between them. */
  predicate Apart(a: string, b: string) {
    Closed(a) || Parts(b) || (LeadingDots(b) >= 3 && TrailingDots(a) % 3 == 0)
  }

  lemma FirstOff(t: string)
    requires t != ""
    ensures !AllDots(t) ==> TrailingDots(t) == TrailingDots(t[1..])
    ensures AllDots(t) ==> AllDots(t[1..]) && TrailingDots(t) == 1 + TrailingDots(t[1..])
    ensures t[0] == '.' && AllDots(t[1..]) ==> AllDots(t)
    ensures |t| > 1 ==> t[1..][|t| - 2] == t[|t| - 1]
  {
    assert forall i :: 0 < i < |t| ==> t[i] == t[1..][i - 1];
  }

  lemma SpreadOff(t: string)
    requires DotsAt(t, 0)
    ensures !AllDots(t) ==> TrailingDots(t) == TrailingDots(t[3..]) && !AllDots(t[3..])
    ensures AllDots(t) ==> AllDots(t[3..]) && TrailingDots(t) == 3 + TrailingDots(t[3..])
    ensures |t| > 3 ==> t[3..][|t| - 4] == t[|t| - 1]
  {
    var c, d := t[1..], t[2..];
    assert c[1..] == d && d[1..] == t[3..] && c[0] == '.' && d[0] == '.';
    FirstOff(t);
    FirstOff(c);
    FirstOff(d);
  }

  lemma LeadingDotsBehind(t: string, b: string)
    requires t != "" && |t| <= 2 && AllDots(t)
    ensures DotsAt(t + b, 0) <==> |t| + LeadingDots(b) >= 3
  {
    var s := t + b;
    assert |t| == 2 && b != "" ==> s[2] == b[0];
    assert |t| == 1 && b != "" ==> s[1] == b[0];
    assert |t| == 1 && |b| > 1 ==> s[2] == b[1] && b[1..][0] == b[1];
  }

  lemma {:induction false} CrossesIff(a: string, b: string)
    ensures Crosses(a, b) <==> TrailingDots(a) % 3 != 0 && TrailingDots(a) % 3 + LeadingDots(b) >= 3
    decreases |a|
  {
    if a != "" {
      if DotsAt(a, 0) {
        SpreadOff(a);
        CrossesIff(a[3..], b);
      } else {
        FirstOff(a);
        CrossesIff(a[1..], b);
        if AllDots(a) {
          LeadingDotsBehind(a, b);
        } else if DotsAt(a + b, 0) {
          ShortDots(a, b);
        }
      }
    }
  }

  lemma {:induction false} PendingIff(current: string, a: string)
    requires a != ""
    ensures Pending(current, a) == "" <==> Closed(a)
    decreases |a|
  {
    if DotsAt(a, 0) {
      SpreadOff(a);
      if a[3..] == "" {
        assert Pending("", "") == "";
      } else {
        PendingIff("", a[3..]);
      }
    } else {
      FirstOff(a);
      if a[1..] == "" {
        assert |a| == 1;
      } else {
        OneCharacterOff(current, a);
        PendingIff(if IsSpace(a[0]) || IsPunctuation(a[0]) then "" else current + [a[0]], a[1..]);
      }
    }
  }

  lemma OneCharacterOff(current: string, a: string)
    requires a != "" && !DotsAt(a, 0)
    ensures Pending(current, a)
         == Pending(if IsSpace(a[0]) || IsPunctuation(a[0]) then "" else current + [a[0]], a[1..])
  {
  }

  // ---------------------------------------------------------------------
  // Tokens that are apart, and tokens that touch
  // ---------------------------------------------------------------------

  lemma FewDotsAhead(b: string)
    ensures DotsAt(b, 0) <==> LeadingDots(b) >= 3
  {
    if b != "" {
      var c := b[1..];
      assert LeadingDots(b) == if b[0] == '.' then 1 + LeadingDots(c) else 0;
      if c != "" {
        var d := c[1..];
        assert LeadingDots(c) == if c[0] == '.' then 1 + LeadingDots(d) else 0;
        assert d != "" ==> d[0] == b[2];
      }
    }
  }

  lemma ReadFromAWord(word: string, b: string)
    requires word == "" || (Parts(b) && (b != "" ==> b[0] != '#')) || LeadingDots(b) >= 3
    ensures Tokens(word, b) == Flush(word) + Tokens("", b)
  {
    if word == "" {
      assert [] + Tokens("", b) == Tokens("", b);
    } else if b != "" {
      if IsSpace(b[0]) {
        assert [] + Tokens("", b[1..]) == Tokens("", b[1..]);
      } else if LeadingDots(b) >= 3 {
        FewDotsAhead(b);
        Regroup(Flush(word), [], ["..."], Tokens("", b[3..]));
        assert [] + ["..."] == ["..."];
      } else {
        Regroup(Flush(word), [], [[b[0]]], Tokens("", b[1..]));
        assert [] + [[b[0]]] == [[b[0]]];
      }
    }
  }

  lemma TokensApart(a: string, b: string)
    requires Apart(a, b) && (b != "" ==> b[0] != '#')
    ensures Tokens("", a + b) == Tokens("", a) + Tokens("", b)
  {
    CrossesIff(a, b);
    if a != "" {
      PendingIff("", a);
    }
    NoDotsAfterALayout(a);
    CutAt("", a, b);
    AllTokens(a);
    ReadFromAWord(Pending("", a), b);
    Regroup(Finished("", a), [], Flush(Pending("", a)), Tokens("", b));
  }

  lemma {:induction false} NoDotsAfterALayout(a: string)
    ensures Closed(a) ==> TrailingDots(a) % 3 == 0
    decreases |a|
  {
    if a != "" && a[|a| - 1] != '.' {
      FirstOff(a);
      NoDotsAfterALayout(a[1..]);
      OtherLast(a);
    }
  }

  lemma {:induction false} OtherLast(a: string)
    requires a != "" && a[|a| - 1] != '.'
    ensures TrailingDots(a) == 0
    decreases |a|
  {
    if |a| > 1 {
      OtherLast(a[1..]);
    }
  }

  lemma {:induction false} WordGrows(word: string, b: string)
    requires word != ""
    ensures Tokens(word, b) != [] && |Tokens(word, b)[0]| >= |word|
    decreases |b|
  {
    if b != "" && !IsSpace(b[0]) && !DotsAt(b, 0) && !IsPunctuation(b[0]) {
      WordGrows(word + [b[0]], b[1..]);
    }
  }

  /** Where tokens touch, the last token of the first text changes its length. */
  lemma TokensTouch(a: string, b: string) returns (k: nat)
    requires !Apart(a, b)
    ensures k < |Tokens("", a)| && k < |Tokens("", a + b)|
    ensures |Tokens("", a + b)[k]| != |Tokens("", a)[k]|
  {
    var word := Pending("", a);
    k := |Finished("", a)|;
    CrossesIff(a, b);
    PendingIff("", a);
    AllTokens(a);
    assert Tokens("", a)[k] == word;
    if Crosses(a, b) {
      var q, rest := SpreadCrosses("", a, b);
      assert Tokens("", a + b)[k] == (Flush(q) + ["..."] + rest)[0];
    } else {
      CutAt("", a, b);
      FewDotsAhead(b);
      WordGrows(word + [b[0]], b[1..]);
      assert Tokens(word, b) == Tokens(word + [b[0]], b[1..]);
      assert Tokens("", a + b)[k] == Tokens(word, b)[0];
    }
  }

  // ---------------------------------------------------------------------
  // From the query to its stripped text
  // ---------------------------------------------------------------------

  /** The last character in code is kept. */
  lemma {:induction false} LastIsKept(s: Scan, a: string)
    requires a != "" && s.mode == Code && End(s, a).mode == Code
    ensures Strip(s, a) != "" && Strip(s, a)[|Strip(s, a)| - 1] == a[|a| - 1]
    ensures a[|a| - 1] != '\\' ==> !End(s, a).escaped
  {
    var front, last := a[..|a| - 1], a[|a| - 1];
    assert a == front + [last];
    StripConcat(s, front, [last]);
    QuietConcat(s, front, [last]);
    OneChar(End(s, front), last);
    assert Strip(End(s, front), [last]) == [last] + "";
  }

  lemma {:induction false} DotsBeforeTheLast(t: string, c: char)
    ensures TrailingDots(t + [c]) == if c == '.' then TrailingDots(t) + 1 else 0
    decreases |t|
  {
    var u := t + [c];
    if c == '.' {
      assert AllDots(t) <==> AllDots(u) by {
        assert forall i :: 0 <= i < |t| ==> u[i] == t[i];
      }
      if !AllDots(t) {
        assert u[1..] == t[1..] + [c];
        DotsBeforeTheLast(t[1..], c);
      }
    } else {
      OtherLast(u);
    }
  }

  /** A run of dots at the end of code is kept. */
  lemma {:induction false} TrailingDotsAreKept(s: Scan, a: string)
    requires s.mode == Code && End(s, a).mode == Code
    ensures TrailingDots(Strip(s, a)) == TrailingDots(a)
    decreases |a|
  {
    if a != "" {
      var front, last := a[..|a| - 1], a[|a| - 1];
      assert a == front + [last];
      StripConcat(s, front, [last]);
      QuietConcat(s, front, [last]);
      OneChar(End(s, front), last);
      assert Strip(End(s, front), [last]) == [last] + "";
      assert Strip(s, a) == Strip(s, front) + [last];
      DotsBeforeTheLast(front, last);
      DotsBeforeTheLast(Strip(s, front), last);
      if last == '.' {
        TrailingDotsAreKept(s, front);
      }
    }
  }

  lemma ClosedIsKept(a: string)
    requires End(START, a).mode == Code
    ensures Closed(Strip(START, a)) <==> Closed(a)
    ensures TrailingDots(Strip(START, a)) == TrailingDots(a)
    ensures Closed(a) ==> End(START, a) == Scan(Code, false)
  {
    TrailingDotsAreKept(START, a);
    if a != "" {
      LastIsKept(START, a);
      if Closed(a) && a[|a| - 1] == '\\' {
        OtherLast(a);
      }
    }
  }

  /** What a text in code begins with after stripping. */
  lemma FirstIsKept(s: Scan, b: string)
    requires s.mode == Code
    ensures b != "" && b[0] != '#' ==> Strip(s, b) != "" && Strip(s, b)[0] == b[0]
    ensures Parts(Strip(s, b)) <==> Parts(b)
    ensures Strip(s, b) != "" ==> Strip(s, b)[0] != '#'
    ensures Parts(b) || (b != "" && b[0] == '.') ==> Strip(s, b) == Strip(Scan(Code, false), b)
  {
    if b != "" {
      if b[0] == '#' {
        CommentEndsInANewline(Next(s, '#'), b[1..]);
        assert Strip(s, b) == "" + Strip(Next(s, '#'), b[1..]) == Strip(Next(s, '#'), b[1..]);
      } else {
        assert Strip(s, b) == [b[0]] + Strip(Next(s, b[0]), b[1..]);
      }
    }
  }

  lemma {:induction false} CommentEndsInANewline(s: Scan, t: string)
    requires s.mode == Comment
    ensures Strip(s, t) == "" || Strip(s, t)[0] == '\n'
    decreases |t|
  {
    if t != "" && t[0] != '\n' {
      CommentEndsInANewline(Next(s, t[0]), t[1..]);
      assert Strip(s, t) == "" + Strip(Next(s, t[0]), t[1..]) == Strip(Next(s, t[0]), t[1..]);
    }
  }

  lemma {:induction false} LeadingDotsAreKept(s: Scan, b: string)
    requires s.mode == Code
    ensures LeadingDots(Strip(s, b)) == LeadingDots(b)
    decreases |b|
  {
    FirstIsKept(s, b);
    if b != "" && b[0] == '.' {
      NeutralChar(s, '.');
      LeadingDotsAreKept(Next(s, '.'), b[1..]);
      assert Strip(s, b)[1..] == Strip(Next(s, '.'), b[1..]);
    }
  }

  /** Whether tokens are apart can be told before comments are removed. */
  lemma ApartIsKept(a: string, b: string)
    requires End(START, a).mode == Code
    ensures Apart(Strip(START, a), Strip(End(START, a), b)) <==> Apart(a, b)
  {
    ClosedIsKept(a);
    FirstIsKept(End(START, a), b);
    LeadingDotsAreKept(End(START, a), b);
  }

  // ---------------------------------------------------------------------
  // Layout between tokens
  // ---------------------------------------------------------------------

  lemma {:induction false} BlanksAreSkipped(current: string, w: string, b: string)
    requires Blank(w) && w != ""
    ensures Tokens(current, w + b) == Flush(current) + Tokens("", b)
    decreases |w|
  {
    var t := w + b;
    assert t[0] == w[0] && t[1..] == w[1..] + b;
    if |w| == 1 {
      assert t[1..] == b;
    } else {
      BlanksAreSkipped("", w[1..], b);
      assert [] + Tokens("", b) == Tokens("", b);
    }
  }

  lemma StrippedAroundLayout(a: string, g: string, b: string)
    requires End(START, a).mode == Code && Layout(g) && g != ""
    ensures var W := Strip(End(START, a), g);
            W != "" && Blank(W) && Strip(START, a + g + b) == Strip(START, a) + (W + Strip(Scan(Code, false), b))
  {
    LayoutStripsToBlanks(End(START, a), g);
    StripThree(START, a, g, b);
  }

  lemma StripThree(s: Scan, a: string, g: string, b: string)
    ensures Strip(s, a + g + b) == Strip(s, a) + (Strip(End(s, a), g) + Strip(End(End(s, a), g), b))
  {
    assert a + g + b == a + (g + b);
    StripConcat(s, a, g + b);
    StripConcat(End(s, a), g, b);
  }

  lemma TokensAroundBlanks(a: string, w: string, b: string)
    requires w != "" && Blank(w)
    ensures Tokens("", a + (w + b)) == Tokens("", a) + Tokens("", b)
  {
    assert (w + b)[0] == w[0];
    TokensApart(a, w + b);
    BlanksAreSkipped("", w, b);
    assert [] + Tokens("", b) == Tokens("", b);
  }

  /** Any layout that is there separates the tokens before it from those behind it. */
  lemma TokensAroundLayout(a: string, g: string, b: string)
    requires End(START, a).mode == Code && Layout(g) && g != ""
    ensures Tokens("", Strip(START, a + g + b))
         == Tokens("", Strip(START, a)) + Tokens("", Strip(Scan(Code, false), b))
  {
    StrippedAroundLayout(a, g, b);
    TokensAroundBlanks(Strip(START, a), Strip(End(START, a), g), Strip(Scan(Code, false), b));
  }

  /** And without any layout the same holds if the tokens are apart. */
  lemma TokensWithoutLayout(a: string, b: string)
    requires End(START, a).mode == Code && Apart(a, b)
    ensures Tokens("", Strip(START, a + b)) == Tokens("", Strip(START, a)) + Tokens("", Strip(Scan(Code, false), b))
  {
    var s := End(START, a);
    StripConcat(START, a, b);
    ApartIsKept(a, b);
    ClosedIsKept(a);
    FirstIsKept(s, b);
    TokensApart(Strip(START, a), Strip(s, b));
  }

  /** Token lists that differ in a length give different texts. */
  lemma LengthsShow(x: seq<string>, y: seq<string>, k: nat)
    requires forall i :: 0 <= i < |x| ==> Atomic(x[i])
    requires forall i :: 0 <= i < |y| ==> Atomic(y[i])
    requires k < |x| && k < |y| && |x[k]| != |y[k]|
    ensures Join(CanonicalAll(x), " ") != Join(CanonicalAll(y), " ")
  {
    forall i | 0 <= i < |x| ensures Atomic(CanonicalAll(x)[i]) {
      CanonicalFacts(x[i]);
    }
    forall i | 0 <= i < |y| ensures Atomic(CanonicalAll(y)[i]) {
      CanonicalFacts(y[i]);
    }
    JoinReadsBack(CanonicalAll(x));
    JoinReadsBack(CanonicalAll(y));
    assert |CanonicalAll(x)[k]| == |x[k]| && |CanonicalAll(y)[k]| == |y[k]|;
  }

  lemma TokensOfTextAreAtomic(t: string)
    ensures forall i :: 0 <= i < |Tokens("", t)| ==> Atomic(Tokens("", t)[i])
  {
    TokensAreAtomic("", t);
    assert forall i :: 0 <= i < |Tokens("", t)| ==> Tokens("", t)[i] in Tokens("", t);
  }

  /** Leaving out the layout at a place makes no difference exactly when the tokens there are apart. */
  lemma LayoutCanBeLeftOut(a: string, g: string, b: string)
    requires End(START, a).mode == Code && Layout(g) && g != ""
    ensures Normalized(a + b) == Normalized(a + g + b) <==> Apart(a, b)
  {
    TokensAroundLayout(a, g, b);
    if Apart(a, b) {
      TokensWithoutLayout(a, b);
    } else {
      var A, B := Strip(START, a), Strip(End(START, a), b);
      StripConcat(START, a, b);
      ApartIsKept(a, b);
      var k := TokensTouch(A, B);
      TokensOfTextAreAtomic(A + B);
      TokensOfTextAreAtomic(Strip(START, a + g + b));
      LengthsShow(Tokens("", A + B), Tokens("", Strip(START, a + g + b)), k);
    }
  }

  /** Two queries that differ only in the layout at one place outside strings and comments
      normalize to the same text if there is layout in both, or in neither, or if the tokens
      there are apart without it; and in no other case. */
  lemma LayoutDoesNotMatter(a: string, g: string, g': string, b: string)
    requires End(START, a).mode == Code && Layout(g) && Layout(g')
    ensures Normalized(a + g + b) == Normalized(a + g' + b) <==> (g == "" <==> g' == "") || Apart(a, b)
  {
    assert a + "" + b == a + b;
    if g != "" && g' != "" {
      TokensAroundLayout(a, g, b);
      TokensAroundLayout(a, g', b);
    } else if g != "" {
      LayoutCanBeLeftOut(a, g, b);
    } else if g' != "" {
      LayoutCanBeLeftOut(a, g', b);
    }
  }

  /** A comment on the last line needs no line end. */
  lemma LastCommentIsIgnored(a: string, comment: string)
    requires End(START, a).mode == Code
    requires forall i :: 0 <= i < |comment| ==> comment[i] != '\n'
    ensures Normalized(a + ("#" + comment)) == Normalized(a)
  {
    var s, c := End(START, a), "#" + comment;
    StripConcat(START, a, c);
    CommentVanishes(Next(s, '#'), comment);
    assert c[0] == '#' && c[1..] == comment;
    assert Strip(s, c) == "" + Strip(Next(s, '#'), comment) == "";
    assert Strip(START, a) + "" == Strip(START, a);
  }

  lemma {:induction false} CommentVanishes(s: Scan, t: string)
    requires s.mode == Comment && forall i :: 0 <= i < |t| ==> t[i] != '\n'
    ensures Strip(s, t) == ""
    decreases |t|
  {
    if t != "" {
      CommentVanishes(Next(s, t[0]), t[1..]);
    }
  }

  /** Spreads need no blank before or behind them. */
  lemma SpreadsStandAlone(a: string, g: string, b: string)
    requires End(START, a).mode == Code && Layout(g)
    requires (a != "" && TrailingDots(a) > 0 && TrailingDots(a) % 3 == 0)
          || (LeadingDots(b) >= 3 && TrailingDots(a) % 3 == 0)
    ensures Normalized(a + g + b) == Normalized(a + b)
  {
    if g == "" {
      assert a + g == a;
    } else {
      LayoutCanBeLeftOut(a, g, b);
    }
  }

  lemma StringTouches(a: string, b: string)
    requires a != "" && a[|a| - 1] == '"'
    requires b != "" && WordChar(b[0]) && b[0] != '#' && b[0] != '.'
    ensures !Apart(a, b)
  {
    OtherLast(a);
  }

  /** A string literal does: with layout behind it the query normalizes to another text than
      without, although to a GraphQL reader both are the same tokens. */
  lemma StringsDoNot(a: string, g: string, b: string)
    requires End(START, a).mode == Code && Layout(g) && g != ""
    requires a != "" && a[|a| - 1] == '"'
    requires b != "" && WordChar(b[0]) && b[0] != '#' && b[0] != '.'
    ensures Normalized(a + g + b) != Normalized(a + b)
  {
    StringTouches(a, b);
    LayoutCanBeLeftOut(a, g, b);
  }

  lemma StringBeforeAName()
    ensures Normalized("\"x\" b") != Normalized("\"x\"b")
  {
    var a := "\"x\"";
    assert a[1..] == "x\"" && a[1..][1..] == "\"" && a[1..][1..][1..] == "";
    assert " "[1..] == "";
    StringsDoNot(a, " ", "b");
    assert a + " " + "b" == "\"x\" b" && a + "b" == "\"x\"b";
  }

  /** A single word is its own token. */
  lemma WordAlone(k: string)
    requires Upper(k) in Keywords()
    ensures TokensOf(k) == [k] && End(START, k) == START && k != ""
    ensures TrailingDots(k) == 0 && LeadingDots(k) == 0 && !Closed(k) && !Parts(k)
  {
    KeywordFacts(k);
    LettersAreNeutral(Code, k);
    QuietIsKept(START, k);
    LettersAreAtomic(k);
    ReadAtomic(k, "");
    assert k + "" == k;
    OtherLast(k);
  }

  lemma TokensAroundAWord(a: string, k: string, b: string)
    requires End(START, a).mode == Code && Closed(a) && (Parts(b) || LeadingDots(b) >= 3)
    requires Upper(k) in Keywords()
    ensures TokensOf(a + (k + b)) == TokensOf(a) + ([k] + Tokens("", Strip(Scan(Code, false), b)))
  {
    WordAlone(k);
    TokensWithoutLayout(a, k + b);
    TokensWithoutLayout(k, b);
  }

  lemma OneTokenApart(before: seq<string>, k: string, k': string, behind: seq<string>)
    requires SameToken(k, k')
    ensures SameTokens(before + ([k] + behind), before + ([k'] + behind))
  {
  }

  /** The case of keywords is lost wherever they stand, as the name of an enum value too, where
      GraphQL tells them apart: such queries share a normalized text. */
  lemma KeywordCaseIsLost(a: string, k: string, k': string, b: string)
    requires End(START, a).mode == Code && Closed(a) && (Parts(b) || LeadingDots(b) >= 3)
    requires Upper(k) == Upper(k') && Upper(k) in Keywords()
    ensures Normalized(a + (k + b)) == Normalized(a + (k' + b))
  {
    TokensAroundAWord(a, k, b);
    TokensAroundAWord(a, k', b);
    OneTokenApart(TokensOf(a), k, k', Tokens("", Strip(Scan(Code, false), b)));
    SameTextIff(a + (k + b), a + (k' + b));
  }
}

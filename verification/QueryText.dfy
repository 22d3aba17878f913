/** What normalization makes of single characters, words, strings and comments, said of the text. */
module QueryText {
  import opened Text
  import opened Normalizing
  import opened QueryLayout

  // ---------------------------------------------------------------------
  // Strings and comments
  // ---------------------------------------------------------------------

  /** Every quote and every backslash in the text is escaped. */
  predicate Escaped(body: string) {
    body == "" ||
    if body[0] == '\\' then |body| > 1 && Escaped(body[2..]) else body[0] != '"' && Escaped(body[1..])
  }

  lemma StripKeeps(s: Scan, t: string)
    requires t != "" && Next(s, t[0]).mode != Comment
    ensures Strip(s, t) == [t[0]] + Strip(Next(s, t[0]), t[1..])
  {
  }

  lemma FirstChar(a: string, b: string)
    requires a != ""
    ensures (a + b)[0] == a[0] && (a + b)[1..] == a[1..] + b
    ensures [a[0]] + (a[1..] + b) == a + b
  {
  }

  lemma {:induction false} BodyIsKept(body: string, quote: string, rest: string)
    requires Escaped(body) && quote == "\""
    ensures Strip(Scan(InString, false), body + (quote + rest)) == body + (quote + Strip(START, rest))
    decreases |body|
  {
    var inside, behind := Scan(InString, false), quote + rest;
    if body == "" {
      assert body + behind == behind;
      FirstChar(quote, rest);
      StripKeeps(inside, behind);
      assert quote[1..] + rest == rest;
    } else {
      FirstChar(body, behind);
      StripKeeps(inside, body + behind);
      FirstChar(body, quote + Strip(START, rest));
      if body[0] == '\\' {
        FirstChar(body[1..], behind);
        StripKeeps(Scan(InString, true), body[1..] + behind);
        FirstChar(body[1..], quote + Strip(START, rest));
        assert body[1..][1..] == body[2..];
        BodyIsKept(body[2..], quote, rest);
      } else {
        BodyIsKept(body[1..], quote, rest);
      }
    }
  }

  /** A string is kept as it is, number signs included, and what follows is read as code. */
  lemma StringIsKept(pre: string, body: string, rest: string)
    requires End(START, pre) == START && Escaped(body)
    ensures Strip(START, pre + ("\"" + (body + ("\"" + rest))))
         == Strip(START, pre) + ("\"" + (body + ("\"" + Strip(START, rest))))
  {
    StringBehind(pre, body, "\"", rest);
  }

  lemma StringBehind(pre: string, body: string, quote: string, rest: string)
    requires End(START, pre) == START && Escaped(body) && quote == "\""
    ensures Strip(START, pre + (quote + (body + (quote + rest))))
         == Strip(START, pre) + (quote + (body + (quote + Strip(START, rest))))
  {
    var t := body + (quote + rest);
    StripConcat(START, pre, quote + t);
    FirstChar(quote, t);
    StripKeeps(START, quote + t);
    assert quote[1..] + t == t;
    BodyIsKept(body, quote, rest);
  }

  lemma {:induction false} CommentIsSkipped(c: string, end: string, rest: string)
    requires (forall i :: 0 <= i < |c| ==> c[i] != '\n') && end == "\n"
    ensures Strip(Scan(Comment, false), c + (end + rest)) == end + Strip(START, rest)
  {
    if c == "" {
      assert c + (end + rest) == end + rest;
      FirstChar(end, rest);
      StripKeeps(Scan(Comment, false), end + rest);
      assert end[1..] + rest == rest;
    } else {
      CommentIsSkipped(c[1..], end, rest);
      FirstChar(c, end + rest);
      NothingKept(Scan(Comment, false), c + (end + rest));
    }
  }

  lemma NothingKept(s: Scan, t: string)
    requires t != "" && Next(s, t[0]).mode == Comment
    ensures Strip(s, t) == Strip(Next(s, t[0]), t[1..])
  {
    assert "" + Strip(Next(s, t[0]), t[1..]) == Strip(Next(s, t[0]), t[1..]);
  }

  /** A comment vanishes, quotes included, up to its line end, and what follows is read as code. */
  lemma CommentIsDropped(pre: string, c: string, rest: string)
    requires End(START, pre) == START && forall i :: 0 <= i < |c| ==> c[i] != '\n'
    ensures Strip(START, pre + ("#" + (c + ("\n" + rest)))) == Strip(START, pre) + ("\n" + Strip(START, rest))
  {
    CommentBehind(pre, "#", c, "\n", rest);
  }

  lemma CommentBehind(pre: string, sign: string, c: string, end: string, rest: string)
    requires End(START, pre) == START && (forall i :: 0 <= i < |c| ==> c[i] != '\n')
    requires sign == "#" && end == "\n"
    ensures Strip(START, pre + (sign + (c + (end + rest)))) == Strip(START, pre) + (end + Strip(START, rest))
  {
    var t := c + (end + rest);
    StripConcat(START, pre, sign + t);
    FirstChar(sign, t);
    NothingKept(START, sign + t);
    assert sign[1..] + t == t;
    CommentIsSkipped(c, end, rest);
  }

  // ---------------------------------------------------------------------
  // Characters between two names
  // ---------------------------------------------------------------------

  lemma {:induction false} NameIsKept(s: Scan, p: string)
    requires s.mode != Comment && !s.escaped && forall i :: 0 <= i < |p| ==> IsWordChar(p[i])
    ensures Strip(s, p) == p && End(s, p) == s
  {
    if p != "" {
      assert IsWordChar(p[0]);
      NameIsKept(s, p[1..]);
      assert [p[0]] + p[1..] == p;
    }
  }

  lemma NameInString(q: string, escaped: bool, mode: Mode)
    requires IsWord(q) && mode != Comment
    ensures Strip(Scan(mode, escaped), q) == q
  {
    assert IsWordChar(q[0]);
    assert forall i :: 0 <= i < |q[1..]| ==> IsWordChar(q[1..][i]);
    NameIsKept(Scan(mode, false), q[1..]);
    assert [q[0]] + q[1..] == q;
  }

  lemma {:induction false} NameIsOneToken(current: string, p: string, rest: string)
    requires forall i :: 0 <= i < |p| ==> IsWordChar(p[i])
    ensures Tokens(current, p + rest) == Tokens(current + p, rest)
    decreases |p|
  {
    if p == "" {
      assert p + rest == rest && current + p == current;
    } else {
      assert IsWordChar(p[0]);
      FirstChar(p, rest);
      NameIsOneToken(current + [p[0]], p[1..], rest);
      assert current + [p[0]] + p[1..] == current + p;
    }
  }

  lemma NameAtTheEnd(current: string, q: string)
    requires IsWord(q)
    ensures Tokens(current, q) == [current + q]
  {
    NameIsOneToken(current, q, "");
    assert q + "" == q;
  }

  predicate IsLayout(c: char) {
    c in {' ', '\t', '\n', '\r', 11 as char, 12 as char}
  }

  predicate IsPunctuator(c: char) {
    c in {'{', '}', '(', ')', '[', ']', ':', '!', '@', '$', '=', ',', '|', '&'}
  }

  lemma StrippedBetween(p: string, c: char, middle: string, q: string)
    requires IsWord(p) && IsWord(q) && middle == [c]
    ensures Strip(START, p + (middle + q)) == if c == '#' then p else p + (middle + q)
  {
    NameIsKept(START, p);
    StripConcat(START, p, middle + q);
    FirstChar(middle, q);
    assert middle[1..] + q == q;
    if c == '#' {
      NothingKept(START, middle + q);
      NameInComment(q);
      assert p + "" == p;
    } else {
      StripKeeps(START, middle + q);
      NameInString(q, Next(START, c).escaped, Next(START, c).mode);
    }
  }

  lemma {:induction false} NameInComment(q: string)
    requires forall i :: 0 <= i < |q| ==> IsWordChar(q[i])
    ensures Strip(Scan(Comment, false), q) == ""
  {
    if q != "" {
      assert IsWordChar(q[0]);
      NothingKept(Scan(Comment, false), q);
      NameInComment(q[1..]);
    }
  }

  /** A character between two names separates them if it is layout, stands for itself if it is a
      punctuator, hides the second in a comment if it is the number sign, and otherwise makes one
      token of the three. */
  lemma CharacterBetween(p: string, c: char, q: string)
    requires IsWord(p) && IsWord(q)
    ensures TokensOf(p + ([c] + q))
         == if IsLayout(c) then [p, q]
            else if IsPunctuator(c) then [p, [c], q]
            else if c == '#' then [p]
            else [p + [c] + q]
  {
    StrippedBetween(p, c, [c], q);
    if c == '#' {
      NameAlone(p);
    } else {
      NameThen(p, [c] + q);
      CharacterThenName(p, c, [c], q);
    }
  }

  lemma NameAlone(p: string)
    requires IsWord(p)
    ensures Tokens("", p) == [p]
  {
    NameAtTheEnd("", p);
    assert "" + p == p;
  }

  lemma NameThen(p: string, rest: string)
    requires IsWord(p)
    ensures Tokens("", p + rest) == Tokens(p, rest)
  {
    NameIsOneToken("", p, rest);
    assert "" + p == p;
  }

  lemma CharacterThenName(p: string, c: char, middle: string, q: string)
    requires IsWord(p) && IsWord(q) && middle == [c]
    ensures Tokens(p, middle + q)
         == if IsLayout(c) then [p, q] else if IsPunctuator(c) then [p, [c], q] else [p + [c] + q]
  {
    FirstChar(middle, q);
    assert middle[1..] + q == q;
    assert IsWordChar(q[0]) && (middle + q)[1] == q[0];
    NameAtTheEnd("", q);
    NameAtTheEnd(p + [c], q);
    assert "" + q == q;
    assert [p] + [q] == [p, q] && [p] + [[c]] + [q] == [p, [c], q];
  }

  // ---------------------------------------------------------------------
  // Keywords
  // ---------------------------------------------------------------------

  lemma CaseFacts(w: string, k: string, lower: string)
    requires lower == Lower(k) && forall i :: 0 <= i < |k| ==> 'A' <= k[i] <= 'Z'
    ensures Upper(w) == k <==> Lower(w) == lower
  {
    if |w| == |k| {
      assert forall i :: 0 <= i < |w| ==> (UpperChar(w[i]) == k[i] <==> LowerChar(w[i]) == LowerChar(k[i]));
      assert Lower(w) == lower ==> forall i :: 0 <= i < |w| ==> Lower(w)[i] == lower[i];
      assert Upper(w) == k ==> forall i :: 0 <= i < |w| ==> Upper(w)[i] == k[i];
    } else {
      assert |Upper(w)| == |w| && |Lower(w)| == |w| && |lower| == |k|;
    }
  }

  /** A token is a keyword if in lower case it is one of eight words. */
  lemma KeywordIff(w: string)
    ensures Upper(w) in Keywords() <==>
            Lower(w) in {"query", "mutation", "subscription", "fragment", "on", "true", "false", "null"}
  {
    OperationIff(w);
    CaseFacts(w, "ON", "on");
    CaseFacts(w, "TRUE", "true");
    CaseFacts(w, "FALSE", "false");
    CaseFacts(w, "NULL", "null");
  }

  lemma OperationIff(w: string)
    ensures Upper(w) in {"QUERY", "MUTATION", "SUBSCRIPTION", "FRAGMENT"} <==>
            Lower(w) in {"query", "mutation", "subscription", "fragment"}
  {
    CaseFacts(w, "QUERY", "query");
    CaseFacts(w, "MUTATION", "mutation");
    CaseFacts(w, "SUBSCRIPTION", "subscription");
    CaseFacts(w, "FRAGMENT", "fragment");
  }

  /** A name by itself is normalized to lower case if it is one of the eight keywords, and kept
      otherwise. */
  lemma NameIsNormalized(w: string)
    requires IsWord(w)
    ensures Normalized(w)
         == if Lower(w) in {"query", "mutation", "subscription", "fragment", "on", "true", "false", "null"}
            then Lower(w) else w
  {
    KeywordIff(w);
    NameIsKept(START, w);
    NameAtTheEnd("", w);
    assert "" + w == w;
    assert CanonicalAll([w]) == [Canonical(w)];
  }
}

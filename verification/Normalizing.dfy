/** Normalization of GraphQL query texts for cache keys. The model covers ASCII text. */
module Normalizing {
  import opened Text

  predicate IsSpace(c: char) {
    c == ' ' || 9 as char <= c <= 13 as char
  }

  predicate IsPunctuation(c: char) {
    c in "{}():!@$=,[]|&"
  }

  // ---------------------------------------------------------------------
  // removeComments
  // ---------------------------------------------------------------------

  datatype Mode = Code | InString | Comment

  /** The state of the comment scanner: `escaped` says that an odd number of backslashes precedes. */
  datatype Scan = Scan(mode: Mode, escaped: bool)

  const START := Scan(Code, false)

  function Next(s: Scan, c: char): Scan {
    if s.mode == Comment then Scan(if c == '\n' then Code else Comment, false)
    else if c == '"' && !s.escaped then Scan(if s.mode == Code then InString else Code, false)
    else if s.mode == Code && c == '#' then Scan(Comment, false)
    else Scan(s.mode, c == '\\' && !s.escaped)
  }

  /** Comment characters vanish, the newline that ends them stays. */
  predicate Kept(s: Scan, c: char) {
    Next(s, c).mode != Comment
  }

  function End(s: Scan, t: string): Scan
    decreases |t|
  {
    if t == "" then s else End(Next(s, t[0]), t[1..])
  }

  function Strip(s: Scan, t: string): string
    decreases |t|
  {
    if t == "" then ""
    else (if Kept(s, t[0]) then [t[0]] else "") + Strip(Next(s, t[0]), t[1..])
  }

  function Backslashes(t: string): nat {
    if t != "" && t[|t| - 1] == '\\' then 1 + Backslashes(t[..|t| - 1]) else 0
  }

  /** isEscaped: counts backslashes backward from position `i`. */
  method IsEscaped(t: string, i: nat) returns (r: bool)
    requires i <= |t|
    ensures r <==> Backslashes(t[..i]) % 2 == 1
  {
    if i == 0 {
      return false;
    }
    var backslashes := 0;
    var j: int := i - 1;
    while j >= 0 && t[j] == '\\'
      invariant -1 <= j < i
      invariant backslashes + Backslashes(t[..j + 1]) == Backslashes(t[..i])
    {
      assert t[..j + 1][..j] == t[..j];
      backslashes := backslashes + 1;
      j := j - 1;
    }
    return backslashes % 2 == 1;
  }

  lemma BackslashesStep(t: string, i: nat)
    requires i < |t|
    ensures Backslashes(t[..i + 1]) == if t[i] == '\\' then Backslashes(t[..i]) + 1 else 0
  {
    assert t[..i + 1][..i] == t[..i];
  }

  /** The parity that isEscaped computes is the scanner's flag wherever it is consulted; the
      first character after a comment is a newline, for which it is not. */
  predicate InStep(s: Scan, t: string, i: nat)
    requires i <= |t|
  {
    s.mode != Comment &&
    (i < |t| && t[i] != '\n' ==> (s.escaped <==> Backslashes(t[..i]) % 2 == 1))
  }

  lemma {:induction false} SkipLine(t: string, i: nat, k: nat)
    requires i <= k <= |t| && (forall m :: i <= m < k ==> t[m] != '\n')
    requires k == |t| || t[k] == '\n'
    ensures Strip(Scan(Comment, false), t[i..]) == Strip(Scan(Code, false), t[k..])
    decreases k - i
  {
    if i < k {
      assert t[i..][1..] == t[i + 1..];
      SkipLine(t, i + 1, k);
      assert "" + Strip(Scan(Comment, false), t[i + 1..]) == Strip(Scan(Comment, false), t[i + 1..]);
    }
  }

  /** One turn of the loop on a character that is kept. */
  lemma KeptTurn(s: Scan, t: string, i: nat, r: string)
    requires i < |t| && InStep(s, t, i) && Kept(s, t[i])
    ensures r + Strip(s, t[i..]) == r + [t[i]] + Strip(Next(s, t[i]), t[i + 1..])
    ensures InStep(Next(s, t[i]), t, i + 1)
  {
    BackslashesStep(t, i);
    assert t[i..][0] == t[i] && t[i..][1..] == t[i + 1..];
    assert Strip(s, t[i..]) == [t[i]] + Strip(Next(s, t[i]), t[i + 1..]);
  }

  /** One turn of the loop on a comment that runs up to position `k`. */
  lemma CommentTurn(s: Scan, t: string, i: nat, k: nat)
    requires i < k <= |t| && s.mode == Code && t[i] == '#'
    requires (forall m :: i < m < k ==> t[m] != '\n') && (k == |t| || t[k] == '\n')
    ensures Strip(s, t[i..]) == Strip(Scan(Code, false), t[k..])
    ensures InStep(Scan(Code, false), t, k)
  {
    assert t[i..][0] == '#' && t[i..][1..] == t[i + 1..];
    SkipLine(t, i + 1, k);
    assert "" + Strip(Next(s, '#'), t[i + 1..]) == Strip(Next(s, '#'), t[i + 1..]);
  }

  method RemoveComments(query: string) returns (r: string)
    ensures r == Strip(START, query)
  {
    r := "";
    var inString := false;
    var i := 0;
    ghost var s := START;
    while i < |query|
      invariant 0 <= i <= |query|
      invariant InStep(s, query, i) && inString == (s.mode == InString)
      invariant Strip(START, query) == r + Strip(s, query[i..])
    {
      var ch := query[i];
      var escaped := IsEscaped(query, i);
      if ch == '"' && !escaped {
        KeptTurn(s, query, i, r);
        s := Next(s, ch);
        inString := !inString;
        r := r + [ch];
        i := i + 1;
      } else if !inString && ch == '#' {
        ghost var start := i;
        while i < |query| && query[i] != '\n'
          invariant start <= i <= |query|
          invariant forall m :: start <= m < i ==> query[m] != '\n'
          invariant start == i ==> query[i] == '#'
        {
          i := i + 1;
        }
        CommentTurn(s, query, start, i);
        s := Scan(Code, false);
      } else {
        KeptTurn(s, query, i, r);
        s := Next(s, ch);
        r := r + [ch];
        i := i + 1;
      }
    }
    assert query[i..] == "";
    assert r + "" == r;
  }

  // ---------------------------------------------------------------------
  // tokenize
  // ---------------------------------------------------------------------

  /** The spread operator. */
  predicate DotsAt(t: string, i: nat) {
    i + 2 < |t| && t[i] == '.' && t[i + 1] == '.' && t[i + 2] == '.'
  }

  function Flush(current: string): seq<string> {
    if current == "" then [] else [current]
  }

  function Tokens(current: string, t: string): seq<string>
    decreases |t|
  {
    if t == "" then Flush(current)
    else if IsSpace(t[0]) then Flush(current) + Tokens("", t[1..])
    else if DotsAt(t, 0) then Flush(current) + ["..."] + Tokens("", t[3..])
    else if IsPunctuation(t[0]) then Flush(current) + [[t[0]]] + Tokens("", t[1..])
    else Tokens(current + [t[0]], t[1..])
  }

  lemma DotsShift(t: string, i: nat)
    requires i <= |t|
    ensures DotsAt(t[i..], 0) <==> DotsAt(t, i)
  {
    assert i + 2 < |t| ==> t[i..][1] == t[i + 1] && t[i..][2] == t[i + 2];
  }

  lemma Regrouped(done: seq<string>, flushed: seq<string>, unit: seq<string>, rest: seq<string>)
    ensures done + (flushed + unit + rest) == (done + flushed + unit) + rest
    ensures done + (flushed + rest) == (done + flushed) + rest
  {
  }

  method Tokenize(query: string) returns (tokens: seq<string>)
    ensures tokens == Tokens("", query)
  {
    tokens := [];
    var current := "";
    var i := 0;
    while i < |query|
      invariant 0 <= i <= |query|
      invariant Tokens("", query) == tokens + Tokens(current, query[i..])
    {
      var r := query[i];
      ghost var rest := query[i..];
      assert rest[0] == r && rest[1..] == query[i + 1..];
      DotsShift(query, i);
      if IsSpace(r) {
        Regrouped(tokens, Flush(current), [], Tokens("", rest[1..]));
        tokens, current := tokens + Flush(current), "";
        i := i + 1;
      } else if r == '.' && i + 2 < |query| && query[i + 1] == '.' && query[i + 2] == '.' {
        assert rest[3..] == query[i + 3..];
        Regrouped(tokens, Flush(current), ["..."], Tokens("", rest[3..]));
        tokens, current := tokens + Flush(current) + ["..."], "";
        i := i + 3;
      } else if IsPunctuation(r) {
        Regrouped(tokens, Flush(current), [[r]], Tokens("", rest[1..]));
        tokens, current := tokens + Flush(current) + [[r]], "";
        i := i + 1;
      } else {
        current := current + [r];
        i := i + 1;
      }
    }
    tokens := tokens + Flush(current);
  }

  // ---------------------------------------------------------------------
  // NormalizeQuery
  // ---------------------------------------------------------------------

  function LowerChar(c: char): char {
    if 'A' <= c <= 'Z' then c - 'A' + 'a' else c
  }

  function Lower(t: string): (r: string)
    ensures |r| == |t| && forall i :: 0 <= i < |t| ==> r[i] == LowerChar(t[i])
  {
    seq(|t|, i requires 0 <= i < |t| => LowerChar(t[i]))
  }

  function Keywords(): set<string> {
    {"QUERY", "MUTATION", "SUBSCRIPTION", "FRAGMENT", "ON", "TRUE", "FALSE", "NULL"}
  }

  function Canonical(token: string): string {
    if Upper(token) in Keywords() then Lower(token) else token
  }

  function CanonicalAll(tokens: seq<string>): (r: seq<string>)
    ensures |r| == |tokens| && forall i :: 0 <= i < |r| ==> r[i] == Canonical(tokens[i])
  {
    seq(|tokens|, i requires 0 <= i < |tokens| => Canonical(tokens[i]))
  }

  function Normalized(query: string): string {
    Join(CanonicalAll(Tokens("", Strip(START, query))), " ")
  }

  method NormalizeQuery(query: string) returns (r: string)
    ensures r == Normalized(query)
  {
    var stripped := RemoveComments(query);
    var tokens := Tokenize(stripped);
    r := "";
    for i := 0 to |tokens|
      invariant r == Join(CanonicalAll(tokens)[..i], " ")
    {
      var all := CanonicalAll(tokens);
      assert all[..i + 1] == all[..i] + [all[i]];
      JoinAppend(all[..i], all[i], " ");
      if i > 0 {
        r := r + " ";
      }
      if Upper(tokens[i]) in Keywords() {
        r := r + Lower(tokens[i]);
      } else {
        r := r + tokens[i];
      }
    }
    assert CanonicalAll(tokens)[..|tokens|] == CanonicalAll(tokens);
  }

  // ---------------------------------------------------------------------
  // Tokens survive being joined and read again
  // ---------------------------------------------------------------------

  predicate WordChar(c: char) {
    !IsSpace(c) && !IsPunctuation(c)
  }

  predicate Word(t: string) {
    t != "" && (forall i :: 0 <= i < |t| ==> WordChar(t[i])) && (forall i :: 0 <= i < |t| ==> !DotsAt(t, i))
  }

  predicate Atomic(t: string) {
    t == "..." || (|t| == 1 && IsPunctuation(t[0])) || Word(t)
  }

  /** Every token is a spread, a punctuator or a word without a spread inside. */
  lemma {:induction false} TokensAreAtomic(current: string, t: string)
    requires forall i :: 0 <= i < |current| ==> WordChar(current[i]) && !DotsAt(current + t, i)
    ensures forall token :: token in Tokens(current, t) ==> Atomic(token)
    decreases |t|
  {
    assert current != "" ==> Word(current) by {
      forall i | 0 <= i < |current| ensures !DotsAt(current, i) {
        assert DotsAt(current, i) ==> DotsAt(current + t, i);
      }
    }
    if t == "" {
    } else if IsSpace(t[0]) {
      TokensAreAtomic("", t[1..]);
    } else if DotsAt(t, 0) {
      TokensAreAtomic("", t[3..]);
    } else if IsPunctuation(t[0]) {
      TokensAreAtomic("", t[1..]);
    } else {
      assert (current + [t[0]]) + t[1..] == current + t;
      assert DotsAt(current + t, |current|) <==> DotsAt(t, 0);
      TokensAreAtomic(current + [t[0]], t[1..]);
    }
  }

  /** Reading on from the middle of a word up to a blank or the end of the text. */
  lemma {:induction false} ReadWord(current: string, w: string, rest: string)
    requires forall i :: 0 <= i < |w| ==> WordChar(w[i]) && !DotsAt(w, i)
    requires rest != "" ==> rest[0] != '.'
    ensures Tokens(current, w + rest) == Tokens(current + w, rest)
    decreases |w|
  {
    if w == "" {
      assert w + rest == rest && current + w == current;
    } else {
      var t := w + rest;
      assert t[0] == w[0] && t[1..] == w[1..] + rest;
      assert |w| <= 2 && rest != "" ==> t[|w|] == rest[0];
      assert |w| > 2 ==> (DotsAt(t, 0) <==> DotsAt(w, 0));
      forall i | 0 <= i < |w[1..]| ensures WordChar(w[1..][i]) && !DotsAt(w[1..], i) {
        assert !DotsAt(w, i + 1);
      }
      ReadWord(current + [w[0]], w[1..], rest);
      assert current + [w[0]] + w[1..] == current + w;
    }
  }

  lemma ReadDots(token: string, rest: string)
    requires token == "..."
    ensures Tokens("", token + rest) == [token] + Tokens("", rest)
  {
    var t := token + rest;
    assert DotsAt(t, 0) && t[3..] == rest;
    assert [token] + Tokens("", rest) == [] + ["..."] + Tokens("", rest);
  }

  lemma ReadAtomic(token: string, rest: string)
    requires Atomic(token) && (rest == "" || rest[0] == ' ')
    ensures Tokens("", token + rest) == [token] + Tokens("", rest)
  {
    var t := token + rest;
    if token == "..." {
      ReadDots(token, rest);
    } else if |token| == 1 && IsPunctuation(token[0]) {
      assert t[0] == token[0] && t[1..] == rest && !DotsAt(t, 0) && token == [t[0]];
    } else {
      ReadWord("", token, rest);
      assert "" + token == token;
      if rest != "" {
        assert Tokens(token, rest) == [token] + Tokens("", rest[1..]);
        assert Tokens("", rest) == [] + Tokens("", rest[1..]);
      }
    }
  }

  lemma {:induction false} JoinReadsBack(tokens: seq<string>)
    requires forall i :: 0 <= i < |tokens| ==> Atomic(tokens[i])
    ensures Tokens("", Join(tokens, " ")) == tokens
  {
    if |tokens| == 1 {
      ReadAtomic(tokens[0], "");
      assert tokens[0] + "" == tokens[0];
    } else if |tokens| > 1 {
      var tail := Join(tokens[1..], " ");
      JoinReadsBack(tokens[1..]);
      ReadAtomic(tokens[0], " " + tail);
      assert tokens[0] + (" " + tail) == Join(tokens, " ");
      assert (" " + tail)[1..] == tail;
      assert Tokens("", " " + tail) == [] + Tokens("", tail);
    }
  }

  predicate Letters(t: string) {
    forall i :: 0 <= i < |t| ==> 'a' <= t[i] <= 'z' || 'A' <= t[i] <= 'Z'
  }

  lemma KeywordsAreLetters(k: string)
    requires k in Keywords()
    ensures k != "" && forall i :: 0 <= i < |k| ==> 'A' <= k[i] <= 'Z'
  {
  }

  lemma KeywordFacts(token: string)
    requires Upper(token) in Keywords()
    ensures token != "" && Letters(token) && Letters(Lower(token)) && Lower(token) != ""
    ensures Upper(Lower(token)) == Upper(token) && Lower(Lower(token)) == Lower(token)
  {
    KeywordsAreLetters(Upper(token));
    forall i | 0 <= i < |token| ensures 'a' <= token[i] <= 'z' || 'A' <= token[i] <= 'Z' {
      assert Upper(token)[i] == UpperChar(token[i]);
    }
  }

  lemma LettersAreAtomic(t: string)
    requires t != "" && Letters(t)
    ensures Atomic(t)
  {
    forall i | 0 <= i < |t| ensures WordChar(t[i]) && !DotsAt(t, i) {
    }
  }

  lemma CanonicalFacts(token: string)
    requires Atomic(token)
    ensures Atomic(Canonical(token)) && Canonical(Canonical(token)) == Canonical(token)
  {
    if Upper(token) in Keywords() {
      KeywordFacts(token);
      LettersAreAtomic(Lower(token));
    }
  }

  // ---------------------------------------------------------------------
  // The second pass finds no comment to remove
  // ---------------------------------------------------------------------

  /** A text in which the scanner, started in `s`, never meets a comment. */
  predicate Quiet(s: Scan, t: string)
    decreases |t|
  {
    s.mode != Comment && (t == "" || Quiet(Next(s, t[0]), t[1..]))
  }

  lemma {:induction false} QuietIsKept(s: Scan, t: string)
    requires Quiet(s, t)
    ensures Strip(s, t) == t
    decreases |t|
  {
    if t != "" {
      QuietIsKept(Next(s, t[0]), t[1..]);
      assert t == [t[0]] + t[1..];
    }
  }

  lemma {:induction false} QuietConcat(s: Scan, a: string, b: string)
    ensures Quiet(s, a + b) <==> Quiet(s, a) && Quiet(End(s, a), b)
    ensures End(s, a + b) == End(End(s, a), b)
    decreases |a|
  {
    if a == "" {
      assert a + b == b;
    } else {
      assert (a + b)[0] == a[0] && (a + b)[1..] == a[1..] + b;
      QuietConcat(Next(s, a[0]), a[1..], b);
    }
  }

  /** What is left after removing comments has none; an end-of-comment newline is neutral. */
  lemma {:induction false} StrippedIsQuiet(s: Scan, t: string, escaped: bool)
    ensures Quiet(if s.mode == Comment then Scan(Code, escaped) else s, Strip(s, t))
    decreases |t|
  {
    if t != "" {
      var c := t[0];
      var s' := Next(s, c);
      StrippedIsQuiet(s', t[1..], s.escaped);
      var rest := Strip(s', t[1..]);
      if Kept(s, c) {
        assert ([c] + rest)[1..] == rest;
        assert Strip(s, t) == [c] + rest;
      } else {
        assert Strip(s, t) == rest;
        if s.mode == Comment {
          StrippedIsQuiet(s', t[1..], escaped);
        }
      }
    }
  }

  /** A list of tokens that is quiet with a blank after every token. */
  predicate QuietAll(mode: Mode, tokens: seq<string>)
    decreases |tokens|
  {
    tokens == [] ||
    (Quiet(Scan(mode, false), tokens[0]) && QuietAll(End(Scan(mode, false), tokens[0]).mode, tokens[1..]))
  }

  lemma NeutralChar(s: Scan, c: char)
    requires s.mode != Comment && (IsSpace(c) || IsPunctuation(c) || c == '.')
    ensures Next(s, c) == Scan(s.mode, false)
  {
  }

  lemma QuietFlush(mode: Mode, current: string, tokens: seq<string>)
    requires Quiet(Scan(mode, false), current)
    requires QuietAll(End(Scan(mode, false), current).mode, tokens)
    ensures QuietAll(mode, Flush(current) + tokens)
  {
    if current == "" {
      assert Flush(current) + tokens == tokens;
    } else {
      assert (Flush(current) + tokens)[1..] == tokens;
    }
  }

  lemma NeutralToken(mode: Mode, token: string, tokens: seq<string>)
    requires mode != Comment && QuietAll(mode, tokens)
    requires token == "..." || (|token| == 1 && IsPunctuation(token[0]))
    ensures QuietAll(mode, [token] + tokens)
    ensures forall s: Scan :: s.mode == mode ==> End(s, token) == Scan(mode, false)
  {
    var s := Scan(mode, false);
    assert ([token] + tokens)[1..] == tokens;
    if token == "..." {
      assert token[1..] == ".." && ".."[1..] == "." && "."[1..] == "";
      NeutralChar(s, '.');
      assert Next(s, '.') == s;
      assert Quiet(s, "."[1..]);
      assert Quiet(s, ".");
      assert Quiet(s, "..");
      forall s': Scan | s'.mode == mode ensures End(s', token) == s {
        NeutralChar(s', '.');
        assert End(s', token) == End(s, "..");
        assert End(s, "..") == End(s, ".");
        assert End(s, ".") == End(s, "");
      }
    } else {
      NeutralChar(s, token[0]);
      assert token[1..] == "";
      assert Quiet(s, "");
      forall s': Scan | s'.mode == mode ensures End(s', token) == s {
        NeutralChar(s', token[0]);
        assert End(s', token) == End(s, "");
      }
    }
  }

  lemma NeutralBehind(mode: Mode, current: string, token: string, rest: seq<string>)
    requires Quiet(Scan(mode, false), current)
    requires var m := End(Scan(mode, false), current).mode; m != Comment && QuietAll(m, rest)
    requires token == "..." || (|token| == 1 && IsPunctuation(token[0]))
    ensures QuietAll(mode, Flush(current) + [token] + rest)
  {
    NeutralToken(End(Scan(mode, false), current).mode, token, rest);
    QuietFlush(mode, current, [token] + rest);
    assert Flush(current) + ([token] + rest) == Flush(current) + [token] + rest;
  }

  lemma {:induction false} TokensAreQuiet(mode: Mode, current: string, t: string)
    requires Quiet(Scan(mode, false), current) && Quiet(End(Scan(mode, false), current), t)
    ensures QuietAll(mode, Tokens(current, t))
    decreases |t|
  {
    var s := End(Scan(mode, false), current);
    if t == "" {
      QuietFlush(mode, current, []);
      assert Flush(current) + [] == Flush(current);
    } else if IsSpace(t[0]) {
      NeutralChar(s, t[0]);
      TokensAreQuiet(s.mode, "", t[1..]);
      QuietFlush(mode, current, Tokens("", t[1..]));
    } else if DotsAt(t, 0) {
      NeutralDots(s, t);
      TokensAreQuiet(s.mode, "", t[3..]);
      NeutralBehind(mode, current, "...", Tokens("", t[3..]));
    } else if IsPunctuation(t[0]) {
      NeutralChar(s, t[0]);
      TokensAreQuiet(s.mode, "", t[1..]);
      NeutralBehind(mode, current, [t[0]], Tokens("", t[1..]));
    } else {
      QuietConcat(Scan(mode, false), current, [t[0]]);
      OneChar(s, t[0]);
      TokensAreQuiet(mode, current + [t[0]], t[1..]);
    }
  }

  lemma OneChar(s: Scan, c: char)
    ensures End(s, [c]) == Next(s, c)
    ensures Quiet(s, [c]) <==> s.mode != Comment && Next(s, c).mode != Comment
  {
    assert [c][1..] == "";
  }

  lemma NeutralDots(s: Scan, t: string)
    requires DotsAt(t, 0) && Quiet(s, t)
    ensures Quiet(Scan(s.mode, false), t[3..])
  {
    NeutralChar(s, '.');
    assert t[1..][0] == '.' && t[1..][1..] == t[2..] && t[2..][0] == '.' && t[2..][1..] == t[3..];
    NeutralChar(Scan(s.mode, false), '.');
    assert Quiet(Scan(s.mode, false), t[1..]);
    assert Quiet(Scan(s.mode, false), t[2..]);
  }

  lemma {:induction false} LettersAreNeutral(mode: Mode, t: string)
    requires mode != Comment && Letters(t)
    ensures Quiet(Scan(mode, false), t) && End(Scan(mode, false), t) == Scan(mode, false)
    decreases |t|
  {
    if t != "" {
      assert Next(Scan(mode, false), t[0]) == Scan(mode, false);
      LettersAreNeutral(mode, t[1..]);
    }
  }

  lemma {:induction false} CanonicalIsQuiet(mode: Mode, tokens: seq<string>)
    requires QuietAll(mode, tokens)
    ensures QuietAll(mode, CanonicalAll(tokens))
    decreases |tokens|
  {
    if tokens != [] {
      CanonicalIsQuiet(End(Scan(mode, false), tokens[0]).mode, tokens[1..]);
      assert CanonicalAll(tokens)[1..] == CanonicalAll(tokens[1..]);
      if Upper(tokens[0]) in Keywords() {
        KeywordFacts(tokens[0]);
        LettersAreNeutral(mode, tokens[0]);
        LettersAreNeutral(mode, Lower(tokens[0]));
      }
    }
  }

  lemma {:induction false} JoinIsQuiet(mode: Mode, tokens: seq<string>)
    requires mode != Comment && QuietAll(mode, tokens)
    ensures Quiet(Scan(mode, false), Join(tokens, " "))
    decreases |tokens|
  {
    if |tokens| > 1 {
      var s := Scan(mode, false);
      var tail := Join(tokens[1..], " ");
      QuietEndsOutside(s, tokens[0]);
      var s1 := End(s, tokens[0]);
      JoinIsQuiet(s1.mode, tokens[1..]);
      OneChar(s1, ' ');
      NeutralChar(s1, ' ');
      QuietConcat(s, tokens[0], " ");
      QuietConcat(s, tokens[0] + " ", tail);
    }
  }

  lemma {:induction false} QuietEndsOutside(s: Scan, t: string)
    requires Quiet(s, t)
    ensures End(s, t).mode != Comment
    decreases |t|
  {
    if t != "" {
      QuietEndsOutside(Next(s, t[0]), t[1..]);
    }
  }

  /** Normalizing twice is normalizing once. */
  lemma NormalizationIsIdempotent(query: string)
    ensures Normalized(Normalized(query)) == Normalized(query)
  {
    var stripped := Strip(START, query);
    var tokens := Tokens("", stripped);
    var canonical := CanonicalAll(tokens);
    var out := Join(canonical, " ");
    StrippedIsQuiet(START, query, false);
    TokensAreQuiet(Code, "", stripped);
    CanonicalIsQuiet(Code, tokens);
    JoinIsQuiet(Code, canonical);
    QuietIsKept(START, out);
    TokensAreAtomic("", stripped);
    forall i | 0 <= i < |tokens| ensures Atomic(canonical[i]) && Canonical(canonical[i]) == canonical[i] {
      assert tokens[i] in tokens;
      CanonicalFacts(tokens[i]);
    }
    JoinReadsBack(canonical);
    assert CanonicalAll(canonical) == canonical;
  }

  // ---------------------------------------------------------------------
  // Which queries share a normalized text
  // ---------------------------------------------------------------------

  /** The tokens of a query. */
  function TokensOf(query: string): seq<string> {
    Tokens("", Strip(START, query))
  }

  /** Tokens that normalization cannot tell apart: equal ones, and keywords but for their case. */
  predicate SameToken(t: string, u: string) {
    t == u || (Upper(t) == Upper(u) && Upper(t) in Keywords())
  }

  predicate SameTokens(x: seq<string>, y: seq<string>) {
    |x| == |y| && forall i :: 0 <= i < |x| ==> SameToken(x[i], y[i])
  }

  lemma UpperDecides(t: string, u: string)
    requires Upper(t) == Upper(u)
    ensures Lower(t) == Lower(u)
  {
    assert |t| == |Upper(t)| == |u|;
    forall i | 0 <= i < |t| ensures LowerChar(t[i]) == LowerChar(u[i]) {
      assert Upper(t)[i] == Upper(u)[i];
    }
  }

  lemma SameTokenIff(t: string, u: string)
    ensures Canonical(t) == Canonical(u) <==> SameToken(t, u)
  {
    if Upper(t) in Keywords() {
      KeywordFacts(t);
    }
    if Upper(u) in Keywords() {
      KeywordFacts(u);
    }
    if Upper(t) == Upper(u) {
      UpperDecides(t, u);
    }
  }

  lemma CanonicalAllIff(x: seq<string>, y: seq<string>)
    ensures CanonicalAll(x) == CanonicalAll(y) <==> SameTokens(x, y)
  {
    assert CanonicalAll(x) == CanonicalAll(y) ==> |x| == |CanonicalAll(x)| == |y|;
    forall i | 0 <= i < |x| && i < |y| ensures CanonicalAll(x)[i] == CanonicalAll(y)[i] <==> SameToken(x[i], y[i]) {
      SameTokenIff(x[i], y[i]);
    }
  }

  lemma CanonicalReadsBack(t: string)
    ensures Tokens("", Join(CanonicalAll(Tokens("", t)), " ")) == CanonicalAll(Tokens("", t))
  {
    var tokens := Tokens("", t);
    TokensAreAtomic("", t);
    forall i | 0 <= i < |tokens| ensures Atomic(CanonicalAll(tokens)[i]) {
      assert tokens[i] in tokens;
      CanonicalFacts(tokens[i]);
    }
    JoinReadsBack(CanonicalAll(tokens));
  }

  /** Two queries share a normalized text if and only if they have the same tokens up to the case
      of keywords, wherever those stand. */
  lemma SameTextIff(p: string, q: string)
    ensures Normalized(p) == Normalized(q) <==> SameTokens(TokensOf(p), TokensOf(q))
  {
    CanonicalReadsBack(Strip(START, p));
    CanonicalReadsBack(Strip(START, q));
    CanonicalAllIff(TokensOf(p), TokensOf(q));
  }
}

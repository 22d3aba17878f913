/** What the scanner makes of a statement, said of its text: every statement is a row of pieces and
    an end, each kind of piece has its output, and the end decides the verdict. */
module Pieces {
  import opened Text
  import opened Sanitizer

  /** A character on its own, a string literal, a delimited name, an optimizer hint, a block
      comment, or a line comment with its line end; without the delimiters. */
  datatype Piece =
    | Plain(c: char)
    | Literal(body: string)
    | Name(q: char, body: string)
    | Hinted(body: string)
    | Block(body: string)
    | Line(body: string)

  /** Nothing more, a semicolon with whatever follows it, or a piece that is never closed. */
  datatype Ending = Finished | Semi(rest: string) | Open(st: State, body: string)

  function TextOf(p: Piece): string {
    match p
    case Plain(c) => [c]
    case Literal(body) => "'" + body + "'"
    case Name(q, body) => [q] + body + [q]
    case Hinted(body) => "/*+" + body + "*/"
    case Block(body) => "/*" + body + "*/"
    case Line(body) => "--" + body + "\n"
  }

  /** Comments become a blank or their line end; everything else is kept as it is. */
  function Kept(p: Piece): string {
    match p
    case Block(_) => " "
    case Line(_) => "\n"
    case _ => TextOf(p)
  }

  function Role(p: Piece): State {
    match p
    case Literal(_) => SingleQuote
    case Name(q, _) => if q == '"' then DoubleQuote else Backtick
    case Hinted(_) => Hint
    case _ => Normal
  }

  function Opener(st: State): string {
    match st
    case Normal => ""
    case SingleQuote => "'"
    case DoubleQuote => "\""
    case Backtick => "`"
    case LineComment => "--"
    case BlockComment => "/*"
    case Hint => "/*+"
  }

  function EndText(e: Ending): string {
    match e
    case Finished => ""
    case Semi(rest) => ";" + rest
    case Open(st, body) => Opener(st) + body
  }

  // ---------------------------------------------------------------------
  // Which texts are pieces
  // ---------------------------------------------------------------------

  /** `*` with `/` behind it. */
  predicate ClosesComment(t: string) {
    |t| >= 2 && t[0] == '*' && t[1] == '/'
  }

  predicate NoCommentEnd(t: string) {
    forall i :: 0 <= i < |t| ==> !ClosesComment(t[i..])
  }

  predicate NoLineEnd(t: string) {
    forall i :: 0 <= i < |t| ==> t[i] != '\n'
  }

  /** Every `q` in the text is doubled. */
  predicate AllDoubled(t: string, q: char) {
    t == "" ||
    if t[0] == q then |t| > 1 && t[1] == q && AllDoubled(t[2..], q) else AllDoubled(t[1..], q)
  }

  /** Every quote in the text is doubled or escaped; `cut` is whether a backslash may end it. */
  predicate AllEscaped(t: string, cut: bool) {
    if t == "" then true
    else if t[0] == '\\' && |t| > 1 && (t[1] == '\\' || t[1] == '\'') then AllEscaped(t[2..], cut)
    else if t[0] == '\'' then |t| > 1 && t[1] == '\'' && AllEscaped(t[2..], cut)
    else (t == "\\" ==> cut) && AllEscaped(t[1..], cut)
  }

  predicate WellMade(p: Piece) {
    match p
    case Plain(c) => c !in {'\'', '"', '`', ';'}
    case Literal(body) => AllEscaped(body, false)
    case Name(q, body) => (q == '"' || q == '`') && AllDoubled(body, q)
    case Hinted(body) => NoCommentEnd(body)
    case Block(body) => NoCommentEnd(body) && (body == "" || body[0] != '+')
    case Line(body) => NoLineEnd(body)
  }

  /** The text does not close what is open. */
  predicate LeavesOpen(st: State, body: string) {
    match st
    case Normal => false
    case SingleQuote => AllEscaped(body, true)
    case DoubleQuote => AllDoubled(body, '"')
    case Backtick => AllDoubled(body, '`')
    case LineComment => NoLineEnd(body)
    case BlockComment => NoCommentEnd(body)
    case Hint => NoCommentEnd(body)
  }

  predicate EndsWell(e: Ending) {
    e.Open? ==> LeavesOpen(e.st, e.body) && (e.st == BlockComment ==> e.body == "" || e.body[0] != '+')
  }

  /** A character that opens a comment with the text behind it. */
  predicate OpensComment(p: Piece, rest: string) {
    p.Plain? && rest != "" && ((p.c == '-' && rest[0] == '-') || (p.c == '/' && rest[0] == '*'))
  }

  function Texts(ps: seq<Piece>): string {
    if ps == [] then "" else TextOf(ps[0]) + Texts(ps[1..])
  }

  function AllKept(ps: seq<Piece>): string {
    if ps == [] then "" else Kept(ps[0]) + AllKept(ps[1..])
  }

  function Roles(ps: seq<Piece>): seq<State> {
    if ps == [] then [] else Marks(|Kept(ps[0])|, Role(ps[0])) + Roles(ps[1..])
  }

  /** The pieces in a row, in front of a text, are these pieces. */
  predicate Row(ps: seq<Piece>, rest: string) {
    ps == [] || (WellMade(ps[0]) && !OpensComment(ps[0], Texts(ps[1..]) + rest) && Row(ps[1..], rest))
  }

  predicate Statement(ps: seq<Piece>, e: Ending) {
    Row(ps, EndText(e)) && EndsWell(e)
  }

  // ---------------------------------------------------------------------
  // Each kind of piece
  // ---------------------------------------------------------------------

  function Copied(t: string, mark: State): Lexed {
    Lexed(t, Marks(|t|, mark), Normal)
  }

  /** One step in front of a text whose scan is known. */
  lemma StepFirst(st: State, t: string, tail: string, next: State, emit: string, done: Lexed, rest: Lexed)
    requires t != "" && StepOf(st, t + tail) == Advance(next, |t|, emit)
    requires Lex(next, tail) == Then(done, rest) && done.Lexed?
    ensures Lex(st, t + tail)
         == Then(Lexed(emit + done.text, Marks(|emit|, Mark(st, next)) + done.marks, done.last), rest)
  {
    LexUnfolds(st, t + tail);
    assert (t + tail)[|t|..] == tail;
    ThenEmit(emit, Mark(st, next), done, rest);
  }

  lemma NothingFirst(rest: Lexed, st: State)
    ensures Then(Lexed("", [], st), rest) == rest
  {
    if rest.Lexed? {
      assert "" + rest.text == rest.text && [] + rest.marks == rest.marks;
    }
  }

  /** A step that copies `t` with the role of the state, in front of a copied text. */
  lemma CopyFirst(st: State, t: string, tail: string, next: State, copied: string, mark: State, rest: Lexed)
    requires t != "" && StepOf(st, t + tail) == Advance(next, |t|, t) && Mark(st, next) == mark
    requires Lex(next, tail) == Then(Copied(copied, mark), rest)
    ensures Lex(st, t + tail) == Then(Copied(t + copied, mark), rest)
  {
    StepFirst(st, t, tail, next, t, Copied(copied, mark), rest);
    assert Marks(|t|, mark) + Marks(|copied|, mark) == Marks(|t + copied|, mark);
  }

  /** The last step of a piece. */
  lemma CopyLast(st: State, t: string, tail: string, mark: State)
    requires t != "" && StepOf(st, t + tail) == Advance(Normal, |t|, t) && Mark(st, Normal) == mark
    ensures Lex(st, t + tail) == Then(Copied(t, mark), Lex(Normal, tail))
  {
    NothingFirst(Lex(Normal, tail), Normal);
    assert Marks(0, mark) == [];
    CopyFirst(st, t, tail, Normal, "", mark, Lex(Normal, tail));
    assert t + "" == t;
  }

  lemma FirstApart(t: string, n: nat, behind: string)
    requires n <= |t|
    ensures t + behind == t[..n] + (t[n..] + behind)
  {
  }

  lemma SecondOf(t: string, behind: string)
    requires t != "" && (|t| > 1 || behind != "")
    ensures (t + behind)[1] == if |t| > 1 then t[1] else behind[0]
  {
  }

  /** A hint's body and end, in front of any text. */
  lemma {:induction false} HintBody(h: string, close: string, rest: string)
    requires NoCommentEnd(h) && close == "*/"
    ensures Lex(Hint, h + (close + rest)) == Then(Copied(h + close, Hint), Lex(Normal, rest))
  {
    var behind := close + rest;
    if h == "" {
      assert h + behind == behind && h + close == close;
      CopyLast(Hint, close, rest, Hint);
    } else {
      assert forall i :: 0 <= i < |h[1..]| ==> h[1..][i..] == h[i + 1..];
      HintBody(h[1..], close, rest);
      FirstApart(h, 1, behind);
      FirstApart(h, 1, close);
      InsideComment(h, behind);
      CopyFirst(Hint, h[..1], h[1..] + behind, Hint, h[1..] + close, Hint, Lex(Normal, rest));
    }
  }

  lemma InsideComment(h: string, behind: string)
    requires h != "" && NoCommentEnd(h) && (behind == "" || behind[0] != '/')
    ensures StepOf(Hint, h + behind) == Advance(Hint, 1, h[..1])
    ensures StepOf(BlockComment, h + behind) == Advance(BlockComment, 1, "")
  {
    assert h[0..] == h && !ClosesComment(h);
    var t := h + behind;
    assert t[0] == h[0];
    if |t| > 1 {
      SecondOf(h, behind);
    }
  }

  /** A block comment's body and end, in front of any text. */
  lemma {:induction false} BlockBody(c: string, close: string, rest: string)
    requires NoCommentEnd(c) && close == "*/"
    ensures Lex(BlockComment, c + (close + rest)) == Then(Copied(" ", Normal), Lex(Normal, rest))
  {
    var behind := close + rest;
    if c == "" {
      assert c + behind == behind;
      BlockEnd(close, rest, " ");
    } else {
      assert forall i :: 0 <= i < |c[1..]| ==> c[1..][i..] == c[i + 1..];
      BlockBody(c[1..], close, rest);
      FirstApart(c, 1, behind);
      InsideComment(c, behind);
      SilentStep(BlockComment, c + behind);
      assert (c + behind)[1..] == c[1..] + behind;
    }
  }

  lemma BlockEnd(close: string, rest: string, blank: string)
    requires close == "*/" && blank == " "
    ensures Lex(BlockComment, close + rest) == Then(Copied(blank, Normal), Lex(Normal, rest))
  {
    NothingFirst(Lex(Normal, rest), Normal);
    StepFirst(BlockComment, close, rest, Normal, blank, Lexed("", [], Normal), Lex(Normal, rest));
    assert blank + "" == blank && Marks(|blank|, Normal) + [] == Marks(|blank|, Normal);
  }

  lemma {:induction false} LineBody(c: string, end: string, rest: string)
    requires NoLineEnd(c) && end == "\n"
    ensures Lex(LineComment, c + (end + rest)) == Then(Copied(end, Normal), Lex(Normal, rest))
  {
    var behind := end + rest;
    if c == "" {
      assert c + behind == behind;
      CopyLast(LineComment, end, rest, Normal);
    } else {
      LineBody(c[1..], end, rest);
      InsideLine(c, behind);
    }
  }

  lemma InsideLine(c: string, behind: string)
    requires c != "" && c[0] != '\n'
    ensures Lex(LineComment, c + behind) == Lex(LineComment, c[1..] + behind)
  {
    assert (c + behind)[0] == c[0] && (c + behind)[1..] == c[1..] + behind;
    SilentStep(LineComment, c + behind);
  }

  function StateOf(q: char): State {
    if q == '"' then DoubleQuote else Backtick
  }

  lemma DelimitedSteps(q: char, t: string)
    requires (q == '"' || q == '`') && t != ""
    ensures t[0] != q ==> StepOf(StateOf(q), t) == Advance(StateOf(q), 1, t[..1])
    ensures t[0] == q && At(t, 1, q) ==> StepOf(StateOf(q), t) == Advance(StateOf(q), 2, t[..2])
    ensures t[0] == q && !At(t, 1, q) ==> StepOf(StateOf(q), t) == Advance(Normal, 1, t[..1])
  {
  }

  /** A name's body and end, in front of a text that does not double the end. */
  lemma {:induction false} NameBody(q: char, n: string, close: string, rest: string)
    requires (q == '"' || q == '`') && AllDoubled(n, q) && close == [q] && (rest == "" || rest[0] != q)
    ensures Lex(StateOf(q), n + (close + rest)) == Then(Copied(n + close, StateOf(q)), Lex(Normal, rest))
    decreases |n|
  {
    var behind := close + rest;
    if n == "" {
      assert n + behind == behind && n + close == close;
      DelimitedSteps(q, behind);
      assert behind[..1] == close;
      CopyLast(StateOf(q), close, rest, StateOf(q));
    } else {
      var w := if n[0] == q then 2 else 1;
      NameBody(q, n[w..], close, rest);
      FirstApart(n, w, behind);
      FirstApart(n, w, close);
      DelimitedSteps(q, n + behind);
      assert (n + behind)[..w] == n[..w] && (n + behind)[0] == n[0];
      assert w == 2 ==> (n + behind)[1] == n[1];
      CopyFirst(StateOf(q), n[..w], n[w..] + behind, StateOf(q), n[w..] + close, StateOf(q), Lex(Normal, rest));
    }
  }

  /** What the scanner copies at once inside a literal. */
  function Bite(t: string): (w: nat)
    requires t != ""
    ensures 1 <= w <= |t|
  {
    if |t| > 1 && ((t[0] == '\\' && (t[1] == '\\' || t[1] == '\'')) || (t[0] == '\'' && t[1] == '\'')) then 2 else 1
  }

  lemma LiteralSteps(t: string)
    requires t != ""
    ensures StepOf(SingleQuote, t)
         == Advance(if t[0] == '\'' && Bite(t) == 1 then Normal else SingleQuote, Bite(t), t[..Bite(t)])
  {
  }

  lemma {:induction false} LiteralBody(b: string, close: string, rest: string)
    requires AllEscaped(b, false) && close == "'" && (rest == "" || rest[0] != '\'')
    ensures Lex(SingleQuote, b + (close + rest)) == Then(Copied(b + close, SingleQuote), Lex(Normal, rest))
    decreases |b|
  {
    var behind := close + rest;
    if b == "" {
      assert b + behind == behind && b + close == close;
      LiteralSteps(behind);
      assert behind[..1] == close;
      CopyLast(SingleQuote, close, rest, SingleQuote);
    } else {
      var w := Bite(b);
      LiteralBody(b[w..], close, rest);
      FirstApart(b, w, behind);
      FirstApart(b, w, close);
      EscapedStep(b, behind);
      CopyFirst(SingleQuote, b[..w], b[w..] + behind, SingleQuote, b[w..] + close, SingleQuote, Lex(Normal, rest));
    }
  }

  lemma EscapedStep(b: string, behind: string)
    requires b != "" && behind != "" && AllEscaped(b, false)
    ensures StepOf(SingleQuote, b + behind) == Advance(SingleQuote, Bite(b), b[..Bite(b)])
    ensures AllEscaped(b[Bite(b)..], false)
  {
    LiteralSteps(b + behind);
    SecondOf(b, behind);
    assert (b + behind)[..Bite(b)] == b[..Bite(b)] && (b + behind)[0] == b[0];
  }

  // ---------------------------------------------------------------------
  // A piece in front of any text
  // ---------------------------------------------------------------------

  lemma PlainFirst(c: char, t: string, rest: string)
    requires t == [c] && WellMade(Plain(c)) && !OpensComment(Plain(c), rest)
    ensures Lex(Normal, t + rest) == Then(Copied(t, Normal), Lex(Normal, rest))
  {
    assert (t + rest)[0] == c && (rest != "" ==> (t + rest)[1] == rest[0]);
    CopyLast(Normal, t, rest, Normal);
  }

  /** An opening delimiter, a body that is copied and closed, and the text behind. */
  lemma DelimitedFirst(st: State, open: string, body: string, close: string, rest: string)
    requires open != "" && Mark(Normal, st) == st
    requires StepOf(Normal, open + (body + (close + rest))) == Advance(st, |open|, open)
    requires Lex(st, body + (close + rest)) == Then(Copied(body + close, st), Lex(Normal, rest))
    ensures Lex(Normal, open + body + close + rest) == Then(Copied(open + body + close, st), Lex(Normal, rest))
  {
    CopyFirst(Normal, open, body + (close + rest), st, body + close, st, Lex(Normal, rest));
    FourTexts(open, body, close, rest);
  }

  lemma FourTexts(a: string, b: string, c: string, d: string)
    ensures a + b + c + d == a + (b + (c + d))
    ensures a + b + c == a + (b + c)
  {
  }

  /** Closing and opening again is what a doubled delimiter amounts to. */
  lemma AnyBehind(t: string, mark: State, rest: string)
    requires Lex(Normal, t) == Copied(t, mark) && !Glues(t, rest)
    ensures Lex(Normal, t + rest) == Then(Copied(t, mark), Lex(Normal, rest))
  {
    Compose(Normal, t, rest);
  }

  lemma AloneIsCopied(t: string, mark: State)
    requires Lex(Normal, t + "") == Then(Copied(t, mark), Lex(Normal, ""))
    ensures Lex(Normal, t) == Copied(t, mark)
  {
    assert t + "" == t && Marks(|t|, mark) + [] == Marks(|t|, mark);
  }

  lemma LiteralFirst(body: string, quote: string, rest: string)
    requires AllEscaped(body, false) && quote == "'"
    ensures Lex(Normal, quote + body + quote + rest)
         == Then(Copied(quote + body + quote, SingleQuote), Lex(Normal, rest))
  {
    LiteralBody(body, quote, "");
    OpenedBy(quote, body + (quote + ""));
    DelimitedFirst(SingleQuote, quote, body, quote, "");
    AloneIsCopied(quote + body + quote, SingleQuote);
    AnyBehind(quote + body + quote, SingleQuote, rest);
  }

  lemma OpenedBy(quote: string, t: string)
    requires |quote| == 1 && quote[0] in {'\'', '"', '`'}
    ensures StepOf(Normal, quote + t)
         == Advance(if quote[0] == '\'' then SingleQuote else StateOf(quote[0]), 1, quote)
  {
  }

  lemma NameFirst(q: char, body: string, quote: string, rest: string)
    requires WellMade(Name(q, body)) && quote == [q]
    ensures Lex(Normal, quote + body + quote + rest)
         == Then(Copied(quote + body + quote, StateOf(q)), Lex(Normal, rest))
  {
    NameAlone(q, body, quote, "");
    AnyBehind(quote + body + quote, StateOf(q), rest);
  }

  lemma NameAlone(q: char, body: string, quote: string, nothing: string)
    requires WellMade(Name(q, body)) && quote == [q] && nothing == ""
    ensures Lex(Normal, quote + body + quote) == Copied(quote + body + quote, StateOf(q))
  {
    NameBody(q, body, quote, nothing);
    OpenedBy(quote, body + (quote + nothing));
    DelimitedFirst(StateOf(q), quote, body, quote, nothing);
    AloneIsCopied(quote + body + quote, StateOf(q));
  }

  lemma HintFirst(body: string, open: string, close: string, rest: string)
    requires NoCommentEnd(body) && open == "/*+" && close == "*/"
    ensures Lex(Normal, open + body + close + rest) == Then(Copied(open + body + close, Hint), Lex(Normal, rest))
  {
    HintBody(body, close, rest);
    HintOpens(open, body + (close + rest));
    DelimitedFirst(Hint, open, body, close, rest);
  }

  lemma HintOpens(open: string, t: string)
    requires open == "/*+"
    ensures StepOf(Normal, open + t) == Advance(Hint, 3, open)
  {
  }

  lemma CommentOpens(open: string, t: string)
    requires open == "/*" || open == "--"
    requires open == "/*" ==> t == "" || t[0] != '+'
    ensures StepOf(Normal, open + t) == Advance(if open == "--" then LineComment else BlockComment, 2, "")
  {
    var s := open + t;
    assert s[0] == open[0] && s[1] == open[1];
    assert t != "" ==> s[2] == t[0];
  }

  lemma CommentFirst(st: State, open: string, t: string, rest: Lexed, blank: string)
    requires (st == BlockComment && open == "/*" && (t == "" || t[0] != '+')) || (st == LineComment && open == "--")
    requires Lex(st, t) == Then(Copied(blank, Normal), rest)
    ensures Lex(Normal, open + t) == Then(Copied(blank, Normal), rest)
  {
    CommentOpens(open, t);
    SilentStep(Normal, open + t);
    assert (open + t)[2..] == t;
  }

  lemma BlockFirst(body: string, open: string, close: string, blank: string, rest: string)
    requires WellMade(Block(body)) && open == "/*" && close == "*/" && blank == " "
    ensures Lex(Normal, open + body + close + rest) == Then(Copied(blank, Normal), Lex(Normal, rest))
  {
    BlockBody(body, close, rest);
    var t := body + (close + rest);
    assert t[0] == if body == "" then close[0] else body[0];
    CommentFirst(BlockComment, open, t, Lex(Normal, rest), blank);
    FourTexts(open, body, close, rest);
  }

  lemma LineFirst(body: string, open: string, end: string, rest: string)
    requires NoLineEnd(body) && open == "--" && end == "\n"
    ensures Lex(Normal, open + body + end + rest) == Then(Copied(end, Normal), Lex(Normal, rest))
  {
    LineBody(body, end, rest);
    CommentFirst(LineComment, open, body + (end + rest), Lex(Normal, rest), end);
    FourTexts(open, body, end, rest);
  }

  /** What a piece becomes, and that the text behind it is scanned as if it stood alone. */
  lemma PieceFirst(p: Piece, rest: string)
    requires WellMade(p) && !OpensComment(p, rest)
    ensures Lex(Normal, TextOf(p) + rest) == Then(Copied(Kept(p), Role(p)), Lex(Normal, rest))
  {
    match p
    case Plain(c) => PlainFirst(c, [c], rest);
    case Literal(body) => LiteralFirst(body, "'", rest);
    case Name(q, body) => NameFirst(q, body, [q], rest);
    case Hinted(body) => HintFirst(body, "/*+", "*/", rest);
    case Block(body) => BlockFirst(body, "/*", "*/", " ", rest);
    case Line(body) => LineFirst(body, "--", "\n", rest);
  }

  /** The same between two texts: hints, literals, names and other characters are copied in their
      roles, a block comment becomes a blank and a line comment its line end. */
  lemma PieceBetween(pre: string, p: Piece, post: string)
    requires Lex(Normal, pre).Lexed? && Lex(Normal, pre).last == Normal && !Glues(pre, TextOf(p) + post)
    requires WellMade(p) && !OpensComment(p, post)
    ensures Lex(Normal, pre + (TextOf(p) + post))
         == Then(Lex(Normal, pre), Then(Copied(Kept(p), Role(p)), Lex(Normal, post)))
  {
    PieceFirst(p, post);
    Compose(Normal, pre, TextOf(p) + post);
  }

  // ---------------------------------------------------------------------
  // Whole statements
  // ---------------------------------------------------------------------

  lemma ThenTwice(a: Lexed, b: Lexed, c: Lexed)
    requires a.Lexed? && b.Lexed?
    ensures Then(a, Then(b, c)) == Then(Lexed(a.text + b.text, a.marks + b.marks, b.last), c)
  {
    if c.Lexed? {
      assert a.text + (b.text + c.text) == a.text + b.text + c.text;
      assert a.marks + (b.marks + c.marks) == a.marks + b.marks + c.marks;
    }
  }

  lemma {:induction false} RowFirst(ps: seq<Piece>, rest: string)
    requires Row(ps, rest)
    ensures |AllKept(ps)| == |Roles(ps)|
    ensures Lex(Normal, Texts(ps) + rest) == Then(Lexed(AllKept(ps), Roles(ps), Normal), Lex(Normal, rest))
    decreases |ps|
  {
    if ps == [] {
      assert "" + rest == rest;
      NothingFirst(Lex(Normal, rest), Normal);
    } else {
      var p, more := ps[0], ps[1..];
      RowFirst(more, rest);
      PieceFirst(p, Texts(more) + rest);
      assert Texts(ps) + rest == TextOf(p) + (Texts(more) + rest);
      ThenTwice(Copied(Kept(p), Role(p)), Lexed(AllKept(more), Roles(more), Normal), Lex(Normal, rest));
    }
  }

  /** A piece that is not closed is never left. */
  lemma {:induction false} StaysOpen(st: State, body: string)
    requires LeavesOpen(st, body)
    ensures Lex(st, body).Lexed? && Lex(st, body).last == st && (st == LineComment ==> Lex(st, body).text == "")
    decreases |body|
  {
    if body != "" {
      OpenStep(st, body);
      var step := StepOf(st, body);
      LexUnfolds(st, body);
      StaysOpen(st, body[step.width..]);
    }
  }

  lemma OpenStep(st: State, body: string)
    requires LeavesOpen(st, body) && body != ""
    ensures var step := StepOf(st, body);
            && step.Advance? && step.next == st && (st == LineComment ==> step.emit == "")
            && LeavesOpen(st, body[step.width..])
  {
    match st
    case SingleQuote => LiteralSteps(body);
    case DoubleQuote => DelimitedSteps('"', body);
    case Backtick => DelimitedSteps('`', body);
    case LineComment =>
    case BlockComment => OpenComment(body);
    case Hint => OpenComment(body);
  }

  lemma OpenComment(body: string)
    requires NoCommentEnd(body) && body != ""
    ensures NoCommentEnd(body[1..])
    ensures !(body[0] == '*' && At(body, 1, '/'))
  {
    assert body[0..] == body && !ClosesComment(body[0..]);
    assert forall i :: 0 <= i < |body[1..]| ==> body[1..][i..] == body[i + 1..];
  }

  function Verdict(ps: seq<Piece>, e: Ending): Outcome {
    match e
    case Finished => Clean(AllKept(ps))
    case Semi(_) => Unsafe(MultiStatement)
    case Open(st, _) => if st == LineComment then Clean(AllKept(ps)) else Unsafe(Unclosed(st))
  }

  /** The scan of an end: of the last line comment nothing is left. */
  lemma EndScan(e: Ending)
    requires EndsWell(e)
    ensures var l := Lex(Normal, EndText(e));
            match e
            case Finished => l == Lexed("", [], Normal)
            case Semi(_) => l == Rejected
            case Open(st, _) => l.Lexed? && l.last == st && (st == LineComment ==> l.text == "")
  {
    match e
    case Finished =>
    case Semi(rest) => assert StepOf(Normal, ";" + rest) == Semicolon;
    case Open(st, body) => OpenScan(st, body, Opener(st));
  }

  lemma OpenScan(st: State, body: string, open: string)
    requires EndsWell(Open(st, body)) && open == Opener(st)
    ensures var l := Lex(Normal, open + body);
            l.Lexed? && l.last == st && (st == LineComment ==> l.text == "")
  {
    OpeningStep(st, body, open);
    LexUnfolds(Normal, open + body);
    assert (open + body)[|open|..] == body;
    StaysOpen(st, body);
  }

  lemma OpeningStep(st: State, body: string, open: string)
    requires EndsWell(Open(st, body)) && open == Opener(st)
    ensures var emit := if st == LineComment || st == BlockComment then "" else open;
            open != "" && StepOf(Normal, open + body) == Advance(st, |open|, emit)
  {
    match st
    case Hint => HintOpens(open, body);
    case LineComment => CommentOpens(open, body);
    case BlockComment => CommentOpens(open, body);
    case _ => OpenedBy(open, body);
  }

  lemma JudgeBehind(text: string, marks: seq<State>, l: Lexed)
    ensures Judge(Then(Lexed(text, marks, Normal), l))
         == if l.Rejected? then Unsafe(MultiStatement)
            else if l.last == Normal || l.last == LineComment then Clean(text + l.text)
            else Unsafe(Unclosed(l.last))
  {
  }

  /** What sanitizing makes of a row of pieces and its end: comments are blanks, everything else is
      kept, and only a semicolon among the pieces or a piece that is not closed is refused. */
  lemma StatementVerdict(ps: seq<Piece>, e: Ending)
    requires Statement(ps, e)
    ensures Sanitized(Texts(ps) + EndText(e)) == Verdict(ps, e)
    ensures |AllKept(ps)| == |Roles(ps)|
    ensures e.Finished? ==> Lex(Normal, Texts(ps) + EndText(e)) == Lexed(AllKept(ps), Roles(ps), Normal)
  {
    RowFirst(ps, EndText(e));
    EndScan(e);
    JudgeBehind(AllKept(ps), Roles(ps), Lex(Normal, EndText(e)));
    assert AllKept(ps) + "" == AllKept(ps) && Roles(ps) + [] == Roles(ps);
  }

  // ---------------------------------------------------------------------
  // Every text is such a statement
  // ---------------------------------------------------------------------

  /** The first comment end, if there is one. */
  lemma SplitComment(t: string) returns (k: nat, closed: bool)
    ensures closed ==> k + 2 <= |t| && ClosesComment(t[k..]) && NoCommentEnd(t[..k])
    ensures !closed ==> NoCommentEnd(t)
  {
    k, closed := 0, false;
    while k < |t| && !ClosesComment(t[k..])
      invariant k <= |t| && forall i :: 0 <= i < k ==> !ClosesComment(t[i..])
    {
      k := k + 1;
    }
    closed := k < |t|;
    if closed {
      forall i | 0 <= i < k ensures !ClosesComment(t[..k][i..]) {
        assert !ClosesComment(t[i..]);
      }
    }
  }

  lemma SplitLine(t: string) returns (k: nat, closed: bool)
    ensures closed ==> k < |t| && t[k] == '\n' && NoLineEnd(t[..k])
    ensures !closed ==> NoLineEnd(t)
  {
    k := 0;
    while k < |t| && t[k] != '\n'
      invariant k <= |t| && forall i :: 0 <= i < k ==> t[i] != '\n'
    {
      k := k + 1;
    }
    closed := k < |t|;
  }

  lemma FrontOf(t: string, w: nat, k: nat)
    requires w + k <= |t|
    ensures t[..w + k] == t[..w] + t[w..][..k]
    ensures t[..w + k][w..] == t[w..][..k]
  {
  }

  /** The first delimiter that is not doubled, if there is one. */
  lemma {:induction false} SplitName(t: string, q: char) returns (k: nat, closed: bool)
    ensures closed ==> k < |t| && t[k] == q && AllDoubled(t[..k], q)
    ensures !closed ==> AllDoubled(t, q)
    decreases |t|
  {
    if t == "" {
      k, closed := 0, false;
    } else if t[0] == q && !(|t| > 1 && t[1] == q) {
      k, closed := 0, true;
      assert t[..0] == "";
    } else {
      var w := if t[0] == q then 2 else 1;
      k, closed := SplitName(t[w..], q);
      if closed {
        FrontOf(t, w, k);
      }
      k := w + k;
    }
  }

  /** The first quote that is neither doubled nor escaped, if there is one. */
  lemma {:induction false} SplitLiteral(t: string) returns (k: nat, closed: bool)
    ensures closed ==> k < |t| && t[k] == '\'' && AllEscaped(t[..k], false)
    ensures !closed ==> AllEscaped(t, true)
    decreases |t|
  {
    if t == "" {
      k, closed := 0, false;
    } else if t[0] == '\'' && Bite(t) == 1 {
      k, closed := 0, true;
      assert t[..0] == "";
    } else {
      var w := Bite(t);
      k, closed := SplitLiteral(t[w..]);
      if closed {
        FrontOf(t, w, k);
        FrontIsEscaped(t, k);
      }
      k := w + k;
    }
  }

  lemma FrontIsEscaped(t: string, k: nat)
    requires t != "" && !(t[0] == '\'' && Bite(t) == 1)
    requires Bite(t) + k < |t| && t[Bite(t) + k] == '\'' && AllEscaped(t[Bite(t)..][..k], false)
    ensures AllEscaped(t[..Bite(t) + k], false)
  {
    var w, front := Bite(t), t[..Bite(t) + k];
    FrontOf(t, w, k);
    assert front[0] == t[0] && (|front| > 1 ==> front[1] == t[1]);
  }

  /** The first piece of a text takes its first `n` characters; a text that has none is an end. */
  predicate Leads(s: string, p: Option<Piece>, n: nat, e: Ending) {
    match p
    case Some(piece) => 0 < n <= |s| && s[..n] == TextOf(piece) && WellMade(piece) && !OpensComment(piece, s[n..])
    case None => EndsWell(e) && s == EndText(e)
  }

  /** A text between an opener and a closer, which stand at `k` behind the opener. */
  lemma Closed(s: string, open: string, k: nat, close: string) returns (n: nat)
    requires open <= s && |open| + k + |close| <= |s| && s[|open| + k..][..|close|] == close
    ensures n == |open| + k + |close| && s[..n] == open + s[|open|..][..k] + close
  {
    n := |open| + k + |close|;
    assert s[..|open| + k] == open + s[|open|..][..k];
    assert s[..n] == s[..|open| + k] + s[|open| + k..][..|close|];
  }

  lemma LiteralLeads(s: string, open: string) returns (p: Option<Piece>, n: nat, e: Ending)
    requires open == "'" && open <= s
    ensures Leads(s, p, n, e)
  {
    var t := s[1..];
    var k, closed := SplitLiteral(t);
    assert s == open + t;
    if closed {
      p, e := Some(Literal(t[..k])), Finished;
      n := Closed(s, open, k, open);
    } else {
      p, n, e := None, 0, Open(SingleQuote, t);
    }
  }

  lemma NameLeads(s: string, q: char, open: string) returns (p: Option<Piece>, n: nat, e: Ending)
    requires open == [q] && open <= s && (q == '"' || q == '`')
    ensures Leads(s, p, n, e)
  {
    var t := s[1..];
    var k, closed := SplitName(t, q);
    assert s == open + t;
    if closed {
      p, e := Some(Name(q, t[..k])), Finished;
      n := Closed(s, open, k, open);
    } else {
      p, n, e := None, 0, Open(StateOf(q), t);
    }
  }

  lemma LineLeads(s: string, open: string, end: string) returns (p: Option<Piece>, n: nat, e: Ending)
    requires open == "--" && end == "\n" && open <= s
    ensures Leads(s, p, n, e)
  {
    var t := s[2..];
    var k, closed := SplitLine(t);
    assert s == open + t;
    if closed {
      p, e := Some(Line(t[..k])), Finished;
      n := Closed(s, open, k, end);
    } else {
      p, n, e := None, 0, Open(LineComment, t);
    }
  }

  lemma CloserAt(t: string, k: nat, close: string)
    requires k + 2 <= |t| && ClosesComment(t[k..]) && close == "*/"
    ensures t[k..][..2] == close
  {
  }

  lemma HintLeads(s: string, open: string, close: string) returns (p: Option<Piece>, n: nat, e: Ending)
    requires open == "/*+" && close == "*/" && open <= s
    ensures Leads(s, p, n, e)
  {
    var t := s[3..];
    var k, closed := SplitComment(t);
    assert s == open + t;
    if closed {
      CloserAt(t, k, close);
      p, e := Some(Hinted(t[..k])), Finished;
      n := Closed(s, open, k, close);
    } else {
      p, n, e := None, 0, Open(Hint, t);
    }
  }

  lemma BlockLeads(s: string, open: string, close: string) returns (p: Option<Piece>, n: nat, e: Ending)
    requires open == "/*" && close == "*/" && open <= s && !At(s, 2, '+')
    ensures Leads(s, p, n, e)
  {
    var t := s[2..];
    var k, closed := SplitComment(t);
    assert s == open + t;
    if closed {
      CloserAt(t, k, close);
      p, e := Some(Block(t[..k])), Finished;
      n := Closed(s, open, k, close);
    } else {
      p, n, e := None, 0, Open(BlockComment, t);
    }
  }

  lemma FirstPiece(s: string) returns (p: Option<Piece>, n: nat, e: Ending)
    requires s != ""
    ensures Leads(s, p, n, e)
  {
    var c := s[0];
    if c == '\'' {
      p, n, e := LiteralLeads(s, "'");
    } else if c == '"' || c == '`' {
      p, n, e := NameLeads(s, c, [c]);
    } else if c == '-' && At(s, 1, '-') {
      p, n, e := LineLeads(s, "--", "\n");
    } else if c == '/' && At(s, 1, '*') && At(s, 2, '+') {
      p, n, e := HintLeads(s, "/*+", "*/");
    } else if c == '/' && At(s, 1, '*') {
      p, n, e := BlockLeads(s, "/*", "*/");
    } else if c == ';' {
      p, n, e := None, 0, Semi(s[1..]);
      assert s == [c] + s[1..];
    } else {
      p, n, e := Some(Plain(c)), 1, Finished;
    }
  }

  /** Every text is a row of pieces and an end, so that the verdict on every text is known. */
  lemma {:induction false} EveryTextIsAStatement(s: string) returns (ps: seq<Piece>, e: Ending)
    ensures Statement(ps, e) && Texts(ps) + EndText(e) == s
    decreases |s|
  {
    if s == "" {
      ps, e := [], Finished;
    } else {
      var p, n, end := FirstPiece(s);
      if p.None? {
        ps, e := [], end;
        assert "" + s == s;
      } else {
        var more;
        more, e := EveryTextIsAStatement(s[n..]);
        ps := [p.value] + more;
        FirstOfRow(p.value, more, e, s, n);
      }
    }
  }

  lemma FirstOfRow(p: Piece, more: seq<Piece>, e: Ending, s: string, n: nat)
    requires Leads(s, Some(p), n, e) && Statement(more, e) && Texts(more) + EndText(e) == s[n..]
    ensures Statement([p] + more, e) && Texts([p] + more) + EndText(e) == s
  {
    assert ([p] + more)[1..] == more;
    ThreeTexts(TextOf(p), Texts(more), EndText(e));
    CutAt(s, n);
  }

  lemma ThreeTexts(a: string, b: string, c: string)
    ensures a + b + c == a + (b + c)
  {
  }

  lemma CutAt(s: string, n: nat)
    requires n <= |s|
    ensures s == s[..n] + s[n..]
  {
  }

  /** A statement is accepted exactly if it is a row of pieces with nothing behind it, or with a line
      comment at most, and what is left of it is those pieces with their comments as blanks. */
  lemma AcceptedIff(s: string, sql: string)
    ensures Sanitized(s) == Clean(sql) <==>
            exists ps, e :: Statement(ps, e) && Texts(ps) + EndText(e) == s && AllKept(ps) == sql
                            && (e.Finished? || (e.Open? && e.st == LineComment))
  {
    if Sanitized(s) == Clean(sql) {
      var ps, e := EveryTextIsAStatement(s);
      StatementVerdict(ps, e);
    }
    if ps, e :| Statement(ps, e) && Texts(ps) + EndText(e) == s && AllKept(ps) == sql
                && (e.Finished? || (e.Open? && e.st == LineComment)) {
      StatementVerdict(ps, e);
    }
  }

  /** It is refused as more than one statement exactly if a semicolon stands among the pieces. */
  lemma RefusedIff(s: string)
    ensures Sanitized(s) == Unsafe(MultiStatement) <==>
            exists ps, rest :: Statement(ps, Semi(rest)) && Texts(ps) + EndText(Semi(rest)) == s
  {
    if Sanitized(s) == Unsafe(MultiStatement) {
      var ps, e := EveryTextIsAStatement(s);
      StatementVerdict(ps, e);
      assert e == Semi(e.rest);
    }
    if ps, rest :| Statement(ps, Semi(rest)) && Texts(ps) + EndText(Semi(rest)) == s {
      StatementVerdict(ps, Semi(rest));
    }
  }
}

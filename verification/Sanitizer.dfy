/** The lexical scanner that every rendered SQL template passes through.

    A scan is described by `Lex`, which reports the emitted text, the lexical
    role ("mark") of every emitted character and the state at the end of input.
    Characters stand for the bytes of the source string. */
module Sanitizer {

  datatype State =
    | Normal | SingleQuote | DoubleQuote | Backtick
    | LineComment | BlockComment | Hint

  datatype Reason = MultiStatement | Unclosed(state: State)

  datatype Outcome = Clean(sql: string) | Unsafe(reason: Reason)

  /** One turn of the scanning loop: `width` characters are consumed and `emit` is written. */
  datatype Step = Advance(next: State, width: nat, emit: string) | Semicolon

  function At(s: string, i: nat, c: char): bool {
    i < |s| && s[i] == c
  }

  function NormalStep(s: string): (r: Step)
    requires s != ""
    ensures r.Advance? ==> 1 <= r.width <= |s|
  {
    var c := s[0];
    if c == '\'' then Advance(SingleQuote, 1, [c])
    else if c == '"' then Advance(DoubleQuote, 1, [c])
    else if c == '`' then Advance(Backtick, 1, [c])
    else if c == '-' && At(s, 1, '-') then Advance(LineComment, 2, "")
    else if c == '/' && At(s, 1, '*') then
      if At(s, 2, '+') then Advance(Hint, 3, "/*+") else Advance(BlockComment, 2, "")
    else if c == ';' then Semicolon
    else Advance(Normal, 1, [c])
  }

  /** A double-quoted or backticked identifier: only doubling escapes the delimiter. */
  function DelimitedStep(st: State, q: char, s: string): (r: Step)
    requires s != ""
    ensures r.Advance? && 1 <= r.width <= |s|
  {
    if s[0] == q && At(s, 1, q) then Advance(st, 2, [q, q])
    else if s[0] == q then Advance(Normal, 1, [q])
    else Advance(st, 1, [s[0]])
  }

  function SingleQuoteStep(s: string): (r: Step)
    requires s != ""
    ensures r.Advance? && 1 <= r.width <= |s|
  {
    if s[0] == '\\' && At(s, 1, '\\') then Advance(SingleQuote, 2, "\\\\")
    else if s[0] == '\\' && At(s, 1, '\'') then Advance(SingleQuote, 2, "\\'")
    else DelimitedStep(SingleQuote, '\'', s)
  }

  function StepOf(st: State, s: string): (r: Step)
    requires s != ""
    ensures r.Advance? ==> 1 <= r.width <= |s|
  {
    match st
    case Normal => NormalStep(s)
    case SingleQuote => SingleQuoteStep(s)
    case DoubleQuote => DelimitedStep(DoubleQuote, '"', s)
    case Backtick => DelimitedStep(Backtick, '`', s)
    case LineComment =>
      if s[0] == '\n' then Advance(Normal, 1, "\n") else Advance(LineComment, 1, "")
    case BlockComment =>
      if s[0] == '*' && At(s, 1, '/') then Advance(Normal, 2, " ") else Advance(BlockComment, 1, "")
    case Hint =>
      if s[0] == '*' && At(s, 1, '/') then Advance(Normal, 2, "*/") else Advance(Hint, 1, [s[0]])
  }

  /** The state in which a scan of the *output* stands when the input scan is in `st`. */
  function Visible(st: State): State {
    if st == LineComment || st == BlockComment then Normal else st
  }

  /** The role of the characters emitted by a step: a literal or hint owns both delimiters. */
  function Mark(st: State, next: State): State {
    if st == Normal then Visible(next) else Visible(st)
  }

  datatype Lexed = Lexed(text: string, marks: seq<State>, last: State) | Rejected

  function Marks(n: nat, st: State): (r: seq<State>)
    ensures |r| == n && forall i :: 0 <= i < n ==> r[i] == st
  {
    seq(n, i => st)
  }

  function Emit(emit: string, mark: State, rest: Lexed): Lexed {
    match rest
    case Rejected => Rejected
    case Lexed(text, marks, last) => Lexed(emit + text, Marks(|emit|, mark) + marks, last)
  }

  function Lex(st: State, s: string): (r: Lexed)
    ensures r.Lexed? ==> |r.text| == |r.marks|
    decreases |s|
  {
    if s == "" then Lexed("", [], st)
    else match StepOf(st, s)
      case Semicolon => Rejected
      case Advance(next, width, emit) => Emit(emit, Mark(st, next), Lex(next, s[width..]))
  }

  function Sanitized(s: string): Outcome {
    Judge(Lex(Normal, s))
  }

  function Judge(l: Lexed): Outcome {
    match l
    case Rejected => Unsafe(MultiStatement)
    case Lexed(text, _, last) =>
      if last == Normal || last == LineComment then Clean(text) else Unsafe(Unclosed(last))
  }

  // ---------------------------------------------------------------------
  // The scanning loop
  // ---------------------------------------------------------------------

  /** One turn of the loop's state switch, on indices into the whole statement. */
  method ScanOne(sql: string, state: State, i: nat) returns (next: State, width: nat, emit: string, semicolon: bool)
    requires i < |sql|
    ensures StepOf(state, sql[i..]) == if semicolon then Semicolon else Advance(next, width, emit)
  {
    var n := |sql|;
    var ch := sql[i];
    ghost var rest := sql[i..];
    assert rest[0] == ch && |rest| == n - i;
    assert i + 1 < n ==> rest[1] == sql[i + 1];
    assert i + 2 < n ==> rest[2] == sql[i + 2];
    next, width, emit, semicolon := state, 1, [ch], false;
    match state
    case Normal =>
      if ch == '\'' {
        next := SingleQuote;
      } else if ch == '"' {
        next := DoubleQuote;
      } else if ch == '`' {
        next := Backtick;
      } else if ch == '-' && i + 1 < n && sql[i + 1] == '-' {
        next, width, emit := LineComment, 2, "";
      } else if ch == '/' && i + 1 < n && sql[i + 1] == '*' {
        if i + 2 < n && sql[i + 2] == '+' {
          next, width, emit := Hint, 3, "/*+";
        } else {
          next, width, emit := BlockComment, 2, "";
        }
      } else if ch == ';' {
        semicolon := true;
      }
    case SingleQuote =>
      if ch == '\\' && i + 1 < n && sql[i + 1] == '\\' {
        width, emit := 2, "\\\\";
      } else if ch == '\\' && i + 1 < n && sql[i + 1] == '\'' {
        width, emit := 2, "\\'";
      } else if ch == '\'' && i + 1 < n && sql[i + 1] == '\'' {
        width, emit := 2, "''";
      } else if ch == '\'' {
        next := Normal;
      }
    case DoubleQuote =>
      if ch == '"' && i + 1 < n && sql[i + 1] == '"' {
        width, emit := 2, "\"\"";
      } else if ch == '"' {
        next := Normal;
      }
    case Backtick =>
      if ch == '`' && i + 1 < n && sql[i + 1] == '`' {
        width, emit := 2, "``";
      } else if ch == '`' {
        next := Normal;
      }
    case LineComment =>
      if ch == '\n' {
        next := Normal;
      } else {
        emit := "";
      }
    case BlockComment =>
      if ch == '*' && i + 1 < n && sql[i + 1] == '/' {
        next, width, emit := Normal, 2, " ";
      } else {
        emit := "";
      }
    case Hint =>
      if ch == '*' && i + 1 < n && sql[i + 1] == '/' {
        next, width, emit := Normal, 2, "*/";
      }
  }

  /** The loop of sanitizeSQL, with its `state`, `i` and `out`. */
  method Sanitize(sql: string) returns (r: Outcome)
    ensures r == Sanitized(sql)
  {
    var out := "";
    var state := Normal;
    var i := 0;
    ghost var marks: seq<State> := [];
    ghost var rest := Lex(Normal, sql);
    LexedNothingThen(rest);
    while i < |sql|
      invariant 0 <= i <= |sql|
      invariant rest == Lex(state, sql[i..]) && Lex(Normal, sql) == Then(Lexed(out, marks, state), rest)
    {
      var next, width, emit, semicolon := ScanOne(sql, state, i);
      if semicolon {
        SemicolonRejects(sql, Lexed(out, marks, state), sql[i..]);
        return Unsafe(MultiStatement);
      }
      OneTurn(state, sql, i, next, width, emit);
      rest := Lex(next, sql[i + width..]);
      EmitThen(Lexed(out, marks, state), emit, Mark(state, next), rest);
      marks := marks + Marks(|emit|, Mark(state, next));
      out := out + emit;
      state := next;
      i := i + width;
    }
    assert sql[i..] == "";
    NothingLeft(sql, Lexed(out, marks, state));
    match state
    case Normal => return Clean(out);
    case LineComment => return Clean(out);
    case _ => return Unsafe(Unclosed(state));
  }

  lemma DropTwice(s: string, i: nat, n: nat)
    requires i + n <= |s|
    ensures s[i..][n..] == s[i + n..]
  {
  }

  /** One turn of the loop that does not end it. */
  lemma OneTurn(state: State, sql: string, i: nat, next: State, width: nat, emit: string)
    requires i < |sql| && StepOf(state, sql[i..]) == Advance(next, width, emit)
    ensures i + width <= |sql|
    ensures Lex(state, sql[i..]) == Emit(emit, Mark(state, next), Lex(next, sql[i + width..]))
  {
    LexUnfolds(state, sql[i..]);
    DropTwice(sql, i, width);
  }

  lemma SemicolonRejects(sql: string, done: Lexed, s: string)
    requires done.Lexed? && s != "" && StepOf(done.last, s).Semicolon?
    requires Lex(Normal, sql) == Then(done, Lex(done.last, s))
    ensures Sanitized(sql) == Unsafe(MultiStatement)
  {
    assert Lex(done.last, s) == Rejected;
  }

  lemma NothingLeft(sql: string, done: Lexed)
    requires done.Lexed?
    requires Lex(Normal, sql) == Then(done, Lex(done.last, ""))
    ensures Sanitized(sql) == Judge(done)
  {
    assert done.text + "" == done.text && done.marks + [] == done.marks;
  }

  lemma LexedNothingThen(b: Lexed)
    ensures Then(Lexed("", [], Normal), b) == b
  {
    if b.Lexed? {
      assert "" + b.text == b.text;
      assert [] + b.marks == b.marks;
    }
  }

  // ---------------------------------------------------------------------
  // Composition of scans
  // ---------------------------------------------------------------------

  function Then(a: Lexed, b: Lexed): Lexed {
    match a
    case Rejected => Rejected
    case Lexed(text, marks, _) =>
      match b
      case Rejected => Rejected
      case Lexed(text', marks', last) => Lexed(text + text', marks + marks', last)
  }

  lemma EmitThen(a: Lexed, emit: string, mark: State, rest: Lexed)
    requires a.Lexed?
    ensures Then(a, Emit(emit, mark, rest))
         == Then(Lexed(a.text + emit, a.marks + Marks(|emit|, mark), a.last), rest)
  {
    if rest.Lexed? {
      assert a.text + (emit + rest.text) == (a.text + emit) + rest.text;
      assert a.marks + (Marks(|emit|, mark) + rest.marks) == (a.marks + Marks(|emit|, mark)) + rest.marks;
    }
  }

  lemma ThenEmit(emit: string, mark: State, a: Lexed, b: Lexed)
    ensures Then(Emit(emit, mark, a), b) == Emit(emit, mark, Then(a, b))
  {
    if a.Lexed? && b.Lexed? {
      assert (emit + a.text) + b.text == emit + (a.text + b.text);
      assert (Marks(|emit|, mark) + a.marks) + b.marks == Marks(|emit|, mark) + (a.marks + b.marks);
    }
  }

  /** A comment opener split by the boundary. */
  predicate Glues(a: string, b: string) {
    a != "" && b != "" &&
    var x, y := a[|a| - 1], b[0];
    (x == '-' && y == '-') || (x == '/' && y == '*')
  }

  function Delimiter(st: State): string {
    match st
    case SingleQuote => "'"
    case DoubleQuote => "\""
    case Backtick => "`"
    case _ => ""
  }

  /** `a` is the closing delimiter and `b` begins with the same one: the scanner reads the two as
      a doubled delimiter. */
  predicate Doubles(st: State, a: string, b: string) {
    |a| == 1 && a == Delimiter(st) && a <= b
  }

  lemma StepIgnoresSuffix(st: State, a: string, b: string)
    requires a != "" && !Glues(a, b) && !Doubles(st, a, b)
    requires StepOf(st, a).Advance?
    requires StepOf(st, a).width == |a| ==> StepOf(st, a).next == Normal
    ensures StepOf(st, a + b) == StepOf(st, a)
  {
    assert forall k :: 0 <= k < |a| ==> (a + b)[k] == a[k];
    if b != "" {
      assert (a + b)[|a|] == b[0];
      assert b[..1] == [b[0]];
    }
    match st {
      case Normal => {}
      case SingleQuote => {}
      case DoubleQuote => {}
      case Backtick => {}
      case LineComment => {}
      case BlockComment => {}
      case Hint => {}
    }
  }

  /** A doubled delimiter leaves the scan where closing and opening again would leave it. */
  lemma DoubledIsReopened(st: State, a: string, b: string)
    requires Doubles(st, a, b)
    ensures Lex(st, a + b) == Then(Lex(st, a), Lex(Normal, b))
  {
    var rest := Lex(st, b[1..]);
    assert (a + b)[0] == a[0] && (a + b)[1] == b[0] == a[0];
    assert (a + b)[2..] == b[1..] && a[1..] == "";
    assert StepOf(st, a + b) == Advance(st, 2, a + a);
    assert StepOf(st, a) == Advance(Normal, 1, a);
    assert StepOf(Normal, b) == Advance(st, 1, a);
    LexUnfolds(st, a + b);
    LexUnfolds(st, a);
    LexUnfolds(Normal, b);
    EmitTwice(a, st, rest);
  }

  lemma EmitTwice(a: string, mark: State, rest: Lexed)
    requires |a| == 1
    ensures Emit(a + a, mark, rest) == Then(Emit(a, mark, Lexed("", [], Normal)), Emit(a, mark, rest))
  {
    assert a + "" == a && Marks(1, mark) + [] == Marks(1, mark);
    if rest.Lexed? {
      assert (a + a) + rest.text == a + (a + rest.text);
      assert Marks(2, mark) + rest.marks == Marks(1, mark) + (Marks(1, mark) + rest.marks);
    }
  }

  lemma LastStep(st: State, a: string)
    requires a != "" && Lex(st, a).Lexed? && Lex(st, a).last == Normal
    ensures StepOf(st, a).Advance?
    ensures StepOf(st, a).width == |a| ==> StepOf(st, a).next == Normal
  {
    var step := StepOf(st, a);
    if step.Advance? && step.width == |a| {
      assert a[step.width..] == "";
    }
  }

  lemma DropOfConcat(a: string, b: string, n: nat)
    requires n <= |a|
    ensures (a + b)[n..] == a[n..] + b
    ensures n < |a| ==> a[n..][|a[n..]| - 1] == a[|a| - 1]
  {
  }

  /** A scan that is back in the normal state continues as if the rest stood alone, unless the
      boundary splits a comment opener. */
  lemma {:induction false} Compose(st: State, a: string, b: string)
    requires Lex(st, a).Lexed? && Lex(st, a).last == Normal
    requires !Glues(a, b)
    ensures Lex(st, a + b) == Then(Lex(st, a), Lex(Normal, b))
    decreases |a|
  {
    if a == "" {
      assert a + b == b;
      LexedNothingThen(Lex(Normal, b));
    } else if Doubles(st, a, b) {
      DoubledIsReopened(st, a, b);
    } else {
      LastStep(st, a);
      StepIgnoresSuffix(st, a, b);
      var step := StepOf(st, a);
      var a' := a[step.width..];
      DropOfConcat(a, b, step.width);
      Compose(step.next, a', b);
      ThenEmit(step.emit, Mark(st, step.next), Lex(step.next, a'), Lex(Normal, b));
    }
  }

  // ---------------------------------------------------------------------
  // Sanitizing is a fixpoint, and it keeps every character's role
  // ---------------------------------------------------------------------

  /** `rest` can begin the output of a scan of `tail` that starts in `next`. */
  predicate CanFollow(next: State, tail: string, rest: string) {
    rest != "" ==>
      tail != "" && (rest[0] == tail[0] || (Visible(next) == Normal && (rest[0] == '\n' || rest[0] == ' ')))
  }

  /** One step of `Lex`, unfolded. */
  lemma LexUnfolds(st: State, s: string)
    requires s != "" && StepOf(st, s).Advance?
    ensures var step := StepOf(st, s);
            Lex(st, s) == Emit(step.emit, Mark(st, step.next), Lex(step.next, s[step.width..]))
  {
  }

  /** A step that copies what it reads, in front of a text that is kept. */
  lemma KeptStep(st: State, emit: string, tail: string, next: State, marks: seq<State>, last: State)
    requires emit != "" && StepOf(st, emit + tail) == Advance(next, |emit|, emit)
    requires Lex(next, tail) == Lexed(tail, marks, last)
    ensures Lex(st, emit + tail) == Lexed(emit + tail, Marks(|emit|, Mark(st, next)) + marks, last)
  {
    LexUnfolds(st, emit + tail);
    assert (emit + tail)[|emit|..] == tail;
  }

  /** A step inside a comment changes neither the output nor the visible state. */
  lemma SilentStep(st: State, s: string)
    requires s != "" && StepOf(st, s).Advance? && StepOf(st, s).emit == ""
    ensures var step := StepOf(st, s);
            Visible(step.next) == Visible(st) && Lex(st, s) == Lex(step.next, s[step.width..])
  {
    var step := StepOf(st, s);
    var rest := Lex(step.next, s[step.width..]);
    if rest.Lexed? {
      assert "" + rest.text == rest.text;
      assert Marks(0, Mark(st, step.next)) + rest.marks == rest.marks;
    }
  }

  lemma {:induction false} CommentEmitsBlank(st: State, s: string)
    requires st == LineComment || st == BlockComment
    requires Lex(st, s).Lexed? && Lex(st, s).text != ""
    ensures Lex(st, s).text[0] == '\n' || Lex(st, s).text[0] == ' '
    decreases |s|
  {
    var step := StepOf(st, s);
    if step.emit == "" {
      SilentStep(st, s);
      CommentEmitsBlank(step.next, s[step.width..]);
    }
  }

  lemma StepEmitsInput(st: State, s: string)
    requires s != "" && StepOf(st, s).Advance? && StepOf(st, s).emit != ""
    ensures var c := StepOf(st, s).emit[0];
            c == s[0] || (Visible(st) == Normal && (c == '\n' || c == ' '))
  {
  }

  /** What the first emitted character can be: comment removal only ever puts a blank first. */
  lemma FirstEmitted(st: State, s: string)
    requires Lex(st, s).Lexed? && Lex(st, s).text != ""
    ensures CanFollow(st, s, Lex(st, s).text)
  {
    var step := StepOf(st, s);
    LexUnfolds(st, s);
    if step.emit == "" {
      SilentStep(st, s);
      CommentEmitsBlank(step.next, s[step.width..]);
    } else {
      StepEmitsInput(st, s);
    }
  }

  /** The emitted characters of one step, read again before the rest of the output,
      make the same step. */
  lemma StepSurvives(st: State, s: string, rest: string)
    requires s != "" && StepOf(st, s).Advance? && StepOf(st, s).emit != ""
    requires CanFollow(StepOf(st, s).next, s[StepOf(st, s).width..], rest)
    ensures var step := StepOf(st, s);
            StepOf(Visible(st), step.emit + rest) == Advance(step.next, |step.emit|, step.emit)
  {
    var step := StepOf(st, s);
    var again := step.emit + rest;
    assert again[0] == step.emit[0];
    if rest != "" {
      assert again[|step.emit|] == rest[0];
      assert s[step.width..][0] == s[step.width];
    }
    match st {
      case Normal => {}
      case SingleQuote => {}
      case DoubleQuote => {}
      case Backtick => {}
      case LineComment => {}
      case BlockComment => {}
      case Hint => {}
    }
  }

  lemma MarkSurvives(st: State, s: string)
    requires s != "" && StepOf(st, s).Advance? && StepOf(st, s).emit != ""
    ensures var next := StepOf(st, s).next;
            Visible(next) == next && Mark(Visible(st), next) == Mark(st, next)
  {
  }

  lemma RescanStep(st: State, s: string, rest: Lexed)
    requires s != "" && StepOf(st, s).Advance? && StepOf(st, s).emit != ""
    requires rest.Lexed? && rest == Lex(StepOf(st, s).next, s[StepOf(st, s).width..])
    requires Lex(Visible(StepOf(st, s).next), rest.text) == rest.(last := Visible(rest.last))
    ensures Lex(Visible(st), StepOf(st, s).emit + rest.text)
         == Emit(StepOf(st, s).emit, Mark(st, StepOf(st, s).next), rest.(last := Visible(rest.last)))
  {
    var step := StepOf(st, s);
    if rest.text != "" {
      FirstEmitted(step.next, s[step.width..]);
    }
    StepSurvives(st, s, rest.text);
    MarkSurvives(st, s);
    KeptStep(Visible(st), step.emit, rest.text, step.next, rest.marks, Visible(rest.last));
  }

  /** Scanning the output of a scan reproduces that output, each character with the same mark. */
  lemma {:induction false} Rescan(st: State, s: string)
    requires Lex(st, s).Lexed?
    ensures Lex(Visible(st), Lex(st, s).text) == Lex(st, s).(last := Visible(Lex(st, s).last))
    decreases |s|
  {
    if s != "" {
      var step := StepOf(st, s);
      var tail := s[step.width..];
      var rest := Lex(step.next, tail);
      Rescan(step.next, tail);
      if step.emit == "" {
        SilentStep(st, s);
      } else {
        LexUnfolds(st, s);
        RescanStep(st, s, rest);
      }
    }
  }

  /** Sanitizing twice is sanitizing once, and the second scan gives every surviving
      character the role it had in the first: no literal, hint or plain text changes hands. */
  lemma SanitizeIsFixpoint(s: string)
    requires Sanitized(s).Clean?
    ensures var out := Sanitized(s).sql;
            && Sanitized(out) == Clean(out)
            && Lex(Normal, out) == Lexed(out, Lex(Normal, s).marks, Normal)
  {
    Rescan(Normal, s);
  }

  predicate IsPlainText(text: string, marks: seq<State>)
    requires |text| == |marks|
  {
    && (forall i :: 0 <= i < |marks| ==> marks[i] != LineComment && marks[i] != BlockComment)
    && (forall i :: 0 <= i < |text| && marks[i] == Normal ==> text[i] !in {'\'', '"', '`', ';'})
    && (forall i :: 0 <= i < |text| - 1 && marks[i] == Normal ==>
          !(text[i] == '-' && text[i + 1] == '-') && !(text[i] == '/' && text[i + 1] == '*'))
  }

  /** A step's output in front of plain text keeps it plain. */
  predicate CanPrecede(emit: string, mark: State, rest: Lexed)
    requires rest.Lexed?
  {
    && mark != LineComment && mark != BlockComment
    && (emit != "" && mark == Normal ==>
          && |emit| == 1 && emit[0] !in {'\'', '"', '`', ';'}
          && (rest.text != "" ==>
                !(emit[0] == '-' && rest.text[0] == '-') && !(emit[0] == '/' && rest.text[0] == '*')))
  }

  lemma PlainInFront(emit: string, mark: State, rest: Lexed)
    requires rest.Lexed? && |rest.text| == |rest.marks| && IsPlainText(rest.text, rest.marks)
    requires CanPrecede(emit, mark, rest)
    ensures IsPlainText(emit + rest.text, Marks(|emit|, mark) + rest.marks)
  {
    var n, text, marks := |emit|, emit + rest.text, Marks(|emit|, mark) + rest.marks;
    forall i | 0 <= i < |text| - 1 && marks[i] == Normal
      ensures !(text[i] == '-' && text[i + 1] == '-') && !(text[i] == '/' && text[i + 1] == '*')
    {
      if i >= n {
        assert text[i] == rest.text[i - n] && text[i + 1] == rest.text[i + 1 - n] && marks[i] == rest.marks[i - n];
      }
    }
  }

  lemma EmittedIsPlain(st: State, s: string, rest: Lexed)
    requires s != "" && StepOf(st, s).Advance? && rest.Lexed?
    requires CanFollow(StepOf(st, s).next, s[StepOf(st, s).width..], rest.text)
    ensures CanPrecede(StepOf(st, s).emit, Mark(st, StepOf(st, s).next), rest)
  {
    var step := StepOf(st, s);
    if rest.text != "" {
      assert s[step.width..][0] == s[step.width];
    }
  }

  /** Outside literals and hints the output holds no semicolon, no delimiter and no comment opener. */
  lemma {:induction false} OutputIsPlain(st: State, s: string)
    requires Lex(st, s).Lexed?
    ensures IsPlainText(Lex(st, s).text, Lex(st, s).marks)
    decreases |s|
  {
    if s != "" {
      var step := StepOf(st, s);
      var tail := s[step.width..];
      var rest := Lex(step.next, tail);
      OutputIsPlain(step.next, tail);
      if rest.text != "" {
        FirstEmitted(step.next, tail);
      }
      EmittedIsPlain(st, s, rest);
      LexUnfolds(st, s);
      PlainInFront(step.emit, Mark(st, step.next), rest);
    }
  }

  /** Whatever is accepted is free of top-level semicolons, comments and open literals. */
  lemma AcceptedIsSafe(s: string)
    requires Sanitized(s).Clean?
    ensures var out := Sanitized(s).sql;
            var l := Lex(Normal, out);
            l.Lexed? && l.text == out && l.last == Normal && IsPlainText(out, l.marks)
  {
    SanitizeIsFixpoint(s);
    OutputIsPlain(Normal, Sanitized(s).sql);
  }

  // ---------------------------------------------------------------------
  // Fixed texts
  // ---------------------------------------------------------------------

  /** A text that the scanner leaves alone and after which it stands in the normal state. */
  predicate Fixed(t: string) {
    Lex(Normal, t).Lexed? && Lex(Normal, t).text == t && Lex(Normal, t).last == Normal
  }

  lemma FixedIffClean(t: string)
    ensures Fixed(t) <==> Sanitized(t) == Clean(t) && Lex(Normal, t).last == Normal
    ensures Fixed(t) <==> Sanitized(t) == Clean(t)
  {
    if Sanitized(t) == Clean(t) {
      SanitizeIsFixpoint(t);
    }
  }

  lemma FixedConcat(a: string, b: string)
    requires Fixed(a) && Fixed(b) && !Glues(a, b)
    ensures Fixed(a + b)
    ensures Lex(Normal, a + b).marks == Lex(Normal, a).marks + Lex(Normal, b).marks
  {
    Compose(Normal, a, b);
  }

  predicate PlainChar(c: char) {
    c !in {'\'', '"', '`', ';', '-', '/'}
  }

  lemma {:induction false} PlainIsFixed(t: string)
    requires forall i :: 0 <= i < |t| ==> PlainChar(t[i])
    ensures Lex(Normal, t) == Lexed(t, Marks(|t|, Normal), Normal)
  {
    if t != "" {
      PlainIsFixed(t[1..]);
      assert PlainChar(t[0]);
      assert [t[0]] + t[1..] == t;
      assert Marks(1, Normal) + Marks(|t[1..]|, Normal) == Marks(|t|, Normal);
    }
  }
}

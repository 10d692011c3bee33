/** A lexer for the fragment of Coq that the printers emit, written as a character-driven
    machine, and the facts that relate it to the calls made on a formatter. */
module Lexing {
  import opened Text
  import opened Formatters

  datatype Tok = LP | RP | Comma | Word(w: string) | Sym(w: string) | Str(s: string)

  /** What the lexer is in the middle of. `Quoted` has seen a quote that closes the string
      unless another quote follows at once. */
  datatype Mode = Ready | InWord(w: string) | InSym(w: string) | InStr(s: string) | Quoted(s: string)

  datatype Lexer = Lexer(toks: seq<Tok>, mode: Mode)

  const START := Lexer([], Ready)

  predicate IsBlank(c: char) {
    c == ' ' || c == '\n'
  }

  predicate IsWordChar(c: char) {
    'a' <= c <= 'z' || 'A' <= c <= 'Z' || IsDigit(c) || c == '_' || c == '.' || c == '\''
  }

  predicate IsWord(w: string) {
    w != "" && forall i :: 0 <= i < |w| ==> IsWordChar(w[i])
  }

  predicate IsPlain(s: string) {
    forall i :: 0 <= i < |s| ==> s[i] != '"'
  }

  /** The token under way, if it may end here. */
  function Pending(m: Mode): seq<Tok> {
    match m
    case Ready => []
    case InWord(w) => [Word(w)]
    case InSym(w) => [Sym(w)]
    case Quoted(s) => [Str(s)]
    case InStr(_) => []
  }

  /** Ends the token under way; a string literal is not ended by a blank. */
  function Settle(lx: Lexer): Lexer {
    if lx.mode.InStr? then lx else Lexer(lx.toks + Pending(lx.mode), Ready)
  }

  function Feed(lx: Lexer, c: char): Lexer {
    if lx.mode.InStr? then
      lx.(mode := if c == '"' then Quoted(lx.mode.s) else InStr(lx.mode.s + [c]))
    else if lx.mode.Quoted? && c == '"' then
      lx.(mode := InStr(lx.mode.s + ['"']))
    else if IsBlank(c) then
      Settle(lx)
    else if c == '(' then
      Lexer(Settle(lx).toks + [LP], Ready)
    else if c == ')' then
      Lexer(Settle(lx).toks + [RP], Ready)
    else if c == ',' then
      Lexer(Settle(lx).toks + [Comma], Ready)
    else if c == '"' then
      Lexer(Settle(lx).toks, InStr(""))
    else if IsWordChar(c) then
      if lx.mode.InWord? then lx.(mode := InWord(lx.mode.w + [c]))
      else Lexer(Settle(lx).toks, InWord([c]))
    else
      if lx.mode.InSym? then lx.(mode := InSym(lx.mode.w + [c]))
      else Lexer(Settle(lx).toks, InSym([c]))
  }

  function FeedAll(lx: Lexer, text: string): Lexer
    decreases |text|
  {
    if text == "" then lx else FeedAll(Feed(lx, text[0]), text[1..])
  }

  /** The tokens of a text; a text that ends inside a string has none. */
  function Lex(text: string): Option<seq<Tok>> {
    var lx := FeedAll(START, text);
    if lx.mode.InStr? then None else Some(Settle(lx).toks)
  }

  lemma {:induction false} FeedAppend(lx: Lexer, a: string, b: string)
    ensures FeedAll(lx, a + b) == FeedAll(FeedAll(lx, a), b)
    decreases |a|
  {
    if a == "" {
      assert a + b == b;
    } else {
      assert (a + b)[1..] == a[1..] + b;
      FeedAppend(Feed(lx, a[0]), a[1..], b);
    }
  }

  lemma FeedCons(lx: Lexer, c: char, text: string)
    ensures FeedAll(lx, [c] + text) == FeedAll(Feed(lx, c), text)
    ensures FeedAll(lx, [c]) == Feed(lx, c)
  {
    assert ([c] + text)[1..] == text && [c][1..] == "";
  }

  lemma {:induction false} FeedBlanks(lx: Lexer, n: nat)
    requires n > 0 && !lx.mode.InStr?
    ensures FeedAll(lx, Blanks(n)) == Settle(lx)
  {
    FeedAppend(lx, Blanks(n - 1), " ");
    if n > 1 {
      FeedBlanks(lx, n - 1);
    } else {
      assert Blanks(0) == "";
    }
  }

  /** A word extends the word under way, and otherwise starts a new one. */
  lemma {:induction false} FeedWord(lx: Lexer, w: string)
    requires !lx.mode.InStr? && IsWord(w)
    ensures FeedAll(lx, w) ==
            if lx.mode.InWord? then lx.(mode := InWord(lx.mode.w + w))
            else Lexer(Settle(lx).toks, InWord(w))
    decreases |w|
  {
    var next := Feed(lx, w[0]);
    assert IsWordChar(w[0]);
    if |w| == 1 {
      assert w == [w[0]];
      assert FeedAll(next, w[1..]) == next;
    } else {
      FeedWord(next, w[1..]);
      assert [w[0]] + w[1..] == w;
      if lx.mode.InWord? {
        assert lx.mode.w + [w[0]] + w[1..] == lx.mode.w + w;
      }
    }
  }

  /** Inside a string every character but a quote stands for itself. */
  lemma {:induction false} FeedInside(lx: Lexer, s: string)
    requires lx.mode.InStr? && IsPlain(s)
    ensures FeedAll(lx, s) == lx.(mode := InStr(lx.mode.s + s))
    decreases |s|
  {
    if s == "" {
      assert lx.mode.s + s == lx.mode.s;
    } else {
      FeedInside(Feed(lx, s[0]), s[1..]);
      assert lx.mode.s + [s[0]] + s[1..] == lx.mode.s + s;
    }
  }

  /** What one call on the formatter means to the lexer. */
  function FeedOp(lx: Lexer, op: Op): Lexer {
    match op
    case Write(text) => FeedAll(lx, text)
    case Nbsp => Settle(lx)
    case Line => Settle(lx)
    case Indent => lx
    case Outdent => lx
  }

  function FeedOps(lx: Lexer, ops: seq<Op>): Lexer
    decreases |ops|
  {
    if ops == [] then lx else FeedOps(FeedOp(lx, ops[0]), ops[1..])
  }

  lemma {:induction false} FeedOpsAppend(lx: Lexer, a: seq<Op>, b: seq<Op>)
    ensures FeedOps(lx, a + b) == FeedOps(FeedOps(lx, a), b)
    decreases |a|
  {
    if a == [] {
      assert a + b == b;
    } else {
      assert (a + b)[1..] == a[1..] + b;
      FeedOpsAppend(FeedOp(lx, a[0]), a[1..], b);
    }
  }

  /** Spaces and line breaks are asked for only outside string literals. */
  predicate Unbroken(lx: Lexer, ops: seq<Op>)
    decreases |ops|
  {
    ops == [] ||
    (&& (ops[0].Nbsp? || ops[0].Line? ==> !lx.mode.InStr?)
     && Unbroken(FeedOp(lx, ops[0]), ops[1..]))
  }

  lemma {:induction false} UnbrokenAppend(lx: Lexer, a: seq<Op>, b: seq<Op>)
    ensures Unbroken(lx, a + b) <==> Unbroken(lx, a) && Unbroken(FeedOps(lx, a), b)
    decreases |a|
  {
    if a == [] {
      assert a + b == b;
    } else {
      assert (a + b)[1..] == a[1..] + b;
      UnbrokenAppend(FeedOp(lx, a[0]), a[1..], b);
    }
  }

  /** How far the lexer has got on the text of a formatter, counting the white space that is
      due before the next piece of output. */
  function Reading(st: State): Lexer {
    var lx := FeedAll(START, st.out);
    if st.blank || st.spaces > 0 then Settle(lx) else lx
  }

  /** A blank line starts the stream or follows a newline, and no white space is due inside
      a string literal. */
  predicate Coherent(st: State) {
    && (st.blank ==> st.out == "" || st.out[|st.out| - 1] == '\n')
    && (FeedAll(START, st.out).mode.InStr? ==> !st.blank && st.spaces == 0)
  }

  lemma BlankIsSettled(st: State)
    requires Coherent(st) && st.blank
    ensures Settle(FeedAll(START, st.out)) == FeedAll(START, st.out)
  {
    if st.out != "" {
      var n := |st.out| - 1;
      assert st.out == st.out[..n] + "\n";
      FeedAppend(START, st.out[..n], "\n");
    }
  }

  /** Padding reads as the end of the token under way. */
  lemma ReadPadding(st: State)
    requires Coherent(st)
    ensures FeedAll(START, st.out + Padding(st)) == Reading(st)
  {
    var d := if st.blank then st.depth else 0;
    BlanksAdd(d, st.spaces);
    assert Padding(st) == Blanks(d + st.spaces);
    FeedAppend(START, st.out, Padding(st));
    if d + st.spaces > 0 {
      FeedBlanks(FeedAll(START, st.out), d + st.spaces);
    } else {
      assert Padding(st) == "";
      if st.blank {
        BlankIsSettled(st);
      }
    }
  }

  lemma ReadStep(st: State, op: Op)
    requires Coherent(st)
    requires op.Nbsp? || op.Line? ==> !Reading(st).mode.InStr?
    ensures Coherent(Step(st, op))
    ensures Reading(Step(st, op)) == FeedOp(Reading(st), op)
  {
    match op
    case Write(text) =>
      ReadPadding(st);
      FeedAppend(START, st.out + Padding(st), text);
    case Line =>
      FeedAppend(START, st.out, "\n");
      var lx := FeedAll(START, st.out);
      assert FeedAll(lx, "\n") == Feed(lx, '\n');
    case Nbsp =>
    case Indent =>
    case Outdent =>
  }

  /** The lexer sees a run of formatter calls as those calls, whatever the layout. */
  lemma {:induction false} ReadRun(st: State, ops: seq<Op>)
    requires Coherent(st) && Unbroken(Reading(st), ops)
    ensures Coherent(Run(st, ops))
    ensures Reading(Run(st, ops)) == FeedOps(Reading(st), ops)
    decreases |ops|
  {
    if ops == [] {
    } else {
      ReadStep(st, ops[0]);
      ReadRun(Step(st, ops[0]), ops[1..]);
    }
  }
}

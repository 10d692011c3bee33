/** What the formatter of src/Formatter.cpp does to the shape of the output: where tokens stand
    on their lines, and that it adds nothing but white space. */
module Layout {
  import opened Text
  import opened Formatters
  import opened Docs

  /** A text without its spaces and newlines. */
  function Erase(s: string): string {
    if s == "" then ""
    else Erase(s[..|s| - 1]) + (if s[|s| - 1] == ' ' || s[|s| - 1] == '\n' then "" else [s[|s| - 1]])
  }

  /** Everything that is written, without layout. */
  function Tokens(ops: seq<Op>): string {
    if ops == [] then ""
    else (if ops[0].Write? then ops[0].text else "") + Tokens(ops[1..])
  }

  lemma {:induction false} EraseAppend(a: string, b: string)
    ensures Erase(a + b) == Erase(a) + Erase(b)
    decreases |b|
  {
    if b == "" {
      assert a + b == a;
    } else {
      var n := |b| - 1;
      assert (a + b)[..|a + b| - 1] == a + b[..n];
      EraseAppend(a, b[..n]);
    }
  }

  lemma {:induction false} EraseBlanks(n: nat)
    ensures Erase(Blanks(n)) == ""
  {
    if n == 0 {
    } else {
      assert Blanks(n)[..n - 1] == Blanks(n - 1);
      EraseBlanks(n - 1);
    }
  }

  lemma ErasePadding(st: State)
    ensures Erase(Padding(st)) == ""
  {
    hide Erase;
    assert Blanks(0) == "";
    var d := if st.blank then st.depth else 0;
    BlanksAdd(d, st.spaces);
    assert Padding(st) == Blanks(d + st.spaces);
    EraseBlanks(d + st.spaces);
  }

  /** What one call adds to the output, white space aside. */
  lemma StepErased(st: State, op: Op)
    ensures Erase(Step(st, op).out) == Erase(st.out) + (if op.Write? then Erase(op.text) else "")
  {
    hide Padding, Erase;
    match op
    case Write(text) =>
      ErasePadding(st);
      EraseAppend(st.out, Padding(st));
      EraseAppend(st.out + Padding(st), text);
      assert Erase(st.out) + "" == Erase(st.out);
    case Line =>
      EraseAppend(st.out, "\n");
      EraseNewline();
    case _ =>
  }

  lemma EraseNewline()
    ensures Erase("\n") == "" && Erase("") == ""
  {
    assert "\n"[..0] == "";
  }

  /** White space aside, the output of any run is what was written, in order. */
  lemma {:induction false} RunErased(st: State, ops: seq<Op>)
    ensures Erase(Run(st, ops).out) == Erase(st.out) + Erase(Tokens(ops))
    decreases |ops|
  {
    hide Erase, Step;
    EraseNewline();
    if ops == [] {
      assert Erase(st.out) + "" == Erase(st.out);
    } else {
      var text := if ops[0].Write? then ops[0].text else "";
      StepErased(st, ops[0]);
      RunErased(Step(st, ops[0]), ops[1..]);
      EraseAppend(text, Tokens(ops[1..]));
      assert Erase(st.out) + Erase(text) + Erase(Tokens(ops[1..])) == Erase(st.out) + Erase(Tokens(ops));
    }
  }

  /** Tokens that end in a visible character and have no line breaks. */
  predicate Visible(text: string) {
    text != "" && text[|text| - 1] != ' ' && forall i :: 0 <= i < |text| ==> text[i] != '\n'
  }

  /** No space stands at the end of a line. */
  predicate Trimmed(s: string) {
    && (s != "" ==> s[|s| - 1] != ' ')
    && forall i :: 0 < i < |s| && s[i] == '\n' ==> s[i - 1] != ' '
  }

  /** However spaces, lines and indentation are asked for, no line ends in a space. */
  lemma {:induction false} RunTrimmed(st: State, ops: seq<Op>)
    requires Trimmed(st.out) && forall i :: 0 <= i < |ops| && ops[i].Write? ==> Visible(ops[i].text)
    ensures Trimmed(Run(st, ops).out)
    decreases |ops|
  {
    if ops == [] {
    } else {
      if ops[0].Write? {
      }
      assert Trimmed(Step(st, ops[0]).out);
      RunTrimmed(Step(st, ops[0]), ops[1..]);
    }
  }

  /** Calls that only change what is due. */
  predicate Silent(ops: seq<Op>) {
    forall i :: 0 <= i < |ops| ==> ops[i].Nbsp? || ops[i].Indent? || ops[i].Outdent?
  }

  function Spaces(ops: seq<Op>): nat {
    if ops == [] then 0 else (if ops[0].Nbsp? then 1 else 0) + Spaces(ops[1..])
  }

  lemma {:induction false} SilentRun(st: State, ops: seq<Op>)
    requires Silent(ops)
    ensures var r := Run(st, ops);
            r.out == st.out && r.blank == st.blank && r.spaces == st.spaces + Spaces(ops)
    decreases |ops|
  {
    if ops == [] {
    } else {
      SilentRun(Step(st, ops[0]), ops[1..]);
    }
  }

  lemma RunBetween(st: State, a: Op, ops: seq<Op>, b: Op)
    ensures Run(st, [a] + ops + [b]) == Step(Run(Step(st, a), ops), b)
  {
    RunAppend(st, [a] + ops, [b]);
    RunAppend(st, [a], ops);
    assert [a][1..] == [] && [b][1..] == [];
  }

  /** The first token of a line stands at the depth in force when it is written, plus the spaces
      asked for since the line began. */
  lemma FirstOnLine(st: State, ops: seq<Op>, text: string)
    requires Silent(ops)
    ensures Run(st, [Line] + ops + [Write(text)]).out
         == st.out + "\n" + Blanks(Run(st, ops).depth + Spaces(ops)) + text
  {
    hide Run, Blanks;
    var start := Step(st, Line);
    var due := Run(start, ops);
    RunBetween(st, Line, ops, Write(text));
    SilentRun(start, ops);
    SameDepth(start, st, ops);
    BlanksAdd(due.depth, due.spaces);
    assert Padding(due) == Blanks(due.depth + due.spaces);
  }

  lemma {:induction false} SameDepth(a: State, b: State, ops: seq<Op>)
    requires a.depth == b.depth
    ensures Run(a, ops).depth == Run(b, ops).depth
    decreases |ops|
  {
    if ops == [] {
    } else {
      SameDepth(Step(a, ops[0]), Step(b, ops[0]), ops[1..]);
    }
  }

  /** A later token stands behind the one before it, apart by the spaces asked for in between. */
  lemma LaterOnLine(st: State, first: string, ops: seq<Op>, text: string)
    requires Silent(ops)
    ensures Run(st, [Write(first)] + ops + [Write(text)]).out
         == Step(st, Write(first)).out + Blanks(Spaces(ops)) + text
  {
    hide Run, Blanks;
    var due := Run(Step(st, Write(first)), ops);
    RunBetween(st, Write(first), ops, Write(text));
    SilentRun(Step(st, Write(first)), ops);
    assert Padding(due) == Blanks(Spaces(ops));
  }

  /** The depth that indentation calls ask for, which may go below zero. */
  function Nesting(ops: seq<Op>): int {
    if ops == [] then 0
    else (if ops[0].Indent? then 2 else if ops[0].Outdent? then -2 else 0) + Nesting(ops[1..])
  }

  /** Every prefix has at least as many indents as outdents. */
  predicate NeverBelow(depth: int, ops: seq<Op>)
    decreases |ops|
  {
    depth >= 0 && (ops == [] || NeverBelow(depth + Nesting([ops[0]]), ops[1..]))
  }

  /** Balanced indentation restores the depth. */
  lemma {:induction false} BalancedDepth(st: State, ops: seq<Op>)
    requires NeverBelow(st.depth, ops)
    ensures Run(st, ops).depth == st.depth + Nesting(ops)
    decreases |ops|
  {
    if ops == [] {
    } else {
      assert [ops[0]][1..] == [];
      assert Nesting([ops[0]]) == (if ops[0].Indent? then 2 else if ops[0].Outdent? then -2 else 0) + Nesting([]);
      var next := Step(st, ops[0]);
      assert NeverBelow(st.depth + Nesting([ops[0]]), ops[1..]);
      assert next.depth == st.depth + Nesting([ops[0]]);
      BalancedDepth(next, ops[1..]);
    }
  }

  /** A printed tree adds to the output what it writes and white space, and ends no line in a
      space. */
  lemma TreeLayout(st: State, d: Doc)
    ensures Erase(Put(st, d).out) == Erase(st.out) + Erase(Tokens(Ops(d)))
    ensures Trimmed(st.out) && (forall i :: 0 <= i < |Ops(d)| && Ops(d)[i].Write? ==> Visible(Ops(d)[i].text))
            ==> Trimmed(Put(st, d).out)
  {
    hide Put, Ops, Run, Erase, Trimmed;
    PutIsRun(st, d);
    RunErased(st, Ops(d));
    if Trimmed(st.out) && forall i :: 0 <= i < |Ops(d)| && Ops(d)[i].Write? ==> Visible(Ops(d)[i].text) {
      RunTrimmed(st, Ops(d));
    }
  }
}

/** The output formatter of src/Formatter.cpp: a stream, an indentation depth, a count of
    pending spaces and a flag saying that the current line is still blank. */
module Formatters {
  import opened Text

  /** A snapshot of a formatter. */
  datatype State = State(out: string, depth: nat, spaces: nat, blank: bool)

  const INITIAL := State("", 0, 0, true)

  /** One call of the formatter. */
  datatype Op = Write(text: string) | Nbsp | Line | Indent | Outdent

  /** The text that has to precede the next piece of output. */
  function Padding(st: State): string {
    (if st.blank then Blanks(st.depth) else "") + Blanks(st.spaces)
  }

  function Written(st: State, text: string): State {
    State(st.out + Padding(st) + text, st.depth, 0, false)
  }

  function Step(st: State, op: Op): State {
    match op
    case Write(text) => Written(st, text)
    case Nbsp => st.(spaces := st.spaces + 1)
    case Line => st.(out := st.out + "\n", blank := true, spaces := 0)
    case Indent => st.(depth := st.depth + 2)
    case Outdent => st.(depth := if st.depth >= 2 then st.depth - 2 else 0)
  }

  function Run(st: State, ops: seq<Op>): State
    decreases |ops|
  {
    if ops == [] then st else Run(Step(st, ops[0]), ops[1..])
  }

  lemma {:induction false} RunAppend(st: State, a: seq<Op>, b: seq<Op>)
    ensures Run(st, a + b) == Run(Run(st, a), b)
    decreases |a|
  {
    if a == [] {
      assert a + b == b;
    } else {
      assert (a + b)[1..] == a[1..] + b;
      RunAppend(Step(st, a[0]), a[1..], b);
    }
  }

  /** Once something has been written, nothing is due before the next piece. */
  lemma WrittenTwice(st: State, a: string, b: string)
    ensures Written(Written(st, a), b) == Written(st, a + b)
  {
    assert Padding(Written(st, a)) == "";
    assert (st.out + Padding(st) + a) + "" + b == st.out + Padding(st) + (a + b);
  }

  function Lparen(st: State): State {
    Step(Written(st, "("), Indent)
  }

  function Rparen(st: State): State {
    Written(Step(st, Outdent), ")")
  }

  class Formatter {
    var out: string
    var depth: nat
    var spaces: nat
    var blank: bool

    function St(): State
      reads this
    {
      State(out, depth, spaces, blank)
    }

    constructor ()
      ensures St() == INITIAL
    {
      out, depth, spaces, blank := "", 0, 0, true;
    }

    method NewLine()
      modifies this
      ensures St() == Step(old(St()), Line)
      ensures depth == old(depth)
    {
      out := out + "\n";
      blank := true;
      spaces := 0;
    }

    /** Writes what is due before the next piece of output. */
    method Nobreak()
      modifies this
      ensures St() == State(old(out) + Padding(old(St())), old(depth), 0, false)
    {
      if blank {
        var d := depth;
        while d > 0
          invariant 0 <= d <= depth
          invariant out == old(out) + Blanks(depth - d)
          invariant depth == old(depth) && spaces == old(spaces) && blank == old(blank)
        {
          out := out + " ";
          d := d - 1;
        }
        blank := false;
      }
      ghost var base := out;
      assert if old(blank) then base == old(out) + Blanks(depth) else base == old(out);
      while spaces > 0
        invariant spaces <= old(spaces)
        invariant out == base + Blanks(old(spaces) - spaces)
        invariant depth == old(depth) && !blank
      {
        out := out + " ";
        spaces := spaces - 1;
      }
      assert base + Blanks(old(spaces)) == old(out) + Padding(old(St()));
    }

    method AddNbsp()
      modifies this
      ensures St() == Step(old(St()), Nbsp)
      ensures depth == old(depth)
    {
      spaces := spaces + 1;
    }

    method AddIndent()
      modifies this
      ensures St() == Step(old(St()), Indent)
    {
      depth := depth + 2;
    }

    method SubIndent()
      requires depth >= 2
      modifies this
      ensures St() == Step(old(St()), Outdent)
    {
      depth := depth - 2;
    }

    method Put(text: string)
      modifies this
      ensures St() == Written(old(St()), text)
      ensures depth == old(depth)
    {
      Nobreak();
      out := out + text;
      blank := false;
    }

    method OpenParen()
      modifies this
      ensures St() == Lparen(old(St()))
      ensures depth == old(depth) + 2
    {
      Nobreak();
      out := out + "(";
      AddIndent();
    }

    method CloseParen()
      requires depth >= 2
      modifies this
      ensures St() == Rparen(old(St()))
      ensures depth == old(depth) - 2
    {
      SubIndent();
      Nobreak();
      out := out + ")";
    }

    /** A signed integer constant, delimited for Coq's `Z` scope. */
    method PutInteger(val: int)
      modifies this
      ensures St() == Written(Written(Written(old(St()), "("), Signed(val)), ")%Z")
      ensures depth == old(depth)
    {
      Put("(");
      Put(Signed(val));
      Put(")%Z");
    }
  }
}

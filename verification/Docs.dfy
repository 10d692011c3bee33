/** Documents: the shapes in which include/CoqPrinter.hpp writes Coq terms, with the gaps that
    the visitors leave between the arguments of a constructor. */
module Docs {
  import opened Text
  import opened Formatters
  import opened Lexing
  import opened CoqTerms

  /** What is asked for between two arguments: nothing, some pending spaces, or a new line. */
  datatype Gap = Tight | Nbsps(n: nat) | Broken

  datatype Doc =
    | DWord(text: string)
    | DQuoted(text: string)
    | DAnon(index: nat)
    | DScoped(text: string, scope: string)
    | DBoxed(val: int)
    | DRaw(head: string, arg: string)
    | DCtor(line: bool, head: string, args: Args)
    | DList(items: seq<Doc>)
    | DTuple(first: Doc, more: seq<Doc>)
    | DJoin(first: Doc, rest: Doc)

  datatype Args = Done(gap: Gap) | More(gap: Gap, doc: Doc, rest: Args)

  const SP := Nbsps(1)
  const END := Done(Tight)

  // ---- Printing a document -------------------------------------------------------------

  function Opened(st: State, head: string, line: bool): State {
    Step(Written(Lparen(if line then Step(st, Line) else st), head), Nbsp)
  }

  function Consed(st: State): State {
    Step(Written(Step(st, Nbsp), "::"), Nbsp)
  }

  function Quotation(st: State, text: string): State {
    Written(Written(Written(st, "\""), text), "\"")
  }

  function Nbspd(st: State, n: nat): (r: State)
    ensures r.depth == st.depth
    decreases n
  {
    if n == 0 then st else Nbspd(Step(st, Nbsp), n - 1)
  }

  function Gapped(st: State, gap: Gap): (r: State)
    ensures r.depth == st.depth
  {
    match gap
    case Tight => st
    case Nbsps(n) => Nbspd(st, n)
    case Broken => Step(st, Line)
  }

  function Put(st: State, d: Doc): (r: State)
    ensures r.depth == st.depth
    decreases d
  {
    match d
    case DWord(text) => Written(st, text)
    case DQuoted(text) => Quotation(st, text)
    case DAnon(n) => Written(Written(Written(st, "\"$"), Decimal(n)), "\"")
    case DScoped(text, scope) => Written(Written(st, text), "%" + scope)
    case DBoxed(v) =>
      Written(Written(Written(Written(Written(st, "("), "("), Signed(v)), ")%Z"), ")%Z")
    case DRaw(head, arg) => Written(st, "(" + head + " " + arg + ")")
    case DCtor(line, head, args) => Rparen(PutArgs(Opened(st, head, line), args))
    case DList(items) => Rparen(Written(PutItems(Lparen(st), items), "nil"))
    case DTuple(first, more) => Rparen(PutMore(Put(Lparen(st), first), more))
    case DJoin(first, rest) => Put(Consed(Put(st, first)), rest)
  }

  function PutArgs(st: State, args: Args): (r: State)
    ensures r.depth == st.depth
    decreases args
  {
    match args
    case Done(gap) => Gapped(st, gap)
    case More(gap, d, rest) => PutArgs(Put(Gapped(st, gap), d), rest)
  }

  function PutItems(st: State, items: seq<Doc>): (r: State)
    ensures r.depth == st.depth
    decreases items
  {
    if items == [] then st else PutItems(Consed(Put(st, items[0])), items[1..])
  }

  function PutMore(st: State, more: seq<Doc>): (r: State)
    ensures r.depth == st.depth
    decreases more
  {
    if more == [] then st
    else PutMore(Put(Step(Written(st, ","), Nbsp), more[0]), more[1..])
  }

  lemma PutCtor(st: State, line: bool, head: string, args: Args)
    ensures Put(st, DCtor(line, head, args)) == Rparen(PutArgs(Opened(st, head, line), args))
  {
  }

  function Arg(d: Doc, rest: Args): Args {
    More(SP, d, rest)
  }

  function Arg0(d: Doc, rest: Args): Args {
    More(Tight, d, rest)
  }

  lemma PutArg(st: State, d: Doc, rest: Args)
    ensures PutArgs(st, Arg(d, rest)) == PutArgs(Put(Step(st, Nbsp), d), rest)
  {
    assert Nbspd(Step(st, Nbsp), 0) == Step(st, Nbsp);
  }

  lemma PutEnd(st: State)
    ensures PutArgs(st, END) == st
  {
  }

  /** Constructors with one, two and three arguments ahead of the rest. */
  lemma PutCtor1(st: State, line: bool, head: string, a: Doc, rest: Args)
    ensures Put(st, DCtor(line, head, Arg0(a, rest)))
         == Rparen(PutArgs(Put(Opened(st, head, line), a), rest))
  {
  }

  lemma PutCtor2(st: State, line: bool, head: string, a: Doc, b: Doc, rest: Args)
    ensures Put(st, DCtor(line, head, Arg0(a, Arg(b, rest))))
         == Rparen(PutArgs(Put(Step(Put(Opened(st, head, line), a), Nbsp), b), rest))
  {
    PutCtor1(st, line, head, a, Arg(b, rest));
    PutArg(Put(Opened(st, head, line), a), b, rest);
  }

  lemma PutCtor3(st: State, line: bool, head: string, a: Doc, b: Doc, c: Doc, rest: Args)
    ensures Put(st, DCtor(line, head, Arg0(a, Arg(b, Arg(c, rest)))))
         == Rparen(PutArgs(Put(Step(Put(Step(Put(Opened(st, head, line), a), Nbsp), b), Nbsp), c), rest))
  {
    PutCtor2(st, line, head, a, b, Arg(c, rest));
    PutArg(Put(Step(Put(Opened(st, head, line), a), Nbsp), b), c, rest);
  }

  lemma PutCtor5(st: State, line: bool, head: string, a: Doc, b: Doc, c: Doc, d: Doc, e: Doc, rest: Args)
    ensures var st3 := Put(Step(Put(Step(Put(Opened(st, head, line), a), Nbsp), b), Nbsp), c);
            Put(st, DCtor(line, head, Arg0(a, Arg(b, Arg(c, Arg(d, Arg(e, rest)))))))
            == Rparen(PutArgs(Put(Step(Put(Step(st3, Nbsp), d), Nbsp), e), rest))
  {
    hide Put, PutArgs, Step;
    var st3 := Put(Step(Put(Step(Put(Opened(st, head, line), a), Nbsp), b), Nbsp), c);
    PutCtor3(st, line, head, a, b, c, Arg(d, Arg(e, rest)));
    PutArg(st3, d, Arg(e, rest));
    PutArg(Put(Step(st3, Nbsp), d), e, rest);
  }

  // ---- The calls that printing a document makes ------------------------------------------

  function OpenOps(head: string, line: bool): seq<Op> {
    (if line then [Line] else []) + [Write("("), Indent, Write(head), Nbsp]
  }

  const CLOSE: seq<Op> := [Outdent, Write(")")]
  const CONS: seq<Op> := [Nbsp, Write("::"), Nbsp]

  function GapOps(gap: Gap): seq<Op> {
    match gap
    case Tight => []
    case Nbsps(n) => seq(n, _ => Nbsp)
    case Broken => [Line]
  }

  function Ops(d: Doc): seq<Op>
    decreases d
  {
    match d
    case DWord(text) => [Write(text)]
    case DQuoted(text) => [Write("\""), Write(text), Write("\"")]
    case DAnon(n) => [Write("\"$"), Write(Decimal(n)), Write("\"")]
    case DScoped(text, scope) => [Write(text), Write("%" + scope)]
    case DBoxed(v) => [Write("("), Write("("), Write(Signed(v)), Write(")%Z"), Write(")%Z")]
    case DRaw(head, arg) => [Write("(" + head + " " + arg + ")")]
    case DCtor(line, head, args) => OpenOps(head, line) + (OpsArgs(args) + CLOSE)
    case DList(items) => [Write("("), Indent] + (OpsItems(items) + ([Write("nil")] + CLOSE))
    case DTuple(first, more) => [Write("("), Indent] + (Ops(first) + (OpsMore(more) + CLOSE))
    case DJoin(first, rest) => Ops(first) + (CONS + Ops(rest))
  }

  function OpsArgs(args: Args): seq<Op>
    decreases args
  {
    match args
    case Done(gap) => GapOps(gap)
    case More(gap, d, rest) => GapOps(gap) + (Ops(d) + OpsArgs(rest))
  }

  function OpsItems(items: seq<Doc>): seq<Op>
    decreases items
  {
    if items == [] then [] else Ops(items[0]) + (CONS + OpsItems(items[1..]))
  }

  function OpsMore(more: seq<Doc>): seq<Op>
    decreases more
  {
    if more == [] then [] else [Write(","), Nbsp] + (Ops(more[0]) + OpsMore(more[1..]))
  }

  lemma Run1(st: State, a: Op)
    ensures Run(st, [a]) == Step(st, a)
  {
    assert Run(Step(st, a), [a][1..]) == Step(st, a);
  }

  lemma Run2(st: State, a: Op, b: Op)
    ensures Run(st, [a, b]) == Step(Step(st, a), b)
  {
    assert [a, b][1..] == [b];
    Run1(Step(st, a), b);
  }

  lemma Run3(st: State, a: Op, b: Op, c: Op)
    ensures Run(st, [a, b, c]) == Step(Step(Step(st, a), b), c)
  {
    assert [a, b, c][1..] == [b, c];
    Run2(Step(st, a), b, c);
  }

  lemma RunOpen(st: State, head: string, line: bool)
    ensures Run(st, OpenOps(head, line)) == Opened(st, head, line)
  {
    var tail := [Write("("), Indent, Write(head), Nbsp];
    assert tail == [Write("(")] + [Indent, Write(head), Nbsp];
    var s := if line then Step(st, Line) else st;
    RunAppend(st, if line then [Line] else [], tail);
    Run1(st, Line);
    RunAppend(s, [Write("(")], [Indent, Write(head), Nbsp]);
    Run1(s, Write("("));
    Run3(Step(s, Write("(")), Indent, Write(head), Nbsp);
  }

  lemma {:induction false} RunGap(st: State, gap: Gap)
    ensures Run(st, GapOps(gap)) == Gapped(st, gap)
    decreases if gap.Nbsps? then gap.n else 0
  {
    match gap
    case Tight =>
    case Broken => Run1(st, Line);
    case Nbsps(n) =>
      if n > 0 {
        assert GapOps(gap)[1..] == GapOps(Nbsps(n - 1));
        RunGap(Step(st, Nbsp), Nbsps(n - 1));
      }
  }

  lemma BoxedIsRun(st: State, v: int)
    ensures Put(st, DBoxed(v)) == Run(st, Ops(DBoxed(v)))
  {
    hide Step;
    var a := [Write("("), Write("("), Write(Signed(v))];
    assert Ops(DBoxed(v)) == a + [Write(")%Z"), Write(")%Z")];
    RunAppend(st, a, [Write(")%Z"), Write(")%Z")]);
    Run3(st, Write("("), Write("("), Write(Signed(v)));
    Run2(Run(st, a), Write(")%Z"), Write(")%Z"));
    BoxedSteps(st, v);
  }

  lemma BoxedSteps(st: State, v: int)
    ensures Put(st, DBoxed(v)) ==
            Step(Step(Step(Step(Step(st, Write("(")), Write("(")), Write(Signed(v))), Write(")%Z")), Write(")%Z"))
  {
    hide Signed;
  }

  /** Printing a document is exactly the run of its formatter calls. */
  lemma {:induction false} PutIsRun(st: State, d: Doc)
    ensures Put(st, d) == Run(st, Ops(d))
    decreases d, 1
  {
    hide Run;
    match d
    case DWord(text) => Run1(st, Write(text));
    case DQuoted(text) => Run3(st, Write("\""), Write(text), Write("\""));
    case DAnon(n) => Run3(st, Write("\"$"), Write(Decimal(n)), Write("\""));
    case DScoped(text, scope) => Run2(st, Write(text), Write("%" + scope));
    case DBoxed(v) => BoxedIsRun(st, v);
    case DRaw(head, arg) => Run1(st, Write("(" + head + " " + arg + ")"));
    case DCtor(_, _, _) => CtorIsRun(st, d);
    case DList(_) => ListIsRun(st, d);
    case DTuple(_, _) => TupleIsRun(st, d);
    case DJoin(_, _) => JoinIsRun(st, d);
  }

  lemma {:induction false} CtorIsRun(st: State, d: Doc)
    requires d.DCtor?
    ensures Put(st, d) == Run(st, Ops(d))
    decreases d, 0
  {
    hide Run;
    var DCtor(line, head, args) := d;
    RunAppend(st, OpenOps(head, line), OpsArgs(args) + CLOSE);
    RunOpen(st, head, line);
    var s := Opened(st, head, line);
    RunAppend(s, OpsArgs(args), CLOSE);
    PutArgsIsRun(s, args);
    Run2(PutArgs(s, args), Outdent, Write(")"));
  }

  lemma {:induction false} ListIsRun(st: State, d: Doc)
    requires d.DList?
    ensures Put(st, d) == Run(st, Ops(d))
    decreases d, 0
  {
    hide Run;
    var DList(items) := d;
    RunAppend(st, [Write("("), Indent], OpsItems(items) + ([Write("nil")] + CLOSE));
    Run2(st, Write("("), Indent);
    var s := Lparen(st);
    RunAppend(s, OpsItems(items), [Write("nil")] + CLOSE);
    PutItemsIsRun(s, items);
    var s' := PutItems(s, items);
    RunAppend(s', [Write("nil")], CLOSE);
    Run1(s', Write("nil"));
    Run2(Written(s', "nil"), Outdent, Write(")"));
  }

  lemma {:induction false} TupleIsRun(st: State, d: Doc)
    requires d.DTuple?
    ensures Put(st, d) == Run(st, Ops(d))
    decreases d, 0
  {
    hide Run;
    var DTuple(first, more) := d;
    RunAppend(st, [Write("("), Indent], Ops(first) + (OpsMore(more) + CLOSE));
    Run2(st, Write("("), Indent);
    var s := Lparen(st);
    RunAppend(s, Ops(first), OpsMore(more) + CLOSE);
    PutIsRun(s, first);
    var s' := Put(s, first);
    RunAppend(s', OpsMore(more), CLOSE);
    PutMoreIsRun(s', more);
    Run2(PutMore(s', more), Outdent, Write(")"));
  }

  lemma {:induction false} JoinIsRun(st: State, d: Doc)
    requires d.DJoin?
    ensures Put(st, d) == Run(st, Ops(d))
    decreases d, 0
  {
    hide Run;
    var DJoin(first, rest) := d;
    RunAppend(st, Ops(first), CONS + Ops(rest));
    PutIsRun(st, first);
    var s := Put(st, first);
    RunAppend(s, CONS, Ops(rest));
    Run3(s, Nbsp, Write("::"), Nbsp);
    PutIsRun(Consed(s), rest);
  }

  lemma {:induction false} PutArgsIsRun(st: State, args: Args)
    ensures PutArgs(st, args) == Run(st, OpsArgs(args))
    decreases args
  {
    RunGap(st, args.gap);
    if args.Done? {
    } else {
      RunAppend(st, GapOps(args.gap), Ops(args.doc) + OpsArgs(args.rest));
      var s := Gapped(st, args.gap);
      RunAppend(s, Ops(args.doc), OpsArgs(args.rest));
      PutIsRun(s, args.doc);
      PutArgsIsRun(Put(s, args.doc), args.rest);
    }
  }

  lemma {:induction false} PutItemsIsRun(st: State, items: seq<Doc>)
    ensures PutItems(st, items) == Run(st, OpsItems(items))
    decreases items
  {
    if items == [] {
    } else {
      RunAppend(st, Ops(items[0]), CONS + OpsItems(items[1..]));
      PutIsRun(st, items[0]);
      var s := Put(st, items[0]);
      RunAppend(s, CONS, OpsItems(items[1..]));
      Run3(s, Nbsp, Write("::"), Nbsp);
      PutItemsIsRun(Consed(s), items[1..]);
    }
  }

  lemma {:induction false} PutMoreIsRun(st: State, more: seq<Doc>)
    ensures PutMore(st, more) == Run(st, OpsMore(more))
    decreases more
  {
    if more == [] {
    } else {
      RunAppend(st, [Write(","), Nbsp], Ops(more[0]) + OpsMore(more[1..]));
      Run2(st, Write(","), Nbsp);
      var s := Step(Written(st, ","), Nbsp);
      RunAppend(s, Ops(more[0]), OpsMore(more[1..]));
      PutIsRun(s, more[0]);
      PutMoreIsRun(Put(s, more[0]), more[1..]);
    }
  }
}

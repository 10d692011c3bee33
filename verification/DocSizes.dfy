/** Counting the tokens of a document. Parentheses are not counted. */
module DocSizes {
  import opened Text
  import opened Lexing
  import opened CoqTerms
  import opened Docs
  import opened DocReading
  import opened DocTerms
  import opened DocParsing

  /** The tokens that are written for a document. */
  function Tokens(d: Doc): nat {
    Weight(Yield(d))
  }

  function ArgTokens(args: Args): nat {
    Weight(YieldArgs(args))
  }

  /** Every element is followed by a sign. */
  function ItemTokens(items: seq<Doc>): nat {
    Weight(YieldItems(items))
  }

  /** They are those of its term. */
  lemma TermTokens(d: Doc)
    requires Spelled(d)
    ensures Tokens(d) == Size(TermOf(d))
  {
    hide Yield, TermOf, Size, ParseTerm;
    assert Yield(d) + [] == Yield(d);
    ParseWhole(d, []);
    TermWeight(Yield(d));
  }

  lemma Weight1(a: Tok)
    ensures Weight([a]) == if a.LP? || a.RP? then 0 else 1
  {
    assert [a][1..] == [];
  }

  lemma WordTokens(w: string)
    ensures Tokens(DWord(w)) == 1 && Tokens(DQuoted(w)) == 1
  {
    Weight1(Word(w));
    Weight1(Str(w));
  }

  lemma CtorTokens(line: bool, head: string, args: Args)
    ensures Tokens(DCtor(line, head, args)) == 1 + ArgTokens(args)
  {
    hide Weight;
    var a := YieldArgs(args);
    assert [LP, Word(head)] == [LP] + [Word(head)];
    WeightAppend([LP], [Word(head)]);
    WeightAppend([LP, Word(head)], a + [RP]);
    WeightAppend(a, [RP]);
    Weight1(LP);
    Weight1(Word(head));
    Weight1(RP);
  }

  lemma MoreTokens(g: Gap, d: Doc, rest: Args)
    ensures ArgTokens(More(g, d, rest)) == Tokens(d) + ArgTokens(rest)
  {
    hide Weight;
    WeightAppend(Yield(d), YieldArgs(rest));
  }

  lemma DoneTokens(g: Gap)
    ensures ArgTokens(Done(g)) == 0
  {
  }

  /** Constructors with one to four arguments. */
  lemma Tokens1(line: bool, head: string, g0: Gap, a: Doc, g: Gap)
    ensures Tokens(DCtor(line, head, More(g0, a, Done(g)))) == 1 + Tokens(a)
  {
    hide Tokens, ArgTokens;
    DoneTokens(g);
    MoreTokens(g0, a, Done(g));
    CtorTokens(line, head, More(g0, a, Done(g)));
  }

  lemma Tokens2(line: bool, head: string, g0: Gap, a: Doc, g1: Gap, b: Doc)
    ensures Tokens(DCtor(line, head, More(g0, a, More(g1, b, END)))) == 1 + Tokens(a) + Tokens(b)
  {
    hide Tokens, ArgTokens;
    DoneTokens(Tight);
    MoreTokens(g1, b, END);
    MoreTokens(g0, a, More(g1, b, END));
    CtorTokens(line, head, More(g0, a, More(g1, b, END)));
  }

  lemma Tokens3(line: bool, head: string, g0: Gap, a: Doc, g1: Gap, b: Doc, g2: Gap, c: Doc)
    ensures Tokens(DCtor(line, head, More(g0, a, More(g1, b, More(g2, c, END)))))
         == 1 + Tokens(a) + Tokens(b) + Tokens(c)
  {
    hide Tokens, ArgTokens;
    var rest := More(g1, b, More(g2, c, END));
    DoneTokens(Tight);
    MoreTokens(g2, c, END);
    MoreTokens(g1, b, More(g2, c, END));
    MoreTokens(g0, a, rest);
    CtorTokens(line, head, More(g0, a, rest));
  }

  lemma Tokens4(head: string, a: Doc, b: Doc, c: Doc, d: Doc)
    ensures Tokens(DCtor(true, head, Arg0(a, Arg(b, Arg(c, Arg(d, END))))))
         == 1 + Tokens(a) + Tokens(b) + Tokens(c) + Tokens(d)
  {
    hide Tokens, ArgTokens;
    DoneTokens(Tight);
    MoreTokens(SP, d, END);
    MoreTokens(SP, c, Arg(d, END));
    MoreTokens(SP, b, Arg(c, Arg(d, END)));
    MoreTokens(Tight, a, Arg(b, Arg(c, Arg(d, END))));
    CtorTokens(true, head, Arg0(a, Arg(b, Arg(c, Arg(d, END)))));
  }

  lemma ListTokens(items: seq<Doc>)
    ensures Tokens(DList(items)) == ItemTokens(items) + 1
  {
    hide Weight;
    var a := YieldItems(items);
    assert [Word("nil"), RP] == [Word("nil")] + [RP];
    WeightAppend([LP], a + [Word("nil"), RP]);
    WeightAppend(a, [Word("nil"), RP]);
    WeightAppend([Word("nil")], [RP]);
    Weight1(LP);
    Weight1(Word("nil"));
    Weight1(RP);
  }

  lemma JoinTokens(a: Doc, b: Doc)
    ensures Tokens(DJoin(a, b)) == Tokens(a) + 1 + Tokens(b)
  {
    hide Weight;
    WeightAppend(Yield(a), [Sym("::")] + Yield(b));
    WeightAppend([Sym("::")], Yield(b));
    Weight1(Sym("::"));
  }

  lemma ItemsMore(items: seq<Doc>)
    ensures items == [] ==> ItemTokens(items) == 0
    ensures items != [] ==> ItemTokens(items) == Tokens(items[0]) + 1 + ItemTokens(items[1..])
  {
    if items == [] {
    } else {
      hide Weight;
      WeightAppend(Yield(items[0]), [Sym("::")] + YieldItems(items[1..]));
      WeightAppend([Sym("::")], YieldItems(items[1..]));
      Weight1(Sym("::"));
    }
  }
}

/** The term for which a document stands. */
module DocTerms {
  import opened Text
  import opened CoqTerms
  import opened Docs

  function NumeralTerm(v: int): Term {
    if v < 0 then Minus(Ident(Decimal(-v))) else Ident(Decimal(v))
  }

  function BoxedTerm(v: int): Term {
    Scoped(Scoped(NumeralTerm(v), "Z"), "Z")
  }

  /** `t1 :: t2 :: … :: tail` */
  function Chain(ts: seq<Term>, tail: Term): Term {
    if ts == [] then tail else Infix("::", ts[0], Chain(ts[1..], tail))
  }

  const NIL := Ident("nil")

  /** A label joined to an argument ends the application and starts a list cell, because `::`
      binds more loosely. */
  function TermOf(d: Doc): Term
    decreases d, 0
  {
    match d
    case DWord(text) => Ident(text)
    case DQuoted(text) => Lit(text)
    case DAnon(n) => Lit("$" + Decimal(n))
    case DScoped(text, scope) => Scoped(Ident(text), scope)
    case DBoxed(v) => BoxedTerm(v)
    case DRaw(head, arg) => Apply(Ident(head), [Ident(arg)])
    case DCtor(_, head, args) => Headed(Ident(head), args)
    case DList(items) => Chain(ItemTerms(items), NIL)
    case DTuple(first, more) => Tuple([TermOf(first)] + PartTerms(more))
    case DJoin(first, rest) => Infix("::", TermOf(first), TermOf(rest))
  }

  /** A term applied to arguments. */
  function Headed(t: Term, args: Args): Term
    decreases args, 2
  {
    var applied := Applied([t] + Group(args));
    match Behind(args)
    case Some(more) => Infix("::", applied, more)
    case None => applied
  }

  /** The arguments up to the first joined label, that label included. */
  function Group(args: Args): seq<Term>
    decreases args, 0
  {
    if args.Done? then []
    else if args.doc.DJoin? then [Elements(args.doc)[0]]
    else [TermOf(args.doc)] + Group(args.rest)
  }

  /** What stands behind that label; the last element joined to it is applied to the arguments
      that follow. */
  function Behind(args: Args): Option<Term>
    decreases args, 1
  {
    if args.Done? then None
    else if args.doc.DJoin? then Some(Trailing(Elements(args.doc)[1..], args.rest))
    else Behind(args.rest)
  }

  function Trailing(ts: seq<Term>, args: Args): Term
    requires ts != []
    decreases args, 3, |ts|
  {
    if |ts| == 1 then Headed(ts[0], args) else Infix("::", ts[0], Trailing(ts[1..], args))
  }

  function PartTerms(parts: seq<Doc>): seq<Term>
    decreases parts
  {
    if parts == [] then [] else [TermOf(parts[0])] + PartTerms(parts[1..])
  }

  /** The list elements a document contributes: a run of joined labels contributes several. */
  function Elements(d: Doc): (ts: seq<Term>)
    ensures ts != [] && (d.DJoin? ==> |ts| > 1)
    decreases d, 1
  {
    if d.DJoin? then [TermOf(d.first)] + Elements(d.rest) else [TermOf(d)]
  }

  function ItemTerms(items: seq<Doc>): seq<Term>
    decreases items
  {
    if items == [] then [] else Elements(items[0]) + ItemTerms(items[1..])
  }

  // ---- Constructors --------------------------------------------------------------------------

  lemma OneMore(g: Gap, d: Doc, rest: Args)
    ensures d.DJoin? ==> Behind(More(g, d, rest)).Some?
    ensures !d.DJoin? ==> Group(More(g, d, rest)) == [TermOf(d)] + Group(rest)
    ensures !d.DJoin? ==> Behind(More(g, d, rest)) == Behind(rest)
  {
  }

  lemma NoMore(g: Gap)
    ensures Group(Done(g)) == [] && Behind(Done(g)) == None
  {
  }

  lemma CtorTerm(line: bool, head: string, args: Args)
    ensures Behind(args).None? && Group(args) != [] ==>
      TermOf(DCtor(line, head, args)) == Apply(Ident(head), Group(args))
    ensures Behind(args).Some? ==> TermOf(DCtor(line, head, args)).Infix?
  {
    assert ([Ident(head)] + Group(args))[1..] == Group(args);
  }

  /** Constructors with one to four arguments; a joined label among them makes a list cell. */
  lemma Terms1(line: bool, head: string, g0: Gap, a: Doc, g: Gap)
    ensures var t := TermOf(DCtor(line, head, More(g0, a, Done(g))));
            if a.DJoin? then t.Infix? else t == Apply(Ident(head), [TermOf(a)])
  {
    hide TermOf, Group, Behind;
    NoMore(g);
    OneMore(g0, a, Done(g));
    CtorTerm(line, head, More(g0, a, Done(g)));
    assert [TermOf(a)] + [] == [TermOf(a)];
  }

  lemma Terms2(line: bool, head: string, g0: Gap, a: Doc, g1: Gap, b: Doc)
    ensures var t := TermOf(DCtor(line, head, More(g0, a, More(g1, b, END))));
            if a.DJoin? || b.DJoin? then t.Infix? else t == Apply(Ident(head), [TermOf(a), TermOf(b)])
  {
    hide TermOf, Group, Behind;
    NoMore(Tight);
    OneMore(g1, b, END);
    OneMore(g0, a, More(g1, b, END));
    CtorTerm(line, head, More(g0, a, More(g1, b, END)));
    assert [TermOf(a)] + ([TermOf(b)] + []) == [TermOf(a), TermOf(b)];
  }

  lemma Terms3(line: bool, head: string, g0: Gap, a: Doc, g1: Gap, b: Doc, g2: Gap, c: Doc)
    ensures var t := TermOf(DCtor(line, head, More(g0, a, More(g1, b, More(g2, c, END)))));
            if a.DJoin? || b.DJoin? || c.DJoin? then t.Infix?
            else t == Apply(Ident(head), [TermOf(a), TermOf(b), TermOf(c)])
  {
    hide TermOf, Group, Behind;
    NoMore(Tight);
    OneMore(g2, c, END);
    OneMore(g1, b, More(g2, c, END));
    OneMore(g0, a, More(g1, b, More(g2, c, END)));
    CtorTerm(line, head, More(g0, a, More(g1, b, More(g2, c, END))));
    assert [TermOf(a)] + ([TermOf(b)] + ([TermOf(c)] + [])) == [TermOf(a), TermOf(b), TermOf(c)];
  }

  lemma Terms4(head: string, a: Doc, b: Doc, c: Doc, d: Doc)
    ensures var t := TermOf(DCtor(true, head, Arg0(a, Arg(b, Arg(c, Arg(d, END))))));
            if a.DJoin? || b.DJoin? || c.DJoin? || d.DJoin? then t.Infix?
            else t == Apply(Ident(head), [TermOf(a), TermOf(b), TermOf(c), TermOf(d)])
  {
    hide TermOf, Group, Behind;
    NoMore(Tight);
    OneMore(SP, d, END);
    OneMore(SP, c, Arg(d, END));
    OneMore(SP, b, Arg(c, Arg(d, END)));
    OneMore(Tight, a, Arg(b, Arg(c, Arg(d, END))));
    CtorTerm(true, head, Arg0(a, Arg(b, Arg(c, Arg(d, END)))));
    assert [TermOf(a)] + ([TermOf(b)] + ([TermOf(c)] + ([TermOf(d)] + [])))
        == [TermOf(a), TermOf(b), TermOf(c), TermOf(d)];
  }

  lemma Terms5(head: string, a: Doc, b: Doc, c: Doc, d: Doc, e: Doc)
    requires !a.DJoin? && !b.DJoin? && !c.DJoin? && !d.DJoin? && !e.DJoin?
    ensures TermOf(DCtor(true, head, Arg0(a, Arg(b, Arg(c, Arg(d, Arg(e, END)))))))
         == Apply(Ident(head), [TermOf(a), TermOf(b), TermOf(c), TermOf(d), TermOf(e)])
  {
    hide TermOf, Group, Behind;
    var rest := Arg(b, Arg(c, Arg(d, Arg(e, END))));
    FourArgTerms(b, c, d, e);
    OneMore(Tight, a, rest);
    CtorTerm(true, head, Arg0(a, rest));
    assert [TermOf(a)] + [TermOf(b), TermOf(c), TermOf(d), TermOf(e)]
        == [TermOf(a), TermOf(b), TermOf(c), TermOf(d), TermOf(e)];
  }

  lemma FourArgTerms(b: Doc, c: Doc, d: Doc, e: Doc)
    requires !b.DJoin? && !c.DJoin? && !d.DJoin? && !e.DJoin?
    ensures var rest := Arg(b, Arg(c, Arg(d, Arg(e, END))));
            Group(rest) == [TermOf(b), TermOf(c), TermOf(d), TermOf(e)] && Behind(rest) == None
  {
    hide TermOf, Group, Behind;
    NoMore(Tight);
    OneMore(SP, e, END);
    OneMore(SP, d, Arg(e, END));
    OneMore(SP, c, Arg(d, Arg(e, END)));
    OneMore(SP, b, Arg(c, Arg(d, Arg(e, END))));
    assert [TermOf(b)] + ([TermOf(c)] + ([TermOf(d)] + ([TermOf(e)] + [])))
        == [TermOf(b), TermOf(c), TermOf(d), TermOf(e)];
  }

  lemma Terms6(head: string, a: Doc, b: Doc, c: Doc, d: Doc, e: Doc, f: Doc)
    requires !a.DJoin? && !b.DJoin? && !c.DJoin? && !d.DJoin? && !e.DJoin? && !f.DJoin?
    ensures TermOf(DCtor(true, head, Arg0(a, Arg(b, Arg0(c, Arg(d, Arg(e, Arg(f, END))))))))
         == Apply(Ident(head), [TermOf(a), TermOf(b), TermOf(c), TermOf(d), TermOf(e), TermOf(f)])
  {
    hide TermOf, Group, Behind;
    NoMore(Tight);
    OneMore(SP, f, END);
    OneMore(SP, e, Arg(f, END));
    OneMore(SP, d, Arg(e, Arg(f, END)));
    var rest := Arg(d, Arg(e, Arg(f, END)));
    OneMore(Tight, c, rest);
    OneMore(SP, b, Arg0(c, rest));
    OneMore(Tight, a, Arg(b, Arg0(c, rest)));
    CtorTerm(true, head, Arg0(a, Arg(b, Arg0(c, rest))));
    assert [TermOf(a)] + ([TermOf(b)] + ([TermOf(c)] + ([TermOf(d)] + ([TermOf(e)] + ([TermOf(f)] + [])))))
        == [TermOf(a), TermOf(b), TermOf(c), TermOf(d), TermOf(e), TermOf(f)];
  }

  lemma Terms7(head: string, a: Doc, b: Doc, c: Doc, d: Doc, e: Doc, f: Doc, g: Doc)
    requires !a.DJoin? && !b.DJoin? && !c.DJoin? && !d.DJoin? && !e.DJoin? && !f.DJoin? && !g.DJoin?
    ensures TermOf(DCtor(true, head, Arg0(a, Arg(b, Arg(c, Arg(d, Arg(e, Arg(f, Arg(g, END)))))))))
         == Apply(Ident(head), [TermOf(a), TermOf(b), TermOf(c), TermOf(d), TermOf(e), TermOf(f), TermOf(g)])
  {
    hide TermOf, Group, Behind;
    var rest := Arg(d, Arg(e, Arg(f, Arg(g, END))));
    FourArgTerms(d, e, f, g);
    OneMore(SP, c, rest);
    OneMore(SP, b, Arg(c, rest));
    OneMore(Tight, a, Arg(b, Arg(c, rest)));
    CtorTerm(true, head, Arg0(a, Arg(b, Arg(c, rest))));
    assert [TermOf(a)] + ([TermOf(b)] + ([TermOf(c)] + [TermOf(d), TermOf(e), TermOf(f), TermOf(g)]))
        == [TermOf(a), TermOf(b), TermOf(c), TermOf(d), TermOf(e), TermOf(f), TermOf(g)];
  }

  lemma WordTerm(text: string)
    ensures TermOf(DWord(text)) == Ident(text)
  {
  }

  lemma QuotedTerm(text: string)
    ensures TermOf(DQuoted(text)) == Lit(text)
  {
  }

  lemma ListTerm(docs: seq<Doc>)
    ensures TermOf(DList(docs)) == Chain(ItemTerms(docs), NIL)
  {
  }
}

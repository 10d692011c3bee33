/** Reading documents back: the tokens a document stands for, when the lexer recovers exactly
    these from the printed text, and the term to which they parse. */
module DocReading {
  import opened Text
  import opened Formatters
  import opened Lexing
  import opened CoqTerms
  import opened Docs

  // ---- Tokens ----------------------------------------------------------------------------

  function NumeralToks(v: int): seq<Tok> {
    if v < 0 then [Sym("-"), Word(Decimal(-v))] else [Word(Decimal(v))]
  }

  const Z_SCOPE: seq<Tok> := [Sym("%"), Word("Z")]

  function BoxedToks(v: int): seq<Tok> {
    NumeralToks(v) + ([RP] + Z_SCOPE + ([RP] + Z_SCOPE))
  }

  function Yield(d: Doc): (toks: seq<Tok>)
    ensures |toks| > 0
    decreases d
  {
    match d
    case DWord(text) => [Word(text)]
    case DQuoted(text) => [Str(text)]
    case DAnon(n) => [Str("$" + Decimal(n))]
    case DScoped(text, scope) => [Word(text), Sym("%"), Word(scope)]
    case DBoxed(v) => [LP, LP] + BoxedToks(v)
    case DRaw(head, arg) => [LP, Word(head), Word(arg), RP]
    case DCtor(_, head, args) => [LP, Word(head)] + (YieldArgs(args) + [RP])
    case DList(items) => [LP] + (YieldItems(items) + [Word("nil"), RP])
    case DTuple(first, more) => [LP] + (Yield(first) + (YieldMore(more) + [RP]))
    case DJoin(first, rest) => Yield(first) + ([Sym("::")] + Yield(rest))
  }

  function YieldArgs(args: Args): seq<Tok>
    decreases args
  {
    if args.Done? then [] else Yield(args.doc) + YieldArgs(args.rest)
  }

  function YieldItems(items: seq<Doc>): seq<Tok>
    decreases items
  {
    if items == [] then [] else Yield(items[0]) + ([Sym("::")] + YieldItems(items[1..]))
  }

  function YieldMore(more: seq<Doc>): seq<Tok>
    decreases more
  {
    if more == [] then [] else [Comma] + (Yield(more[0]) + YieldMore(more[1..]))
  }

  /** Words are words, names contain no quote, a tuple has two components or more, and labels are
      joined one by one. */
  predicate Spelled(d: Doc)
    decreases d
  {
    match d
    case DWord(text) => IsWord(text)
    case DQuoted(text) => IsPlain(text)
    case DAnon(_) => true
    case DScoped(text, scope) => IsWord(text) && IsWord(scope)
    case DBoxed(_) => true
    case DRaw(head, arg) => IsWord(head) && IsWord(arg)
    case DCtor(_, head, args) => IsWord(head) && SpelledArgs(args)
    case DList(items) => forall i :: 0 <= i < |items| ==> Spelled(items[i])
    case DTuple(first, more) =>
      more != [] && Spelled(first) && forall i :: 0 <= i < |more| ==> Spelled(more[i])
    case DJoin(first, rest) => !first.DJoin? && Spelled(first) && Spelled(rest)
  }

  predicate SpelledArgs(args: Args)
    decreases args
  {
    args.More? ==> Spelled(args.doc) && SpelledArgs(args.rest)
  }

  // ---- Lexing ----------------------------------------------------------------------------

  /** How a piece of text can run into its neighbour: as a word, as a string, or not at all. */
  datatype Edge = Free | Solid | Quote

  function EdgeOf(m: Mode): Edge {
    match m
    case InWord(_) => Solid
    case Quoted(_) => Quote
    case _ => Free
  }

  function First(d: Doc): Edge
    decreases d
  {
    match d
    case DWord(_) => Solid
    case DScoped(_, _) => Solid
    case DQuoted(_) => Quote
    case DAnon(_) => Quote
    case DJoin(first, _) => First(first)
    case _ => Free
  }

  function Last(d: Doc): Edge
    decreases d
  {
    match d
    case DWord(_) => Solid
    case DScoped(_, _) => Solid
    case DBoxed(_) => Solid
    case DQuoted(_) => Quote
    case DAnon(_) => Quote
    case DJoin(_, rest) => Last(rest)
    case _ => Free
  }

  function Fuse(a: Edge, b: Edge): nat {
    if a != Free && a == b then 1 else 0
  }

  predicate IsTight(gap: Gap) {
    gap == Tight || gap == Nbsps(0)
  }

  /** The number of places where two tokens of the document run together. */
  function Fusions(d: Doc): nat
    decreases d
  {
    match d
    case DCtor(_, _, args) => FusionsArgs(Free, args)
    case DList(items) => FusionsItems(items)
    case DTuple(first, more) => Fusions(first) + FusionsItems(more)
    case DJoin(first, rest) => Fusions(first) + Fusions(rest)
    case _ => 0
  }

  function FusionsArgs(prev: Edge, args: Args): nat
    decreases args
  {
    if args.Done? then 0
    else
      (if IsTight(args.gap) then Fuse(prev, First(args.doc)) else 0)
      + Fusions(args.doc) + FusionsArgs(Last(args.doc), args.rest)
  }

  function FusionsItems(items: seq<Doc>): nat
    decreases items
  {
    if items == [] then 0 else Fusions(items[0]) + FusionsItems(items[1..])
  }

  lemma Ops1(lx: Lexer, a: Op)
    ensures FeedOps(lx, [a]) == FeedOp(lx, a)
    ensures Unbroken(lx, [a]) <==> (a.Nbsp? || a.Line? ==> !lx.mode.InStr?)
  {
    assert FeedOps(FeedOp(lx, a), [a][1..]) == FeedOp(lx, a);
  }

  lemma OpsThen(lx: Lexer, a: Op, more: seq<Op>)
    ensures FeedOps(lx, [a] + more) == FeedOps(FeedOp(lx, a), more)
    ensures Unbroken(lx, [a] + more) <==>
            (a.Nbsp? || a.Line? ==> !lx.mode.InStr?) && Unbroken(FeedOp(lx, a), more)
  {
    assert ([a] + more)[1..] == more;
  }

  lemma Ops2(lx: Lexer, a: Op, b: Op)
    ensures FeedOps(lx, [a, b]) == FeedOp(FeedOp(lx, a), b)
    ensures Unbroken(lx, [a, b]) <==>
            && (a.Nbsp? || a.Line? ==> !lx.mode.InStr?)
            && (b.Nbsp? || b.Line? ==> !FeedOp(lx, a).mode.InStr?)
  {
    assert [a, b] == [a] + [b];
    OpsThen(lx, a, [b]);
    Ops1(FeedOp(lx, a), b);
  }

  lemma Ops3(lx: Lexer, a: Op, b: Op, c: Op)
    ensures FeedOps(lx, [a, b, c]) == FeedOp(FeedOp(FeedOp(lx, a), b), c)
    ensures Unbroken(lx, [a, b, c]) <==>
            && (a.Nbsp? || a.Line? ==> !lx.mode.InStr?)
            && (b.Nbsp? || b.Line? ==> !FeedOp(lx, a).mode.InStr?)
            && (c.Nbsp? || c.Line? ==> !FeedOp(FeedOp(lx, a), b).mode.InStr?)
  {
    assert [a, b, c] == [a] + [b, c];
    OpsThen(lx, a, [b, c]);
    Ops2(FeedOp(lx, a), b, c);
  }

  /** Both halves of a concatenation of calls. */
  lemma OpsBoth(lx: Lexer, a: seq<Op>, b: seq<Op>)
    ensures FeedOps(lx, a + b) == FeedOps(FeedOps(lx, a), b)
    ensures Unbroken(lx, a + b) <==> Unbroken(lx, a) && Unbroken(FeedOps(lx, a), b)
  {
    FeedOpsAppend(lx, a, b);
    UnbrokenAppend(lx, a, b);
  }

  /** `lx'` is reached from `lx` by reading `toks`, except that `lost` of them got lost by
      fusion; fusion never loses a parenthesis. */
  predicate Reads(lx: Lexer, lx': Lexer, toks: seq<Tok>, lost: nat) {
    && !lx.mode.InStr? && !lx'.mode.InStr?
    && Weight(Settle(lx').toks) + lost == Weight(Settle(lx).toks) + Weight(toks)
    && (lost == 0 ==> Settle(lx').toks == Settle(lx).toks + toks)
  }

  lemma ReadsThen(lx0: Lexer, lx1: Lexer, lx2: Lexer, a: seq<Tok>, b: seq<Tok>, m: nat, n: nat)
    requires Reads(lx0, lx1, a, m) && Reads(lx1, lx2, b, n)
    ensures Reads(lx0, lx2, a + b, m + n)
  {
    hide Weight, Settle;
    WeightAppend(a, b);
    assert (Settle(lx0).toks + a) + b == Settle(lx0).toks + (a + b);
  }

  /** Tokens added at the end, none lost. */
  lemma ReadsAll(lx: Lexer, lx': Lexer, toks: seq<Tok>)
    requires !lx.mode.InStr? && !lx'.mode.InStr?
    requires Settle(lx').toks == Settle(lx).toks + toks
    ensures Reads(lx, lx', toks, 0)
  {
    WeightAppend(Settle(lx).toks, toks);
  }

  /** A token that extends the one before it. */
  lemma ReadsFused(lx: Lexer, lx': Lexer, a: Tok, b: Tok, tok: Tok)
    requires !lx.mode.InStr? && !lx'.mode.InStr? && !a.LP? && !a.RP? && !b.LP? && !b.RP?
    requires !tok.LP? && !tok.RP? && lx'.toks == lx.toks
    requires Pending(lx.mode) == [a] && Pending(lx'.mode) == [b]
    ensures Reads(lx, lx', [tok], 1)
  {
    WeightAppend(lx.toks, [a]);
    WeightAppend(lx.toks, [b]);
  }

  lemma FeedPunct(lx: Lexer)
    requires !lx.mode.InStr?
    ensures FeedAll(lx, "(") == Lexer(Settle(lx).toks + [LP], Ready)
    ensures FeedAll(lx, ")") == Lexer(Settle(lx).toks + [RP], Ready)
    ensures FeedAll(lx, ",") == Lexer(Settle(lx).toks + [Comma], Ready)
  {
    FeedCons(lx, '(', "");
    FeedCons(lx, ')', "");
    FeedCons(lx, ',', "");
  }

  lemma FeedString(lx: Lexer, text: string)
    requires !lx.mode.InStr? && IsPlain(text)
    ensures var lx' := FeedAll(FeedAll(FeedAll(lx, "\""), text), "\"");
            lx'.mode.Quoted? && Reads(lx, lx', [Str(text)], Fuse(EdgeOf(lx.mode), Quote))
  {
    FeedCons(lx, '"', "");
    var a := FeedAll(lx, "\"");
    FeedInside(a, text);
    assert "" + text == text;
    var b := FeedAll(a, text);
    FeedCons(b, '"', "");
    if lx.mode.Quoted? {
      ReadsFused(lx, Feed(b, '"'), Str(lx.mode.s), Str(lx.mode.s + "\"" + text), Str(text));
    } else {
      ReadsAll(lx, Feed(b, '"'), [Str(text)]);
    }
  }

  lemma FeedScope(lx: Lexer, scope: string)
    requires !lx.mode.InStr? && !lx.mode.InSym? && IsWord(scope)
    ensures var lx' := FeedAll(lx, "%" + scope);
            lx'.mode.InWord? && Reads(lx, lx', [Sym("%"), Word(scope)], 0)
  {
    FeedAppend(lx, "%", scope);
    FeedCons(lx, '%', "");
    FeedWord(Feed(lx, '%'), scope);
    assert Settle(lx).toks + [Sym("%")] + [Word(scope)]
        == Settle(lx).toks + [Sym("%"), Word(scope)];
    ReadsAll(lx, FeedAll(lx, "%" + scope), [Sym("%"), Word(scope)]);
  }

  lemma FeedWordReads(lx: Lexer, w: string)
    requires !lx.mode.InStr? && IsWord(w)
    ensures FeedAll(lx, w).mode.InWord?
    ensures Reads(lx, FeedAll(lx, w), [Word(w)], Fuse(EdgeOf(lx.mode), Solid))
  {
    FeedWord(lx, w);
    if lx.mode.InWord? {
      ReadsFused(lx, FeedAll(lx, w), Word(lx.mode.w), Word(lx.mode.w + w), Word(w));
    } else {
      ReadsAll(lx, FeedAll(lx, w), [Word(w)]);
    }
  }

  lemma FeedNumeral(lx: Lexer, v: int)
    requires lx.mode.Ready?
    ensures var lx' := FeedAll(lx, Signed(v));
            lx'.mode.InWord? && Reads(lx, lx', NumeralToks(v), 0)
  {
    if v < 0 {
      FeedAppend(lx, "-", Decimal(-v));
      FeedCons(lx, '-', "");
      FeedWord(Feed(lx, '-'), Decimal(-v));
      assert lx.toks + [Sym("-")] + [Word(Decimal(-v))] == lx.toks + NumeralToks(v);
    } else {
      FeedWord(lx, Decimal(v));
    }
    ReadsAll(lx, FeedAll(lx, Signed(v)), NumeralToks(v));
  }

  lemma FeedCloseZ(lx: Lexer)
    requires !lx.mode.InStr?
    ensures var lx' := FeedAll(lx, ")%Z");
            lx'.mode.InWord? && Reads(lx, lx', [RP] + Z_SCOPE, 0)
  {
    hide Weight, FeedAll, Reads;
    assert ")" + "%Z" == ")%Z";
    FeedAppend(lx, ")", "%Z");
    FeedPunct(lx);
    var a := FeedAll(lx, ")");
    ReadsAll(lx, a, [RP]);
    assert "%" + "Z" == "%Z";
    FeedScope(a, "Z");
    ReadsThen(lx, a, FeedAll(a, "%Z"), [RP], Z_SCOPE, 0, 0);
  }

  lemma ReadOpen(lx: Lexer, head: string, line: bool)
    requires !lx.mode.InStr? && IsWord(head)
    ensures Unbroken(lx, OpenOps(head, line))
    ensures FeedOps(lx, OpenOps(head, line))
         == Lexer(Settle(lx).toks + [LP, Word(head)], Ready)
  {
    var pre := if line then [Line] else [];
    var post := [Write("("), Indent, Write(head), Nbsp];
    OpsBoth(lx, pre, post);
    if line {
      Ops1(lx, Line);
    }
    var a := FeedOps(lx, pre);
    assert post == [Write("(")] + [Indent, Write(head), Nbsp];
    OpsThen(a, Write("("), [Indent, Write(head), Nbsp]);
    FeedPunct(a);
    var b := FeedOp(a, Write("("));
    FeedWord(b, head);
    Ops3(b, Indent, Write(head), Nbsp);
    assert Settle(lx).toks + [LP] + [Word(head)] == Settle(lx).toks + [LP, Word(head)];
  }

  lemma ReadParen(lx: Lexer)
    requires !lx.mode.InStr?
    ensures Unbroken(lx, [Write("("), Indent])
    ensures FeedOps(lx, [Write("("), Indent]) == Lexer(Settle(lx).toks + [LP], Ready)
    ensures Unbroken(lx, CLOSE)
    ensures FeedOps(lx, CLOSE) == Lexer(Settle(lx).toks + [RP], Ready)
  {
    FeedPunct(lx);
    Ops2(lx, Write("("), Indent);
    Ops2(lx, Outdent, Write(")"));
  }

  lemma ReadCons(lx: Lexer)
    requires !lx.mode.InStr?
    ensures Unbroken(lx, CONS)
    ensures FeedOps(lx, CONS) == Lexer(Settle(lx).toks + [Sym("::")], Ready)
  {
    FeedColons(Settle(lx));
    Ops3(lx, Nbsp, Write("::"), Nbsp);
  }

  lemma FeedColons(lx: Lexer)
    requires lx.mode.Ready?
    ensures FeedAll(lx, "::") == Lexer(lx.toks, InSym("::"))
  {
    FeedAppend(lx, ":", ":");
    assert "::" == ":" + ":";
    FeedCons(lx, ':', "");
    var a := Feed(lx, ':');
    assert a == Lexer(lx.toks, InSym(":"));
    FeedCons(a, ':', "");
    assert [':'] + [':'] == "::";
  }

  lemma {:induction false} ReadGap(lx: Lexer, gap: Gap)
    requires !lx.mode.InStr?
    ensures Unbroken(lx, GapOps(gap))
    ensures FeedOps(lx, GapOps(gap)) == if IsTight(gap) then lx else Settle(lx)
    decreases if gap.Nbsps? then gap.n else 0
  {
    match gap
    case Tight =>
    case Broken => Ops1(lx, Line);
    case Nbsps(n) =>
      if n > 0 {
        assert GapOps(gap) == [Nbsp] + GapOps(Nbsps(n - 1));
        OpsThen(lx, Nbsp, GapOps(Nbsps(n - 1)));
        ReadGap(Settle(lx), Nbsps(n - 1));
      }
  }

  /** Reading a printed document recovers its tokens, less the ones that fuse. */
  lemma {:induction false} ReadDoc(lx: Lexer, d: Doc)
    requires !lx.mode.InStr? && Spelled(d)
    ensures Unbroken(lx, Ops(d))
    ensures EdgeOf(FeedOps(lx, Ops(d)).mode) == Last(d)
    ensures Reads(lx, FeedOps(lx, Ops(d)), Yield(d), Fusions(d) + Fuse(EdgeOf(lx.mode), First(d)))
    decreases d, 1
  {
    hide Weight, FeedAll, Unbroken;
    match d
    case DWord(text) =>
      FeedWordReads(lx, text);
      Ops1(lx, Write(text));
    case DQuoted(text) =>
      FeedString(lx, text);
      Ops3(lx, Write("\""), Write(text), Write("\""));
    case DAnon(n) => ReadAnon(lx, n);
    case DScoped(text, scope) =>
      FeedWordReads(lx, text);
      var a := FeedAll(lx, text);
      FeedScope(a, scope);
      Ops2(lx, Write(text), Write("%" + scope));
      assert [Word(text)] + [Sym("%"), Word(scope)] == Yield(d);
      ReadsThen(lx, a, FeedAll(a, "%" + scope), [Word(text)], [Sym("%"), Word(scope)],
                Fuse(EdgeOf(lx.mode), Solid), 0);
    case DBoxed(v) => ReadBoxed(lx, v);
    case DRaw(head, arg) =>
      ReadRaw(lx, head, arg);
      ReadsAll(lx, FeedOps(lx, Ops(d)), Yield(d));
    case DCtor(_, _, _) => ReadCtor(lx, d);
    case DList(_) => ReadList(lx, d);
    case DTuple(_, _) => ReadTuple(lx, d);
    case DJoin(_, _) => ReadJoin(lx, d);
  }

  lemma {:induction false} ReadCtor(lx: Lexer, d: Doc)
    requires !lx.mode.InStr? && Spelled(d) && d.DCtor?
    ensures Unbroken(lx, Ops(d))
    ensures FeedOps(lx, Ops(d)).mode.Ready?
    ensures Reads(lx, FeedOps(lx, Ops(d)), Yield(d), Fusions(d))
    decreases d, 0
  {
    hide Weight, FeedAll;
    var DCtor(line, head, args) := d;
    OpsBoth(lx, OpenOps(head, line), OpsArgs(args) + CLOSE);
    ReadOpen(lx, head, line);
    var a := FeedOps(lx, OpenOps(head, line));
    OpsBoth(a, OpsArgs(args), CLOSE);
    ReadArgs(a, args);
    var b := FeedOps(a, OpsArgs(args));
    ReadParen(b);
    ReadsAll(lx, a, [LP, Word(head)]);
    ReadsAll(b, FeedOps(b, CLOSE), [RP]);
    ReadsThen(a, b, FeedOps(b, CLOSE), YieldArgs(args), [RP], FusionsArgs(Free, args), 0);
    ReadsThen(lx, a, FeedOps(b, CLOSE), [LP, Word(head)], YieldArgs(args) + [RP],
              0, FusionsArgs(Free, args));
  }

  lemma {:induction false} ReadList(lx: Lexer, d: Doc)
    requires !lx.mode.InStr? && Spelled(d) && d.DList?
    ensures Unbroken(lx, Ops(d))
    ensures FeedOps(lx, Ops(d)).mode.Ready?
    ensures Reads(lx, FeedOps(lx, Ops(d)), Yield(d), Fusions(d))
    decreases d, 0
  {
    hide Weight, FeedAll;
    var items := d.items;
    OpsBoth(lx, [Write("("), Indent], OpsItems(items) + ([Write("nil")] + CLOSE));
    ReadParen(lx);
    var a := Lexer(Settle(lx).toks + [LP], Ready);
    OpsBoth(a, OpsItems(items), [Write("nil")] + CLOSE);
    ReadItems(a, items);
    var b := FeedOps(a, OpsItems(items));
    ReadNil(b);
    var c := FeedOps(b, [Write("nil")] + CLOSE);
    ReadsAll(lx, a, [LP]);
    ReadsAll(b, c, [Word("nil"), RP]);
    ReadsThen(a, b, c, YieldItems(items), [Word("nil"), RP], FusionsItems(items), 0);
    ReadsThen(lx, a, c, [LP], YieldItems(items) + [Word("nil"), RP], 0, FusionsItems(items));
  }

  lemma ReadNil(lx: Lexer)
    requires lx.mode.Ready?
    ensures Unbroken(lx, [Write("nil")] + CLOSE)
    ensures FeedOps(lx, [Write("nil")] + CLOSE) == Lexer(lx.toks + [Word("nil"), RP], Ready)
  {
    OpsThen(lx, Write("nil"), CLOSE);
    FeedWord(lx, "nil");
    ReadParen(FeedAll(lx, "nil"));
    assert lx.toks + [Word("nil")] + [RP] == lx.toks + [Word("nil"), RP];
  }

  lemma {:induction false} ReadTuple(lx: Lexer, d: Doc)
    requires !lx.mode.InStr? && Spelled(d) && d.DTuple?
    ensures Unbroken(lx, Ops(d))
    ensures FeedOps(lx, Ops(d)).mode.Ready?
    ensures Reads(lx, FeedOps(lx, Ops(d)), Yield(d), Fusions(d))
    decreases d, 0
  {
    hide Weight, FeedAll;
    var DTuple(first, more) := d;
    OpsBoth(lx, [Write("("), Indent], Ops(first) + (OpsMore(more) + CLOSE));
    ReadParen(lx);
    var a := Lexer(Settle(lx).toks + [LP], Ready);
    OpsBoth(a, Ops(first), OpsMore(more) + CLOSE);
    ReadDoc(a, first);
    var b := FeedOps(a, Ops(first));
    OpsBoth(b, OpsMore(more), CLOSE);
    ReadMore(b, more);
    var c := FeedOps(b, OpsMore(more));
    ReadParen(c);
    var e := FeedOps(c, CLOSE);
    ReadsAll(lx, a, [LP]);
    ReadsAll(c, e, [RP]);
    ReadsThen(b, c, e, YieldMore(more), [RP], FusionsItems(more), 0);
    ReadsThen(a, b, e, Yield(first), YieldMore(more) + [RP], Fusions(first), FusionsItems(more));
    ReadsThen(lx, a, e, [LP], Yield(first) + (YieldMore(more) + [RP]), 0, Fusions(d));
  }

  lemma {:induction false} ReadJoin(lx: Lexer, d: Doc)
    requires !lx.mode.InStr? && Spelled(d) && d.DJoin?
    ensures Unbroken(lx, Ops(d))
    ensures EdgeOf(FeedOps(lx, Ops(d)).mode) == Last(d)
    ensures Reads(lx, FeedOps(lx, Ops(d)), Yield(d), Fusions(d) + Fuse(EdgeOf(lx.mode), First(d)))
    decreases d, 0
  {
    hide Weight, FeedAll;
    var DJoin(first, rest) := d;
    OpsBoth(lx, Ops(first), CONS + Ops(rest));
    ReadDoc(lx, first);
    var a := FeedOps(lx, Ops(first));
    OpsBoth(a, CONS, Ops(rest));
    ReadCons(a);
    var b := FeedOps(a, CONS);
    ReadsAll(a, b, [Sym("::")]);
    ReadDoc(b, rest);
    var c := FeedOps(b, Ops(rest));
    ReadsThen(a, b, c, [Sym("::")], Yield(rest), 0, Fusions(rest));
    ReadsThen(lx, a, c, Yield(first), [Sym("::")] + Yield(rest),
              Fusions(first) + Fuse(EdgeOf(lx.mode), First(first)), Fusions(rest));
  }

  lemma ReadAnon(lx: Lexer, n: nat)
    requires !lx.mode.InStr?
    ensures Unbroken(lx, Ops(DAnon(n)))
    ensures EdgeOf(FeedOps(lx, Ops(DAnon(n))).mode) == Quote
    ensures Reads(lx, FeedOps(lx, Ops(DAnon(n))), Yield(DAnon(n)), Fuse(EdgeOf(lx.mode), Quote))
  {
    assert "\"$" == "\"" + "$";
    FeedAppend(lx, "\"", "$");
    FeedCons(lx, '"', "");
    var a := FeedAll(lx, "\"");
    FeedAppend(a, "$", Decimal(n));
    assert IsPlain(Decimal(n)) by {
      forall i | 0 <= i < |Decimal(n)| ensures Decimal(n)[i] != '"' {
        assert IsDigit(Decimal(n)[i]);
      }
    }
    FeedString(lx, "$" + Decimal(n));
    Ops3(lx, Write("\"$"), Write(Decimal(n)), Write("\""));
  }

  lemma ReadBoxed(lx: Lexer, v: int)
    requires !lx.mode.InStr?
    ensures Unbroken(lx, Ops(DBoxed(v)))
    ensures EdgeOf(FeedOps(lx, Ops(DBoxed(v))).mode) == Solid
    ensures Reads(lx, FeedOps(lx, Ops(DBoxed(v))), Yield(DBoxed(v)), 0)
  {
    hide Weight, FeedAll;
    var l := [Write("("), Write("(")];
    var r := [Write(Signed(v)), Write(")%Z"), Write(")%Z")];
    assert Ops(DBoxed(v)) == l + r;
    OpsBoth(lx, l, r);
    FeedPunct(lx);
    FeedPunct(FeedAll(lx, "("));
    Ops2(lx, Write("("), Write("("));
    var b := FeedOps(lx, l);
    assert Settle(lx).toks + [LP] + [LP] == Settle(lx).toks + [LP, LP];
    ReadsAll(lx, b, [LP, LP]);
    ReadBoxedNumeral(b, v);
    ReadsThen(lx, b, FeedOps(b, r), [LP, LP], BoxedToks(v), 0, 0);
  }

  lemma ReadBoxedNumeral(lx: Lexer, v: int)
    requires lx.mode.Ready?
    ensures var r := [Write(Signed(v)), Write(")%Z"), Write(")%Z")];
            && Unbroken(lx, r)
            && FeedOps(lx, r).mode.InWord?
            && Reads(lx, FeedOps(lx, r), BoxedToks(v), 0)
  {
    hide Weight;
    FeedNumeral(lx, v);
    var c := FeedAll(lx, Signed(v));
    FeedCloseZ(c);
    var e := FeedAll(c, ")%Z");
    FeedCloseZ(e);
    var f := FeedAll(e, ")%Z");
    Ops3(lx, Write(Signed(v)), Write(")%Z"), Write(")%Z"));
    ReadsThen(c, e, f, [RP] + Z_SCOPE, [RP] + Z_SCOPE, 0, 0);
    ReadsThen(lx, c, f, NumeralToks(v), [RP] + Z_SCOPE + ([RP] + Z_SCOPE), 0, 0);
  }

  lemma ReadRaw(lx: Lexer, head: string, arg: string)
    requires !lx.mode.InStr? && IsWord(head) && IsWord(arg)
    ensures Unbroken(lx, Ops(DRaw(head, arg)))
    ensures FeedOps(lx, Ops(DRaw(head, arg))) == Lexer(Settle(lx).toks + Yield(DRaw(head, arg)), Ready)
  {
    Ops1(lx, Write("(" + head + " " + arg + ")"));
    FeedAppend(lx, "(" + head + " ", arg + ")");
    assert "(" + head + " " + (arg + ")") == "(" + head + " " + arg + ")";
    FeedRawHead(lx, head);
    FeedRawArg(Lexer(Settle(lx).toks + [LP, Word(head)], Ready), arg);
    assert Settle(lx).toks + [LP, Word(head)] + [Word(arg), RP]
        == Settle(lx).toks + [LP, Word(head), Word(arg), RP];
  }

  lemma FeedRawHead(lx: Lexer, head: string)
    requires !lx.mode.InStr? && IsWord(head)
    ensures FeedAll(lx, "(" + head + " ") == Lexer(Settle(lx).toks + [LP, Word(head)], Ready)
  {
    FeedAppend(lx, "(" + head, " ");
    FeedAppend(lx, "(", head);
    FeedPunct(lx);
    var a := FeedAll(lx, "(");
    FeedWord(a, head);
    FeedCons(FeedAll(a, head), ' ', "");
    assert Settle(lx).toks + [LP] + [Word(head)] == Settle(lx).toks + [LP, Word(head)];
  }

  lemma FeedRawArg(lx: Lexer, arg: string)
    requires lx.mode.Ready? && IsWord(arg)
    ensures FeedAll(lx, arg + ")") == Lexer(lx.toks + [Word(arg), RP], Ready)
  {
    FeedAppend(lx, arg, ")");
    FeedWord(lx, arg);
    FeedPunct(FeedAll(lx, arg));
    assert lx.toks + [Word(arg)] + [RP] == lx.toks + [Word(arg), RP];
  }

  lemma {:induction false} ReadArgs(lx: Lexer, args: Args)
    requires !lx.mode.InStr? && SpelledArgs(args)
    ensures Unbroken(lx, OpsArgs(args))
    ensures Reads(lx, FeedOps(lx, OpsArgs(args)), YieldArgs(args), FusionsArgs(EdgeOf(lx.mode), args))
    decreases args
  {
    hide Weight, FeedAll;
    ReadGap(lx, args.gap);
    if args.More? {
      OpsBoth(lx, GapOps(args.gap), Ops(args.doc) + OpsArgs(args.rest));
      var a := FeedOps(lx, GapOps(args.gap));
      assert Settle(a) == Settle(lx);
      OpsBoth(a, Ops(args.doc), OpsArgs(args.rest));
      ReadDoc(a, args.doc);
      var b := FeedOps(a, Ops(args.doc));
      ReadArgs(b, args.rest);
      var c := FeedOps(b, OpsArgs(args.rest));
      ReadsThen(a, b, c, Yield(args.doc), YieldArgs(args.rest),
                Fusions(args.doc) + Fuse(EdgeOf(a.mode), First(args.doc)),
                FusionsArgs(Last(args.doc), args.rest));
    } else {
      ReadsAll(lx, FeedOps(lx, OpsArgs(args)), []);
    }
  }

  lemma {:induction false} ReadItems(lx: Lexer, items: seq<Doc>)
    requires lx.mode.Ready? && forall i :: 0 <= i < |items| ==> Spelled(items[i])
    ensures Unbroken(lx, OpsItems(items))
    ensures FeedOps(lx, OpsItems(items)).mode.Ready?
    ensures Reads(lx, FeedOps(lx, OpsItems(items)), YieldItems(items), FusionsItems(items))
    decreases items
  {
    hide Weight, FeedAll;
    if items != [] {
      OpsBoth(lx, Ops(items[0]), CONS + OpsItems(items[1..]));
      ReadDoc(lx, items[0]);
      var a := FeedOps(lx, Ops(items[0]));
      OpsBoth(a, CONS, OpsItems(items[1..]));
      ReadCons(a);
      var b := FeedOps(a, CONS);
      ReadsAll(a, b, [Sym("::")]);
      ReadItems(b, items[1..]);
      var c := FeedOps(b, OpsItems(items[1..]));
      ReadsThen(a, b, c, [Sym("::")], YieldItems(items[1..]), 0, FusionsItems(items[1..]));
      ReadsThen(lx, a, c, Yield(items[0]), [Sym("::")] + YieldItems(items[1..]),
                Fusions(items[0]), FusionsItems(items[1..]));
    } else {
      ReadsAll(lx, lx, []);
    }
  }

  lemma {:induction false} ReadMore(lx: Lexer, more: seq<Doc>)
    requires !lx.mode.InStr? && forall i :: 0 <= i < |more| ==> Spelled(more[i])
    ensures Unbroken(lx, OpsMore(more))
    ensures Reads(lx, FeedOps(lx, OpsMore(more)), YieldMore(more), FusionsItems(more))
    decreases more
  {
    hide Weight, FeedAll;
    if more != [] {
      OpsBoth(lx, [Write(","), Nbsp], Ops(more[0]) + OpsMore(more[1..]));
      FeedPunct(lx);
      Ops2(lx, Write(","), Nbsp);
      var a := Lexer(Settle(lx).toks + [Comma], Ready);
      ReadsAll(lx, a, [Comma]);
      OpsBoth(a, Ops(more[0]), OpsMore(more[1..]));
      ReadDoc(a, more[0]);
      var b := FeedOps(a, Ops(more[0]));
      ReadMore(b, more[1..]);
      var c := FeedOps(b, OpsMore(more[1..]));
      ReadsThen(a, b, c, Yield(more[0]), YieldMore(more[1..]), Fusions(more[0]), FusionsItems(more[1..]));
      ReadsThen(lx, a, c, [Comma], Yield(more[0]) + YieldMore(more[1..]), 0, FusionsItems(more));
    } else {
      ReadsAll(lx, lx, []);
    }
  }

  lemma StartIsSettled()
    ensures Reading(INITIAL) == START && Coherent(INITIAL)
    ensures Weight([]) == 0
  {
  }

  /** The text of a document printed on a fresh formatter lexes. The tokens are those of the
      document exactly when no two of them run together, and otherwise there are fewer. */
  lemma LexDoc(d: Doc)
    requires Spelled(d)
    ensures var lexed := Lex(Put(INITIAL, d).out);
            && lexed.Some?
            && Weight(lexed.value) + Fusions(d) == Weight(Yield(d))
            && (lexed == Some(Yield(d)) <==> Fusions(d) == 0)
  {
    hide Weight, FeedAll, Unbroken, Yield, Put, Ops, Fusions;
    PutIsRun(INITIAL, d);
    ReadDoc(START, d);
    StartIsSettled();
    ReadRun(INITIAL, Ops(d));
    assert Settle(FeedAll(START, Put(INITIAL, d).out)) == Settle(FeedOps(START, Ops(d)));
    assert [] + Yield(d) == Yield(d);
  }
}

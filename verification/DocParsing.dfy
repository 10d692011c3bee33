/** The proof that Coq's grammar gives the tokens of a document one reading: its term. */
module DocParsing {
  import opened Text
  import opened Formatters
  import opened Lexing
  import opened CoqTerms
  import opened Docs
  import opened DocReading
  import opened DocTerms

  predicate Percent(toks: seq<Tok>) {
    toks != [] && toks[0] == Sym("%")
  }

  /** Tokens after which an application cannot go on. */
  predicate Stops(toks: seq<Tok>) {
    !Percent(toks) && !StartsAtom(toks)
  }

  lemma YieldStarts(d: Doc)
    ensures StartsAtom(Yield(d))
    decreases d
  {
    if d.DJoin? {
      YieldStarts(d.first);
    }
  }

  lemma {:induction false} ChainAppend(a: seq<Term>, b: seq<Term>, t: Term)
    ensures Chain(a + b, t) == Chain(a, Chain(b, t))
    decreases |a|
  {
    if a == [] {
      assert a + b == b;
    } else {
      assert (a + b)[1..] == a[1..] + b;
      ChainAppend(a[1..], b, t);
    }
  }

  lemma ParseNumeral(v: int, rest: seq<Tok>)
    requires Stops(rest)
    requires !IsInfix(rest)
    ensures ParseTerm(NumeralToks(v) + rest) == Some((NumeralTerm(v), rest))
  {
    var toks := NumeralToks(v) + rest;
    if v < 0 {
      assert toks[1..] == [Word(Decimal(-v))] + rest;
      assert toks[1..][1..] == rest;
      assert ParseAtom(toks[1..]) == Some((Ident(Decimal(-v)), rest));
    } else {
      assert toks[1..] == rest;
      assert ParseAtom(toks) == Some((Ident(Decimal(v)), rest));
      assert ParseAtoms(rest) == Some(([], rest));
      assert ParseAtoms(toks) == Some(([Ident(Decimal(v))] + [], rest));
    }
  }

  /** A parenthesised term followed by a scope delimiter. */
  lemma ParseScopedParens(toks: seq<Tok>, t: Term, rest: seq<Tok>)
    requires ParseTerm(toks) == Some((t, [RP] + (Z_SCOPE + rest)))
    ensures ParseAtom([LP] + toks) == Some((Scoped(t, "Z"), rest))
  {
    assert ([LP] + toks)[1..] == toks;
    assert ([RP] + (Z_SCOPE + rest))[1..] == Z_SCOPE + rest;
    assert (Z_SCOPE + rest)[2..] == rest;
  }

  lemma ParseBoxed(v: int, rest: seq<Tok>)
    ensures ParseAtom([LP, LP] + BoxedToks(v) + rest) == Some((BoxedTerm(v), rest))
  {
    var close := [RP] + (Z_SCOPE + rest);
    var tail := [RP] + (Z_SCOPE + close);
    var inner := NumeralToks(v) + tail;
    ParseNumeral(v, tail);
    ParseScopedParens(inner, NumeralTerm(v), close);
    var outer := [LP] + inner;
    AtomIsTerm(outer, Scoped(NumeralTerm(v), "Z"), close);
    ParseScopedParens(outer, Scoped(NumeralTerm(v), "Z"), rest);
    BoxedShape(v, rest);
  }

  lemma BoxedShape(v: int, rest: seq<Tok>)
    ensures [LP] + ([LP] + (NumeralToks(v) + ([RP] + (Z_SCOPE + ([RP] + (Z_SCOPE + rest))))))
         == [LP, LP] + BoxedToks(v) + rest
  {
    var n := NumeralToks(v);
    var c := [RP] + Z_SCOPE;
    assert [RP] + (Z_SCOPE + rest) == c + rest;
    assert [RP] + (Z_SCOPE + (c + rest)) == (c + c) + rest;
    assert n + ((c + c) + rest) == BoxedToks(v) + rest;
    assert [LP] + ([LP] + (BoxedToks(v) + rest)) == [LP, LP] + BoxedToks(v) + rest;
  }

  lemma AtomsEnd(toks: seq<Tok>)
    requires !StartsAtom(toks)
    ensures ParseAtoms(toks) == Some(([], toks))
  {
  }

  lemma AtomsStep(toks: seq<Tok>, t: Term, mid: seq<Tok>, ts: seq<Term>, rest: seq<Tok>)
    requires StartsAtom(toks) && ParseAtom(toks) == Some((t, mid))
    requires ParseAtoms(mid) == Some((ts, rest))
    ensures ParseAtoms(toks) == Some(([t] + ts, rest))
  {
  }

  lemma WordAtom(w: string, rest: seq<Tok>)
    requires !Percent(rest)
    ensures ParseAtom([Word(w)] + rest) == Some((Ident(w), rest))
  {
    assert ([Word(w)] + rest)[1..] == rest;
  }

  /** Atoms up to a token that ends the term make one application. */
  lemma AtomsAreTerm(toks: seq<Tok>, ts: seq<Term>, rest: seq<Tok>)
    requires StartsAtom(toks) && ParseAtoms(toks) == Some((ts, rest)) && ts != []
    ensures ParseApp(toks) == Some((Applied(ts), rest))
    ensures !IsInfix(rest) ==> ParseTerm(toks) == Some((Applied(ts), rest))
  {
  }

  /** An atom after which the term ends is the whole term. */
  lemma AtomIsTerm(toks: seq<Tok>, t: Term, rest: seq<Tok>)
    requires StartsAtom(toks) && ParseAtom(toks) == Some((t, rest)) && Stops(rest)
    ensures ParseApp(toks) == Some((t, rest))
    ensures !IsInfix(rest) ==> ParseTerm(toks) == Some((t, rest))
  {
    AtomsEnd(rest);
    AtomsStep(toks, t, rest, [], rest);
    AtomsAreTerm(toks, [t] + [], rest);
  }

  lemma {:induction false} ParseDoc(d: Doc, rest: seq<Tok>)
    requires Spelled(d) && !d.DJoin? && !Percent(rest)
    ensures ParseAtom(Yield(d) + rest) == Some((TermOf(d), rest))
    decreases |Yield(d)|, 1
  {
    var toks := Yield(d) + rest;
    match d
    case DWord(_) => assert toks[1..] == rest;
    case DQuoted(_) => assert toks[1..] == rest;
    case DAnon(_) => assert toks[1..] == rest;
    case DScoped(text, scope) =>
      assert toks[1..] == [Sym("%"), Word(scope)] + rest;
      assert toks[1..][2..] == rest;
    case DBoxed(v) => ParseBoxed(v, rest);
    case DRaw(head, arg) => ParseRaw(head, arg, rest);
    case DCtor(_, _, _) => ParseCtor(d, rest);
    case DList(_) => ParseList(d, rest);
    case DTuple(_, _) => ParseTuple(d, rest);
  }

  lemma ParseRaw(head: string, arg: string, rest: seq<Tok>)
    requires !Percent(rest)
    ensures ParseAtom([LP, Word(head), Word(arg), RP] + rest)
         == Some((Apply(Ident(head), [Ident(arg)]), rest))
  {
    var end := [RP] + rest;
    AtomsEnd(end);
    WordAtom(arg, end);
    AtomsStep([Word(arg)] + end, Ident(arg), end, [], end);
    HeadedAtom(head, [Word(arg)] + end, [Ident(arg)] + [], rest);
    assert [LP] + ([Word(head)] + ([Word(arg)] + end)) == [LP, Word(head), Word(arg), RP] + rest;
    assert ([Ident(head)] + ([Ident(arg)] + []))[1..] == [Ident(arg)];
  }

  /** A head and its arguments in parentheses. */
  lemma HeadedAtom(head: string, after: seq<Tok>, ts: seq<Term>, rest: seq<Tok>)
    requires !Percent(after) && !Percent(rest)
    requires ParseAtoms(after) == Some((ts, [RP] + rest))
    ensures ParseAtom([LP] + ([Word(head)] + after)) == Some((Applied([Ident(head)] + ts), rest))
  {
    var inner := [Word(head)] + after;
    WordAtom(head, after);
    AtomsStep(inner, Ident(head), after, ts, [RP] + rest);
    AtomsAreTerm(inner, [Ident(head)] + ts, [RP] + rest);
    GroupAtom(inner, Applied([Ident(head)] + ts), rest);
  }

  /** Parentheses group. */
  lemma GroupAtom(inner: seq<Tok>, t: Term, rest: seq<Tok>)
    requires ParseTerm(inner) == Some((t, [RP] + rest)) && !Percent(rest)
    ensures ParseAtom([LP] + inner) == Some((t, rest))
  {
    assert ([LP] + inner)[1..] == inner;
    assert ([RP] + rest)[1..] == rest;
  }

  lemma {:induction false} ParseCtor(d: Doc, rest: seq<Tok>)
    requires Spelled(d) && d.DCtor? && !Percent(rest)
    ensures ParseAtom(Yield(d) + rest) == Some((TermOf(d), rest))
    decreases |Yield(d)|, 0
  {
    hide ParseAtom, ParseAtoms, ParseApp, ParseTerm, ParseParts, Headed;
    var DCtor(_, head, args) := d;
    var end := [RP] + rest;
    var after := YieldArgs(args) + end;
    var inner := [Word(head)] + after;
    ArgsNoPercent(args, end);
    WordAtom(head, after);
    ParseHeaded(inner, Ident(head), args, end);
    GroupAtom(inner, TermOf(d), rest);
    CtorShape(head, YieldArgs(args), rest);
  }

  lemma CtorShape(head: string, args: seq<Tok>, rest: seq<Tok>)
    ensures [LP] + ([Word(head)] + (args + ([RP] + rest))) == [LP, Word(head)] + (args + [RP]) + rest
  {
    assert args + ([RP] + rest) == (args + [RP]) + rest;
  }

  lemma ArgsNoPercent(args: Args, rest: seq<Tok>)
    requires !Percent(rest)
    ensures !Percent(YieldArgs(args) + rest)
  {
    if args.More? {
      YieldStarts(args.doc);
    }
  }

  /** What is left after the atoms of some arguments: all of them are read, or a cell follows. */
  predicate Leaves(left: seq<Tok>, args: Args, rest: seq<Tok>) {
    match Behind(args)
    case Some(more) => left != [] && left[0] == Sym("::") && ParseTerm(left[1..]) == Some((more, rest))
    case None => left == rest
  }

  lemma {:induction false} ParseArgs(args: Args, rest: seq<Tok>) returns (left: seq<Tok>)
    requires SpelledArgs(args) && Stops(rest) && !IsInfix(rest)
    ensures ParseAtoms(YieldArgs(args) + rest) == Some((Group(args), left))
    ensures Leaves(left, args, rest) && Stops(left)
    decreases |YieldArgs(args)|, 2
  {
    hide ParseAtom, ParseAtoms, ParseApp, ParseTerm, ParseParts, TermOf, Elements;
    if args.Done? {
      assert YieldArgs(args) + rest == rest;
      AtomsEnd(rest);
      left := rest;
    } else {
      var d := args.doc;
      var after := YieldArgs(args.rest) + rest;
      assert YieldArgs(args) + rest == Yield(d) + after;
      YieldStarts(d);
      if d.DJoin? {
        var behind := Yield(d.rest) + after;
        left := [Sym("::")] + behind;
        assert left[1..] == behind;
        ParseDoc(d.first, left);
        YieldStarts(d.first);
        AtomsEnd(left);
        AtomsStep(Yield(d.first) + left, TermOf(d.first), left, [], left);
        assert [TermOf(d.first)] + [] == [TermOf(d.first)];
        assert Yield(d) + after == Yield(d.first) + left;
        JoinElements(d);
        ParseTrailing(d.rest, args.rest, rest);
      } else {
        ArgsNoPercent(args.rest, rest);
        ParseDoc(d, after);
        left := ParseArgs(args.rest, rest);
        AtomsStep(Yield(d) + after, TermOf(d), after, Group(args.rest), left);
      }
    }
  }

  lemma JoinElements(d: Doc)
    requires d.DJoin?
    ensures Elements(d) == [TermOf(d.first)] + Elements(d.rest)
    ensures Elements(d)[0] == TermOf(d.first) && Elements(d)[1..] == Elements(d.rest)
  {
  }

  /** An atom and the arguments after it. */
  lemma {:induction false} ParseHeaded(toks: seq<Tok>, t: Term, args: Args, rest: seq<Tok>)
    requires SpelledArgs(args) && Stops(rest) && !IsInfix(rest)
    requires StartsAtom(toks) && ParseAtom(toks) == Some((t, YieldArgs(args) + rest))
    ensures ParseTerm(toks) == Some((Headed(t, args), rest))
    decreases |YieldArgs(args)|, 3
  {
    hide ParseAtom, ParseAtoms, ParseApp, ParseTerm, ParseParts, Group, Behind;
    var left := ParseArgs(args, rest);
    AtomsStep(toks, t, YieldArgs(args) + rest, Group(args), left);
    AtomsAreTerm(toks, [t] + Group(args), left);
    if Behind(args).Some? {
      assert left == [Sym("::")] + left[1..];
      InfixStep(toks, Applied([t] + Group(args)), left[1..], Behind(args).value, rest);
    }
  }

  /** The elements behind a label, the last of them applied to the arguments that follow. */
  lemma {:induction false} ParseTrailing(d: Doc, args: Args, rest: seq<Tok>)
    requires Spelled(d) && SpelledArgs(args) && Stops(rest) && !IsInfix(rest)
    ensures ParseTerm(Yield(d) + (YieldArgs(args) + rest)) == Some((Trailing(Elements(d), args), rest))
    decreases |Yield(d)| + |YieldArgs(args)|, 4
  {
    hide ParseAtom, ParseAtoms, ParseApp, ParseTerm, ParseParts, TermOf, Headed;
    var after := YieldArgs(args) + rest;
    YieldStarts(d);
    if d.DJoin? {
      var behind := Yield(d.rest) + after;
      var left := [Sym("::")] + behind;
      ParseDoc(d.first, left);
      YieldStarts(d.first);
      AtomIsTerm(Yield(d.first) + left, TermOf(d.first), left);
      ParseTrailing(d.rest, args, rest);
      JoinElements(d);
      InfixStep(Yield(d.first) + left, TermOf(d.first), behind, Trailing(Elements(d.rest), args), rest);
      assert Yield(d) + after == Yield(d.first) + left;
    } else {
      ArgsNoPercent(args, rest);
      ParseDoc(d, after);
      ParseHeaded(Yield(d) + after, TermOf(d), args, rest);
      assert Elements(d) == [TermOf(d)];
    }
  }

  /** A document at the head of a list cell, followed by the rest of the list. */
  lemma {:induction false} ParseElement(d: Doc, rest: seq<Tok>, t: Term, rest': seq<Tok>)
    requires Spelled(d) && ParseTerm(rest) == Some((t, rest'))
    ensures ParseTerm(Yield(d) + ([Sym("::")] + rest)) == Some((Chain(Elements(d), t), rest'))
    decreases |Yield(d)|, 2
  {
    hide ParseAtom, ParseAtoms, ParseApp, ParseTerm, ParseParts, TermOf;
    var cons := [Sym("::")] + rest;
    assert cons[1..] == rest;
    if d.DJoin? {
      var more := Yield(d.rest) + cons;
      ParseElement(d.rest, rest, t, rest');
      ParseElement(d.first, more, Chain(Elements(d.rest), t), rest');
      assert Yield(d) + cons == Yield(d.first) + ([Sym("::")] + more);
      assert Elements(d)[1..] == Elements(d.rest);
      assert Elements(d.first)[1..] == [];
    } else {
      ParseDoc(d, cons);
      YieldStarts(d);
      AtomIsTerm(Yield(d) + cons, TermOf(d), cons);
      InfixStep(Yield(d) + cons, TermOf(d), rest, t, rest');
      assert Elements(d)[1..] == [];
    }
  }

  lemma InfixStep(toks: seq<Tok>, l: Term, mid: seq<Tok>, r: Term, rest: seq<Tok>)
    requires ParseApp(toks) == Some((l, [Sym("::")] + mid)) && ParseTerm(mid) == Some((r, rest))
    ensures ParseTerm(toks) == Some((Infix("::", l, r), rest))
  {
    assert ([Sym("::")] + mid)[1..] == mid;
  }

  /** A document that is a whole term. */
  lemma {:induction false} ParseWhole(d: Doc, rest: seq<Tok>)
    requires Spelled(d) && Stops(rest) && !IsInfix(rest)
    ensures ParseTerm(Yield(d) + rest) == Some((TermOf(d), rest))
    decreases |Yield(d)|, 3
  {
    if d.DJoin? {
      ParseWhole(d.rest, rest);
      ParseElement(d.first, Yield(d.rest) + rest, TermOf(d.rest), rest);
      assert Elements(d.first)[1..] == [];
      assert Yield(d) + rest == Yield(d.first) + ([Sym("::")] + (Yield(d.rest) + rest));
    } else {
      ParseDoc(d, rest);
      YieldStarts(d);
      AtomIsTerm(Yield(d) + rest, TermOf(d), rest);
    }
  }

  lemma {:induction false} ParseItems(items: seq<Doc>, rest: seq<Tok>)
    requires forall i :: 0 <= i < |items| ==> Spelled(items[i])
    ensures ParseTerm(YieldItems(items) + ([Word("nil"), RP] + rest))
         == Some((Chain(ItemTerms(items), NIL), [RP] + rest))
    decreases |YieldItems(items)|, 4
  {
    hide ParseAtom, ParseAtoms, ParseApp, ParseTerm, ParseParts, TermOf;
    var end := [Word("nil"), RP] + rest;
    if items == [] {
      assert YieldItems(items) + end == end;
      assert end == [Word("nil")] + ([RP] + rest);
      WordAtom("nil", [RP] + rest);
      AtomIsTerm(end, NIL, [RP] + rest);
    } else {
      ParseItems(items[1..], rest);
      var more := YieldItems(items[1..]) + end;
      ParseElement(items[0], more, Chain(ItemTerms(items[1..]), NIL), [RP] + rest);
      ChainAppend(Elements(items[0]), ItemTerms(items[1..]), NIL);
      ItemsShape(Yield(items[0]), YieldItems(items[1..]), end);
    }
  }

  lemma ItemsShape(first: seq<Tok>, others: seq<Tok>, end: seq<Tok>)
    ensures first + ([Sym("::")] + others) + end == first + ([Sym("::")] + (others + end))
  {
  }

  lemma {:induction false} ParseList(d: Doc, rest: seq<Tok>)
    requires Spelled(d) && d.DList? && !Percent(rest)
    ensures ParseAtom(Yield(d) + rest) == Some((TermOf(d), rest))
    decreases |Yield(d)|, 0
  {
    ParseItems(d.items, rest);
    var inner := YieldItems(d.items) + ([Word("nil"), RP] + rest);
    GroupAtom(inner, TermOf(d), rest);
    assert [LP] + inner == Yield(d) + rest;
  }

  lemma PartsEnd(toks: seq<Tok>, t: Term, rest: seq<Tok>)
    requires ParseTerm(toks) == Some((t, [RP] + rest))
    ensures ParseParts(toks) == Some(([t], rest))
  {
    assert ([RP] + rest)[1..] == rest;
  }

  lemma PartsStep(toks: seq<Tok>, t: Term, mid: seq<Tok>, ts: seq<Term>, rest: seq<Tok>)
    requires ParseTerm(toks) == Some((t, [Comma] + mid))
    requires ParseParts(mid) == Some((ts, rest))
    ensures ParseParts(toks) == Some(([t] + ts, rest))
    ensures !Percent(rest) ==> ParseAtom([LP] + toks) == Some((Tuple([t] + ts), rest))
  {
    assert ([Comma] + mid)[1..] == mid;
    assert ([LP] + toks)[1..] == toks;
  }

  /** The tokens of the components after the first comma. */
  function AfterComma(more: seq<Doc>, rest: seq<Tok>): seq<Tok>
    requires more != []
  {
    Yield(more[0]) + (YieldMore(more[1..]) + ([RP] + rest))
  }

  lemma CommaShape(first: seq<Tok>, others: seq<Tok>, end: seq<Tok>)
    ensures [Comma] + (first + others) + end == [Comma] + (first + (others + end))
  {
    assert first + others + end == first + (others + end);
  }

  lemma MoreShape(more: seq<Doc>, rest: seq<Tok>)
    requires more != []
    ensures |YieldMore(more)| == 1 + |Yield(more[0])| + |YieldMore(more[1..])|
    ensures YieldMore(more) + ([RP] + rest) == [Comma] + AfterComma(more, rest)
    ensures |more| == 1 ==> YieldMore(more[1..]) == []
  {
    hide Yield;
    CommaShape(Yield(more[0]), YieldMore(more[1..]), [RP] + rest);
  }

  lemma {:induction false} ParseMore(more: seq<Doc>, rest: seq<Tok>)
    requires more != [] && forall i :: 0 <= i < |more| ==> Spelled(more[i])
    ensures ParseParts(AfterComma(more, rest)) == Some((PartTerms(more), rest))
    ensures YieldMore(more) + ([RP] + rest) == [Comma] + AfterComma(more, rest)
    decreases |YieldMore(more)|, 4
  {
    hide ParseTerm, ParseParts, ParseAtom, TermOf, Spelled, Yield, YieldMore;
    MoreShape(more, rest);
    var toks := AfterComma(more, rest);
    var after := YieldMore(more[1..]) + ([RP] + rest);
    if |more| == 1 {
      assert after == [RP] + rest;
      ParseWhole(more[0], [RP] + rest);
      PartsEnd(toks, TermOf(more[0]), rest);
      assert PartTerms(more) == [TermOf(more[0])];
    } else {
      ParseMore(more[1..], rest);
      ParseWhole(more[0], after);
      PartsStep(toks, TermOf(more[0]), AfterComma(more[1..], rest), PartTerms(more[1..]), rest);
    }
  }

  lemma {:induction false} ParseTuple(d: Doc, rest: seq<Tok>)
    requires Spelled(d) && d.DTuple? && !Percent(rest)
    ensures ParseAtom(Yield(d) + rest) == Some((TermOf(d), rest))
    decreases |Yield(d)|, 0
  {
    var DTuple(first, more) := d;
    var after := YieldMore(more) + ([RP] + rest);
    ParseMore(more, rest);
    ParseWhole(first, after);
    PartsStep(Yield(first) + after, TermOf(first), AfterComma(more, rest), PartTerms(more), rest);
    TupleShape(Yield(first), YieldMore(more), rest);
  }

  lemma TupleShape(first: seq<Tok>, more: seq<Tok>, rest: seq<Tok>)
    ensures [LP] + (first + (more + [RP])) + rest == [LP] + (first + (more + ([RP] + rest)))
  {
    assert more + ([RP] + rest) == (more + [RP]) + rest;
  }

  /** Round trip for documents: a document is read back from its printed text as its term, with
      nothing left over, exactly when no two of its tokens run together. */
  lemma ReadBack(d: Doc)
    requires Spelled(d)
    ensures ReadText(Put(INITIAL, d).out) == Some(TermOf(d)) <==> Fusions(d) == 0
  {
    LexDoc(d);
    ParseWhole(d, []);
    assert Yield(d) + [] == Yield(d);
    var toks := Lex(Put(INITIAL, d).out).value;
    if Parse(toks) == Some(TermOf(d)) {
      SameTermSameWeight(toks, Yield(d));
    }
  }
}

/** The fragment of Coq's term language in which the printers write, with its parser.
    The infix operators `::` and `++` associate to the right, application binds tighter,
    and parentheses only group. */
module CoqTerms {
  import opened Text
  import opened Lexing

  datatype Term =
    | Ident(w: string)
    | Lit(s: string)
    | Apply(fn: Term, args: seq<Term>)
    | Infix(op: string, l: Term, r: Term)
    | Scoped(t: Term, scope: string)
    | Minus(t: Term)
    | Tuple(parts: seq<Term>)

  predicate IsInfix(toks: seq<Tok>) {
    toks != [] && (toks[0] == Sym("::") || toks[0] == Sym("++"))
  }

  predicate StartsAtom(toks: seq<Tok>) {
    toks != [] && (toks[0].Word? || toks[0].Str? || toks[0].LP?)
  }

  /** An optional scope delimiter such as `%Z` after an atom. */
  function Delimited(t: Term, toks: seq<Tok>): (r: (Term, seq<Tok>))
    ensures |r.1| <= |toks|
  {
    if |toks| >= 2 && toks[0] == Sym("%") && toks[1].Word?
    then (Scoped(t, toks[1].w), toks[2..])
    else (t, toks)
  }

  function ParseAtom(toks: seq<Tok>): (r: Option<(Term, seq<Tok>)>)
    ensures r.Some? ==> |r.value.1| < |toks|
    decreases |toks|, 0
  {
    if toks == [] then None
    else match toks[0]
      case Word(w) => Some(Delimited(Ident(w), toks[1..]))
      case Str(s) => Some(Delimited(Lit(s), toks[1..]))
      case LP =>
        (match ParseTerm(toks[1..])
         case Some(p) =>
           if p.1 != [] && p.1[0] == RP then Some(Delimited(p.0, p.1[1..]))
           else if p.1 != [] && p.1[0] == Comma then
             (match ParseParts(p.1[1..])
              case Some(q) => Some(Delimited(Tuple([p.0] + q.0), q.1))
              case None => None)
           else None
         case None => None)
      case _ => None
  }

  /** The components of a tuple after its first comma, up to the closing parenthesis. */
  function ParseParts(toks: seq<Tok>): (r: Option<(seq<Term>, seq<Tok>)>)
    ensures r.Some? ==> |r.value.1| < |toks|
    decreases |toks|, 4
  {
    match ParseTerm(toks)
    case Some(p) =>
      if p.1 != [] && p.1[0] == RP then Some(([p.0], p.1[1..]))
      else if p.1 != [] && p.1[0] == Comma then
        (match ParseParts(p.1[1..])
         case Some(q) => Some(([p.0] + q.0, q.1))
         case None => None)
      else None
    case None => None
  }

  function ParseAtoms(toks: seq<Tok>): (r: Option<(seq<Term>, seq<Tok>)>)
    ensures r.Some? ==> |r.value.1| <= |toks|
    ensures r.Some? && r.value.0 != [] ==> |r.value.1| < |toks|
    decreases |toks|, 1
  {
    if StartsAtom(toks) then
      match ParseAtom(toks)
      case Some(p) =>
        (match ParseAtoms(p.1)
         case Some(q) => Some(([p.0] + q.0, q.1))
         case None => None)
      case None => None
    else
      Some(([], toks))
  }

  /** A single atom, or an atom applied to further atoms. */
  function Applied(atoms: seq<Term>): Term
    requires atoms != []
  {
    if |atoms| == 1 then atoms[0] else Apply(atoms[0], atoms[1..])
  }

  function ParseApp(toks: seq<Tok>): (r: Option<(Term, seq<Tok>)>)
    ensures r.Some? ==> |r.value.1| < |toks|
    decreases |toks|, 2
  {
    if toks != [] && toks[0] == Sym("-") then
      match ParseAtom(toks[1..])
      case Some(p) => Some((Minus(p.0), p.1))
      case None => None
    else
      match ParseAtoms(toks)
      case Some(p) => if p.0 == [] then None else Some((Applied(p.0), p.1))
      case None => None
  }

  function ParseTerm(toks: seq<Tok>): (r: Option<(Term, seq<Tok>)>)
    ensures r.Some? ==> |r.value.1| < |toks|
    decreases |toks|, 3
  {
    match ParseApp(toks)
    case Some(p) =>
      if IsInfix(p.1) then
        (match ParseTerm(p.1[1..])
         case Some(q) => Some((Infix(p.1[0].w, p.0, q.0), q.1))
         case None => None)
      else Some(p)
    case None => None
  }

  /** The term a token sequence spells; nothing may be left over. */
  function Parse(toks: seq<Tok>): Option<Term> {
    match ParseTerm(toks)
    case Some(p) => if p.1 == [] then Some(p.0) else None
    case None => None
  }

  /** The term that a text spells. */
  function ReadText(text: string): Option<Term> {
    match Lex(text)
    case Some(toks) => Parse(toks)
    case None => None
  }

  /** The number of tokens that are not parentheses. */
  function Weight(toks: seq<Tok>): nat {
    if toks == [] then 0
    else (if toks[0].LP? || toks[0].RP? then 0 else 1) + Weight(toks[1..])
  }

  lemma {:induction false} WeightAppend(a: seq<Tok>, b: seq<Tok>)
    ensures Weight(a + b) == Weight(a) + Weight(b)
    decreases |a|
  {
    if a == [] {
      assert a + b == b;
    } else {
      assert (a + b)[1..] == a[1..] + b;
      WeightAppend(a[1..], b);
    }
  }

  /** The tokens a term is spelled with, parentheses aside. */
  function Size(t: Term): nat
    decreases t
  {
    match t
    case Ident(_) => 1
    case Lit(_) => 1
    case Apply(fn, args) => Size(fn) + Sizes(args)
    case Infix(_, l, r) => 1 + Size(l) + Size(r)
    case Scoped(u, _) => Size(u) + 2
    case Minus(u) => 1 + Size(u)
    case Tuple(parts) => Sizes(parts) + (if parts == [] then 0 else |parts| - 1)
  }

  function Sizes(ts: seq<Term>): nat
    decreases ts
  {
    if ts == [] then 0 else Size(ts[0]) + Sizes(ts[1..])
  }

  lemma SizesCons(t: Term, ts: seq<Term>)
    ensures Sizes([t] + ts) == Size(t) + Sizes(ts)
  {
    assert ([t] + ts)[1..] == ts;
  }

  lemma DelimitedWeight(t: Term, toks: seq<Tok>)
    ensures var (t', rest) := Delimited(t, toks);
            Size(t) + Weight(toks) == Size(t') + Weight(rest)
  {
    if |toks| >= 2 && toks[0] == Sym("%") && toks[1].Word? {
      assert toks[1..][1..] == toks[2..];
    }
  }

  /** The parser consumes as many tokens as the term has, parentheses aside. */
  lemma {:induction false} TermWeight(toks: seq<Tok>)
    requires ParseTerm(toks).Some?
    ensures var (t, rest) := ParseTerm(toks).value; Weight(toks) == Size(t) + Weight(rest)
    decreases |toks|, 3
  {
    AppWeight(toks);
    var p := ParseApp(toks).value;
    if IsInfix(p.1) {
      TermWeight(p.1[1..]);
    }
  }

  lemma {:induction false} AppWeight(toks: seq<Tok>)
    requires ParseApp(toks).Some?
    ensures var (t, rest) := ParseApp(toks).value; Weight(toks) == Size(t) + Weight(rest)
    decreases |toks|, 2
  {
    if toks != [] && toks[0] == Sym("-") {
      AtomWeight(toks[1..]);
    } else {
      AtomsWeight(toks);
      var ts := ParseAtoms(toks).value.0;
      SizesCons(ts[0], ts[1..]);
      assert [ts[0]] + ts[1..] == ts;
    }
  }

  lemma {:induction false} AtomsWeight(toks: seq<Tok>)
    requires ParseAtoms(toks).Some?
    ensures var (ts, rest) := ParseAtoms(toks).value; Weight(toks) == Sizes(ts) + Weight(rest)
    decreases |toks|, 1
  {
    if StartsAtom(toks) {
      AtomWeight(toks);
      var p := ParseAtom(toks).value;
      AtomsWeight(p.1);
      SizesCons(p.0, ParseAtoms(p.1).value.0);
    }
  }

  lemma {:induction false} AtomWeight(toks: seq<Tok>)
    requires ParseAtom(toks).Some?
    ensures var (t, rest) := ParseAtom(toks).value; Weight(toks) == Size(t) + Weight(rest)
    decreases |toks|, 0
  {
    match toks[0]
    case Word(w) => DelimitedWeight(Ident(w), toks[1..]);
    case Str(s) => DelimitedWeight(Lit(s), toks[1..]);
    case LP =>
      TermWeight(toks[1..]);
      var p := ParseTerm(toks[1..]).value;
      if p.1[0] == RP {
        DelimitedWeight(p.0, p.1[1..]);
      } else {
        PartsWeight(p.1[1..]);
        var q := ParseParts(p.1[1..]).value;
        SizesCons(p.0, q.0);
        DelimitedWeight(Tuple([p.0] + q.0), q.1);
      }
  }

  lemma {:induction false} PartsWeight(toks: seq<Tok>)
    requires ParseParts(toks).Some?
    ensures var (ts, rest) := ParseParts(toks).value;
            ts != [] && Weight(toks) == Sizes(ts) + |ts| - 1 + Weight(rest)
    decreases |toks|, 4
  {
    TermWeight(toks);
    var p := ParseTerm(toks).value;
    if p.1[0] == RP {
      SizesCons(p.0, []);
      assert [p.0] + [] == [p.0];
    } else {
      PartsWeight(p.1[1..]);
      SizesCons(p.0, ParseParts(p.1[1..]).value.0);
    }
  }

  /** Two token sequences that spell the same term agree up to parentheses in number. */
  lemma SameTermSameWeight(a: seq<Tok>, b: seq<Tok>)
    requires Parse(a).Some? && Parse(a) == Parse(b)
    ensures Weight(a) == Weight(b)
  {
    TermWeight(a);
    TermWeight(b);
  }
}

/** Reading a printed byte string: it parses as a string term, and the term denotes the bytes. */
module StringReading {
  import opened Text
  import opened Formatters
  import opened Lexing
  import opened CoqTerms
  import opened StringPrinting

  // ---- Sections --------------------------------------------------------------------------------

  function Bytes(ss: seq<Section>): seq<Byte> {
    if ss == [] then [] else Bytes(ss[..|ss| - 1]) + ss[|ss| - 1].bytes
  }

  predicate Uniform(s: Section) {
    s.bytes != [] && forall i :: 0 <= i < |s.bytes| ==> Printable(s.bytes[i]) == s.printable
  }

  predicate AreRuns(ss: seq<Section>) {
    && (forall i :: 0 <= i < |ss| ==> Uniform(ss[i]))
    && (forall i :: 0 <= i < |ss| - 1 ==> ss[i].printable != ss[i + 1].printable)
  }

  lemma RunsEmpty()
    ensures AreRuns([])
  {
  }

  /** A byte joins the last section if that is of its kind, and starts one otherwise. */
  lemma ExtendIs(ss: seq<Section>, c: Byte)
    ensures Extend(ss, c) ==
      if ss != [] && ss[|ss| - 1].printable == Printable(c)
      then ss[..|ss| - 1] + [Section(Printable(c), ss[|ss| - 1].bytes + [c])]
      else ss + [Section(Printable(c), [c])]
  {
    hide Printable;
    var next := Switched(ss, Printable(c));
    if next != ss {
      assert next[..|next| - 1] == ss;
      assert [] + [c] == [c];
    }
  }

  lemma RunsExtend(ss: seq<Section>, c: Byte)
    requires AreRuns(ss)
    ensures AreRuns(Extend(ss, c))
  {
    ExtendIs(ss, c);
    hide Extend, Printable;
    var grown := Extend(ss, c);
    assert forall i :: 0 <= i < |grown| - 1 ==> grown[i] == ss[i];
  }

  /** The sections of a string are its maximal runs of one kind, in order. */
  lemma {:induction false} SectionsAreRuns(bs: seq<Byte>)
    ensures Bytes(Sections(bs)) == bs
    ensures AreRuns(Sections(bs))
    decreases |bs|
  {
    hide Extend, AreRuns;
    if bs == [] {
      RunsEmpty();
    } else {
      var n := |bs| - 1;
      var before := Sections(bs[..n]);
      SectionsAreRuns(bs[..n]);
      BytesExtend(before, bs[n]);
      RunsExtend(before, bs[n]);
      assert bs[..n] + [bs[n]] == bs;
    }
  }

  lemma BytesExtend(ss: seq<Section>, c: Byte)
    ensures Bytes(Extend(ss, c)) == Bytes(ss) + [c]
  {
    hide Printable, Switched, Grow, Bytes;
    BytesSwitched(ss, Printable(c));
    BytesGrow(Switched(ss, Printable(c)), c);
  }

  lemma BytesSwitched(ss: seq<Section>, printable: bool)
    ensures Bytes(Switched(ss, printable)) == Bytes(ss)
  {
    var next := Switched(ss, printable);
    if next != ss {
      assert next[..|next| - 1] == ss;
      assert Bytes(ss) + [] == Bytes(ss);
    }
  }

  lemma BytesGrow(ss: seq<Section>, c: Byte)
    requires ss != []
    ensures Bytes(Grow(ss, c)) == Bytes(ss) + [c]
  {
    var n := |ss| - 1;
    var grown := Grow(ss, c);
    assert grown[..|grown| - 1] == ss[..n];
    var (before, last) := (Bytes(ss[..n]), ss[n].bytes);
    assert before + (last + [c]) == (before + last) + [c];
  }

  // ---- Tokens ----------------------------------------------------------------------------------

  function Chars(bs: seq<Byte>): string {
    seq(|bs|, i requires 0 <= i < |bs| => bs[i] as char)
  }

  function ByteName(c: Byte): string {
    "Byte.x" + Hex(c)
  }

  function Openers(bs: seq<Byte>): seq<Tok> {
    if bs == [] then [] else [LP, Word("BS.String"), Word(ByteName(bs[0]))] + Openers(bs[1..])
  }

  function Enders(n: nat): seq<Tok> {
    if n == 0 then [] else Enders(n - 1) + [RP]
  }

  function EscapeToks(bs: seq<Byte>): seq<Tok> {
    Openers(bs) + [Str("")] + Enders(|bs|)
  }

  function SectionToks(s: Section): seq<Tok> {
    if s.printable then [Str(Chars(s.bytes))] else EscapeToks(s.bytes)
  }

  function JoinedToks(ss: seq<Section>): seq<Tok> {
    if ss == [] then [] else SectionToks(ss[0]) + [Sym("++")] + JoinedToks(ss[1..])
  }

  lemma {:induction false} JoinedToksAppend(ss: seq<Section>, s: Section)
    ensures JoinedToks(ss + [s]) == JoinedToks(ss) + SectionToks(s) + [Sym("++")]
    decreases |ss|
  {
    hide SectionToks;
    if ss == [] {
      assert [] + [s] == [s] && [s][1..] == [];
    } else {
      assert (ss + [s])[1..] == ss[1..] + [s];
      JoinedToksAppend(ss[1..], s);
    }
  }

  lemma {:induction false} OpenersAppend(bs: seq<Byte>, c: Byte)
    ensures Openers(bs + [c]) == Openers(bs) + [LP, Word("BS.String"), Word(ByteName(c))]
    decreases |bs|
  {
    if bs == [] {
      assert [] + [c] == [c] && [c][1..] == [];
    } else {
      assert (bs + [c])[1..] == bs[1..] + [c];
      OpenersAppend(bs[1..], c);
    }
  }

  // ---- Lexing ----------------------------------------------------------------------------------

  /** A quote inside a literal is written twice. */
  lemma LexLitChar(lx: Lexer, c: Byte)
    requires lx.mode.InStr? && Printable(c)
    ensures FeedAll(lx, LitChar(c)) == lx.(mode := InStr(lx.mode.s + [c as char]))
  {
    if c == 34 {
      assert "\"\""[1..] == "\"";
      assert FeedAll(Feed(Feed(lx, '"'), '"'), "") == lx.(mode := InStr(lx.mode.s + ['"']));
    }
  }

  lemma {:induction false} LexLitChars(lx: Lexer, bs: seq<Byte>)
    requires lx.mode.InStr? && forall i :: 0 <= i < |bs| ==> Printable(bs[i])
    ensures FeedAll(lx, LitChars(bs)) == lx.(mode := InStr(lx.mode.s + Chars(bs)))
    decreases |bs|
  {
    if bs == [] {
      assert lx.mode.s + Chars(bs) == lx.mode.s;
    } else {
      var n := |bs| - 1;
      LexLitChars(lx, bs[..n]);
      var mid := lx.(mode := InStr(lx.mode.s + Chars(bs[..n])));
      FeedAppend(lx, LitChars(bs[..n]), LitChar(bs[n]));
      LexLitChar(mid, bs[n]);
      assert lx.mode.s + Chars(bs[..n]) + [bs[n] as char] == lx.mode.s + Chars(bs);
    }
  }

  lemma LexEscapeChar(lx: Lexer, c: Byte)
    requires lx.mode.Ready?
    ensures FeedAll(lx, EscapeChar(c)) == Lexer(lx.toks + [LP, Word("BS.String"), Word(ByteName(c))], Ready)
  {
    hide FeedAll, ByteName, Feed;
    var a := Lexer(lx.toks + [LP, Word("BS.String")], Ready);
    EscapeCharParts(c);
    FeedAppend(lx, "(BS.String ", ByteName(c) + " ");
    LexConstructor(lx);
    FeedAppend(a, ByteName(c), " ");
    FeedName(a, c);
    LexEnd(a.toks, ByteName(c));
    assert a.toks + [Word(ByteName(c))] == lx.toks + [LP, Word("BS.String"), Word(ByteName(c))];
  }

  lemma EscapeCharParts(c: Byte)
    ensures EscapeChar(c) == "(BS.String " + (ByteName(c) + " ")
  {
    hide Hex;
    assert "(BS.String Byte.x" == "(BS.String " + "Byte.x";
  }

  lemma LexEnd(toks: seq<Tok>, w: string)
    ensures FeedAll(Lexer(toks, InWord(w)), " ") == Lexer(toks + [Word(w)], Ready)
  {
    hide FeedAll;
    FeedCons(Lexer(toks, InWord(w)), ' ', "");
  }

  lemma LexConstructor(lx: Lexer)
    requires lx.mode.Ready?
    ensures FeedAll(lx, "(BS.String ") == Lexer(lx.toks + [LP, Word("BS.String")], Ready)
  {
    hide FeedAll;
    var a := Lexer(lx.toks + [LP], Ready);
    assert "(BS.String " == ['('] + ("BS.String" + " ");
    assert Settle(lx).toks == lx.toks && Settle(a).toks == a.toks;
    FeedCons(lx, '(', "BS.String" + " ");
    FeedAppend(a, "BS.String", " ");
    FeedWord(a, "BS.String");
    LexEnd(a.toks, "BS.String");
    assert a.toks + [Word("BS.String")] == lx.toks + [LP, Word("BS.String")];
  }

  lemma FeedName(lx: Lexer, c: Byte)
    requires lx.mode.Ready?
    ensures FeedAll(lx, ByteName(c)) == Lexer(lx.toks, InWord(ByteName(c)))
  {
    assert IsWord(ByteName(c));
    FeedWord(lx, ByteName(c));
    assert Settle(lx).toks == lx.toks;
  }

  lemma {:induction false} LexEscapeChars(lx: Lexer, bs: seq<Byte>)
    requires lx.mode.Ready?
    ensures FeedAll(lx, EscapeChars(bs)) == Lexer(lx.toks + Openers(bs), Ready)
    decreases |bs|
  {
    hide EscapeChar, ByteName;
    if bs == [] {
      assert lx.toks + [] == lx.toks;
    } else {
      var n := |bs| - 1;
      LexEscapeChars(lx, bs[..n]);
      FeedAppend(lx, EscapeChars(bs[..n]), EscapeChar(bs[n]));
      LexEscapeChar(Lexer(lx.toks + Openers(bs[..n]), Ready), bs[n]);
      OpenersAppend(bs[..n], bs[n]);
      assert bs[..n] + [bs[n]] == bs;
    }
  }

  lemma {:induction false} LexClosers(lx: Lexer, n: nat)
    requires !lx.mode.InStr?
    ensures var r := FeedAll(lx, Closers(n));
            !r.mode.InStr? && Settle(r) == Lexer(Settle(lx).toks + Enders(n), Ready)
  {
    if n == 0 {
      assert Settle(lx).toks + [] == Settle(lx).toks;
    } else {
      LexClosers(lx, n - 1);
      var r := FeedAll(lx, Closers(n - 1));
      FeedAppend(lx, Closers(n - 1), ")");
      assert FeedAll(r, ")") == Feed(r, ')');
      assert Settle(lx).toks + Enders(n - 1) + [RP] == Settle(lx).toks + Enders(n);
      assert Settle(Feed(r, ')')).toks == Feed(r, ')').toks + [];
    }
  }

  lemma LexQuoted(lx: Lexer, bs: seq<Byte>)
    requires lx.mode.Ready? && forall i :: 0 <= i < |bs| ==> Printable(bs[i])
    ensures FeedAll(lx, "\"" + LitChars(bs) + "\"") == Lexer(lx.toks, Quoted(Chars(bs)))
  {
    hide LitChars, Chars, FeedAll, Printable;
    FeedAppend(lx, "\"" + LitChars(bs), "\"");
    FeedAppend(lx, "\"", LitChars(bs));
    FeedCons(lx, '"', "");
    var open := Lexer(lx.toks, InStr(""));
    assert Settle(lx).toks == lx.toks;
    LexLitChars(open, bs);
    assert "" + Chars(bs) == Chars(bs);
    FeedCons(open.(mode := InStr(Chars(bs))), '"', "");
  }

  lemma LexEscaped(lx: Lexer, bs: seq<Byte>)
    requires lx.mode.Ready?
    ensures var r := FeedAll(lx, EscapeChars(bs) + ("\"\"" + Closers(|bs|)));
            !r.mode.InStr? && Settle(r) == Lexer(lx.toks + EscapeToks(bs), Ready)
  {
    hide EscapeChars, Openers, Enders, Closers, FeedAll;
    FeedAppend(lx, EscapeChars(bs), "\"\"" + Closers(|bs|));
    LexEscapeChars(lx, bs);
    var open := Lexer(lx.toks + Openers(bs), Ready);
    FeedAppend(open, "\"\"", Closers(|bs|));
    LexEmpty(open);
    var mid := Lexer(open.toks, Quoted(""));
    LexClosers(mid, |bs|);
    assert lx.toks + Openers(bs) + [Str("")] + Enders(|bs|) == lx.toks + (Openers(bs) + [Str("")] + Enders(|bs|));
  }

  /** A section reads as its tokens. */
  lemma LexSection(lx: Lexer, s: Section)
    requires lx.mode.Ready? && Uniform(s)
    ensures var r := FeedAll(lx, Begun(s) + Ending(s));
            !r.mode.InStr? && Settle(r) == Lexer(lx.toks + SectionToks(s), Ready)
  {
    hide LitChars, EscapeChars, Closers, FeedAll, EscapeToks;
    if s.printable {
      LexQuoted(lx, s.bytes);
    } else {
      LexEscaped(lx, s.bytes);
    }
  }

  lemma LexEmpty(lx: Lexer)
    requires lx.mode.Ready?
    ensures FeedAll(lx, "\"\"") == Lexer(lx.toks, Quoted(""))
  {
    assert "\"\""[1..] == "\"";
    assert FeedAll(Feed(Feed(lx, '"'), '"'), "") == Feed(Feed(lx, '"'), '"');
    assert Settle(lx).toks == lx.toks;
  }

  lemma LexPlusPlus(lx: Lexer)
    requires !lx.mode.InStr?
    ensures FeedAll(lx, " ++ ") == Lexer(Settle(lx).toks + [Sym("++")], Ready)
  {
    hide FeedAll;
    var toks := Settle(lx).toks;
    assert " ++ " == [' '] + (['+'] + (['+'] + " "));
    FeedCons(lx, ' ', ['+'] + (['+'] + " "));
    FeedCons(Lexer(toks, Ready), '+', ['+'] + " ");
    assert Settle(Lexer(toks, Ready)).toks == toks;
    FeedCons(Lexer(toks, InSym("+")), '+', " ");
    assert "+" + ['+'] == "++";
    FeedCons(Lexer(toks, InSym("++")), ' ', "");
  }

  lemma FeedNone(lx: Lexer)
    ensures FeedAll(lx, "") == lx
  {
  }

  lemma JoinedNone()
    ensures JoinedToks([]) == []
  {
  }

  lemma {:induction false} LexJoined(lx: Lexer, ss: seq<Section>)
    requires lx.mode.Ready? && AreRuns(ss)
    ensures FeedAll(lx, Joined(ss)) == Lexer(lx.toks + JoinedToks(ss), Ready)
    decreases |ss|
  {
    hide Begun, Ending, SectionToks, FeedAll, JoinedToks, Uniform;
    if ss == [] {
      FeedNone(lx);
      JoinedNone();
      assert lx.toks + [] == lx.toks;
    } else {
      var n := |ss| - 1;
      var (front, last) := (ss[..n], ss[n]);
      LexJoined(lx, front);
      var mid := Lexer(lx.toks + JoinedToks(front), Ready);
      FeedAppend(lx, Joined(front), Begun(last) + Ending(last) + " ++ ");
      FeedAppend(mid, Begun(last) + Ending(last), " ++ ");
      LexSection(mid, last);
      LexPlusPlus(FeedAll(mid, Begun(last) + Ending(last)));
      JoinedToksAppend(front, last);
      assert front + [last] == ss;
      assert lx.toks + JoinedToks(front) + SectionToks(last) + [Sym("++")] == lx.toks + JoinedToks(ss);
    }
  }

  /** The tokens of a printed string. */
  function Tokens(ss: seq<Section>): seq<Tok> {
    if ss == [] then [Str("")]
    else [LP] + (JoinedToks(ss[..|ss| - 1]) + SectionToks(ss[|ss| - 1]) + [RP])
  }

  lemma LexPretty(bs: seq<Byte>)
    ensures Lex(Pretty(bs)) == Some(Tokens(Sections(bs)))
  {
    hide Begun, Ending, SectionToks, JoinedToks, Joined, Sections, AreRuns, FeedAll, Feed, Bytes;
    SectionsAreRuns(bs);
    var ss := Sections(bs);
    if ss == [] {
      LexEmpty(START);
      assert [] + [Str("")] == [Str("")];
    } else {
      var (front, last) := (ss[..|ss| - 1], ss[|ss| - 1]);
      var text := Joined(front) + (Begun(last) + Ending(last));
      assert Pretty(bs) == ['('] + (text + ")");
      LexInner(front, last, ss);
      var toks := JoinedToks(front) + SectionToks(last);
      var c := FeedAll(Lexer([LP], Ready), text);
      LexParens(text, c);
      assert [LP] + toks + [RP] == Tokens(ss);
    }
  }

  lemma LexInner(front: seq<Section>, last: Section, ss: seq<Section>)
    requires AreRuns(ss) && ss == front + [last]
    ensures var r := FeedAll(Lexer([LP], Ready), Joined(front) + (Begun(last) + Ending(last)));
            !r.mode.InStr? && Settle(r) == Lexer([LP] + (JoinedToks(front) + SectionToks(last)), Ready)
  {
    hide Begun, Ending, SectionToks, JoinedToks, Joined, FeedAll, Uniform;
    var a := Lexer([LP], Ready);
    assert forall i :: 0 <= i < |front| ==> front[i] == ss[i];
    assert AreRuns(front) && Uniform(ss[|ss| - 1]);
    LexJoined(a, front);
    FeedAppend(a, Joined(front), Begun(last) + Ending(last));
    LexSection(Lexer([LP] + JoinedToks(front), Ready), last);
    assert [LP] + JoinedToks(front) + SectionToks(last) == [LP] + (JoinedToks(front) + SectionToks(last));
  }

  /** A text between parentheses. */
  lemma LexParens(text: string, r: Lexer)
    requires r == FeedAll(Lexer([LP], Ready), text) && !r.mode.InStr?
    ensures Lex(['('] + (text + ")")) == Some(Settle(r).toks + [RP])
  {
    hide FeedAll;
    FeedCons(START, '(', text + ")");
    assert Feed(START, '(') == Lexer([LP], Ready);
    FeedAppend(Lexer([LP], Ready), text, ")");
    FeedCons(r, ')', "");
    var toks := Settle(r).toks + [RP];
    assert toks + [] == toks;
  }

  // ---- Parsing ---------------------------------------------------------------------------------

  function EscapeTerm(bs: seq<Byte>): Term {
    if bs == [] then Lit("")
    else Apply(Ident("BS.String"), [Ident(ByteName(bs[0])), EscapeTerm(bs[1..])])
  }

  function SectionTerm(s: Section): Term {
    if s.printable then Lit(Chars(s.bytes)) else EscapeTerm(s.bytes)
  }

  function ChainTerm(front: seq<Section>, last: Section): Term {
    if front == [] then SectionTerm(last) else Infix("++", SectionTerm(front[0]), ChainTerm(front[1..], last))
  }

  function StringTerm(bs: seq<Byte>): Term {
    var ss := Sections(bs);
    if ss == [] then Lit("") else ChainTerm(ss[..|ss| - 1], ss[|ss| - 1])
  }

  /** What may follow a section: the end, a parenthesis or `++`. */
  predicate Follows(rest: seq<Tok>) {
    rest == [] || rest[0].RP? || rest[0] == Sym("++")
  }

  lemma OneAtom(toks: seq<Tok>, t: Term, rest: seq<Tok>)
    requires StartsAtom(toks) && ParseAtom(toks) == Some((t, rest)) && Follows(rest)
    ensures ParseAtoms(toks) == Some(([t], rest)) && ParseApp(toks) == Some((t, rest))
  {
    assert ParseAtoms(rest) == Some(([], rest));
    assert [t] + [] == [t];
  }

  lemma WordAtom(w: string, toks: seq<Tok>, ts: seq<Term>, rest: seq<Tok>)
    requires StartsAtom(toks) && ParseAtoms(toks) == Some((ts, rest))
    ensures ParseAtoms([Word(w)] + toks) == Some(([Ident(w)] + ts, rest))
  {
    var all := [Word(w)] + toks;
    assert all[1..] == toks;
    assert ParseAtom(all) == Some((Ident(w), toks));
  }

  lemma EscapeToksCons(bs: seq<Byte>, rest: seq<Tok>)
    requires bs != []
    ensures EscapeToks(bs) + rest
         == [LP] + ([Word("BS.String")] + ([Word(ByteName(bs[0]))] + (EscapeToks(bs[1..]) + ([RP] + rest))))
  {
    hide ByteName;
    assert Enders(|bs|) == Enders(|bs| - 1) + [RP];
  }

  lemma {:induction false} EscapeAtom(bs: seq<Byte>, rest: seq<Tok>)
    requires Follows(rest)
    ensures StartsAtom(EscapeToks(bs) + rest)
    ensures ParseAtom(EscapeToks(bs) + rest) == Some((EscapeTerm(bs), rest))
    decreases |bs|
  {
    hide ByteName;
    if bs == [] {
      assert EscapeToks(bs) + rest == [Str("")] + rest;
      assert ([Str("")] + rest)[1..] == rest;
    } else {
      var inner := EscapeToks(bs[1..]) + ([RP] + rest);
      EscapeAtom(bs[1..], [RP] + rest);
      EscapeToksCons(bs, rest);
      var name := [Word(ByteName(bs[0]))] + inner;
      OneAtom(inner, EscapeTerm(bs[1..]), [RP] + rest);
      WordAtom(ByteName(bs[0]), inner, [EscapeTerm(bs[1..])], [RP] + rest);
      WordAtom("BS.String", name, [Ident(ByteName(bs[0]))] + [EscapeTerm(bs[1..])], [RP] + rest);
      assert [Ident("BS.String")] + ([Ident(ByteName(bs[0]))] + [EscapeTerm(bs[1..])])
          == [Ident("BS.String"), Ident(ByteName(bs[0])), EscapeTerm(bs[1..])];
      InParens([Word("BS.String")] + name, EscapeTerm(bs), rest);
    }
  }

  lemma InParens(toks: seq<Tok>, t: Term, rest: seq<Tok>)
    requires ParseTerm(toks) == Some((t, [RP] + rest)) && Follows(rest)
    ensures ParseAtom([LP] + toks) == Some((t, rest))
  {
    assert ([LP] + toks)[1..] == toks && ([RP] + rest)[1..] == rest;
  }

  lemma SectionAtom(s: Section, rest: seq<Tok>)
    requires Follows(rest)
    ensures StartsAtom(SectionToks(s) + rest)
    ensures ParseAtom(SectionToks(s) + rest) == Some((SectionTerm(s), rest))
  {
    hide EscapeToks;
    if s.printable {
      assert ([Str(Chars(s.bytes))] + rest)[1..] == rest;
    } else {
      EscapeAtom(s.bytes, rest);
    }
  }

  lemma {:induction false} ChainParse(front: seq<Section>, last: Section, rest: seq<Tok>)
    requires rest == [] || rest[0].RP?
    ensures ParseTerm(JoinedToks(front) + SectionToks(last) + rest) == Some((ChainTerm(front, last), rest))
    decreases |front|
  {
    hide SectionToks, SectionTerm, ParseAtom;
    if front == [] {
      var toks := SectionToks(last) + rest;
      assert JoinedToks(front) + SectionToks(last) + rest == toks;
      SectionAtom(last, rest);
      OneAtom(toks, SectionTerm(last), rest);
    } else {
      var tail := JoinedToks(front[1..]) + SectionToks(last) + rest;
      var toks := SectionToks(front[0]) + ([Sym("++")] + tail);
      assert JoinedToks(front) + SectionToks(last) + rest == toks;
      SectionAtom(front[0], [Sym("++")] + tail);
      OneAtom(toks, SectionTerm(front[0]), [Sym("++")] + tail);
      assert ([Sym("++")] + tail)[1..] == tail;
      ChainParse(front[1..], last, rest);
    }
  }

  // ---- The meaning of a string term --------------------------------------------------------------

  function HexValue(c: char): Option<int> {
    if '0' <= c <= '9' then Some(c as int - 48)
    else if 'a' <= c <= 'f' then Some(c as int - 87)
    else None
  }

  /** The byte that a constructor of Coq's `Byte.byte` stands for. */
  function ByteOf(t: Term): Option<Byte> {
    if t.Ident? && |t.w| == 8 && t.w[..6] == "Byte.x" && HexValue(t.w[6]).Some? && HexValue(t.w[7]).Some?
    then Some(16 * HexValue(t.w[6]).value + HexValue(t.w[7]).value)
    else None
  }

  predicate IsBytes(s: string) {
    forall i :: 0 <= i < |s| ==> s[i] < 256 as char
  }

  function Codes(s: string): (bs: seq<Byte>)
    requires IsBytes(s)
    ensures |bs| == |s| && forall i :: 0 <= i < |s| ==> bs[i] == s[i] as int
  {
    if s == "" then [] else [s[0] as int] + Codes(s[1..])
  }

  lemma CodesOfChars(bs: seq<Byte>)
    ensures IsBytes(Chars(bs)) && Codes(Chars(bs)) == bs
  {
    forall i | 0 <= i < |bs|
      ensures Chars(bs)[i] < 256 as char && Chars(bs)[i] as int == bs[i]
    {
    }
  }

  function Denoted(t: Term): Option<seq<Byte>>
    decreases t
  {
    match t
    case Lit(s) =>
      if IsBytes(s) then Some(Codes(s)) else None
    case Infix(op, l, r) =>
      if op != "++" then None
      else
        (match (Denoted(l), Denoted(r))
         case (Some(a), Some(b)) => Some(a + b)
         case _ => None)
    case Apply(fn, args) =>
      if fn != Ident("BS.String") || |args| != 2 then None
      else
        (match (ByteOf(args[0]), Denoted(args[1]))
         case (Some(c), Some(rest)) => Some([c] + rest)
         case _ => None)
    case _ => None
  }

  lemma ByteRead(c: Byte)
    ensures ByteOf(Ident(ByteName(c))) == Some(c)
  {
    var (hi, lo) := (c / 16, c % 16);
    assert ByteName(c)[..6] == "Byte.x";
    assert ByteName(c)[6] == HexDigit(hi) && ByteName(c)[7] == HexDigit(lo);
  }

  lemma {:induction false} EscapeDenoted(bs: seq<Byte>)
    ensures Denoted(EscapeTerm(bs)) == Some(bs)
    decreases |bs|
  {
    hide ByteOf, ByteName;
    if bs == [] {
      assert Denoted(Lit("")) == Some([]);
    } else {
      ByteRead(bs[0]);
      EscapeDenoted(bs[1..]);
      assert [bs[0]] + bs[1..] == bs;
    }
  }

  lemma SectionDenoted(s: Section)
    ensures Denoted(SectionTerm(s)) == Some(s.bytes)
  {
    if s.printable {
      CodesOfChars(s.bytes);
    } else {
      EscapeDenoted(s.bytes);
    }
  }

  lemma {:induction false} ChainDenoted(front: seq<Section>, last: Section)
    ensures Denoted(ChainTerm(front, last)) == Some(Bytes(front + [last]))
    decreases |front|
  {
    hide SectionTerm, Bytes;
    if front == [] {
      SectionDenoted(last);
      assert [] + [last] == [last];
      BytesOne(last);
    } else {
      SectionDenoted(front[0]);
      ChainDenoted(front[1..], last);
      BytesCons(front[0], front[1..] + [last]);
      assert [front[0]] + (front[1..] + [last]) == front + [last];
    }
  }

  lemma BytesOne(s: Section)
    ensures Bytes([s]) == s.bytes
  {
    assert [s][..0] == [];
    assert Bytes([]) + s.bytes == s.bytes;
  }

  lemma {:induction false} BytesCons(s: Section, ss: seq<Section>)
    ensures Bytes([s] + ss) == s.bytes + Bytes(ss)
    decreases |ss|
  {
    var all := [s] + ss;
    if ss == [] {
      assert all[..|all| - 1] == [];
      assert s.bytes + [] == s.bytes;
    } else {
      assert all[..|all| - 1] == [s] + ss[..|ss| - 1];
      BytesCons(s, ss[..|ss| - 1]);
    }
  }

  /** The tokens of one section or more parse as their chain. */
  lemma ChainWhole(front: seq<Section>, last: Section)
    ensures Parse([LP] + (JoinedToks(front) + SectionToks(last) + [RP])) == Some(ChainTerm(front, last))
  {
    hide SectionToks, SectionTerm, JoinedToks, ChainTerm;
    var inner := JoinedToks(front) + SectionToks(last) + [RP];
    ChainParse(front, last, [RP]);
    assert [RP] + [] == [RP];
    InParens(inner, ChainTerm(front, last), []);
    OneAtom([LP] + inner, ChainTerm(front, last), []);
  }

  lemma LastSection(ss: seq<Section>) returns (front: seq<Section>, last: Section)
    requires ss != []
    ensures ss == front + [last] && front == ss[..|ss| - 1] && last == ss[|ss| - 1]
  {
    front, last := ss[..|ss| - 1], ss[|ss| - 1];
  }

  /** Printing a byte string gives a text that parses as one term, and that term denotes exactly
      the bytes. */
  lemma StringRoundTrip(bs: seq<Byte>)
    ensures ReadText(Pretty(bs)) == Some(StringTerm(bs))
    ensures Denoted(StringTerm(bs)) == Some(bs)
  {
    hide Pretty, Sections, Lex, AreRuns, Bytes, SectionToks, JoinedToks;
    LexPretty(bs);
    SectionsAreRuns(bs);
    var ss := Sections(bs);
    if ss == [] {
      OneAtom([Str("")], Lit(""), []);
      EscapeDenoted([]);
      NoBytes();
    } else {
      hide Parse, Denoted, ChainTerm;
      var front, last := LastSection(ss);
      ChainWhole(front, last);
      ChainDenoted(front, last);
    }
  }

  lemma NoBytes()
    ensures Bytes([]) == []
  {
  }
}

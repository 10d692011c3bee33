/** The byte strings of src/StringPrettyPrinter.cpp: printable bytes go into quoted sections,
    the others into sections of explicit constructors, and sections are joined with `++`. */
module StringPrinting {
  import opened Text
  import opened Formatters
  import opened Lexing
  import opened CoqTerms

  /** A maximal run of bytes that are all printable, or all not. */
  datatype Section = Section(printable: bool, bytes: seq<Byte>)

  predicate Printable(c: Byte) {
    32 <= c < 128
  }

  /** The sections of a string, and those of the string with one more byte. */
  function Extend(ss: seq<Section>, c: Byte): seq<Section> {
    Grow(Switched(ss, Printable(c)), c)
  }

  /** A section of the wanted kind comes last. */
  function Switched(ss: seq<Section>, printable: bool): (r: seq<Section>)
    ensures r != [] && r[|r| - 1].printable == printable
  {
    if ss != [] && ss[|ss| - 1].printable == printable then ss else ss + [Section(printable, [])]
  }

  function Grow(ss: seq<Section>, c: Byte): seq<Section>
    requires ss != []
  {
    var n := |ss| - 1;
    ss[..n] + [Section(ss[n].printable, ss[n].bytes + [c])]
  }

  function Sections(bs: seq<Byte>): seq<Section> {
    if bs == [] then [] else Extend(Sections(bs[..|bs| - 1]), bs[|bs| - 1])
  }

  // ---- The text ------------------------------------------------------------------------------

  function HexDigit(d: int): (c: char)
    requires 0 <= d < 16
    ensures IsWordChar(c)
  {
    if d < 10 then DigitChar(d) else (d + 87) as char
  }

  function Hex(c: Byte): (s: string)
    ensures |s| == 2 && IsWordChar(s[0]) && IsWordChar(s[1])
  {
    [HexDigit(c / 16), HexDigit(c % 16)]
  }

  function LitChar(c: Byte): string {
    if c == 34 then "\"\"" else [c as char]
  }

  function LitChars(bs: seq<Byte>): string {
    if bs == [] then "" else LitChars(bs[..|bs| - 1]) + LitChar(bs[|bs| - 1])
  }

  function EscapeChar(c: Byte): string {
    "(BS.String Byte.x" + Hex(c) + " "
  }

  function EscapeChars(bs: seq<Byte>): string {
    if bs == [] then "" else EscapeChars(bs[..|bs| - 1]) + EscapeChar(bs[|bs| - 1])
  }

  function Closers(n: nat): string {
    if n == 0 then "" else Closers(n - 1) + ")"
  }

  function Begun(s: Section): string {
    if s.printable then "\"" + LitChars(s.bytes) else EscapeChars(s.bytes)
  }

  function Ending(s: Section): string {
    if s.printable then "\"" else "\"\"" + Closers(|s.bytes|)
  }

  /** Sections that are followed by another. */
  function Joined(ss: seq<Section>): string {
    if ss == [] then ""
    else Joined(ss[..|ss| - 1]) + (Begun(ss[|ss| - 1]) + Ending(ss[|ss| - 1]) + " ++ ")
  }

  /** The text of a string up to the end of its last section. */
  function Opened(ss: seq<Section>): string
    requires ss != []
  {
    "(" + Joined(ss[..|ss| - 1]) + Begun(ss[|ss| - 1])
  }

  function Pretty(bs: seq<Byte>): string {
    var ss := Sections(bs);
    if ss == [] then "\"\"" else Opened(ss) + Ending(ss[|ss| - 1]) + ")"
  }

  // ---- The printer ---------------------------------------------------------------------------

  /** The formatter after the sections `ss`, the last of which is open. */
  function Shown(st: State, ss: seq<Section>): State {
    if ss == [] then st else Step(Written(st, Opened(ss)), Indent)
  }

  lemma ShownMore(st: State, a: string, b: string)
    ensures Written(Step(Written(st, a), Indent), b) == Step(Written(st, a + b), Indent)
  {
    WrittenTwice(st, a, b);
  }

  lemma JoinedLast(ss: seq<Section>)
    requires ss != []
    ensures Joined(ss) == Joined(ss[..|ss| - 1]) + (Begun(ss[|ss| - 1]) + Ending(ss[|ss| - 1]) + " ++ ")
  {
  }

  lemma BegunEmpty(printable: bool)
    ensures Begun(Section(printable, [])) == if printable then "\"" else ""
  {
  }

  lemma OpenedNext(ss: seq<Section>, printable: bool)
    requires ss != []
    ensures Opened(ss + [Section(printable, [])])
         == Opened(ss) + Ending(ss[|ss| - 1]) + " ++ " + (if printable then "\"" else "")
  {
    hide Joined, Begun, Ending;
    var longer := ss + [Section(printable, [])];
    assert longer[..|longer| - 1] == ss;
    var last := ss[|ss| - 1];
    JoinedLast(ss);
    BegunEmpty(printable);
    var (j, b, e) := (Joined(ss[..|ss| - 1]), Begun(last), Ending(last));
    assert "(" + (j + (b + e + " ++ ")) == "(" + j + b + e + " ++ ";
  }

  /** The first section opens behind a parenthesis. */
  lemma ShownFirst(st: State, printable: bool)
    ensures Shown(st, [Section(printable, [])])
         == if printable then Written(Lparen(st), "\"") else Lparen(st)
    ensures Shown(st, []) == st
  {
    BegunEmpty(printable);
    ShownMore(st, "(", "\"");
    var ss := [Section(printable, [])];
    assert ss[..|ss| - 1] == [];
    assert Opened(ss) == "(" + "" + Begun(ss[0]);
    assert "(" + "" + "" == "(" && "(" + "" + "\"" == "(" + "\"";
  }

  /** A further section opens behind the end of the last and a plus sign. */
  lemma ShownNext(st: State, ss: seq<Section>, printable: bool)
    requires ss != []
    ensures var closed := Written(Written(Shown(st, ss), Ending(ss[|ss| - 1])), " ++ ");
            Shown(st, ss + [Section(printable, [])]) == if printable then Written(closed, "\"") else closed
  {
    hide Written, Opened, Ending, Step;
    var (text, end) := (Opened(ss), Ending(ss[|ss| - 1]));
    ShownMore(st, text, end);
    ShownMore(st, text + end, " ++ ");
    ShownMore(st, text + end + " ++ ", "\"");
    OpenedNext(ss, printable);
    assert text + end + " ++ " + "" == text + end + " ++ ";
  }

  lemma BegunGrows(s: Section, c: Byte)
    requires s.printable == Printable(c)
    ensures Begun(Section(s.printable, s.bytes + [c])) == Begun(s) + (if Printable(c) then LitChar(c) else EscapeChar(c))
  {
    hide Printable, LitChar, EscapeChar;
    var bytes := s.bytes + [c];
    assert bytes[..|bytes| - 1] == s.bytes;
  }

  lemma OpenedGrows(ss: seq<Section>, c: Byte)
    requires ss != [] && ss[|ss| - 1].printable == Printable(c)
    ensures Opened(Grow(ss, c)) == Opened(ss) + (if Printable(c) then LitChar(c) else EscapeChar(c))
  {
    hide Printable, LitChar, EscapeChar, Joined, Begun;
    var grown := Grow(ss, c);
    assert grown[..|grown| - 1] == ss[..|ss| - 1];
    BegunGrows(ss[|ss| - 1], c);
  }

  lemma EscapeWritten(st: State, text: string, c: Byte)
    ensures Written(Written(Written(Step(Written(st, text), Indent), "(BS.String Byte.x"), Hex(c)), " ")
         == Step(Written(st, text + EscapeChar(c)), Indent)
  {
    hide Hex, Written;
    ShownMore(st, text, "(BS.String Byte.x");
    ShownMore(st, text + "(BS.String Byte.x", Hex(c));
    ShownMore(st, text + "(BS.String Byte.x" + Hex(c), " ");
    assert text + "(BS.String Byte.x" + Hex(c) + " " == text + EscapeChar(c);
  }

  lemma ExtendEscape(ss: seq<Section>, c: Byte)
    requires !Printable(c)
    ensures var (next, r) := (Switched(ss, false), Extend(ss, c));
            && r == Grow(next, c)
            && r[|r| - 1] == Section(false, next[|next| - 1].bytes + [c])
  {
  }

  datatype PrettyState = AtStart | Literal | Escape

  function StateFor(printable: bool): PrettyState {
    if printable then Literal else Escape
  }

  class StringPrettyPrinter {
    const f: Formatter
    var parensToClose: int
    var state: PrettyState

    /** The count of parentheses is -1 exactly outside escaped sections. */
    ghost predicate Valid()
      reads this
    {
      parensToClose >= -1 && (parensToClose == -1 <==> !state.Escape?)
    }

    /** The fields describe the last of the sections `ss`. */
    ghost predicate At(ss: seq<Section>)
      reads this
    {
      if ss == [] then state == AtStart
      else
        var last := ss[|ss| - 1];
        state == StateFor(last.printable) && (!last.printable ==> parensToClose == |last.bytes|)
    }

    constructor (f: Formatter)
      ensures this.f == f && Valid() && At([])
    {
      this.f := f;
      parensToClose, state := -1, AtStart;
    }

    /** Ends the section that is open. */
    method Close(ghost ss: seq<Section>)
      requires Valid() && ss != [] && At(ss)
      modifies this, f
      ensures f.St() == Written(old(f.St()), Ending(ss[|ss| - 1]))
      ensures parensToClose == -1 && state == old(state) && f.depth == old(f.depth)
    {
      if state.Literal? {
        f.Put("\"");
      } else {
        f.Put("\"\"");
        var i := 0;
        while i < parensToClose
          invariant 0 <= i <= parensToClose == old(parensToClose)
          invariant f.St() == Written(old(f.St()), "\"\"" + Closers(i))
          invariant state == old(state)
        {
          WrittenTwice(old(f.St()), "\"\"" + Closers(i), ")");
          assert "\"\"" + Closers(i) + ")" == "\"\"" + Closers(i + 1);
          f.Put(")");
          i := i + 1;
        }
        parensToClose := -1;
      }
    }

    /** Starts a section; the parentheses of the one before it are closed. */
    method Open(newState: PrettyState)
      requires parensToClose == -1 && newState != AtStart
      modifies this, f
      ensures f.St() == if newState.Literal? then Written(old(f.St()), "\"") else old(f.St())
      ensures parensToClose == (if newState.Escape? then 0 else -1) && state == old(state)
      ensures f.depth == old(f.depth)
    {
      if newState.Literal? {
        f.Put("\"");
      } else {
        parensToClose := 0;
      }
    }

    method SwitchState(newState: PrettyState, ghost st: State, ghost ss: seq<Section>)
      requires Valid() && At(ss) && f.St() == Shown(st, ss) && newState != AtStart
      modifies this, f
      ensures Valid()
      ensures var next := Switched(ss, newState.Literal?);
              At(next) && f.St() == Shown(st, next)
    {
      hide Shown, Written, Step, Lparen, Ending;
      if newState != state {
        if state != AtStart {
          Close(ss);
          f.Put(" ++ ");
          ShownNext(st, ss, newState.Literal?);
        } else {
          f.OpenParen();
          ShownFirst(st, newState.Literal?);
          assert ss + [Section(newState.Literal?, [])] == [Section(newState.Literal?, [])];
        }
        Open(newState);
        state := newState;
      }
    }

    method ToLit(c: Byte, ghost st: State, ghost ss: seq<Section>)
      requires Valid() && At(ss) && f.St() == Shown(st, ss) && Printable(c)
      modifies this, f
      ensures Valid() && At(Extend(ss, c)) && f.St() == Shown(st, Extend(ss, c))
    {
      SwitchState(Literal, st, ss);
      ghost var next := Switched(ss, true);
      OpenedGrows(next, c);
      ShownMore(st, Opened(next), LitChar(c));
      if c == 34 {
        f.Put("\"\"");
      } else {
        f.Put([c as char]);
      }
    }

    method ToEscape(c: Byte, ghost st: State, ghost ss: seq<Section>)
      requires Valid() && At(ss) && f.St() == Shown(st, ss) && !Printable(c)
      modifies this, f
      ensures Valid() && At(Extend(ss, c)) && f.St() == Shown(st, Extend(ss, c))
    {
      hide Hex, Opened, Written, Extend, EscapeChar, LitChar;
      SwitchState(Escape, st, ss);
      ghost var next := Switched(ss, false);
      OpenedGrows(next, c);
      EscapeWritten(st, Opened(next), c);
      f.Put("(BS.String Byte.x");
      f.Put(Hex(c));
      f.Put(" ");
      parensToClose := parensToClose + 1;
      ExtendEscape(ss, c);
    }

    /** Writes the string term of a byte string. */
    method PrettyPrint(bs: seq<Byte>)
      requires Valid() && At([])
      modifies this, f
      ensures f.St() == Written(old(f.St()), Pretty(bs))
    {
      hide Opened, Ending, Extend, Written, Printable;
      ghost var st := f.St();
      var i := 0;
      while i < |bs|
        invariant 0 <= i <= |bs|
        invariant Valid() && At(Sections(bs[..i])) && f.St() == Shown(st, Sections(bs[..i]))
      {
        assert bs[..i + 1][..i] == bs[..i];
        if Printable(bs[i]) {
          ToLit(bs[i], st, Sections(bs[..i]));
        } else {
          ToEscape(bs[i], st, Sections(bs[..i]));
        }
        i := i + 1;
      }
      assert bs[..i] == bs;
      ghost var ss := Sections(bs);
      if state != AtStart {
        ghost var last := ss[|ss| - 1];
        Close(ss);
        ShownMore(st, Opened(ss), Ending(last));
        WrittenTwice(st, Opened(ss) + Ending(last), ")");
        f.CloseParen();
      } else {
        f.Put("\"\"");
      }
    }
  }
}

/** The comment scanner of include/CommentScanner.hpp: line comments are taken together with the
    commented lines that follow them, block comments up to their closing mark. */
module CommentScanners {

  /** The largest `size_t`, which `find` returns when there is no match. */
  const NPOS := 0xFFFF_FFFF_FFFF_FFFF

  type Block = s: string | |s| < NPOS

  predicate At(s: string, pat: string, i: nat) {
    i + |pat| <= |s| && s[i..i + |pat|] == pat
  }

  /** The first match at or after `from`. */
  function Find(s: Block, pat: string, from: nat): (r: nat)
    requires pat != ""
    ensures r != NPOS ==> from <= r < |s| && At(s, pat, r)
    decreases |s| - from
  {
    if from >= |s| then NPOS
    else if At(s, pat, from) then from
    else Find(s, pat, from + 1)
  }

  lemma {:induction false} FindsFirst(s: Block, pat: string, from: nat)
    requires pat != ""
    ensures var r := Find(s, pat, from);
            && r <= NPOS && (r == NPOS <==> forall i: nat :: from <= i ==> !At(s, pat, i))
            && forall i: nat :: from <= i < r ==> !At(s, pat, i)
    decreases |s| - from
  {
    if from >= |s| || At(s, pat, from) {
    } else {
      FindsFirst(s, pat, from + 1);
    }
  }

  /** `size_t` arithmetic wraps. */
  function Succ(n: nat): nat {
    if n == NPOS then 0 else n + 1
  }

  predicate Opener(s: string, i: nat) {
    At(s, "//", i) || At(s, "/*", i)
  }

  /** The line that starts at `a` has a line comment in it. */
  ghost predicate Commented(s: string, a: nat) {
    exists i: nat :: a <= i && At(s, "//", i) && forall j: nat :: a <= j < i ==> !At(s, "\n", j)
  }

  /** `[start, end)` is a line comment with all the commented lines that follow it, up to the
      newline of the last. */
  ghost predicate LineRange(s: string, start: nat, end: nat) {
    && At(s, "//", start) && start < end && At(s, "\n", end)
    && (forall p: nat :: start <= p < end && At(s, "\n", p) ==> Commented(s, p + 1))
    && !Commented(s, end + 1)
  }

  /** `[start, end)` ends with the first closing mark at or after its opening mark. */
  ghost predicate BlockRange(s: string, start: nat, end: nat) {
    && At(s, "/*", start) && start + 2 < end && At(s, "*/", end - 2)
    && forall i: nat :: start <= i < end - 2 ==> !At(s, "*/", i)
  }

  ghost predicate CommentRange(s: string, start: nat, end: nat) {
    LineRange(s, start, end) || BlockRange(s, start, end)
  }

  /** The marks in terms of characters. */
  lemma Marks(s: string, i: nat)
    ensures At(s, "//", i) <==> i + 1 < |s| && s[i] == '/' && s[i + 1] == '/'
    ensures At(s, "/*", i) <==> i + 1 < |s| && s[i] == '/' && s[i + 1] == '*'
    ensures At(s, "*/", i) <==> i + 1 < |s| && s[i] == '*' && s[i + 1] == '/'
    ensures At(s, "\n", i) <==> i < |s| && s[i] == '\n'
  {
    if i + 1 < |s| {
      assert s[i..i + 2] == [s[i], s[i + 1]];
    }
    if i < |s| {
      assert s[i..i + 1] == [s[i]];
    }
  }

  // ---- The loop over the lines of a comment --------------------------------------------------

  /** Where the loop can stand: at a newline, or past the text. */
  predicate LineStop(s: Block, e: nat) {
    e == NPOS || At(s, "\n", e)
  }

  /** The comment that the loop looks for after `eol`. */
  function NextComment(s: Block, eol: nat): nat {
    Find(s, "//", Succ(eol))
  }

  /** The test of the loop. */
  predicate GoesOn(s: Block, eol: nat) {
    NextComment(s, eol) != NPOS && Find(s, "\n", Succ(eol)) > NextComment(s, eol)
  }

  /** One turn of the loop. */
  function LineTurn(s: Block, eol: nat): nat {
    Find(s, "\n", NextComment(s, eol))
  }

  function Turns(s: Block, eol: nat, k: nat): nat
    decreases k
  {
    if k == 0 then eol else Turns(s, LineTurn(s, eol), k - 1)
  }

  /** The loop that starts at `eol` comes to `e` in `k` turns. */
  predicate Reaches(s: Block, eol: nat, e: nat, k: nat)
    decreases k
  {
    if k == 0 then e == eol else GoesOn(s, eol) && Reaches(s, LineTurn(s, eol), e, k - 1)
  }

  /** The loop that starts at `eol` ends at `e`. */
  ghost predicate EndsAt(s: Block, eol: nat, e: nat) {
    !GoesOn(s, e) && exists k: nat :: Reaches(s, eol, e, k)
  }

  lemma ReachesStart(s: Block, eol: nat)
    ensures Reaches(s, eol, eol, 0)
  {
  }

  lemma {:induction false} ReachesNext(s: Block, eol: nat, e: nat, k: nat)
    requires Reaches(s, eol, e, k) && GoesOn(s, e)
    ensures Reaches(s, eol, LineTurn(s, e), k + 1)
    decreases k
  {
    hide GoesOn, LineTurn;
    if k == 0 {
      assert Reaches(s, LineTurn(s, e), LineTurn(s, e), 0);
    } else {
      ReachesNext(s, LineTurn(s, eol), e, k - 1);
    }
  }

  ghost predicate RunsForever(s: Block, eol: nat) {
    forall k: nat :: GoesOn(s, Turns(s, eol, k))
  }

  /** Every line of the text has a line comment in it. */
  ghost predicate AllCommented(s: Block) {
    Commented(s, 0) && forall p: nat :: At(s, "\n", p) ==> Commented(s, p + 1)
  }

  /** Some line after that of `first` has none. */
  ghost predicate Settles(s: string, first: nat) {
    exists p: nat :: first <= p && At(s, "\n", p) && !Commented(s, p + 1)
  }

  /** The test asks whether the line after `eol` has a line comment in it; past the text, whether
      the first line does. Then the turn goes to the end of that line. */
  lemma GoesOnIff(s: Block, eol: nat)
    requires LineStop(s, eol)
    ensures GoesOn(s, eol) <==> Commented(s, Succ(eol))
    ensures GoesOn(s, eol) ==> LineTurn(s, eol) == Find(s, "\n", Succ(eol))
    ensures LineStop(s, LineTurn(s, eol))
  {
    hide At;
    FindsFirst(s, "//", Succ(eol));
    FindsFirst(s, "\n", Succ(eol));
    var next := NextComment(s, eol);
    var newline := Find(s, "\n", Succ(eol));
    if Commented(s, Succ(eol)) {
      var i: nat :| Succ(eol) <= i && At(s, "//", i) && forall j: nat :: Succ(eol) <= j < i ==> !At(s, "\n", j);
      Marks(s, i);
      assert next <= i;
      assert GoesOn(s, eol) by {
        Marks(s, newline);
        Marks(s, next);
      }
    }
    if GoesOn(s, eol) {
      SameNewline(s, Succ(eol), next);
    }
  }

  lemma SameNewline(s: Block, a: nat, b: nat)
    requires a <= b < Find(s, "\n", a)
    ensures Find(s, "\n", b) == Find(s, "\n", a)
  {
    hide At;
    FindsFirst(s, "\n", a);
    FindsFirst(s, "\n", b);
  }

  /** When every line is commented the test never fails. */
  lemma {:induction false} TurnsCommented(s: Block, eol: nat, k: nat)
    requires LineStop(s, eol) && AllCommented(s)
    ensures GoesOn(s, Turns(s, eol, k))
    decreases k
  {
    hide At, Commented;
    GoesOnIff(s, eol);
    if k == 0 {
    } else {
      TurnsCommented(s, LineTurn(s, eol), k - 1);
    }
  }

  lemma {:induction false} ReachesTurns(s: Block, eol: nat, e: nat, k: nat)
    requires Reaches(s, eol, e, k)
    ensures e == Turns(s, eol, k)
    decreases k
  {
    hide GoesOn, LineTurn;
    if k == 0 {
    } else {
      ReachesTurns(s, LineTurn(s, eol), e, k - 1);
    }
  }

  lemma {:induction false} ReachesCommented(s: Block, eol: nat, e: nat, k: nat)
    requires LineStop(s, eol) && AllCommented(s) && Reaches(s, eol, e, k)
    ensures GoesOn(s, e)
    decreases k
  {
    hide At, Commented;
    GoesOnIff(s, eol);
    if k == 0 {
    } else {
      ReachesCommented(s, LineTurn(s, eol), e, k - 1);
    }
  }

  /** How far the loop is from the start `a` of a line, going round. */
  function Distance(s: Block, eol: nat, a: nat): nat {
    if Succ(eol) <= a then a - Succ(eol)
    else if Succ(eol) <= |s| then |s| + 1 - Succ(eol) + a
    else 0
  }

  /** A turn brings the loop closer to every line without a comment. */
  lemma TurnCloser(s: Block, eol: nat, a: nat)
    requires LineStop(s, eol) && GoesOn(s, eol) && !Commented(s, a)
    requires a == 0 || At(s, "\n", a - 1)
    ensures Distance(s, LineTurn(s, eol), a) < Distance(s, eol, a)
  {
    hide Commented;
    GoesOnIff(s, eol);
    FindsFirst(s, "\n", Succ(eol));
    Marks(s, eol);
    var e := Find(s, "\n", Succ(eol));
    if a > 0 {
      Marks(s, a - 1);
    }
    Marks(s, e);
  }

  /** The loop stops if some line has no comment. */
  lemma {:induction false} Stops(s: Block, eol: nat, a: nat) returns (e: nat)
    requires LineStop(s, eol) && !Commented(s, a) && (a == 0 || At(s, "\n", a - 1))
    ensures EndsAt(s, eol, e)
    decreases Distance(s, eol, a)
  {
    hide At, Commented;
    if GoesOn(s, eol) {
      TurnCloser(s, eol, a);
      GoesOnIff(s, eol);
      e := Stops(s, LineTurn(s, eol), a);
      var k: nat :| Reaches(s, LineTurn(s, eol), e, k);
      assert Reaches(s, eol, e, k + 1);
    } else {
      e := eol;
      assert Reaches(s, eol, e, 0);
    }
  }

  /** The loop runs for ever exactly when every line of the text is commented, and ends otherwise. */
  lemma RunsForeverIff(s: Block, eol: nat)
    requires LineStop(s, eol)
    ensures RunsForever(s, eol) <==> AllCommented(s)
    ensures RunsForever(s, eol) <==> !exists e :: EndsAt(s, eol, e)
  {
    hide At, Commented, GoesOn, LineTurn;
    if AllCommented(s) {
      forall k: nat
        ensures GoesOn(s, Turns(s, eol, k))
      {
        TurnsCommented(s, eol, k);
      }
      forall e, k: nat | Reaches(s, eol, e, k)
        ensures GoesOn(s, e)
      {
        ReachesCommented(s, eol, e, k);
      }
    } else {
      var a := if !Commented(s, 0) then 0 else (var p: nat :| At(s, "\n", p) && !Commented(s, p + 1); p + 1);
      var e := Stops(s, eol, a);
      var k: nat :| Reaches(s, eol, e, k);
      ReachesTurns(s, eol, e, k);
    }
  }

  /** The lines from that of `first` to the one that ends at `e`, all but the first of them
      commented. */
  ghost predicate Lines(s: Block, first: nat, e: nat) {
    && At(s, "//", first) && first < e && At(s, "\n", e)
    && forall p: nat :: first <= p < e && At(s, "\n", p) ==> Commented(s, p + 1)
  }

  /** The loop has run out of lines and started again at the first line. */
  ghost predicate Wrapped(s: Block, first: nat, e: nat) {
    && !Settles(s, first)
    && (e == NPOS
        || (e < first && At(s, "\n", e) && Commented(s, 0)
            && forall p: nat :: p < e && At(s, "\n", p) ==> Commented(s, p + 1)))
  }

  lemma FirstLine(s: Block, first: nat)
    requires At(s, "//", first) && Find(s, "\n", first) != NPOS
    ensures Lines(s, first, Find(s, "\n", first))
  {
    hide At, Commented;
    FindsFirst(s, "\n", first);
    Marks(s, first);
    Marks(s, Find(s, "\n", first));
  }

  lemma NextLine(s: Block, first: nat, e: nat)
    requires !AllCommented(s) && (Lines(s, first, e) || Wrapped(s, first, e)) && GoesOn(s, e)
    ensures Lines(s, first, LineTurn(s, e)) || Wrapped(s, first, LineTurn(s, e))
  {
    hide At;
    GoesOnIff(s, e);
    Marks(s, e);
    var next := Find(s, "\n", Succ(e));
    if Lines(s, first, e) {
      StepLines(s, first, e, next);
    } else {
      StepWrapped(s, first, e, next);
    }
  }

  lemma StepLines(s: Block, first: nat, e: nat, next: nat)
    requires Lines(s, first, e) && Commented(s, e + 1) && next == Find(s, "\n", e + 1)
    ensures Lines(s, first, next) || Wrapped(s, first, next)
  {
    hide At, Commented;
    FindsFirst(s, "\n", e + 1);
    forall p: nat | first <= p < next && At(s, "\n", p)
      ensures Commented(s, p + 1)
    {
      assert p <= e;
    }
  }

  lemma StepWrapped(s: Block, first: nat, e: nat, next: nat)
    requires !AllCommented(s) && Wrapped(s, first, e) && Commented(s, Succ(e)) && next == Find(s, "\n", Succ(e))
    ensures Wrapped(s, first, next)
  {
    hide At, Commented;
    FindsFirst(s, "\n", Succ(e));
    forall p: nat | p < next && At(s, "\n", p)
      ensures Commented(s, p + 1)
    {
      assert e != NPOS && p <= e;
    }
    if next != NPOS && next >= first {
      WrapsAll(s, first, next);
    }
  }

  /** Going round as far as the comment itself takes every line to be commented. */
  lemma WrapsAll(s: Block, first: nat, next: nat)
    requires !Settles(s, first) && Commented(s, 0) && first <= next
    requires forall p: nat :: p < next && At(s, "\n", p) ==> Commented(s, p + 1)
    ensures AllCommented(s)
  {
    hide At, Commented;
  }

  lemma StandsAtLine(s: Block, first: nat, e: nat)
    requires Lines(s, first, e) || Wrapped(s, first, e)
    ensures LineStop(s, e)
  {
  }

  lemma {:induction false} ReachesLines(s: Block, first: nat, eol: nat, e: nat, k: nat)
    requires !AllCommented(s) && (Lines(s, first, eol) || Wrapped(s, first, eol)) && Reaches(s, eol, e, k)
    ensures Lines(s, first, e) || Wrapped(s, first, e)
    decreases k
  {
    hide At, Commented, GoesOn, LineTurn, Lines, Wrapped, AllCommented;
    if k == 0 {
    } else {
      NextLine(s, first, eol);
      ReachesLines(s, first, LineTurn(s, eol), e, k - 1);
    }
  }

  /** Where the loop for a comment at `first` ends, if it does. The end is that of the run of
      commented lines exactly when some later line has no comment. Otherwise the loop has gone
      round: it ends past the text if the first line has no comment, and else at the end of the
      commented lines that the text starts with, before the comment itself. */
  lemma LineLoop(s: Block, first: nat, e: nat, k: nat)
    requires At(s, "//", first) && Find(s, "\n", first) != NPOS
    requires Reaches(s, Find(s, "\n", first), e, k) && !GoesOn(s, e)
    ensures LineRange(s, first, e) <==> Settles(s, first)
    ensures !Settles(s, first) ==>
              if Commented(s, 0) then
                && e < first && At(s, "\n", e) && !Commented(s, e + 1)
                && forall p: nat :: p < e && At(s, "\n", p) ==> Commented(s, p + 1)
              else e == NPOS
  {
    hide At, Commented, GoesOn, LineTurn, Lines, Wrapped, LineRange, Settles, AllCommented;
    var eol := Find(s, "\n", first);
    FirstLine(s, first);
    RunsForeverIff(s, eol);
    assert EndsAt(s, eol, e);
    ReachesLines(s, first, eol, e, k);
    StandsAtLine(s, first, e);
    GoesOnIff(s, e);
    if Lines(s, first, e) {
      EndsInLines(s, first, e);
    } else {
      EndsWrapped(s, first, e);
    }
  }

  lemma EndsInLines(s: Block, first: nat, e: nat)
    requires Lines(s, first, e) && !Commented(s, Succ(e))
    ensures LineRange(s, first, e) && Settles(s, first)
  {
    hide At, Commented;
    Marks(s, e);
  }

  lemma EndsWrapped(s: Block, first: nat, e: nat)
    requires Wrapped(s, first, e) && !Commented(s, Succ(e))
    ensures !LineRange(s, first, e) && !Settles(s, first) && (e == NPOS <==> !Commented(s, 0))
    ensures e != NPOS ==> e < first && At(s, "\n", e) && !Commented(s, e + 1)
    ensures e != NPOS ==> forall p: nat :: p < e && At(s, "\n", p) ==> Commented(s, p + 1)
  {
    hide At, Commented;
    Marks(s, e);
  }

  class CommentScanner {
    const block: Block
    var offset: nat

    constructor (block: Block)
      ensures this.block == block && offset == 0
    {
      this.block, this.offset := block, 0;
    }

    /** The end of the last line of a line comment; the loop stops unless every line of the text
        is commented. */
    method ParseLineComment(first: nat) returns (eol: nat)
      requires At(block, "//", first) && Find(block, "\n", first) != NPOS && !AllCommented(block)
      ensures EndsAt(block, Find(block, "\n", first), eol)
      ensures LineRange(block, first, eol) <==> Settles(block, first)
    {
      hide At, Commented, AllCommented, LineRange, Settles, Reaches, Distance;
      eol := Find(block, "\n", first);
      ghost var a := BareLine(block);
      ghost var k: nat := 0;
      ReachesStart(block, eol);
      var nextComment := Find(block, "//", Succ(eol));
      while nextComment != NPOS && Find(block, "\n", Succ(eol)) > nextComment
        invariant LineStop(block, eol) && nextComment == NextComment(block, eol)
        invariant Reaches(block, Find(block, "\n", first), eol, k)
        decreases Distance(block, eol, a)
      {
        TurnCloser(block, eol, a);
        GoesOnIff(block, eol);
        ReachesNext(block, Find(block, "\n", first), eol, k);
        eol := Find(block, "\n", nextComment);
        nextComment := Find(block, "//", Succ(eol));
        k := k + 1;
      }
      LineLoop(block, first, eol, k);
    }

    /** The end of a block comment. */
    method ParseBlockComment(first: nat) returns (end: nat)
      requires At(block, "/*", first) && Closes(block, first)
      ensures BlockRange(block, first, end)
    {
      var closing := Find(block, "*/", first);
      FindsFirst(block, "*/", first);
      Marks(block, first);
      Marks(block, closing);
      return closing + 2;
    }

    /** The next comment, if there is one: nothing before it opens a comment. The text returned
        for a line comment goes to the end of the block when the loop ended elsewhere. */
    method Next() returns (found: bool, start: nat, end: nat)
      requires forall i: nat :: FirstOpener(block, offset, i) ==> Parses(block, i)
      modifies this
      ensures found <==> exists i: nat :: old(offset) <= i && Opener(block, i)
      ensures found ==> FirstOpener(block, old(offset), start)
      ensures found && At(block, "/*", start) ==> BlockRange(block, start, end) && offset == end
      ensures found && At(block, "//", start) ==>
                && EndsAt(block, Find(block, "\n", start), offset)
                && end == (if start <= offset <= |block| then offset else |block|)
      ensures !found ==> offset == old(offset)
    {
      var firstLine := Find(block, "//", offset);
      var firstPara := Find(block, "/*", offset);
      start, end := 0, 0;
      FindsFirst(block, "//", offset);
      FindsFirst(block, "/*", offset);
      if firstLine == NPOS && firstPara == NPOS {
        return false, 0, 0;
      } else if firstLine < firstPara {
        assert FirstOpener(block, offset, firstLine);
        Marks(block, firstLine);
        end := ParseLineComment(firstLine);
        offset := end;
        return true, firstLine, if firstLine <= end <= |block| then end else |block|;
      } else if firstPara < firstLine {
        assert FirstOpener(block, offset, firstPara);
        Marks(block, firstPara);
        end := ParseBlockComment(firstPara);
        offset := end;
        return true, firstPara, end;
      } else {
        Marks(block, firstLine);
        assert false;
      }
    }
  }

  lemma BareLine(s: Block) returns (a: nat)
    requires !AllCommented(s)
    ensures !Commented(s, a) && (a == 0 || At(s, "\n", a - 1))
  {
    hide At, Commented;
    a := 0;
    if Commented(s, 0) {
      var p: nat :| At(s, "\n", p) && !Commented(s, p + 1);
      a := p + 1;
    }
  }

  /** A closing mark at or after the opening mark. */
  ghost predicate Closes(s: string, i: nat) {
    exists j: nat :: i <= j && At(s, "*/", j)
  }

  ghost predicate FirstOpener(s: string, from: nat, i: nat) {
    from <= i && Opener(s, i) && forall j: nat :: from <= j < i ==> !Opener(s, j)
  }

  /** The comment at `i` is parsed: the marks that are asserted are there, and the loop stops. */
  ghost predicate Parses(s: Block, i: nat) {
    && (At(s, "//", i) ==> Find(s, "\n", i) != NPOS && !AllCommented(s))
    && (At(s, "/*", i) ==> Closes(s, i))
  }

  // ---- Scanning a whole text -------------------------------------------------------------------

  /** Where a comment ends is determined by where it starts. */
  lemma RangeUnique(s: string, start: nat, e1: nat, e2: nat)
    requires CommentRange(s, start, e1) && CommentRange(s, start, e2)
    ensures e1 == e2
  {
    hide At, Commented;
    Marks(s, start);
    Marks(s, e1);
    Marks(s, e2);
  }

  datatype Range = Range(start: nat, end: nat)

  /** A comment, and nothing opens one between `from` and it. */
  ghost predicate IsNext(s: string, from: nat, r: Range) {
    FirstOpener(s, from, r.start) && CommentRange(s, r.start, r.end)
  }

  /** Comments in order from `from` on, with no opening mark outside them up to the last end. */
  ghost predicate Scanned(s: string, from: nat, ranges: seq<Range>)
    decreases |ranges|
  {
    ranges == [] || (IsNext(s, from, ranges[0]) && Scanned(s, ranges[0].end, ranges[1..]))
  }

  function EndOf(from: nat, ranges: seq<Range>): nat {
    if ranges == [] then from else ranges[|ranges| - 1].end
  }

  /** The comments of a text from `from` on: nothing opens a comment after the last. */
  ghost predicate AllComments(s: string, from: nat, ranges: seq<Range>) {
    Scanned(s, from, ranges) && forall i: nat :: EndOf(from, ranges) <= i ==> !Opener(s, i)
  }

  lemma RangeInside(s: string, start: nat, end: nat)
    requires CommentRange(s, start, end)
    ensures start < end <= |s| && Opener(s, start)
  {
  }

  /** Every comment that scanning comes to has its end: for a line comment a later line without
      one, for a block comment a closing mark. */
  ghost predicate WellEnded(s: string, from: nat)
    decreases |s| - from
  {
    forall i: nat :: FirstOpener(s, from, i) ==>
      && (At(s, "//", i) ==> Settles(s, i))
      && (At(s, "/*", i) ==> Closes(s, i))
      && forall e: nat :: i < e <= |s| && CommentRange(s, i, e) ==> WellEnded(s, e)
  }

  lemma {:induction false} OpenerFirst(s: string, from: nat, i: nat) returns (j: nat)
    requires from <= i && Opener(s, i)
    ensures FirstOpener(s, from, j)
    decreases i - from
  {
    hide Opener;
    if Opener(s, from) {
      j := from;
    } else {
      j := OpenerFirst(s, from + 1, i);
    }
  }

  lemma {:induction false} LineEnd(s: string, first: nat, from: nat, p: nat) returns (e: nat)
    requires At(s, "//", first) && first <= from <= p && At(s, "\n", p) && !Commented(s, p + 1)
    requires forall q: nat :: first <= q < from && At(s, "\n", q) ==> Commented(s, q + 1)
    ensures LineRange(s, first, e)
    decreases p - from
  {
    hide At, Commented;
    if At(s, "\n", from) && !Commented(s, from + 1) {
      e := from;
      Marks(s, first);
      Marks(s, from);
    } else {
      e := LineEnd(s, first, from + 1, p);
    }
  }

  lemma {:induction false} BlockEnd(s: string, first: nat, from: nat, j: nat) returns (e: nat)
    requires At(s, "/*", first) && first <= from <= j && At(s, "*/", j)
    requires forall q: nat :: first <= q < from ==> !At(s, "*/", q)
    ensures BlockRange(s, first, e)
    decreases j - from
  {
    hide At;
    if At(s, "*/", from) {
      e := from + 2;
      Marks(s, first);
      Marks(s, from);
    } else {
      e := BlockEnd(s, first, from + 1, j);
    }
  }

  /** A comment that has its end has a range. */
  lemma RangeExists(s: string, i: nat) returns (e: nat)
    requires Opener(s, i) && (At(s, "//", i) ==> Settles(s, i)) && (At(s, "/*", i) ==> Closes(s, i))
    ensures CommentRange(s, i, e)
  {
    hide At, Commented;
    if At(s, "//", i) {
      var p: nat :| i <= p && At(s, "\n", p) && !Commented(s, p + 1);
      e := LineEnd(s, i, i, p);
    } else {
      var j: nat :| i <= j && At(s, "*/", j);
      e := BlockEnd(s, i, i, j);
    }
  }

  lemma RangeEnds(s: string, i: nat, e: nat)
    requires CommentRange(s, i, e)
    ensures (At(s, "//", i) ==> Settles(s, i)) && (At(s, "/*", i) ==> Closes(s, i))
  {
    hide At, Commented;
    Marks(s, i);
  }

  /** A text can be scanned exactly when every comment that scanning comes to has its end. */
  lemma {:induction false} ScansIff(s: string, from: nat)
    ensures WellEnded(s, from) <==> exists ranges :: AllComments(s, from, ranges)
    decreases |s| - from
  {
    hide At, Commented, Opener, CommentRange, Settles, Closes;
    if i: nat :| from <= i && Opener(s, i) {
      var first := OpenerFirst(s, from, i);
      ScansFrom(s, from, first);
    } else {
      assert AllComments(s, from, []);
    }
  }

  lemma {:induction false} ScansFrom(s: string, from: nat, first: nat)
    requires FirstOpener(s, from, first)
    ensures WellEnded(s, from) <==> exists ranges :: AllComments(s, from, ranges)
    decreases |s| - from, 0
  {
    hide At, Commented, Opener, CommentRange, Settles, Closes;
    OpenerInside(s, first);
    if WellEnded(s, from) {
      var e := RangeExists(s, first);
      RangeInside(s, first, e);
      ScansIff(s, e);
      var rest :| AllComments(s, e, rest);
      ScanFirst(s, from, Range(first, e), rest);
    }
    if ranges: seq<Range> :| AllComments(s, from, ranges) {
      var r := ranges[0];
      assert r.start == first;
      RangeEnds(s, first, r.end);
      RangeInside(s, first, r.end);
      ScansIff(s, r.end);
      assert AllComments(s, r.end, ranges[1..]);
      forall e: nat | CommentRange(s, first, e)
        ensures e == r.end
      {
        RangeUnique(s, first, e, r.end);
      }
    }
  }

  lemma OpenerInside(s: string, i: nat)
    requires Opener(s, i)
    ensures i < |s|
  {
  }

  lemma ScanFirst(s: string, from: nat, r: Range, rest: seq<Range>)
    requires IsNext(s, from, r) && AllComments(s, r.end, rest)
    ensures AllComments(s, from, [r] + rest)
  {
    hide IsNext, Opener;
    assert ([r] + rest)[1..] == rest;
  }

  lemma {:induction false} ScanOneMore(s: string, from: nat, ranges: seq<Range>, r: Range)
    requires Scanned(s, from, ranges) && IsNext(s, EndOf(from, ranges), r)
    ensures Scanned(s, from, ranges + [r]) && EndOf(from, ranges + [r]) == r.end
    decreases |ranges|
  {
    hide IsNext;
    if ranges == [] {
      assert [] + [r] == [r] && [r][1..] == [];
    } else {
      assert (ranges + [r])[1..] == ranges[1..] + [r];
      ScanOneMore(s, ranges[0].end, ranges[1..], r);
    }
  }

  /** A comment that has its end is parsed, and ends there. */
  lemma Parsed(s: Block, i: nat)
    requires Opener(s, i) && (At(s, "//", i) ==> Settles(s, i)) && (At(s, "/*", i) ==> Closes(s, i))
    ensures Parses(s, i)
  {
    hide At, Commented;
    FindsFirst(s, "\n", i);
  }

  /** There is only one way to scan a text. */
  lemma {:induction false} ScanUnique(s: string, from: nat, a: seq<Range>, b: seq<Range>)
    requires AllComments(s, from, a) && AllComments(s, from, b)
    ensures a == b
    decreases |a|
  {
    hide CommentRange, Opener;
    if a == [] {
    } else {
      RangeInside(s, a[0].start, a[0].end);
    }
    if b == [] {
    } else {
      RangeInside(s, b[0].start, b[0].end);
    }
    if a != [] && b != [] {
      RangeUnique(s, a[0].start, a[0].end, b[0].end);
      ScanUnique(s, a[0].end, a[1..], b[1..]);
      assert a == [a[0]] + a[1..] && b == [b[0]] + b[1..];
    }
  }

  /** Every line comment has a later newline and every block comment a later closing mark. */
  ghost predicate Ended(s: string) {
    && (forall i: nat :: At(s, "//", i) ==> exists j: nat :: i <= j && At(s, "\n", j))
    && (forall i: nat :: At(s, "/*", i) ==> Closes(s, i))
  }

  lemma {:induction false} LastNewline(s: string, i: nat) returns (p: nat)
    requires At(s, "\n", i)
    ensures i <= p && At(s, "\n", p) && forall j: nat :: p < j ==> !At(s, "\n", j)
    decreases |s| - i
  {
    hide At;
    Marks(s, i);
    if j: nat :| i < j && At(s, "\n", j) {
      Marks(s, j);
      p := LastNewline(s, j);
    } else {
      p := i;
    }
  }

  /** Such texts can be scanned. */
  lemma {:induction false} EndedScans(s: string, from: nat)
    requires Ended(s)
    ensures WellEnded(s, from)
    decreases |s| - from
  {
    hide At, CommentRange, Closes;
    forall i: nat | FirstOpener(s, from, i)
      ensures At(s, "//", i) ==> Settles(s, i)
      ensures forall e: nat :: i < e <= |s| && CommentRange(s, i, e) ==> WellEnded(s, e)
    {
      if At(s, "//", i) {
        var j: nat :| i <= j && At(s, "\n", j);
        var p := LastNewline(s, j);
        assert !Commented(s, p + 1);
      }
      OpenerInside(s, i);
      forall e: nat | i < e <= |s| && CommentRange(s, i, e)
        ensures WellEnded(s, e)
      {
        EndedScans(s, e);
      }
    }
  }

  /** A block comment of C++, whose closing mark does not share the star of the opening one. */
  ghost predicate CppRange(s: string, start: nat, end: nat) {
    && At(s, "/*", start) && start + 4 <= end && At(s, "*/", end - 2)
    && forall i :: start + 2 <= i < end - 2 ==> !At(s, "*/", i)
  }

  /** The scanner's block comments are those of C++ exactly when they do not begin with the
      characters of a closing mark. */
  lemma BlockLikeCpp(s: string, start: nat, end: nat)
    requires BlockRange(s, start, end)
    ensures CppRange(s, start, end) <==> !(start + 2 < |s| && s[start + 2] == '/')
  {
    Marks(s, start);
    Marks(s, start + 1);
    Marks(s, end - 2);
  }

  /** A line comment at `i` in the line that starts at `a`. */
  lemma HasComment(s: string, a: nat, i: nat)
    requires a <= i && i + 1 < |s| && s[i] == '/' && s[i + 1] == '/'
    requires forall j :: a <= j < i ==> s[j] != '\n'
    ensures At(s, "//", i) && Commented(s, a)
  {
    hide At;
    Marks(s, i);
    forall j: nat | a <= j < i
      ensures !At(s, "\n", j)
    {
      Marks(s, j);
    }
  }

  /** No line comment in the line that starts at `a` and ends at `e`. */
  lemma HasNone(s: string, a: nat, e: nat)
    requires a <= e < |s| && s[e] == '\n' && forall j :: a <= j < e ==> !(s[j] == '/' && s[j + 1] == '/')
    ensures At(s, "\n", e) && !Commented(s, a)
  {
    hide At;
    Marks(s, e);
    forall i: nat | a <= i && At(s, "//", i)
      ensures e < i
    {
      Marks(s, i);
    }
  }

  /** The next newline is the first character of its kind. */
  lemma NewlineAt(s: Block, a: nat, e: nat)
    requires a <= e < |s| && s[e] == '\n' && forall j :: a <= j < e ==> s[j] != '\n'
    ensures Find(s, "\n", a) == e && At(s, "\n", e)
  {
    hide At;
    FindsFirst(s, "\n", a);
    Marks(s, e);
    Marks(s, Find(s, "\n", a));
  }

  const UNENDED: Block := "//\n//"

  /** Every line is commented, and the last is not ended: the loop goes round for ever. */
  lemma UnendedLoop()
    ensures At(UNENDED, "//", 0) && Find(UNENDED, "\n", 0) == 2 && RunsForever(UNENDED, 2)
  {
    hide At, Commented, RunsForever;
    var s := UNENDED;
    HasComment(s, 0, 0);
    HasComment(s, 3, 3);
    NewlineAt(s, 0, 2);
    forall p: nat | At(s, "\n", p)
      ensures p == 2
    {
      Marks(s, p);
    }
    RunsForeverIff(s, 2);
  }

  const BARE_START: Block := "a\n//b\n//c"

  /** The first line has no comment: the loop ends past the text. */
  lemma EndsPastText()
    ensures At(BARE_START, "//", 2) && Find(BARE_START, "\n", 2) == 5 && EndsAt(BARE_START, 5, NPOS)
  {
    hide At, Commented, Find;
    var s := BARE_START;
    HasNone(s, 0, 1);
    HasComment(s, 2, 2);
    HasComment(s, 6, 6);
    NewlineAt(s, 2, 5);
    forall p: nat | At(s, "\n", p)
      ensures p == 1 || p == 5
    {
      Marks(s, p);
    }
    var e := Stops(s, 5, 0);
    var k: nat :| Reaches(s, 5, e, k);
    LineLoop(s, 2, e, k);
  }

  const BARE_MIDDLE: Block := "//a\nx\n//b\n//c"

  /** The text starts with a comment of its own: the loop ends before the comment that it is
      for, and the next scan finds that comment again. */
  lemma EndsBeforeComment()
    ensures At(BARE_MIDDLE, "//", 6) && Find(BARE_MIDDLE, "\n", 6) == 9 && EndsAt(BARE_MIDDLE, 9, 3)
    ensures FirstOpener(BARE_MIDDLE, 3, 6)
  {
    hide At, Commented, Find;
    var s := BARE_MIDDLE;
    HasComment(s, 0, 0);
    HasNone(s, 4, 5);
    HasComment(s, 6, 6);
    HasComment(s, 10, 10);
    NewlineAt(s, 0, 3);
    NewlineAt(s, 6, 9);
    forall p: nat | At(s, "\n", p)
      ensures p == 3 || p == 5 || p == 9
    {
      Marks(s, p);
    }
    var e := Stops(s, 9, 4);
    var k: nat :| Reaches(s, 9, e, k);
    LineLoop(s, 6, e, k);
    forall j: nat | 3 <= j < 6
      ensures !Opener(s, j)
    {
      Marks(s, j);
    }
  }
}

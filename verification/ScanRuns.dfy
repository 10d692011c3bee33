/** Repeated scanning of a text: where each call of `Next` leaves the scanner, and on which texts
    the calls come to an end. */
module ScanRuns {
  import opened CommentScanners

  /** The end of the run of commented lines that the text starts with. */
  ghost predicate Home(s: Block, h: nat) {
    && At(s, "\n", h) && Commented(s, 0) && !Commented(s, h + 1)
    && forall p: nat :: p < h && At(s, "\n", p) ==> Commented(s, p + 1)
  }

  /** A call that finds the comment at `i` leaves the scanner at `b`. */
  ghost predicate Moves(s: Block, i: nat, b: nat) {
    && Parses(s, i)
    && (At(s, "/*", i) ==> BlockRange(s, i, b))
    && (At(s, "//", i) ==> EndsAt(s, Find(s, "\n", i), b))
  }

  ghost predicate Step(s: Block, a: nat, b: nat) {
    exists i: nat :: FirstOpener(s, a, i) && Moves(s, i, b)
  }

  /** `k` calls lead from `a` to `b`. */
  ghost predicate Scans(s: Block, a: nat, b: nat, k: nat)
    decreases k
  {
    if k == 0 then a == b else exists m: nat :: Step(s, a, m) && Scans(s, m, b, k - 1)
  }

  ghost predicate NoOpener(s: Block, a: nat) {
    forall i: nat :: a <= i ==> !Opener(s, i)
  }

  /** Repeated scanning from `a` comes to an end. */
  ghost predicate Halts(s: Block, a: nat) {
    exists b: nat, k: nat :: Scans(s, a, b, k) && NoOpener(s, b)
  }

  /** At least `k` calls find a comment. */
  ghost predicate Makes(s: Block, a: nat, k: nat) {
    exists b: nat :: Scans(s, a, b, k)
  }

  /** Repeated scanning from `a` never comes to an end. */
  ghost predicate Endless(s: Block, a: nat) {
    forall k: nat :: Makes(s, a, k)
  }

  /** The end found for the comment at `i` is not before it. */
  ghost predicate Forward(s: Block, i: nat) {
    At(s, "//", i) ==> Settles(s, i) || !Commented(s, 0)
  }

  /** Comment by comment, scanning from `a` goes forward to the end of the text. */
  ghost predicate Finishes(s: Block, a: nat)
    decreases |s| - a
  {
    forall i: nat :: FirstOpener(s, a, i) ==>
      && Parses(s, i) && Forward(s, i)
      && forall e: nat :: i < e <= |s| && CommentRange(s, i, e) ==> Finishes(s, e)
  }

  /** Scanning from `a` goes forward to a comment whose end is found before it. */
  ghost predicate ComesBack(s: Block, a: nat)
    decreases |s| - a
  {
    exists i: nat :: FirstOpener(s, a, i) && Parses(s, i) &&
      (!Forward(s, i) || exists e: nat :: i < e <= |s| && CommentRange(s, i, e) && ComesBack(s, e))
  }

  // ---- One call ------------------------------------------------------------------------------

  lemma HomeUnique(s: Block, h1: nat, h2: nat)
    requires Home(s, h1) && Home(s, h2)
    ensures h1 == h2
  {
    hide At, Commented;
  }

  lemma FirstUnique(s: Block, a: nat, i: nat, j: nat)
    requires FirstOpener(s, a, i) && FirstOpener(s, a, j)
    ensures i == j
  {
    hide Opener;
  }

  /** Where a call leaves the scanner: behind the comment, past the text, or at the end of the
      lines that the text starts with. */
  lemma MoveCases(s: Block, i: nat, b: nat)
    requires Opener(s, i) && Moves(s, i, b)
    ensures if At(s, "//", i) && !Settles(s, i) then
              if Commented(s, 0) then Home(s, b) && b < i && !Forward(s, i) else b == NPOS && Forward(s, i)
            else CommentRange(s, i, b) && i < b <= |s| && Forward(s, i)
  {
    hide At, Commented, Settles, LineRange, BlockRange, GoesOn, Reaches;
    Marks(s, i);
    if At(s, "//", i) {
      var k: nat :| Reaches(s, Find(s, "\n", i), b, k);
      LineLoop(s, i, b, k);
    }
    if CommentRange(s, i, b) {
      RangeInside(s, i, b);
    }
  }

  /** The end is behind the start of the comment exactly when the comment has an end, or is cut
      off by the end of the text. */
  lemma MovesForward(s: Block, i: nat, b: nat)
    requires Opener(s, i) && Moves(s, i, b)
    ensures i < b <==> Forward(s, i)
  {
    hide Moves, Opener, CommentRange, Commented, Settles, Home;
    MoveCases(s, i, b);
    OpenerInside(s, i);
  }

  lemma MoveUnique(s: Block, i: nat, b1: nat, b2: nat)
    requires Opener(s, i) && Moves(s, i, b1) && Moves(s, i, b2)
    ensures b1 == b2
  {
    hide Moves, Opener, CommentRange, Commented, Settles, Home, At, Forward;
    MoveCases(s, i, b1);
    MoveCases(s, i, b2);
    if CommentRange(s, i, b1) && CommentRange(s, i, b2) {
      RangeUnique(s, i, b1, b2);
    }
    if Home(s, b1) && Home(s, b2) {
      HomeUnique(s, b1, b2);
    }
  }

  lemma StepUnique(s: Block, a: nat, b1: nat, b2: nat)
    requires Step(s, a, b1) && Step(s, a, b2)
    ensures b1 == b2
  {
    hide Moves, Opener;
    var i: nat :| FirstOpener(s, a, i) && Moves(s, i, b1);
    var j: nat :| FirstOpener(s, a, j) && Moves(s, j, b2);
    FirstUnique(s, a, i, j);
    MoveUnique(s, i, b1, b2);
  }

  /** Every comment that is parsed is moved over. */
  lemma MoveExists(s: Block, i: nat) returns (b: nat)
    requires Opener(s, i) && Parses(s, i)
    ensures Moves(s, i, b)
  {
    hide At, Commented, GoesOn, AllCommented, BlockRange, Reaches, EndsAt;
    Marks(s, i);
    if At(s, "//", i) {
      var eol := Find(s, "\n", i);
      RunsForeverIff(s, eol);
      b :| EndsAt(s, eol, b);
    } else {
      var j: nat :| i <= j && At(s, "*/", j);
      b := BlockEnd(s, i, i, j);
    }
  }

  // ---- Many calls ----------------------------------------------------------------------------

  lemma {:induction false} ScansUnique(s: Block, a: nat, b1: nat, b2: nat, k: nat)
    requires Scans(s, a, b1, k) && Scans(s, a, b2, k)
    ensures b1 == b2
    decreases k
  {
    hide Step;
    if k == 0 {
    } else {
      var m1: nat :| Step(s, a, m1) && Scans(s, m1, b1, k - 1);
      var m2: nat :| Step(s, a, m2) && Scans(s, m2, b2, k - 1);
      StepUnique(s, a, m1, m2);
      ScansUnique(s, m1, b1, b2, k - 1);
    }
  }

  lemma {:induction false} ScansThen(s: Block, a: nat, m: nat, b: nat, j: nat, k: nat)
    requires Scans(s, a, m, j) && Scans(s, m, b, k)
    ensures Scans(s, a, b, j + k)
    decreases j
  {
    hide Step;
    if j == 0 {
    } else {
      var n: nat :| Step(s, a, n) && Scans(s, n, m, j - 1);
      ScansThen(s, n, m, b, j - 1, k);
    }
  }

  lemma {:induction false} ScansSplit(s: Block, a: nat, b: nat, j: nat, k: nat) returns (m: nat)
    requires Scans(s, a, b, j + k)
    ensures Scans(s, a, m, j) && Scans(s, m, b, k)
    decreases j
  {
    hide Step;
    if j == 0 {
      m := a;
    } else {
      var n: nat :| Step(s, a, n) && Scans(s, n, b, j + k - 1);
      m := ScansSplit(s, n, b, j - 1, k);
    }
  }

  lemma ScansStep(s: Block, a: nat, m: nat, b: nat, k: nat)
    requires Step(s, a, m) && Scans(s, m, b, k)
    ensures Scans(s, a, b, k + 1)
  {
    hide Step;
  }

  lemma PastText(s: Block)
    ensures NoOpener(s, NPOS) && forall b: nat :: !Step(s, NPOS, b)
  {
    forall i: nat | NPOS <= i
      ensures !Opener(s, i)
    {
      if Opener(s, i) {
        OpenerInside(s, i);
      }
    }
  }

  lemma NowhereToGo(s: Block, a: nat, b: nat)
    requires NoOpener(s, a)
    ensures !Step(s, a, b)
  {
    hide Opener, Moves;
  }

  /** Scanning that goes forward comes to an end. */
  lemma {:induction false} FinishesHalts(s: Block, a: nat)
    requires Finishes(s, a)
    ensures Halts(s, a)
    decreases |s| - a
  {
    hide Moves, Opener, CommentRange, Commented, Settles, Home, At, Parses;
    if i: nat :| a <= i && Opener(s, i) {
      var first := OpenerFirst(s, a, i);
      var m := MoveExists(s, first);
      MoveCases(s, first, m);
      assert Step(s, a, m);
      if m == NPOS {
        PastText(s);
        assert Scans(s, NPOS, NPOS, 0);
        ScansStep(s, a, NPOS, NPOS, 0);
      } else {
        FinishesHalts(s, m);
        var b: nat, k: nat :| Scans(s, m, b, k) && NoOpener(s, b);
        ScansStep(s, a, m, b, k);
      }
    } else {
      assert Scans(s, a, a, 0);
    }
  }

  /** Scanning that comes back does so after a number of calls. */
  lemma {:induction false} BackHome(s: Block, a: nat) returns (h: nat, k: nat)
    requires ComesBack(s, a)
    ensures Home(s, h) && k > 0 && Scans(s, a, h, k)
    decreases |s| - a
  {
    hide Moves, Opener, CommentRange, Commented, Settles, Home, At, Parses;
    var i: nat :| FirstOpener(s, a, i) && Parses(s, i) &&
      (!Forward(s, i) || exists e: nat :: i < e <= |s| && CommentRange(s, i, e) && ComesBack(s, e));
    var m := MoveExists(s, i);
    MoveCases(s, i, m);
    assert Step(s, a, m);
    if Forward(s, i) {
      var e: nat :| i < e <= |s| && CommentRange(s, i, e) && ComesBack(s, e);
      RangeEnds(s, i, e);
      Marks(s, i);
      RangeUnique(s, i, e, m);
      h, k := BackHome(s, m);
      ScansStep(s, a, m, h, k);
      k := k + 1;
    } else {
      h, k := m, 1;
      assert Scans(s, m, m, 0);
      ScansStep(s, a, m, m, 0);
    }
  }

  /** Scanning that comes to an end goes forward to it, or comes back first. */
  lemma {:induction false} HaltsOrBack(s: Block, a: nat, b: nat, k: nat)
    requires Scans(s, a, b, k) && NoOpener(s, b)
    ensures Finishes(s, a) || ComesBack(s, a)
    decreases k
  {
    hide Moves, Opener, CommentRange, Commented, Settles, Home, At, Parses;
    if k == 0 {
      assert forall i: nat :: !FirstOpener(s, a, i);
    } else {
      var m: nat :| Step(s, a, m) && Scans(s, m, b, k - 1);
      var i: nat :| FirstOpener(s, a, i) && Moves(s, i, m);
      MovesParses(s, i, m);
      MoveCases(s, i, m);
      if CommentRange(s, i, m) {
        HaltsOrBack(s, m, b, k - 1);
      }
      ForwardIf(s, a, i, m);
    }
  }

  lemma MovesParses(s: Block, i: nat, m: nat)
    requires Moves(s, i, m)
    ensures Parses(s, i)
  {
  }

  /** What is ahead of the first comment decides, if that goes forward. */
  lemma ForwardIf(s: Block, a: nat, i: nat, m: nat)
    requires FirstOpener(s, a, i) && Parses(s, i)
    requires CommentRange(s, i, m) ==> Finishes(s, m) || ComesBack(s, m)
    requires CommentRange(s, i, m) || m == NPOS || !Forward(s, i)
    requires m == NPOS ==> At(s, "//", i) && !Settles(s, i)
    ensures Finishes(s, a) || ComesBack(s, a)
  {
    hide Opener, CommentRange, Commented, Settles, At, Parses;
    if Forward(s, i) && !ComesBack(s, a) {
      forall j: nat | FirstOpener(s, a, j)
        ensures j == i
      {
        FirstUnique(s, a, i, j);
      }
      forall e: nat | i < e <= |s| && CommentRange(s, i, e)
        ensures Finishes(s, e)
      {
        RangeEnds(s, i, e);
        if CommentRange(s, i, m) {
          RangeUnique(s, i, e, m);
        }
      }
    }
  }

  /** Scanning from the end of those lines either goes forward or comes back to it for ever. */
  lemma {:induction false} HomeFinishes(s: Block, h: nat, b: nat, k: nat)
    requires Home(s, h) && Scans(s, h, b, k) && NoOpener(s, b)
    ensures Finishes(s, h)
    decreases k
  {
    hide Home, Step, NoOpener, Finishes, ComesBack;
    HaltsOrBack(s, h, b, k);
    if ComesBack(s, h) {
      var h', j := BackHome(s, h);
      HomeUnique(s, h, h');
      if j <= k {
        var m := ScansSplit(s, h, b, j, k - j);
        ScansUnique(s, h, h, m, j);
        HomeFinishes(s, h, b, k - j);
      } else {
        var m := ScansSplit(s, h, h, k, j - k);
        ScansUnique(s, h, b, m, k);
        Stuck(s, b, h, j - k);
        assert false;
      }
    }
  }

  lemma Stuck(s: Block, a: nat, b: nat, k: nat)
    requires NoOpener(s, a) && k > 0
    ensures !Scans(s, a, b, k)
  {
    hide Step, NoOpener;
    if Scans(s, a, b, k) {
      var m: nat :| Step(s, a, m) && Scans(s, m, b, k - 1);
      NowhereToGo(s, a, m);
    }
  }

  /** Repeated scanning of a text comes to an end exactly when it goes forward to it from the
      start, or comes back once and goes forward from where that leaves it. */
  lemma HaltsIff(s: Block)
    ensures Halts(s, 0) <==>
            Finishes(s, 0) || (ComesBack(s, 0) && exists h: nat :: Home(s, h) && Finishes(s, h))
  {
    hide Home, Step, NoOpener, Finishes, ComesBack;
    if Halts(s, 0) {
      var b: nat, k: nat :| Scans(s, 0, b, k) && NoOpener(s, b);
      HaltsOrBack(s, 0, b, k);
      if ComesBack(s, 0) {
        var h, j := BackHome(s, 0);
        if j <= k {
          var m := ScansSplit(s, 0, b, j, k - j);
          ScansUnique(s, 0, h, m, j);
          HomeFinishes(s, h, b, k - j);
        } else {
          var m := ScansSplit(s, 0, h, k, j - k);
          ScansUnique(s, 0, b, m, k);
          Stuck(s, b, h, j - k);
          assert false;
        }
      }
    }
    if Finishes(s, 0) {
      FinishesHalts(s, 0);
    }
    if ComesBack(s, 0) {
      if h: nat :| Home(s, h) && Finishes(s, h) {
        var h', j := BackHome(s, 0);
        HomeUnique(s, h, h');
        FinishesHalts(s, h);
        var b: nat, k: nat :| Scans(s, h, b, k) && NoOpener(s, b);
        ScansThen(s, 0, h, b, j, k);
      }
    }
  }

  /** Without a comment to come back from there are no more calls than characters. */
  lemma {:induction false} FewCalls(s: Block, a: nat, b: nat, k: nat)
    requires Scans(s, a, b, k) && !ComesBack(s, a)
    ensures k <= if a <= |s| then |s| - a + 1 else 0
    decreases k
  {
    hide Moves, Opener, CommentRange, Commented, Settles, Home, At, Parses;
    if k == 0 {
    } else {
      var m: nat :| Step(s, a, m) && Scans(s, m, b, k - 1);
      var i: nat :| FirstOpener(s, a, i) && Moves(s, i, m);
      MovesParses(s, i, m);
      MoveCases(s, i, m);
      OpenerInside(s, i);
      FewCalls(s, m, b, k - 1);
    }
  }

  /** Repeated scanning goes on for ever exactly when it comes back, and comes back again from
      where that leaves it. */
  lemma EndlessIff(s: Block)
    ensures Endless(s, 0) <==> ComesBack(s, 0) && exists h: nat :: Home(s, h) && ComesBack(s, h)
  {
    hide Home, Step, NoOpener, ComesBack, Scans;
    if !ComesBack(s, 0) {
      if Makes(s, 0, |s| + 2) {
        var b: nat :| Scans(s, 0, b, |s| + 2);
        FewCalls(s, 0, b, |s| + 2);
      }
    } else {
      var h, j := BackHome(s, 0);
      if ComesBack(s, h) {
        forall k: nat
          ensures Makes(s, 0, k)
        {
          var b := AroundAgain(s, h, k);
          ScansThen(s, 0, h, b, j, k);
          var m := ScansSplit(s, 0, b, k, j);
        }
      } else {
        var k := |s| + 2;
        if Makes(s, 0, j + k) {
          var b: nat :| Scans(s, 0, b, j + k);
          var m := ScansSplit(s, 0, b, j, k);
          ScansUnique(s, 0, h, m, j);
          FewCalls(s, h, b, k);
        }
        forall h': nat | Home(s, h')
          ensures h' == h
        {
          HomeUnique(s, h, h');
        }
      }
    }
  }

  /** Once round leads back to the same place, as often as wanted. */
  lemma {:induction false} AroundAgain(s: Block, h: nat, k: nat) returns (b: nat)
    requires Home(s, h) && ComesBack(s, h)
    ensures Scans(s, h, b, k)
    decreases k
  {
    hide Home, Step, ComesBack, Scans;
    var h', j := BackHome(s, h);
    HomeUnique(s, h, h');
    if j <= k {
      b := AroundAgain(s, h, k - j);
      ScansThen(s, h, h, b, j, k - j);
    } else {
      b := ScansSplit(s, h, h, k, j - k);
    }
  }

  /** If every comment that is met has the marks that are asserted, and its loop ends, scanning
      either comes to an end or goes on for ever. */
  lemma OneOrOther(s: Block)
    requires forall a: nat, k: nat, i: nat :: Scans(s, 0, a, k) && FirstOpener(s, a, i) ==> Parses(s, i)
    ensures Halts(s, 0) <==> !Endless(s, 0)
  {
    hide Step, Opener, Parses, Scans;
    if Halts(s, 0) {
      var b: nat, k: nat :| Scans(s, 0, b, k) && NoOpener(s, b);
      if Makes(s, 0, k + 1) {
        var c: nat :| Scans(s, 0, c, k + 1);
        var m := ScansSplit(s, 0, c, k, 1);
        ScansUnique(s, 0, b, m, k);
        Stuck(s, b, c, 1);
      }
    } else {
      forall k: nat
        ensures Makes(s, 0, k)
      {
        var b := KeepsGoing(s, k);
      }
    }
  }

  lemma {:induction false} KeepsGoing(s: Block, k: nat) returns (b: nat)
    requires forall a: nat, k: nat, i: nat :: Scans(s, 0, a, k) && FirstOpener(s, a, i) ==> Parses(s, i)
    requires !Halts(s, 0)
    ensures Scans(s, 0, b, k)
    decreases k
  {
    hide Opener, Parses, Moves;
    if k == 0 {
      b := 0;
    } else {
      var a := KeepsGoing(s, k - 1);
      var i: nat :| a <= i && Opener(s, i);
      var first := OpenerFirst(s, a, i);
      b := MoveExists(s, first);
      assert Step(s, a, b);
      assert Scans(s, b, b, 0);
      ScansStep(s, a, b, b, 0);
      ScansThen(s, 0, a, b, k - 1, 1);
    }
  }

  // ---- What is found -------------------------------------------------------------------------

  /** The text returned for a comment, when the scanner is left at `b`. */
  function Returned(s: Block, i: nat, b: nat): Range {
    Range(i, if i <= b <= |s| then b else |s|)
  }

  /** What the calls return, up to the one that finds nothing. */
  ghost predicate Reported(s: Block, a: nat, ranges: seq<Range>)
    decreases |ranges|
  {
    if ranges == [] then NoOpener(s, a)
    else
      && FirstOpener(s, a, ranges[0].start)
      && exists b: nat :: Moves(s, ranges[0].start, b) && ranges[0] == Returned(s, ranges[0].start, b)
                          && Reported(s, b, ranges[1..])
  }

  /** When every comment has its end, what is returned are the comments of the text. */
  lemma {:induction false} ReportedComments(s: Block, a: nat, ranges: seq<Range>)
    requires WellEnded(s, a) && Reported(s, a, ranges)
    ensures AllComments(s, a, ranges)
    decreases |ranges|
  {
    hide Moves, Opener, CommentRange, Commented, Settles, Closes, At, Forward, Home;
    if ranges == [] {
    } else {
      var i := ranges[0].start;
      var b: nat :| Moves(s, i, b) && ranges[0] == Returned(s, i, b) && Reported(s, b, ranges[1..]);
      MoveCases(s, i, b);
      ReportedComments(s, b, ranges[1..]);
      ScanFirst(s, a, ranges[0], ranges[1..]);
      assert [ranges[0]] + ranges[1..] == ranges;
    }
  }

  /** Texts whose comments all have their ends are scanned to the end. */
  lemma {:induction false} WellEndedFinishes(s: Block, a: nat)
    requires WellEnded(s, a)
    ensures Finishes(s, a)
    decreases |s| - a
  {
    hide At, Opener, CommentRange, Settles, Closes, Commented, Parses;
    forall i: nat | FirstOpener(s, a, i)
      ensures Parses(s, i)
      ensures forall e: nat :: i < e <= |s| && CommentRange(s, i, e) ==> Finishes(s, e)
    {
      Parsed(s, i);
      forall e: nat | i < e <= |s| && CommentRange(s, i, e)
        ensures Finishes(s, e)
      {
        WellEndedFinishes(s, e);
      }
    }
  }

  lemma ReportedFirst(s: Block, a: nat, i: nat, b: nat, rest: seq<Range>)
    requires FirstOpener(s, a, i) && Moves(s, i, b) && Reported(s, b, rest)
    ensures Reported(s, a, [Returned(s, i, b)] + rest)
  {
    hide Moves, FirstOpener;
    assert ([Returned(s, i, b)] + rest)[1..] == rest;
  }

  /** What one call does, for a step that the scanner can take. */
  lemma NextMoves(s: Block, a: nat, start: nat, end: nat, b: nat)
    requires FirstOpener(s, a, start) && Parses(s, start)
    requires At(s, "/*", start) ==> BlockRange(s, start, end) && b == end
    requires At(s, "//", start) ==>
               EndsAt(s, Find(s, "\n", start), b) && end == (if start <= b <= |s| then b else |s|)
    ensures Moves(s, start, b) && Range(start, end) == Returned(s, start, b)
  {
    hide At, Parses, EndsAt, Commented;
    Marks(s, start);
    if At(s, "/*", start) {
      Marks(s, end - 2);
    }
  }

  /** Repeated scanning, on every text on which it comes to an end. */
  method Comments(block: Block) returns (ranges: seq<Range>)
    requires Halts(block, 0)
    ensures Reported(block, 0, ranges)
    ensures WellEnded(block, 0) ==> AllComments(block, 0, ranges)
  {
    hide At, Opener, Moves, Parses, Reported, EndsAt, WellEnded, AllComments, BlockRange, Scans;
    var scanner := new CommentScanner(block);
    ghost var last: nat, calls: nat :| Scans(block, 0, last, calls) && NoOpener(block, last);
    ranges := [];
    assert forall rest: seq<Range> :: ranges + rest == rest;
    var more := true;
    while more
      invariant scanner.block == block
      invariant more ==> Scans(block, scanner.offset, last, calls)
      invariant more ==> forall rest :: Reported(block, scanner.offset, rest) ==> Reported(block, 0, ranges + rest)
      invariant !more ==> Reported(block, 0, ranges)
      decreases calls, more
    {
      ghost var a := scanner.offset;
      if calls == 0 {
        ScansNone(block, a, last);
      } else {
        ScansFirst(block, a, last, calls);
      }
      var found, start, end := scanner.Next();
      if found {
        NextMoves(block, a, start, end, scanner.offset);
        ghost var m := ScansSplit(block, a, last, 1, calls - 1);
        ScansOne(block, a, m);
        assert Step(block, a, scanner.offset);
        StepUnique(block, a, m, scanner.offset);
        forall rest | Reported(block, scanner.offset, rest)
          ensures Reported(block, 0, ranges + [Range(start, end)] + rest)
        {
          ReportedFirst(block, a, start, scanner.offset, rest);
          assert ranges + [Range(start, end)] + rest == ranges + ([Range(start, end)] + rest);
        }
        ranges := ranges + [Range(start, end)];
        calls := calls - 1;
      } else {
        ReportedNone(block, a);
        assert ranges + [] == ranges;
        more := false;
      }
    }
    if WellEnded(block, 0) {
      ReportedComments(block, 0, ranges);
    }
  }

  lemma ScansNone(s: Block, a: nat, b: nat)
    requires Scans(s, a, b, 0)
    ensures a == b
  {
  }

  lemma ScansOne(s: Block, a: nat, b: nat)
    requires Scans(s, a, b, 1)
    ensures Step(s, a, b)
  {
    hide Step;
    var m: nat :| Step(s, a, m) && Scans(s, m, b, 0);
  }

  /** A scanner that has a call to make parses the comment it finds. */
  lemma ScansFirst(s: Block, a: nat, b: nat, k: nat)
    requires Scans(s, a, b, k) && k > 0
    ensures exists i: nat :: FirstOpener(s, a, i)
    ensures forall i: nat :: FirstOpener(s, a, i) ==> Parses(s, i)
  {
    hide Opener, Moves, Parses;
    var m: nat :| Step(s, a, m) && Scans(s, m, b, k - 1);
    var j: nat :| FirstOpener(s, a, j) && Moves(s, j, m);
    MovesParses(s, j, m);
    forall i: nat | FirstOpener(s, a, i)
      ensures i == j
    {
      FirstUnique(s, a, i, j);
    }
  }

  lemma ReportedNone(s: Block, a: nat)
    requires NoOpener(s, a)
    ensures Reported(s, a, [])
  {
  }

  // ---- Texts ---------------------------------------------------------------------------------

  /** The comment at `i` is the first from `a` on. */
  lemma OpensFirst(s: Block, a: nat, i: nat)
    requires a <= i < |s| && Opener(s, i)
    requires forall j :: a <= j < i ==> !(s[j] == '/' && s[j + 1] in {'/', '*'})
    ensures FirstOpener(s, a, i)
  {
    hide At;
    forall j: nat | a <= j < i
      ensures !Opener(s, j)
    {
      Marks(s, j);
    }
  }

  /** A line comment that ends with its line. */
  lemma OneLine(s: Block, i: nat, e: nat)
    requires At(s, "//", i) && i < e && At(s, "\n", e) && !Commented(s, e + 1)
    requires forall p :: i <= p < e ==> p < |s| && s[p] != '\n'
    ensures LineRange(s, i, e) && Settles(s, i) && Find(s, "\n", i) == e
  {
    hide At, Commented;
    forall p: nat | i <= p < e
      ensures !At(s, "\n", p)
    {
      Marks(s, p);
    }
    FindsFirst(s, "\n", i);
  }

  const THREE: Block := "//a\nx\n//b\ny\n//c\n//d"

  lemma ThreeLines()
    ensures forall p: nat :: At(THREE, "\n", p) ==> p in {3, 5, 9, 11, 15}
    ensures At(THREE, "\n", 3) && At(THREE, "\n", 9) && At(THREE, "\n", 15)
    ensures At(THREE, "//", 0) && At(THREE, "//", 6) && At(THREE, "//", 12)
    ensures Commented(THREE, 0) && !Commented(THREE, 4) && !Commented(THREE, 10) && Commented(THREE, 16)
    ensures Find(THREE, "\n", 12) == 15
  {
    hide At, Commented, Find;
    var s := THREE;
    HasComment(s, 0, 0);
    HasComment(s, 6, 6);
    HasComment(s, 12, 12);
    HasComment(s, 16, 16);
    HasNone(s, 4, 5);
    HasNone(s, 10, 11);
    NewlineAt(s, 0, 3);
    NewlineAt(s, 6, 9);
    NewlineAt(s, 12, 15);
    forall p: nat | At(s, "\n", p)
      ensures p in {3, 5, 9, 11, 15}
    {
      Marks(s, p);
    }
  }

  lemma ThreeBack()
    ensures ComesBack(THREE, 9) && !AllCommented(THREE)
  {
    hide At, Commented, Find;
    var s := THREE;
    ThreeLines();
    assert !Settles(s, 12);
    Marks(s, 12);
    OpensFirst(s, 9, 12);
  }

  /** The last comment ends before the second, and the two are found for ever. */
  lemma FoundForEver()
    ensures Endless(THREE, 0)
  {
    hide At, Commented, Find, AllCommented, Settles, LineRange;
    var s := THREE;
    ThreeLines();
    ThreeBack();
    OneLine(s, 0, 3);
    OneLine(s, 6, 9);
    Marks(s, 0);
    Marks(s, 6);
    OpensFirst(s, 3, 6);
    assert ComesBack(s, 3);
    OpensFirst(s, 0, 0);
    assert ComesBack(s, 0);
    assert Home(s, 3);
    EndlessIff(s);
  }

  const HIDDEN: Block := "/* //\nx */*\n// a\n// */"

  lemma HiddenLines()
    ensures forall p: nat :: At(HIDDEN, "\n", p) ==> p in {5, 11, 16}
    ensures At(HIDDEN, "\n", 5) && At(HIDDEN, "//", 12) && At(HIDDEN, "/*", 0) && At(HIDDEN, "/*", 9)
    ensures Commented(HIDDEN, 0) && !Commented(HIDDEN, 6) && Commented(HIDDEN, 17)
    ensures Find(HIDDEN, "\n", 12) == 16
    ensures BlockRange(HIDDEN, 0, 10) && BlockRange(HIDDEN, 9, 22)
  {
    hide At, Commented, Find;
    var s := HIDDEN;
    HasComment(s, 0, 3);
    HasComment(s, 12, 12);
    HasComment(s, 17, 17);
    HasNone(s, 6, 11);
    NewlineAt(s, 0, 5);
    NewlineAt(s, 12, 16);
    forall p: nat
      ensures At(s, "\n", p) ==> p in {5, 11, 16}
      ensures At(s, "*/", p) <==> p in {8, 20}
    {
      Marks(s, p);
    }
    Marks(s, 0);
    Marks(s, 9);
  }

  lemma HiddenBack()
    ensures ComesBack(HIDDEN, 10) && !AllCommented(HIDDEN)
  {
    hide At, Commented, Find, BlockRange;
    var s := HIDDEN;
    HiddenLines();
    assert !Settles(s, 12);
    Marks(s, 12);
    OpensFirst(s, 10, 12);
  }

  lemma HiddenEnd()
    ensures Finishes(HIDDEN, 5)
  {
    hide At, Commented, Find, BlockRange, LineRange;
    var s := HIDDEN;
    HiddenLines();
    Marks(s, 9);
    OpensFirst(s, 5, 9);
    forall i: nat | FirstOpener(s, 5, i)
      ensures i == 9
    {
      FirstUnique(s, 5, i, 9);
    }
    forall i: nat
      ensures !FirstOpener(s, 22, i)
    {
      Marks(s, i);
    }
    assert Finishes(s, 22);
    forall e: nat | CommentRange(s, 9, e)
      ensures e == 22
    {
      RangeUnique(s, 9, e, 22);
    }
    assert Closes(s, 9) by {
      Marks(s, 20);
    }
  }

  /** A comment ends before itself here too, but the next scan takes a closing mark for an opening
      one, and comes to the end of the text. */
  lemma EndsAllTheSame()
    ensures ComesBack(HIDDEN, 0) && Halts(HIDDEN, 0)
  {
    hide At, Commented, Find, BlockRange, LineRange, AllCommented, Settles, Finishes;
    var s := HIDDEN;
    HiddenLines();
    HiddenBack();
    HiddenEnd();
    Marks(s, 0);
    OpensFirst(s, 0, 0);
    assert Closes(s, 0) by {
      Marks(s, 8);
    }
    assert ComesBack(s, 0);
    assert Home(s, 5);
    HaltsIff(s);
  }

  /** A comment that is cut off by the end of the text does not keep scanning from its end. */
  lemma EndsCutOff()
    ensures Halts(BARE_START, 0) && !WellEnded(BARE_START, 0)
  {
    hide At, Commented, Find, LineRange;
    var s := BARE_START;
    HasNone(s, 0, 1);
    HasComment(s, 2, 2);
    HasComment(s, 6, 6);
    NewlineAt(s, 2, 5);
    forall p: nat | At(s, "\n", p)
      ensures p == 1 || p == 5
    {
      Marks(s, p);
    }
    assert !Settles(s, 2);
    Marks(s, 2);
    OpensFirst(s, 0, 2);
    forall i: nat | FirstOpener(s, 0, i)
      ensures i == 2
    {
      FirstUnique(s, 0, i, 2);
    }
    forall e: nat | CommentRange(s, 2, e)
      ensures false
    {
      RangeEnds(s, 2, e);
    }
    FinishesHalts(s, 0);
  }
}

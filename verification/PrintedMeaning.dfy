/** The printed text means what the source means. */
module PrintedMeaning {
  import opened Text
  import opened ClangAst
  import opened CoqStmts
  import opened CoqReading
  import opened StmtReading
  import opened StmtTerms
  import opened SwitchRuns
  import opened Typing

  /** The text of a statement whose words stay apart reads back as one Coq statement, and that
      statement runs as the C++ statement does: the same effects in the same order, from the
      start and from every label, with every `goto` followed, whatever its expressions mean. */
  lemma TextRuns(s: Stmt)
    requires StmtOk(s) && Placed(s, false) && Separated(s)
    ensures ReadProgram(TextOf(s)).Some?
    ensures forall w, n: nat, g, tr ::
              ExecC(w, n, ReadProgram(TextOf(s)).value, g, tr) == Exec(w, n, s, g, tr)
    ensures forall w, n: nat, jumps: nat, g, tr ::
              FollowC(w, n, jumps, ReadProgram(TextOf(s)).value, g, tr) == Follow(w, n, jumps, s, g, tr)
  {
    hide StmtOk, Placed, Separated, TextOf, One, ReadProgram, Exec, ExecC, Follow, FollowC;
    TextRead(s);
    forall w, n: nat, g, tr
      ensures ExecC(w, n, ReadProgram(TextOf(s)).value, g, tr) == Exec(w, n, s, g, tr)
    {
      OneRuns(w, n, s, g, tr);
    }
    forall w, n: nat, jumps: nat, g, tr
      ensures FollowC(w, n, jumps, ReadProgram(TextOf(s)).value, g, tr) == Follow(w, n, jumps, s, g, tr)
    {
      FollowRuns(w, n, jumps, s, g, tr);
    }
  }

  /** For well-typed statements only the place of labels matters. */
  lemma TypedTextRuns(s: Stmt)
    requires StmtOk(s) && StmtTyped(s) && Placed(s, false)
    ensures ReadProgram(TextOf(s)).Some?
    ensures forall w, n: nat, jumps: nat, g, tr ::
              FollowC(w, n, jumps, ReadProgram(TextOf(s)).value, g, tr) == Follow(w, n, jumps, s, g, tr)
  {
    hide StmtOk, StmtTyped, Placed, Separated, TextOf, ReadProgram, Follow, FollowC;
    TypedSeparated(s);
    TextRuns(s);
  }
}

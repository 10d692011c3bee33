/** What flattening does to meaning. A statement tree is run as C++ runs it, jumping to the label
    that a `switch` selects wherever that label is nested; the flattened statement is run on its
    own; and the two runs are the same. */
module SwitchRuns {
  import opened Text
  import opened ClangAst
  import opened CoqExprs
  import opened Translation
  import opened CoqStmts

  /** What a run does: evaluate an expression for its effect, declare, test, select, return. */
  datatype Event =
    | Ran(e: CExpr) | Declared(ds: seq<CDecl>) | Tested(e: CExpr) | Chose(e: CExpr) | Returned(result: Option<CExpr>)

  /** The meaning of expressions, which may depend on everything that happened before, and whether
      the declaration of a `while` is made at every turn, as in C++, or once, as the program logic
      has it. */
  datatype World = World(test: (CExpr, seq<Event>) -> bool, pick: (CExpr, seq<Event>) -> int, again: bool)

  /** What a loop does at its head: declare, test, and increment before the next turn. */
  datatype LoopHead = LoopHead(decl: Option<CDecl>, test: Option<CExpr>, inc: Option<CExpr>)

  datatype Signal = Normal | Breaks | Continues | Returns | Jumps(name: string) | Timeout

  /** The label that a `switch` or a `goto` is looking for. */
  datatype Target = Value(v: int) | Otherwise | Named(name: string)

  /** Run from the start, or from the first label that is the target. */
  datatype Goal = Go | Find(target: Target)

  datatype Run = Missed | Ended(signal: Signal, trace: seq<Event>)

  predicate Matches(b: Branch, v: int) {
    match b
    case Exact(x) => v == x
    case Range(lo, hi) => lo <= v <= hi
  }

  predicate Hits(b: Branch, g: Goal) {
    g.Find? && g.target.Value? && Matches(b, g.target.v)
  }

  predicate HitsDefault(g: Goal) {
    g.Find? && g.target.Otherwise?
  }

  /** What is left to look for inside a label. */
  function AtLabel(name: string, g: Goal): Goal {
    if g == Find(Named(name)) then Go else g
  }

  /** The labels that a `switch` and a `default` look for belong to the innermost `switch`. */
  predicate StopsAtSwitch(g: Goal) {
    g.Find? && !g.target.Named?
  }

  /** A statement without labels of its own. */
  function Leaf(g: Goal, signal: Signal, tr: seq<Event>): (r: Run)
    ensures g.Go? ==> r.Ended?
  {
    if g.Go? then Ended(signal, tr) else Missed
  }

  function Declare(v: Option<CDecl>, tr: seq<Event>): seq<Event> {
    if v.Some? then tr + [Declared([v.value])] else tr
  }

  function WhileHead(w: World, v: Option<CDecl>, test: CExpr): LoopHead {
    LoopHead(if w.again then v else None, Some(test), None)
  }

  /** What is declared ahead of a `while`. */
  function Ahead(w: World, v: Option<CDecl>, tr: seq<Event>): seq<Event> {
    if w.again then tr else Declare(v, tr)
  }

  function ForHead(test: Option<CExpr>, inc: Option<CExpr>): LoopHead {
    LoopHead(None, test, inc)
  }

  function Increment(e: Option<CExpr>, tr: seq<Event>): seq<Event> {
    if e.Some? then tr + [Ran(e.value)] else tr
  }

  function AfterTest(h: LoopHead, tr: seq<Event>): seq<Event> {
    if h.test.Some? then tr + [Tested(h.test.value)] else tr
  }

  /** `break` ends the switch that it is in. */
  function Unswitched(r: Run): Run {
    if r.Ended? && r.signal.Breaks? then r.(signal := Normal) else r
  }

  predicate GoesRound(r: Run) {
    r.Ended? && (r.signal.Normal? || r.signal.Continues?)
  }

  // ---- Running a statement tree ------------------------------------------------------------

  function Exec(w: World, n: nat, s: Stmt, g: Goal, tr: seq<Event>): (r: Run)
    ensures g.Go? ==> r.Ended?
    decreases n, s, 2
  {
    match s
    case DeclStmt(ds) => Leaf(g, Normal, tr + [Declared(DeclsToCoq(ds))])
    case While(v, c, b) =>
      if g.Go? then Loop(w, n, WhileHead(w, CondVarToCoq(v), TopToCoq(c)), b, Ahead(w, CondVarToCoq(v), tr))
      else Turn(w, n, WhileHead(w, CondVarToCoq(v), TopToCoq(c)), b, Exec(w, n, b, g, tr))
    case For(i, t, inc, b) =>
      if g.Find? then Turn(w, n, ForHead(OptToCoq(t), OptToCoq(inc)), b, Exec(w, n, b, g, tr))
      else
        var r := if i.Some? then Exec(w, n, i.value, Go, tr) else Ended(Normal, tr);
        if r.signal.Normal? then Loop(w, n, ForHead(OptToCoq(t), OptToCoq(inc)), b, r.trace) else r
    case Do(b, c) => DoTurn(w, n, TopToCoq(c), b, Exec(w, n, b, g, tr))
    case Break => Leaf(g, Breaks, tr)
    case Continue => Leaf(g, Continues, tr)
    case If(v, c, t, e) =>
      if g.Go? then
        var tr1 := Declare(CondVarToCoq(v), tr);
        var tr2 := tr1 + [Tested(TopToCoq(c))];
        if w.test(TopToCoq(c), tr1) then Exec(w, n, t, Go, tr2)
        else if e.Some? then Exec(w, n, e.value, Go, tr2)
        else Ended(Normal, tr2)
      else
        var r := Exec(w, n, t, g, tr);
        if r.Ended? || e.None? then r else Exec(w, n, e.value, g, tr)
    case Case(lo, hi, sub) => Exec(w, n, sub, if Hits(LabelOf(lo, hi), g) then Go else g, tr)
    case Default(sub) =>
      var g' := if HitsDefault(g) then Go else g;
      if sub.Some? then Exec(w, n, sub.value, g', tr) else Leaf(g', Normal, tr)
    case Switch(v, c, b) =>
      if StopsAtSwitch(g) then Missed
      else if g.Find? then Unswitched(Exec(w, n, b, g, tr))
      else
        var tr1 := Declare(CondVarToCoq(v), tr);
        var tr2 := tr1 + [Chose(TopToCoq(c))];
        Unswitched(Select(w, n, b, w.pick(TopToCoq(c), tr1), tr2))
    case ExprStmt(e) => Leaf(g, Normal, tr + [Ran(TopToCoq(e))])
    case Return(e) => Leaf(g, Returns, tr + [Returned(OptToCoq(e))])
    case Compound(items) => ExecItems(w, n, items, g, tr)
    case Null => Leaf(g, Normal, tr)
    case Attributed(_, sub) => Exec(w, n, sub, g, tr)
    case LabelStmt(name, sub) => Exec(w, n, sub, AtLabel(name, g), tr)
    case Goto(name) => Leaf(g, Jumps(name), tr)
  }

  /** A jump into the body of a `switch`: to the first matching `case`, else to `default`, else
      past the body. */
  function Select(w: World, n: nat, body: Stmt, v: int, tr: seq<Event>): (r: Run)
    ensures r.Ended?
    decreases n, body, 3
  {
    var r := Exec(w, n, body, Find(Value(v)), tr);
    var d := Exec(w, n, body, Find(Otherwise), tr);
    if r.Ended? then r else if d.Ended? then d else Ended(Normal, tr)
  }

  function ExecItems(w: World, n: nat, items: seq<Stmt>, g: Goal, tr: seq<Event>): (r: Run)
    ensures g.Go? ==> r.Ended?
    decreases n, items, 0
  {
    if items == [] then Leaf(g, Normal, tr)
    else
      var r := Exec(w, n, items[0], g, tr);
      if r.Missed? then ExecItems(w, n, items[1..], g, tr)
      else if r.signal.Normal? then ExecItems(w, n, items[1..], Go, r.trace)
      else r
  }

  /** A loop at its head; `n` bounds the iterations. */
  function Loop(w: World, n: nat, h: LoopHead, body: Stmt, tr: seq<Event>): (r: Run)
    ensures r.Ended?
    decreases n, body, 0
  {
    if n == 0 then Ended(Timeout, tr)
    else
      var tr0 := Declare(h.decl, tr);
      if h.test.Some? && !w.test(h.test.value, tr0) then Ended(Normal, tr0 + [Tested(h.test.value)])
      else Turn(w, n - 1, h, body, Exec(w, n - 1, body, Go, AfterTest(h, tr0)))
  }

  /** A loop after its body. */
  function Turn(w: World, n: nat, h: LoopHead, body: Stmt, r: Run): (r': Run)
    ensures r.Ended? ==> r'.Ended?
    decreases n, body, 1
  {
    if GoesRound(r) then Loop(w, n, h, body, Increment(h.inc, r.trace)) else Unswitched(r)
  }

  /** A `do` loop after its body. */
  function DoTurn(w: World, n: nat, test: CExpr, body: Stmt, r: Run): (r': Run)
    ensures r.Ended? ==> r'.Ended?
    decreases n, body, 1
  {
    if !GoesRound(r) then Unswitched(r)
    else
      var tr := r.trace + [Tested(test)];
      if !w.test(test, r.trace) then Ended(Normal, tr)
      else if n == 0 then Ended(Timeout, tr)
      else DoTurn(w, n - 1, test, body, Exec(w, n - 1, body, Go, tr))
  }

  // ---- Running a flattened statement -------------------------------------------------------

  function ExecC(w: World, n: nat, s: CStmt, g: Goal, tr: seq<Event>): (r: Run)
    ensures g.Go? ==> r.Ended?
    decreases n, s, 2
  {
    match s
    case Sseq(items) => ExecList(w, n, items, g, tr)
    case Sdecl(ds) => Leaf(g, Normal, tr + [Declared(ds)])
    case Sif(v, c, t, e) =>
      if g.Go? then
        var tr1 := Declare(v, tr);
        var tr2 := tr1 + [Tested(c)];
        if w.test(c, tr1) then ExecC(w, n, t, Go, tr2) else ExecC(w, n, e, Go, tr2)
      else
        var r := ExecC(w, n, t, g, tr);
        if r.Ended? then r else ExecC(w, n, e, g, tr)
    case Swhile(v, c, b) =>
      if g.Go? then LoopC(w, n, WhileHead(w, v, c), b, Ahead(w, v, tr))
      else TurnC(w, n, WhileHead(w, v, c), b, ExecC(w, n, b, g, tr))
    case Sfor(i, t, inc, b) =>
      if g.Find? then TurnC(w, n, ForHead(t, inc), b, ExecC(w, n, b, g, tr))
      else
        var r := if i.Some? then ExecC(w, n, i.value, Go, tr) else Ended(Normal, tr);
        if r.signal.Normal? then LoopC(w, n, ForHead(t, inc), b, r.trace) else r
    case Sdo(b, c) => DoTurnC(w, n, c, b, ExecC(w, n, b, g, tr))
    case Sswitch(v, c, b) =>
      if StopsAtSwitch(g) then Missed
      else if g.Find? then Unswitched(ExecC(w, n, b, g, tr))
      else
        var tr1 := Declare(v, tr);
        var tr2 := tr1 + [Chose(c)];
        Unswitched(SelectC(w, n, b, w.pick(c, tr1), tr2))
    case Scase(b) => Leaf(if Hits(b, g) then Go else g, Normal, tr)
    case Sdefault => Leaf(if HitsDefault(g) then Go else g, Normal, tr)
    case Sbreak => Leaf(g, Breaks, tr)
    case Scontinue => Leaf(g, Continues, tr)
    case SreturnVoid => Leaf(g, Returns, tr + [Returned(None)])
    case SreturnVal(e) => Leaf(g, Returns, tr + [Returned(Some(e))])
    case Sexpr(e) => Leaf(g, Normal, tr + [Ran(e)])
    case Sattr(_, sub) => ExecC(w, n, sub, g, tr)
    case Slabeled(name, sub) => ExecC(w, n, sub, AtLabel(name, g), tr)
    case Sgoto(name) => Leaf(g, Jumps(name), tr)
    case Sskip => Leaf(g, Normal, tr)
  }

  function SelectC(w: World, n: nat, body: CStmt, v: int, tr: seq<Event>): (r: Run)
    ensures r.Ended?
    decreases n, body, 3
  {
    var r := ExecC(w, n, body, Find(Value(v)), tr);
    var d := ExecC(w, n, body, Find(Otherwise), tr);
    if r.Ended? then r else if d.Ended? then d else Ended(Normal, tr)
  }

  function ExecList(w: World, n: nat, items: seq<CStmt>, g: Goal, tr: seq<Event>): (r: Run)
    ensures g.Go? ==> r.Ended?
    decreases n, items, 0
  {
    if items == [] then Leaf(g, Normal, tr)
    else
      var r := ExecC(w, n, items[0], g, tr);
      if r.Missed? then ExecList(w, n, items[1..], g, tr)
      else if r.signal.Normal? then ExecList(w, n, items[1..], Go, r.trace)
      else r
  }

  function LoopC(w: World, n: nat, h: LoopHead, body: CStmt, tr: seq<Event>): (r: Run)
    ensures r.Ended?
    decreases n, body, 0
  {
    if n == 0 then Ended(Timeout, tr)
    else
      var tr0 := Declare(h.decl, tr);
      if h.test.Some? && !w.test(h.test.value, tr0) then Ended(Normal, tr0 + [Tested(h.test.value)])
      else TurnC(w, n - 1, h, body, ExecC(w, n - 1, body, Go, AfterTest(h, tr0)))
  }

  function TurnC(w: World, n: nat, h: LoopHead, body: CStmt, r: Run): (r': Run)
    ensures r.Ended? ==> r'.Ended?
    decreases n, body, 1
  {
    if GoesRound(r) then LoopC(w, n, h, body, Increment(h.inc, r.trace)) else Unswitched(r)
  }

  function DoTurnC(w: World, n: nat, test: CExpr, body: CStmt, r: Run): (r': Run)
    ensures r.Ended? ==> r'.Ended?
    decreases n, body, 1
  {
    if !GoesRound(r) then Unswitched(r)
    else
      var tr := r.trace + [Tested(test)];
      if !w.test(test, r.trace) then Ended(Normal, tr)
      else if n == 0 then Ended(Timeout, tr)
      else DoTurnC(w, n - 1, test, body, ExecC(w, n - 1, body, Go, tr))
  }

  // ---- Following jumps -----------------------------------------------------------------------

  /** A function body: a `goto` goes on at its label, wherever in the body that stands; `jumps`
      bounds how often. A body without the label is left with the jump pending. */
  function Follow(w: World, n: nat, jumps: nat, s: Stmt, g: Goal, tr: seq<Event>): (r: Run)
    ensures g.Go? ==> r.Ended?
    decreases jumps
  {
    var r := Exec(w, n, s, g, tr);
    if !(r.Ended? && r.signal.Jumps?) then r
    else if jumps == 0 then Ended(Timeout, r.trace)
    else
      var next := Follow(w, n, jumps - 1, s, Find(Named(r.signal.name)), r.trace);
      if next.Missed? then r else next
  }

  function FollowC(w: World, n: nat, jumps: nat, s: CStmt, g: Goal, tr: seq<Event>): (r: Run)
    ensures g.Go? ==> r.Ended?
    decreases jumps
  {
    var r := ExecC(w, n, s, g, tr);
    if !(r.Ended? && r.signal.Jumps?) then r
    else if jumps == 0 then Ended(Timeout, r.trace)
    else
      var next := FollowC(w, n, jumps - 1, s, Find(Named(r.signal.name)), r.trace);
      if next.Missed? then r else next
  }

  // ---- Flattening preserves runs -----------------------------------------------------------

  /** Two lists run one after the other. */
  lemma {:induction false} ListAppend(w: World, n: nat, a: seq<CStmt>, b: seq<CStmt>, g: Goal, tr: seq<Event>)
    ensures ExecList(w, n, a + b, g, tr) ==
            var r := ExecList(w, n, a, g, tr);
            if r.Missed? then ExecList(w, n, b, g, tr)
            else if r.signal.Normal? then ExecList(w, n, b, Go, r.trace)
            else r
    decreases |a|
  {
    hide ExecC;
    if a == [] {
      assert a + b == b;
    } else {
      assert (a + b)[1..] == a[1..] + b;
      var r := ExecC(w, n, a[0], g, tr);
      if r.Missed? {
        ListAppend(w, n, a[1..], b, g, tr);
      } else if r.signal.Normal? {
        ListAppend(w, n, a[1..], b, Go, r.trace);
      }
    }
  }

  lemma ListOne(w: World, n: nat, x: CStmt, g: Goal, tr: seq<Event>)
    ensures ExecList(w, n, [x], g, tr) == ExecC(w, n, x, g, tr)
  {
    hide ExecC;
    assert [x][1..] == [];
  }

  /** The list elements that a statement is printed as run exactly as the statement does, from
      the start and from any label, for every meaning of its expressions. */
  lemma {:induction false} FlattenRuns(w: World, n: nat, s: Stmt, g: Goal, tr: seq<Event>)
    ensures ExecList(w, n, Flatten(s), g, tr) == Exec(w, n, s, g, tr)
    decreases n, s, 2
  {
    hide Exec, ExecC;
    match s
    case Case(_, _, _) => CaseRuns(w, n, s, g, tr);
    case Default(_) => DefaultRuns(w, n, s, g, tr);
    case Compound(items) =>
      ListOne(w, n, Sseq(FlattenAll(items)), g, tr);
      CompoundRuns(w, n, s, g, tr);
    case _ =>
      ListOne(w, n, Flatten(s)[0], g, tr);
      NodeRuns(w, n, s, g, tr);
  }

  lemma {:induction false} CompoundRuns(w: World, n: nat, s: Stmt, g: Goal, tr: seq<Event>)
    requires s.Compound?
    ensures ExecC(w, n, Sseq(FlattenAll(s.items)), g, tr) == Exec(w, n, s, g, tr)
    decreases n, s, 1
  {
    ItemsRun(w, n, s.items, g, tr);
  }

  lemma {:induction false} CaseRuns(w: World, n: nat, s: Stmt, g: Goal, tr: seq<Event>)
    requires s.Case?
    ensures ExecList(w, n, Flatten(s), g, tr) == Exec(w, n, s, g, tr)
    decreases n, s, 1
  {
    hide Hits, LabelOf;
    var label' := LabelOf(s.lo, s.hi);
    FlattenRuns(w, n, s.sub, if Hits(label', g) then Go else g, tr);
    assert Flatten(s) == [Scase(label')] + Flatten(s.sub);
    assert Flatten(s)[1..] == Flatten(s.sub);
  }

  lemma {:induction false} DefaultRuns(w: World, n: nat, s: Stmt, g: Goal, tr: seq<Event>)
    requires s.Default?
    ensures ExecList(w, n, Flatten(s), g, tr) == Exec(w, n, s, g, tr)
    decreases n, s, 1
  {
    if s.defaulted.Some? {
      FlattenRuns(w, n, s.defaulted.value, if HitsDefault(g) then Go else g, tr);
      assert Flatten(s) == [Sdefault] + Flatten(s.defaulted.value);
      assert Flatten(s)[1..] == Flatten(s.defaulted.value);
    } else {
      assert Flatten(s) == [Sdefault];
      ListOne(w, n, Sdefault, g, tr);
    }
  }

  /** A statement printed where Coq expects exactly one runs as the statement does. */
  lemma {:induction false} OneRuns(w: World, n: nat, s: Stmt, g: Goal, tr: seq<Event>)
    ensures ExecC(w, n, One(s), g, tr) == Exec(w, n, s, g, tr)
    decreases n, s, 3
  {
    hide Flatten, Exec;
    FlattenRuns(w, n, s, g, tr);
    var f := Flatten(s);
    if |f| == 1 {
      assert f == [f[0]];
      ListOne(w, n, f[0], g, tr);
    }
  }

  /** So do function bodies, in which jumps are followed. */
  lemma {:induction false} FollowRuns(w: World, n: nat, jumps: nat, s: Stmt, g: Goal, tr: seq<Event>)
    ensures FollowC(w, n, jumps, One(s), g, tr) == Follow(w, n, jumps, s, g, tr)
    decreases jumps
  {
    hide One, Exec, ExecC;
    OneRuns(w, n, s, g, tr);
    var r := Exec(w, n, s, g, tr);
    if r.Ended? && r.signal.Jumps? && jumps > 0 {
      FollowRuns(w, n, jumps - 1, s, Find(Named(r.signal.name)), r.trace);
    }
  }

  lemma {:induction false} ItemsRun(w: World, n: nat, items: seq<Stmt>, g: Goal, tr: seq<Event>)
    ensures ExecList(w, n, FlattenAll(items), g, tr) == ExecItems(w, n, items, g, tr)
    decreases n, items, 0
  {
    hide Exec, ExecC, Flatten;
    if items == [] {
    } else {
      FlattenRuns(w, n, items[0], g, tr);
      ListAppend(w, n, Flatten(items[0]), FlattenAll(items[1..]), g, tr);
      var r := Exec(w, n, items[0], g, tr);
      if r.Missed? {
        ItemsRun(w, n, items[1..], g, tr);
      } else if r.signal.Normal? {
        ItemsRun(w, n, items[1..], Go, r.trace);
      }
    }
  }

  lemma {:induction false} NodeRuns(w: World, n: nat, s: Stmt, g: Goal, tr: seq<Event>)
    requires !s.Case? && !s.Default? && !s.Compound?
    ensures ExecC(w, n, Flatten(s)[0], g, tr) == Exec(w, n, s, g, tr)
    decreases n, s, 1
  {
    match s
    case While(_, _, _) => WhileRuns(w, n, s, g, tr);
    case For(_, _, _, _) => ForRuns(w, n, s, g, tr);
    case Do(_, _) => DoStmtRuns(w, n, s, g, tr);
    case If(_, _, _, _) => IfRuns(w, n, s, g, tr);
    case Switch(_, _, _) => SwitchStmtRuns(w, n, s, g, tr);
    case Attributed(_, sub) => OneRuns(w, n, sub, g, tr);
    case LabelStmt(name, sub) => OneRuns(w, n, sub, AtLabel(name, g), tr);
    case _ => LeafRuns(w, n, s, g, tr);
  }

  lemma LeafRuns(w: World, n: nat, s: Stmt, g: Goal, tr: seq<Event>)
    requires s.DeclStmt? || s.Break? || s.Continue? || s.ExprStmt? || s.Return? || s.Null? || s.Goto?
    ensures ExecC(w, n, Flatten(s)[0], g, tr) == Exec(w, n, s, g, tr)
  {
  }

  lemma {:induction false} WhileRuns(w: World, n: nat, s: Stmt, g: Goal, tr: seq<Event>)
    requires s.While?
    ensures ExecC(w, n, Flatten(s)[0], g, tr) == Exec(w, n, s, g, tr)
    decreases n, s, 0
  {
    hide One, Loop, LoopC, Turn, TurnC, TopToCoq, CondVarToCoq;
    var v, b := CondVarToCoq(s.condVar), s.body;
    var h := WhileHead(w, v, TopToCoq(s.cond));
    if g.Go? {
      LoopRuns(w, n, h, b, Ahead(w, v, tr));
    } else {
      OneRuns(w, n, b, g, tr);
      TurnRuns(w, n, h, b, Exec(w, n, b, g, tr));
    }
  }

  lemma {:induction false} DoStmtRuns(w: World, n: nat, s: Stmt, g: Goal, tr: seq<Event>)
    requires s.Do?
    ensures ExecC(w, n, Flatten(s)[0], g, tr) == Exec(w, n, s, g, tr)
    decreases n, s, 0
  {
    hide One, DoTurn, DoTurnC, TopToCoq;
    OneRuns(w, n, s.body, g, tr);
    DoRuns(w, n, TopToCoq(s.cond), s.body, Exec(w, n, s.body, g, tr));
  }

  lemma {:induction false} IfRuns(w: World, n: nat, s: Stmt, g: Goal, tr: seq<Event>)
    requires s.If?
    ensures ExecC(w, n, Flatten(s)[0], g, tr) == Exec(w, n, s, g, tr)
    decreases n, s, 0
  {
    hide One, TopToCoq, CondVarToCoq;
    var tr2 := Declare(CondVarToCoq(s.condVar), tr) + [Tested(TopToCoq(s.cond))];
    var from := if g.Go? then tr2 else tr;
    OneRuns(w, n, s.thn, g, from);
    if s.els.Some? {
      OneRuns(w, n, s.els.value, g, from);
    }
  }

  lemma {:induction false} SwitchStmtRuns(w: World, n: nat, s: Stmt, g: Goal, tr: seq<Event>)
    requires s.Switch?
    ensures ExecC(w, n, Flatten(s)[0], g, tr) == Exec(w, n, s, g, tr)
    decreases n, s, 0
  {
    hide One, Select, SelectC, TopToCoq, CondVarToCoq;
    if g.Go? {
      var tr1 := Declare(CondVarToCoq(s.condVar), tr);
      SelectRuns(w, n, s.body, w.pick(TopToCoq(s.cond), tr1), tr1 + [Chose(TopToCoq(s.cond))]);
    } else if !StopsAtSwitch(g) {
      OneRuns(w, n, s.body, g, tr);
    }
  }

  lemma {:induction false} ForRuns(w: World, n: nat, s: Stmt, g: Goal, tr: seq<Event>)
    requires s.For?
    ensures ExecC(w, n, Flatten(s)[0], g, tr) == Exec(w, n, s, g, tr)
    decreases n, s, 0
  {
    hide One, Loop, LoopC, Turn, TurnC, TopToCoq;
    var h, b := ForHead(OptToCoq(s.test), OptToCoq(s.inc)), s.body;
    if g.Find? {
      OneRuns(w, n, b, g, tr);
      TurnRuns(w, n, h, b, Exec(w, n, b, g, tr));
    } else {
      if s.init.Some? {
        OneRuns(w, n, s.init.value, Go, tr);
      }
      var r := if s.init.Some? then Exec(w, n, s.init.value, Go, tr) else Ended(Normal, tr);
      LoopRuns(w, n, h, b, r.trace);
    }
  }

  lemma {:induction false} SelectRuns(w: World, n: nat, b: Stmt, v: int, tr: seq<Event>)
    ensures SelectC(w, n, One(b), v, tr) == Select(w, n, b, v, tr)
    decreases n, b, 4
  {
    hide One, Exec, ExecC;
    OneRuns(w, n, b, Find(Value(v)), tr);
    OneRuns(w, n, b, Find(Otherwise), tr);
  }

  lemma {:induction false} LoopRuns(w: World, n: nat, h: LoopHead, b: Stmt, tr: seq<Event>)
    ensures LoopC(w, n, h, One(b), tr) == Loop(w, n, h, b, tr)
    decreases n, b, 0
  {
    hide Exec, ExecC, One;
    if n == 0 {
    } else {
      var tr1 := AfterTest(h, Declare(h.decl, tr));
      OneRuns(w, n - 1, b, Go, tr1);
      TurnRuns(w, n - 1, h, b, Exec(w, n - 1, b, Go, tr1));
    }
  }

  lemma {:induction false} TurnRuns(w: World, n: nat, h: LoopHead, b: Stmt, r: Run)
    ensures TurnC(w, n, h, One(b), r) == Turn(w, n, h, b, r)
    decreases n, b, 1
  {
    if GoesRound(r) {
      LoopRuns(w, n, h, b, Increment(h.inc, r.trace));
    }
  }

  lemma {:induction false} DoRuns(w: World, n: nat, test: CExpr, b: Stmt, r: Run)
    ensures DoTurnC(w, n, test, One(b), r) == DoTurn(w, n, test, b, r)
    decreases n, b, 1
  {
    hide Exec, ExecC, One;
    if GoesRound(r) && w.test(test, r.trace) && n > 0 {
      var tr := r.trace + [Tested(test)];
      OneRuns(w, n - 1, b, Go, tr);
      DoRuns(w, n - 1, test, b, Exec(w, n - 1, b, Go, tr));
    }
  }
}

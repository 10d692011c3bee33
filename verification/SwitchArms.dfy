/** The reading that the program logic gives to a flattened `switch`: which ones it supports, and
    that its arms agree with the runs of the statement. */
module SwitchArms {
  import opened Text
  import opened ClangAst
  import opened CoqExprs
  import opened Translation
  import opened CoqStmts
  import opened SwitchRuns

  /** No label in a statement belongs to the `switch` around it. */
  predicate NoCase(s: CStmt)
    decreases s
  {
    match s
    case Sseq(items) => forall i :: 0 <= i < |items| ==> NoCase(items[i])
    case Sif(_, _, t, e) => NoCase(t) && NoCase(e)
    case Swhile(_, _, b) => NoCase(b)
    case Sfor(_, _, _, b) => NoCase(b)
    case Sdo(b, _) => NoCase(b)
    case Sattr(_, sub) => NoCase(sub)
    case Slabeled(_, sub) => NoCase(sub)
    case Scase(_) => false
    case Sdefault => false
    case _ => true
  }

  function Cases(ls: seq<CStmt>): seq<Branch> {
    if ls == [] then []
    else (if ls[0].Scase? then [ls[0].branch] else []) + Cases(ls[1..])
  }

  /** When an arm is taken: its case matches, or no case of the switch does. */
  datatype When = OnCase(b: Branch) | OnDefault

  datatype Arm = Arm(when: When, rest: seq<CStmt>)

  /** The arms of a flat switch; `None` for a switch that the logic does not support. `open` says
      that no `default` has been met. */
  function SwitchBlock(open: bool, ls: seq<CStmt>): Option<seq<Arm>> {
    if ls == [] then Some(if open then [Arm(OnDefault, [])] else [])
    else
      match ls[0]
      case Scase(b) =>
        (match SwitchBlock(open, ls[1..])
         case Some(arms) => Some([Arm(OnCase(b), ls[1..])] + arms)
         case None => None)
      case Sdefault =>
        if !open then None
        else
          (match SwitchBlock(false, ls[1..])
           case Some(arms) => Some([Arm(OnDefault, ls[1..])] + arms)
           case None => None)
      case Sdecl(_) => if NoCase(Sseq(ls[1..])) then SwitchBlock(open, ls[1..]) else None
      case x => if NoCase(x) then SwitchBlock(open, ls[1..]) else None
  }

  predicate Taken(arm: Arm, cases: seq<Branch>, v: int) {
    match arm.when
    case OnCase(b) => Matches(b, v)
    case OnDefault => forall i :: 0 <= i < |cases| ==> !Matches(cases[i], v)
  }

  /** A jump does not stop in a statement that has no labels of the switch. */
  lemma {:induction false} NoCaseMissed(w: World, n: nat, s: CStmt, target: Target, tr: seq<Event>)
    requires NoCase(s) && !target.Named?
    ensures ExecC(w, n, s, Find(target), tr) == Missed
    decreases s
  {
    match s
    case Sseq(items) => NoCasesMissed(w, n, items, target, tr);
    case Sif(_, _, t, e) =>
      NoCaseMissed(w, n, t, target, tr);
      NoCaseMissed(w, n, e, target, tr);
    case Swhile(_, _, b) => NoCaseMissed(w, n, b, target, tr);
    case Sfor(_, _, _, b) => NoCaseMissed(w, n, b, target, tr);
    case Sdo(b, _) => NoCaseMissed(w, n, b, target, tr);
    case Sattr(_, sub) => NoCaseMissed(w, n, sub, target, tr);
    case Slabeled(_, sub) => NoCaseMissed(w, n, sub, target, tr);
    case _ =>
  }

  lemma {:induction false} NoCasesMissed(w: World, n: nat, items: seq<CStmt>, target: Target, tr: seq<Event>)
    requires !target.Named? && forall i :: 0 <= i < |items| ==> NoCase(items[i])
    ensures ExecList(w, n, items, Find(target), tr) == Missed
    decreases items
  {
    hide ExecC;
    if items == [] {
    } else {
      NoCaseMissed(w, n, items[0], target, tr);
      NoCasesMissed(w, n, items[1..], target, tr);
    }
  }

  /** How many cases match a value; C++ admits at most one. */
  function Count(cases: seq<Branch>, v: int): nat {
    if cases == [] then 0 else (if Matches(cases[0], v) then 1 else 0) + Count(cases[1..], v)
  }

  /** The list behind the first case that matches. */
  function CaseArm(arms: seq<Arm>, v: int): Option<seq<CStmt>> {
    if arms == [] then None
    else if arms[0].when.OnCase? && Matches(arms[0].when.b, v) then Some(arms[0].rest)
    else CaseArm(arms[1..], v)
  }

  /** The list behind `default`. */
  function DefaultArm(arms: seq<Arm>): Option<seq<CStmt>> {
    if arms == [] then None
    else if arms[0].when.OnDefault? then Some(arms[0].rest)
    else DefaultArm(arms[1..])
  }

  lemma ConsArm(a: Arm, arms: seq<Arm>)
    ensures ([a] + arms)[0] == a && ([a] + arms)[1..] == arms
  {
  }

  /** Looking for a value in a flat list runs what follows the first case that matches. */
  lemma {:induction false} FindValue(w: World, n: nat, open: bool, ls: seq<CStmt>, v: int, tr: seq<Event>)
    requires SwitchBlock(open, ls).Some?
    ensures var arm := CaseArm(SwitchBlock(open, ls).value, v);
            ExecList(w, n, ls, Find(Value(v)), tr) ==
            if arm.Some? then ExecList(w, n, arm.value, Go, tr) else Missed
    decreases |ls|
  {
    hide NoCase, Matches;
    if ls == [] {
    } else {
      var rest := ls[1..];
      match ls[0]
      case Scase(b) =>
        FindValue(w, n, open, rest, v, tr);
        ConsArm(Arm(OnCase(b), rest), SwitchBlock(open, rest).value);
      case Sdefault =>
        FindValue(w, n, false, rest, v, tr);
        ConsArm(Arm(OnDefault, rest), SwitchBlock(false, rest).value);
      case _ =>
        NoCaseMissed(w, n, ls[0], Value(v), tr);
        FindValue(w, n, open, rest, v, tr);
    }
  }

  /** Looking for `default` in a flat list runs what follows it; the arm of a switch without a
      `default` is empty, as if the jump went past the body. */
  lemma {:induction false} FindDefault(w: World, n: nat, open: bool, ls: seq<CStmt>, tr: seq<Event>)
    requires SwitchBlock(open, ls).Some?
    ensures var arm := DefaultArm(SwitchBlock(open, ls).value);
            var r := ExecList(w, n, ls, Find(Otherwise), tr);
            && arm.Some? == open
            && (if open then (if r.Missed? then Ended(Normal, tr) else r) == ExecList(w, n, arm.value, Go, tr)
                else r == Missed)
    decreases |ls|
  {
    if ls == [] {
    } else {
      var rest := ls[1..];
      match ls[0]
      case Scase(b) =>
        FindDefault(w, n, open, rest, tr);
        ConsArm(Arm(OnCase(b), rest), SwitchBlock(open, rest).value);
      case Sdefault =>
        ConsArm(Arm(OnDefault, rest), SwitchBlock(false, rest).value);
      case _ =>
        NoCaseMissed(w, n, ls[0], Otherwise, tr);
        FindDefault(w, n, open, rest, tr);
    }
  }

  /** The first element decides the first arm. */
  lemma BlockStep(open: bool, ls: seq<CStmt>)
    requires ls != [] && SwitchBlock(open, ls).Some?
    ensures var (rest, arms) := (ls[1..], SwitchBlock(open, ls).value);
            match ls[0]
            case Scase(b) =>
              SwitchBlock(open, rest).Some? && arms == [Arm(OnCase(b), rest)] + SwitchBlock(open, rest).value
            case Sdefault =>
              SwitchBlock(false, rest).Some? && arms == [Arm(OnDefault, rest)] + SwitchBlock(false, rest).value
            case _ => SwitchBlock(open, rest).Some? && arms == SwitchBlock(open, rest).value
  {
    hide NoCase;
  }

  /** A case arm that matches is the only one when at most one case does. */
  lemma {:induction false} CaseArmsAreCases(open: bool, ls: seq<CStmt>, v: int, i: nat)
    requires SwitchBlock(open, ls).Some? && i < |SwitchBlock(open, ls).value|
    requires var arm := SwitchBlock(open, ls).value[i];
             arm.when.OnCase? && Matches(arm.when.b, v)
    ensures Count(Cases(ls), v) >= 1
    ensures Count(Cases(ls), v) == 1 ==>
              CaseArm(SwitchBlock(open, ls).value, v) == Some(SwitchBlock(open, ls).value[i].rest)
    decreases |ls|
  {
    BlockStep(open, ls);
    hide Matches, NoCase, SwitchBlock;
    var rest := ls[1..];
    match ls[0]
    case Scase(b) =>
      ConsArm(Arm(OnCase(b), rest), SwitchBlock(open, rest).value);
      assert ([b] + Cases(rest))[1..] == Cases(rest);
      if i > 0 {
        CaseArmsAreCases(open, rest, v, i - 1);
      }
    case Sdefault =>
      ConsArm(Arm(OnDefault, rest), SwitchBlock(false, rest).value);
      assert [] + Cases(rest) == Cases(rest);
      CaseArmsAreCases(false, rest, v, i - 1);
    case _ =>
      assert [] + Cases(rest) == Cases(rest);
      CaseArmsAreCases(open, rest, v, i);
  }

  /** There is at most one arm for `default`. */
  lemma {:induction false} DefaultArmIsOne(open: bool, ls: seq<CStmt>, i: nat)
    requires SwitchBlock(open, ls).Some? && i < |SwitchBlock(open, ls).value|
    requires SwitchBlock(open, ls).value[i].when.OnDefault?
    ensures open && DefaultArm(SwitchBlock(open, ls).value) == Some(SwitchBlock(open, ls).value[i].rest)
    decreases |ls|
  {
    hide NoCase;
    if ls == [] {
    } else {
      var rest := ls[1..];
      match ls[0]
      case Scase(b) =>
        ConsArm(Arm(OnCase(b), rest), SwitchBlock(open, rest).value);
        DefaultArmIsOne(open, rest, i - 1);
      case Sdefault =>
        ConsArm(Arm(OnDefault, rest), SwitchBlock(false, rest).value);
        if i > 0 {
          DefaultArmIsOne(false, rest, i - 1);
        }
      case _ => DefaultArmIsOne(open, rest, i);
    }
  }

  /** Some case matches exactly when there is an arm for it. */
  lemma {:induction false} CaseArmIff(open: bool, ls: seq<CStmt>, v: int)
    requires SwitchBlock(open, ls).Some?
    ensures CaseArm(SwitchBlock(open, ls).value, v).Some? <==> Count(Cases(ls), v) > 0
    decreases |ls|
  {
    if ls == [] {
    } else {
      hide Matches, NoCase, SwitchBlock;
      BlockStep(open, ls);
      var rest := ls[1..];
      match ls[0]
      case Scase(b) =>
        CaseArmIff(open, rest, v);
        ConsArm(Arm(OnCase(b), rest), SwitchBlock(open, rest).value);
        assert ([b] + Cases(rest))[1..] == Cases(rest);
      case Sdefault =>
        CaseArmIff(false, rest, v);
        ConsArm(Arm(OnDefault, rest), SwitchBlock(false, rest).value);
        assert [] + Cases(rest) == Cases(rest);
      case _ =>
        CaseArmIff(open, rest, v);
        assert [] + Cases(rest) == Cases(rest);
    }
  }

  lemma {:induction false} CountZero(cases: seq<Branch>, v: int)
    ensures Count(cases, v) == 0 <==> forall i :: 0 <= i < |cases| ==> !Matches(cases[i], v)
    decreases |cases|
  {
    if cases == [] {
    } else {
      CountZero(cases[1..], v);
      assert forall i :: 1 <= i < |cases| ==> cases[i] == cases[1..][i - 1];
    }
  }

  lemma {:induction false} SomeArm(arms: seq<Arm>, v: int)
    ensures CaseArm(arms, v).Some? ==>
              exists i :: 0 <= i < |arms| && arms[i].when.OnCase? && Matches(arms[i].when.b, v)
    ensures DefaultArm(arms).Some? ==> exists i :: 0 <= i < |arms| && arms[i].when.OnDefault?
    decreases |arms|
  {
    if arms == [] {
    } else {
      SomeArm(arms[1..], v);
      assert forall i :: 0 <= i < |arms[1..]| ==> arms[1..][i] == arms[i + 1];
    }
  }

  /** For every switch that the program logic supports and every selector that at most one case
      matches, some arm is taken, and jumping into the body runs what follows that arm. */
  lemma ArmRuns(w: World, n: nat, ls: seq<CStmt>, v: int, tr: seq<Event>)
    requires SwitchBlock(true, ls).Some? && Count(Cases(ls), v) <= 1
    ensures var arms := SwitchBlock(true, ls).value;
            && (exists i :: 0 <= i < |arms| && Taken(arms[i], Cases(ls), v))
            && (forall i :: 0 <= i < |arms| && Taken(arms[i], Cases(ls), v) ==>
                  SelectC(w, n, Sseq(ls), v, tr) == ExecList(w, n, arms[i].rest, Go, tr))
  {
    hide ExecList, SwitchBlock, Matches;
    var arms := SwitchBlock(true, ls).value;
    FindValue(w, n, true, ls, v, tr);
    FindDefault(w, n, true, ls, tr);
    CaseArmIff(true, ls, v);
    CountZero(Cases(ls), v);
    SomeArm(arms, v);
    forall i | 0 <= i < |arms| && Taken(arms[i], Cases(ls), v)
      ensures SelectC(w, n, Sseq(ls), v, tr) == ExecList(w, n, arms[i].rest, Go, tr)
    {
      if arms[i].when.OnCase? {
        CaseArmsAreCases(true, ls, v, i);
      } else {
        DefaultArmIsOne(true, ls, i);
      }
    }
  }

  /** A C++ `switch` runs what follows the arm that the program logic takes in the printed list:
      the same effects in the same order, with fall-through, and `break` ends it. */
  lemma SwitchMeaning(w: World, n: nat, s: Stmt, tr: seq<Event>)
    requires s.Switch? && s.body.Compound?
    requires var ls := FlattenAll(s.body.items);
             SwitchBlock(true, ls).Some? && forall v :: Count(Cases(ls), v) <= 1
    ensures var ls := FlattenAll(s.body.items);
            var tr1 := Declare(CondVarToCoq(s.condVar), tr);
            var v := w.pick(TopToCoq(s.cond), tr1);
            exists arm :: arm in SwitchBlock(true, ls).value && Taken(arm, Cases(ls), v)
              && Exec(w, n, s, Go, tr)
                 == Unswitched(ExecList(w, n, arm.rest, Go, tr1 + [Chose(TopToCoq(s.cond))]))
  {
    hide SwitchBlock, ExecList, Taken, Count;
    var ls := FlattenAll(s.body.items);
    var tr1 := Declare(CondVarToCoq(s.condVar), tr);
    var v := w.pick(TopToCoq(s.cond), tr1);
    var tr2 := tr1 + [Chose(TopToCoq(s.cond))];
    assert Flatten(s.body) == [Sseq(ls)] && One(s.body) == Sseq(ls);
    SelectRuns(w, n, s.body, v, tr2);
    ArmRuns(w, n, ls, v, tr2);
    var arms := SwitchBlock(true, ls).value;
    var i :| 0 <= i < |arms| && Taken(arms[i], Cases(ls), v);
    assert arms[i] in arms;
  }

  predicate IsLabel(s: CStmt) {
    s.Scase? || s.Sdefault?
  }

  /** No label of the switch hides inside another statement. */
  predicate LabelsOpen(ls: seq<CStmt>) {
    forall i :: 0 <= i < |ls| && !IsLabel(ls[i]) ==> NoCase(ls[i])
  }

  predicate OneDefault(ls: seq<CStmt>) {
    forall i, j :: 0 <= i < j < |ls| ==> !(ls[i].Sdefault? && ls[j].Sdefault?)
  }

  predicate NoDefault(ls: seq<CStmt>) {
    forall i :: 0 <= i < |ls| ==> !ls[i].Sdefault?
  }

  /** No label of the switch comes after a declaration. */
  predicate LabelsFirst(ls: seq<CStmt>) {
    forall i, j :: 0 <= i < j < |ls| && ls[i].Sdecl? ==> !IsLabel(ls[j])
  }

  lemma Shifted(x: CStmt, ls: seq<CStmt>)
    ensures var all := [x] + ls;
            && all[0] == x && |all| == |ls| + 1
            && (forall i :: 0 <= i < |ls| ==> ls[i] == all[i + 1])
            && forall i :: 1 <= i < |all| ==> all[i] == ls[i - 1]
  {
  }

  lemma OpenCons(x: CStmt, ls: seq<CStmt>)
    ensures LabelsOpen([x] + ls) <==> (IsLabel(x) || NoCase(x)) && LabelsOpen(ls)
    ensures NoDefault([x] + ls) <==> !x.Sdefault? && NoDefault(ls)
  {
    hide NoCase, IsLabel;
    Shifted(x, ls);
  }

  lemma OneDefaultCons(x: CStmt, ls: seq<CStmt>)
    ensures OneDefault([x] + ls) <==> (x.Sdefault? ==> NoDefault(ls)) && OneDefault(ls)
  {
    var all := [x] + ls;
    Shifted(x, ls);
    if OneDefault(all) {
      forall i | 0 <= i < |ls|
        ensures !(x.Sdefault? && ls[i].Sdefault?)
      {
        assert !(all[0].Sdefault? && all[i + 1].Sdefault?);
      }
      forall i, j | 0 <= i < j < |ls|
        ensures !(ls[i].Sdefault? && ls[j].Sdefault?)
      {
        assert !(all[i + 1].Sdefault? && all[j + 1].Sdefault?);
      }
    }
  }

  lemma LabelsFirstCons(x: CStmt, ls: seq<CStmt>)
    ensures LabelsFirst([x] + ls) <==>
            (x.Sdecl? ==> forall i :: 0 <= i < |ls| ==> !IsLabel(ls[i])) && LabelsFirst(ls)
  {
    hide IsLabel;
    var all := [x] + ls;
    Shifted(x, ls);
    if LabelsFirst(all) {
      forall i | 0 <= i < |ls| && x.Sdecl?
        ensures !IsLabel(ls[i])
      {
        assert all[0].Sdecl? ==> !IsLabel(all[i + 1]);
      }
      forall i, j | 0 <= i < j < |ls| && ls[i].Sdecl?
        ensures !IsLabel(ls[j])
      {
        assert all[i + 1].Sdecl? ==> !IsLabel(all[j + 1]);
      }
    }
  }

  lemma RestHasNoCase(ls: seq<CStmt>)
    ensures NoCase(Sseq(ls)) <==> LabelsOpen(ls) && forall i :: 0 <= i < |ls| ==> !IsLabel(ls[i])
  {
    assert forall i :: 0 <= i < |ls| && NoCase(ls[i]) ==> !IsLabel(ls[i]);
  }

  /** The logic supports a switch exactly when its labels stand in the list itself, at most one
      is a `default`, and none comes after a declaration. */
  lemma {:induction false} SupportedIff(open: bool, ls: seq<CStmt>)
    ensures SwitchBlock(open, ls).Some? <==>
            LabelsOpen(ls) && LabelsFirst(ls) && if open then OneDefault(ls) else NoDefault(ls)
    decreases |ls|
  {
    if ls == [] {
    } else {
      hide LabelsOpen, LabelsFirst, OneDefault, NoDefault, NoCase;
      var (x, rest) := (ls[0], ls[1..]);
      assert ls == [x] + rest;
      OpenCons(x, rest);
      OneDefaultCons(x, rest);
      LabelsFirstCons(x, rest);
      SupportedIff(open, rest);
      SupportedIff(false, rest);
      RestHasNoCase(rest);
      PlainHasNoLabel(x);
    }
  }

  lemma PlainHasNoLabel(x: CStmt)
    ensures x.Sdecl? ==> NoCase(x)
    ensures NoCase(x) ==> !IsLabel(x)
  {
  }
}

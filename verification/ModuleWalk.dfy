/** The traversal of src/ModuleBuilder.cpp as a function of a declaration graph: which
    declarations are dispatched, with which flags, and what each of them adds to the module. */
module ModuleWalk {
  import opened Text

  /** The flags of include/ModuleBuilder.hpp. */
  datatype Flags = Flags(inTemplate: bool, inSpecialization: bool) {
    function SetTemplate(): Flags {
      this.(inTemplate := true)
    }

    function SetSpecialization(): Flags {
      this.(inSpecialization := true)
    }

    predicate Clear() {
      !inTemplate && !inSpecialization
    }
  }

  const NO_FLAGS := Flags(false, false)

  datatype What = Nothing | Declaration | Definition

  /** What a declaration knows about its redeclarations. */
  datatype Chain = Chain(definition: Option<nat>, previous: Option<nat>)

  /** Declarations are numbered. `Other` stands for every kind that the traversal ignores. */
  datatype Node =
    | TranslationUnit(decls: seq<nat>)
    | Namespace(decls: seq<nat>)
    | LinkageSpec(decls: seq<nat>)
    | Record(chain: Chain, implicit: bool, specialized: bool, decls: seq<nat>)
    | Function(chain: Chain, member: bool, deleted: bool, dependent: bool, decls: seq<nat>)
    | Enum(chain: Chain, enumerators: seq<nat>)
    | EnumConstant
    | Variable(templated: bool, staticLocal: bool)
    | TypedefName
    | FunctionTemplate(specializations: seq<nat>)
    | ClassTemplate(pattern: nat, specializations: seq<nat>)
    | VarTemplate(specializations: seq<nat>)
    | Friend(friend: Option<nat>)
    | StaticAssert
    | Other

  /** The graph, the option that turns templates on, and the filter. */
  datatype Config = Config(graph: seq<Node>, templates: bool, filter: nat -> What)

  /** A declaration added to the module, as a definition or as a declaration. */
  datatype Entry = Entry(id: nat, flags: Flags, definition: bool)

  /** How far a traversal has got: the flags of each first visit, the order of the visits, what
      has been added, and whether every assertion on the flags has held. */
  datatype Walk = Walk(seen: map<nat, Flags>, order: seq<nat>, log: seq<Entry>, asserts: seq<nat>, held: bool)

  const AT_START := Walk(map[], [], [], [], true)

  function With(ds: seq<nat>, f: Flags): seq<(nat, Flags)> {
    seq(|ds|, i requires 0 <= i < |ds| => (ds[i], f))
  }

  predicate SkipsRecord(n: Node, f: Flags)
    requires n.Record?
  {
    n.implicit || (!f.inSpecialization && n.specialized)
  }

  predicate SkipsFunction(cfg: Config, n: Node)
    requires n.Function?
  {
    (n.member && n.deleted) || (!cfg.templates && n.dependent)
  }

  /** The visits that a declaration asks for. */
  function Kids(cfg: Config, id: nat, f: Flags): seq<(nat, Flags)>
    requires id < |cfg.graph|
  {
    match cfg.graph[id]
    case TranslationUnit(ds) => With(ds, f)
    case Namespace(ds) => With(ds, f)
    case LinkageSpec(ds) => With(ds, f)
    case Record(_, _, _, ds) => if SkipsRecord(cfg.graph[id], f) then [] else With(ds, f)
    case FunctionTemplate(ss) => With(ss, f.SetSpecialization())
    case VarTemplate(ss) => With(ss, f.SetSpecialization())
    case ClassTemplate(p, ss) =>
      (if cfg.templates then [(p, f.SetTemplate())] else []) + With(ss, f.SetSpecialization())
    case Friend(d) => if d.Some? then [(d.value, f)] else []
    case _ => []
  }

  /** Every visit is to a declaration of the graph. */
  ghost predicate Closed(cfg: Config) {
    forall id, f, i :: 0 <= id < |cfg.graph| && 0 <= i < |Kids(cfg, id, f)| ==> Kids(cfg, id, f)[i].0 < |cfg.graph|
  }

  function Go(cfg: Config, id: nat, f: Flags, definition: bool): seq<Entry> {
    match cfg.filter(id)
    case Definition => [Entry(id, f, definition)]
    case Declaration => [Entry(id, f, false)]
    case Nothing => []
  }

  function GoEach(cfg: Config, ids: seq<nat>, f: Flags): seq<Entry> {
    if ids == [] then [] else Go(cfg, ids[0], f, true) + GoEach(cfg, ids[1..], f)
  }

  /** What a member of a redeclaration chain adds. */
  function ChainEntries(cfg: Config, id: nat, c: Chain, f: Flags): seq<Entry> {
    if c.definition == Some(id) then Go(cfg, id, f, true)
    else if c.definition.None? && c.previous.None? then Go(cfg, id, f, false)
    else []
  }

  predicate IsStaticLocal(cfg: Config, id: nat) {
    id < |cfg.graph| && cfg.graph[id].Variable? && cfg.graph[id].staticLocal
  }

  function StaticLocals(cfg: Config, ids: seq<nat>): seq<nat> {
    if ids == [] then []
    else (if IsStaticLocal(cfg, ids[0]) then [ids[0]] else []) + StaticLocals(cfg, ids[1..])
  }

  function FunctionEntries(cfg: Config, id: nat, f: Flags): seq<Entry>
    requires id < |cfg.graph| && cfg.graph[id].Function?
  {
    var n := cfg.graph[id];
    if SkipsFunction(cfg, n) then []
    else
      ChainEntries(cfg, id, n.chain, f)
      + (if n.chain.definition == Some(id) && cfg.filter(id).Definition?
         then GoEach(cfg, StaticLocals(cfg, n.decls), f) else [])
  }

  /** What a declaration adds before the visits that it asks for. */
  function Before(cfg: Config, id: nat, f: Flags): seq<Entry>
    requires id < |cfg.graph|
  {
    match cfg.graph[id]
    case Function(_, _, _, _, _) => FunctionEntries(cfg, id, f)
    case Enum(c, es) => if c.previous.None? then Go(cfg, id, f, true) + GoEach(cfg, es, f) else []
    case EnumConstant => Go(cfg, id, f, true)
    case Variable(templated, _) => if !cfg.templates && !templated then [] else Go(cfg, id, f, true)
    case TypedefName => Go(cfg, id, f, true)
    case FunctionTemplate(_) => if cfg.templates then Go(cfg, id, f.SetTemplate(), true) else []
    case VarTemplate(_) => if cfg.templates then Go(cfg, id, f.SetTemplate(), true) else []
    case _ => []
  }

  /** What a declaration adds after them. */
  function After(cfg: Config, id: nat, f: Flags): seq<Entry>
    requires id < |cfg.graph|
  {
    var n := cfg.graph[id];
    if n.Record? && !SkipsRecord(n, f) then ChainEntries(cfg, id, n.chain, f) else []
  }

  /** The kinds whose visitors assert that no flag is set. */
  predicate IsScope(n: Node) {
    n.TranslationUnit? || n.Namespace? || n.LinkageSpec?
  }

  function Start(cfg: Config, st: Walk, id: nat, f: Flags): Walk
    requires id < |cfg.graph|
  {
    var n := cfg.graph[id];
    st.(log := st.log + Before(cfg, id, f),
        asserts := if n.StaticAssert? then st.asserts + [id] else st.asserts,
        held := st.held && (IsScope(n) ==> f.Clear()))
  }

  function Finish(cfg: Config, st: Walk, id: nat, f: Flags): Walk
    requires id < |cfg.graph|
  {
    st.(log := st.log + After(cfg, id, f))
  }

  function Mark(st: Walk, id: nat, f: Flags): Walk {
    st.(seen := st.seen[id := f], order := st.order + [id])
  }

  /** The declarations that have not been visited. */
  ghost function Unseen(cfg: Config, seen: map<nat, Flags>): set<nat> {
    set i: nat | i < |cfg.graph| && i !in seen
  }

  ghost predicate Extends(later: map<nat, Flags>, sooner: map<nat, Flags>) {
    forall i <- sooner :: i in later && later[i] == sooner[i]
  }

  lemma UnseenShrinks(cfg: Config, later: map<nat, Flags>, sooner: map<nat, Flags>)
    requires Extends(later, sooner)
    ensures Unseen(cfg, later) < Unseen(cfg, sooner) || Unseen(cfg, later) == Unseen(cfg, sooner)
  {
  }

  /** A visit, which does nothing the second time. */
  ghost function Visit(cfg: Config, st: Walk, id: nat, f: Flags): (r: Walk)
    requires Closed(cfg) && id < |cfg.graph|
    ensures Extends(r.seen, st.seen) && id in r.seen
    decreases Unseen(cfg, st.seen), 0, 0
  {
    if id in st.seen then st
    else
      assert id in Unseen(cfg, st.seen) && id !in Unseen(cfg, st.seen[id := f]);
      Dispatch(cfg, Mark(st, id, f), id, f)
  }

  ghost function VisitAll(cfg: Config, st: Walk, kids: seq<(nat, Flags)>): (r: Walk)
    requires Closed(cfg) && forall i :: 0 <= i < |kids| ==> kids[i].0 < |cfg.graph|
    ensures Extends(r.seen, st.seen)
    decreases Unseen(cfg, st.seen), 1, |kids|
  {
    if kids == [] then st
    else
      var next := Visit(cfg, st, kids[0].0, kids[0].1);
      UnseenShrinks(cfg, next.seen, st.seen);
      VisitAll(cfg, next, kids[1..])
  }

  ghost function Dispatch(cfg: Config, st: Walk, id: nat, f: Flags): (r: Walk)
    requires Closed(cfg) && id < |cfg.graph|
    ensures Extends(r.seen, st.seen)
    decreases Unseen(cfg, st.seen), 2, 0
  {
    Finish(cfg, VisitAll(cfg, Start(cfg, st, id, f), Kids(cfg, id, f)), id, f)
  }

  /** The whole run: the unit itself is dispatched without being marked as visited. */
  ghost function Build(cfg: Config, unit: nat): Walk
    requires Closed(cfg) && unit < |cfg.graph|
  {
    Dispatch(cfg, AT_START, unit, NO_FLAGS)
  }

  // ---- The visited set is a closure ----------------------------------------------------------

  /** Everything that a declaration asks for has been visited. */
  ghost predicate Served(cfg: Config, seen: map<nat, Flags>, id: nat)
    requires id < |cfg.graph| && id in seen
  {
    forall k <- Kids(cfg, id, seen[id]) :: k.0 in seen
  }

  ghost predicate Within(cfg: Config, st: Walk) {
    forall i <- st.seen :: i < |cfg.graph|
  }

  /** The declarations that a step has newly visited are all served. */
  ghost predicate Progress(cfg: Config, st: Walk, r: Walk) {
    && Extends(r.seen, st.seen)
    && (Within(cfg, st) ==> Within(cfg, r))
    && forall i <- r.seen :: i < |cfg.graph| && i !in st.seen ==> Served(cfg, r.seen, i)
  }

  lemma {:induction false} VisitServes(cfg: Config, st: Walk, id: nat, f: Flags)
    requires Closed(cfg) && id < |cfg.graph|
    ensures Progress(cfg, st, Visit(cfg, st, id, f))
    decreases Unseen(cfg, st.seen), 0, 0
  {
    if id !in st.seen {
      assert id in Unseen(cfg, st.seen) && id !in Unseen(cfg, st.seen[id := f]);
      var m := Mark(st, id, f);
      VisitAllServes(cfg, Start(cfg, m, id, f), Kids(cfg, id, f));
      var r := Visit(cfg, st, id, f);
      assert r.seen[id] == f;
    }
  }

  lemma {:induction false} VisitAllServes(cfg: Config, st: Walk, kids: seq<(nat, Flags)>)
    requires Closed(cfg) && forall i :: 0 <= i < |kids| ==> kids[i].0 < |cfg.graph|
    ensures Progress(cfg, st, VisitAll(cfg, st, kids))
    ensures forall k <- kids :: k.0 in VisitAll(cfg, st, kids).seen
    decreases Unseen(cfg, st.seen), 1, |kids|
  {
    if kids == [] {
    } else {
      VisitServes(cfg, st, kids[0].0, kids[0].1);
      var next := Visit(cfg, st, kids[0].0, kids[0].1);
      UnseenShrinks(cfg, next.seen, st.seen);
      VisitAllServes(cfg, next, kids[1..]);
      assert kids == [kids[0]] + kids[1..];
    }
  }

  /** A declaration, first visited with flags `f`, leads to a visit of `k` with flags `g`. */
  predicate AsksFor(cfg: Config, id: nat, f: Flags, k: nat, g: Flags)
    requires id < |cfg.graph|
  {
    match cfg.graph[id]
    case TranslationUnit(ds) => k in ds && g == f
    case Namespace(ds) => k in ds && g == f
    case LinkageSpec(ds) => k in ds && g == f
    case Record(_, implicit, specialized, ds) =>
      !implicit && (specialized ==> f.inSpecialization) && k in ds && g == f
    case FunctionTemplate(ss) => k in ss && g == Flags(f.inTemplate, true)
    case VarTemplate(ss) => k in ss && g == Flags(f.inTemplate, true)
    case ClassTemplate(p, ss) =>
      || (cfg.templates && k == p && g == Flags(true, f.inSpecialization))
      || (k in ss && g == Flags(f.inTemplate, true))
    case Friend(d) => d == Some(k) && g == f
    case _ => false
  }

  lemma WithAre(ds: seq<nat>, f: Flags, k: nat, g: Flags)
    ensures (k, g) in With(ds, f) <==> k in ds && g == f
  {
    if k in ds && g == f {
      var i :| 0 <= i < |ds| && ds[i] == k;
      assert With(ds, f)[i] == (k, g);
    }
  }

  lemma KidsAre(cfg: Config, id: nat, f: Flags, k: nat, g: Flags)
    requires id < |cfg.graph|
    ensures (k, g) in Kids(cfg, id, f) <==> AsksFor(cfg, id, f, k, g)
  {
    match cfg.graph[id]
    case TranslationUnit(ds) => WithAre(ds, f, k, g);
    case Namespace(ds) => WithAre(ds, f, k, g);
    case LinkageSpec(ds) => WithAre(ds, f, k, g);
    case Record(_, _, _, ds) => WithAre(ds, f, k, g);
    case FunctionTemplate(ss) => WithAre(ss, f.SetSpecialization(), k, g);
    case VarTemplate(ss) => WithAre(ss, f.SetSpecialization(), k, g);
    case ClassTemplate(_, ss) => WithAre(ss, f.SetSpecialization(), k, g);
    case _ =>
  }

  /** A set of declarations that has what the unit asks for, and what its members ask for under
      the flags of their first visit. */
  ghost predicate ClosedUnder(cfg: Config, unit: nat, seen: map<nat, Flags>, s: set<nat>)
    requires unit < |cfg.graph|
  {
    && (forall k, g :: AsksFor(cfg, unit, NO_FLAGS, k, g) ==> k in s)
    && (forall i, k, g :: i in s && i < |cfg.graph| && i in seen && AsksFor(cfg, i, seen[i], k, g) ==> k in s)
  }

  /** The same in terms of visits. */
  lemma ClosedByKids(cfg: Config, unit: nat, seen: map<nat, Flags>, s: set<nat>)
    requires unit < |cfg.graph|
    ensures ClosedUnder(cfg, unit, seen, s) <==>
            && (forall k <- Kids(cfg, unit, NO_FLAGS) :: k.0 in s)
            && (forall i <- s :: i < |cfg.graph| && i in seen ==> forall k <- Kids(cfg, i, seen[i]) :: k.0 in s)
  {
    hide Kids, AsksFor;
    forall i: nat, f, k: nat, g | i < |cfg.graph|
      ensures (k, g) in Kids(cfg, i, f) <==> AsksFor(cfg, i, f, k, g)
    {
      KidsAre(cfg, i, f, k, g);
    }
  }

  lemma {:induction false} VisitStays(cfg: Config, st: Walk, id: nat, f: Flags, final: map<nat, Flags>, s: set<nat>)
    requires Closed(cfg) && id < |cfg.graph| && id in s && st.seen.Keys <= s
    requires Extends(final, Visit(cfg, st, id, f).seen)
    requires forall i <- s :: i < |cfg.graph| && i in final ==> forall k <- Kids(cfg, i, final[i]) :: k.0 in s
    ensures Visit(cfg, st, id, f).seen.Keys <= s
    decreases Unseen(cfg, st.seen), 0, 0
  {
    if id !in st.seen {
      assert id in Unseen(cfg, st.seen) && id !in Unseen(cfg, st.seen[id := f]);
      var m := Mark(st, id, f);
      assert Visit(cfg, st, id, f).seen[id] == m.seen[id];
      assert Visit(cfg, st, id, f).seen == VisitAll(cfg, Start(cfg, m, id, f), Kids(cfg, id, f)).seen;
      VisitAllStays(cfg, Start(cfg, m, id, f), Kids(cfg, id, f), final, s);
    }
  }

  lemma {:induction false} VisitAllStays(cfg: Config, st: Walk, kids: seq<(nat, Flags)>, final: map<nat, Flags>,
                                         s: set<nat>)
    requires Closed(cfg) && (forall i :: 0 <= i < |kids| ==> kids[i].0 < |cfg.graph| && kids[i].0 in s)
    requires st.seen.Keys <= s
    requires Extends(final, VisitAll(cfg, st, kids).seen)
    requires forall i <- s :: i < |cfg.graph| && i in final ==> forall k <- Kids(cfg, i, final[i]) :: k.0 in s
    ensures VisitAll(cfg, st, kids).seen.Keys <= s
    decreases Unseen(cfg, st.seen), 1, |kids|
  {
    if kids == [] {
    } else {
      var next := Visit(cfg, st, kids[0].0, kids[0].1);
      UnseenShrinks(cfg, next.seen, st.seen);
      VisitStays(cfg, st, kids[0].0, kids[0].1, final, s);
      VisitAllStays(cfg, next, kids[1..], final, s);
    }
  }

  /** A whole run visits the closure of the unit and nothing else. */
  lemma VisitedIsClosure(cfg: Config, unit: nat)
    requires Closed(cfg) && unit < |cfg.graph|
    ensures var seen := Build(cfg, unit).seen;
            && ClosedUnder(cfg, unit, seen, seen.Keys)
            && forall s :: ClosedUnder(cfg, unit, seen, s) ==> seen.Keys <= s
  {
    var seen := Build(cfg, unit).seen;
    var kids := Kids(cfg, unit, NO_FLAGS);
    var st := Start(cfg, AT_START, unit, NO_FLAGS);
    hide ClosedUnder, Visit, VisitAll, Kids;
    VisitAllServes(cfg, st, kids);
    ClosedByKids(cfg, unit, seen, seen.Keys);
    forall s | ClosedUnder(cfg, unit, seen, s)
      ensures seen.Keys <= s
    {
      ClosedByKids(cfg, unit, seen, s);
      VisitAllStays(cfg, st, kids, seen, s);
    }
  }

  /** What is newly visited was asked for, by the step itself or by something newly visited, with
      the flags of its first visit. */
  ghost predicate Asked(cfg: Config, st: Walk, r: Walk, kids: seq<(nat, Flags)>) {
    forall k <- r.seen :: k !in st.seen ==>
      || (k, r.seen[k]) in kids
      || exists i <- r.seen :: i < |cfg.graph| && i !in st.seen && (k, r.seen[k]) in Kids(cfg, i, r.seen[i])
  }

  lemma {:induction false} VisitAsked(cfg: Config, st: Walk, id: nat, f: Flags)
    requires Closed(cfg) && id < |cfg.graph|
    ensures Asked(cfg, st, Visit(cfg, st, id, f), [(id, f)])
    decreases Unseen(cfg, st.seen), 0, 0
  {
    hide Kids;
    if id !in st.seen {
      assert id in Unseen(cfg, st.seen) && id !in Unseen(cfg, st.seen[id := f]);
      var start := Start(cfg, Mark(st, id, f), id, f);
      var r := VisitAll(cfg, start, Kids(cfg, id, f));
      VisitAllAsked(cfg, start, Kids(cfg, id, f));
      assert Visit(cfg, st, id, f).seen == r.seen && r.seen[id] == start.seen[id] == f;
      forall k | k in r.seen && k !in st.seen
        ensures (k, r.seen[k]) in [(id, f)]
             || exists i <- r.seen :: i < |cfg.graph| && i !in st.seen && (k, r.seen[k]) in Kids(cfg, i, r.seen[i])
      {
        assert k == id || k !in start.seen;
      }
    }
  }

  lemma {:induction false} VisitAllAsked(cfg: Config, st: Walk, kids: seq<(nat, Flags)>)
    requires Closed(cfg) && forall i :: 0 <= i < |kids| ==> kids[i].0 < |cfg.graph|
    ensures Asked(cfg, st, VisitAll(cfg, st, kids), kids)
    decreases Unseen(cfg, st.seen), 1, |kids|
  {
    hide Kids, Visit;
    if kids == [] {
    } else {
      VisitAsked(cfg, st, kids[0].0, kids[0].1);
      var next := Visit(cfg, st, kids[0].0, kids[0].1);
      UnseenShrinks(cfg, next.seen, st.seen);
      VisitAllAsked(cfg, next, kids[1..]);
      assert kids == [kids[0]] + kids[1..];
      AskedThen(cfg, st, next, VisitAll(cfg, next, kids[1..]), kids);
    }
  }

  lemma AskedThen(cfg: Config, st: Walk, next: Walk, r: Walk, kids: seq<(nat, Flags)>)
    requires kids != [] && Asked(cfg, st, next, [kids[0]]) && Asked(cfg, next, r, kids[1..])
    requires Extends(next.seen, st.seen) && Extends(r.seen, next.seen)
    ensures Asked(cfg, st, r, kids)
  {
    hide Kids;
    forall k | k in r.seen && k !in st.seen
      ensures (k, r.seen[k]) in kids
           || exists i <- r.seen :: i < |cfg.graph| && i !in st.seen && (k, r.seen[k]) in Kids(cfg, i, r.seen[i])
    {
      if k in next.seen {
        assert r.seen[k] == next.seen[k];
        if (k, next.seen[k]) !in [kids[0]] {
          var i :| && i in next.seen && i < |cfg.graph| && i !in st.seen
                   && (k, next.seen[k]) in Kids(cfg, i, next.seen[i]);
          assert i in r.seen && r.seen[i] == next.seen[i];
        }
      }
    }
  }

  /** Every visit was asked for with the flags that it has, by the unit or by another visit. */
  lemma FlagsAsked(cfg: Config, unit: nat, k: nat)
    requires Closed(cfg) && unit < |cfg.graph| && k in Build(cfg, unit).seen
    ensures var seen := Build(cfg, unit).seen;
            || AsksFor(cfg, unit, NO_FLAGS, k, seen[k])
            || exists i <- seen :: i < |cfg.graph| && AsksFor(cfg, i, seen[i], k, seen[k])
  {
    hide Kids, AsksFor, Visit, VisitAll;
    var seen := Build(cfg, unit).seen;
    var kids := Kids(cfg, unit, NO_FLAGS);
    VisitAllAsked(cfg, Start(cfg, AT_START, unit, NO_FLAGS), kids);
    KidsAre(cfg, unit, NO_FLAGS, k, seen[k]);
    if (k, seen[k]) !in kids {
      var i :| i in seen && i < |cfg.graph| && (k, seen[k]) in Kids(cfg, i, seen[i]);
      KidsAre(cfg, i, seen[i], k, seen[k]);
    }
  }

  // ---- Visits happen once; flags and assertions ----------------------------------------------

  /** The assertions among the declarations visited. */
  function Asserts(cfg: Config, order: seq<nat>): seq<nat> {
    if order == [] then []
    else
      var n := |order| - 1;
      Asserts(cfg, order[..n])
      + (if order[n] < |cfg.graph| && cfg.graph[order[n]].StaticAssert? then [order[n]] else [])
  }

  /** Scopes are listed only in scopes. */
  ghost predicate WellNested(cfg: Config)
    requires Closed(cfg)
  {
    forall id, f, i :: 0 <= id < |cfg.graph| && 0 <= i < |Kids(cfg, id, f)| ==>
      (IsScope(cfg.graph[Kids(cfg, id, f)[i].0]) ==> IsScope(cfg.graph[id]))
  }

  /** The flags with which a declaration may be visited. */
  ghost predicate Allowed(cfg: Config, id: nat, f: Flags)
    requires Closed(cfg) && id < |cfg.graph|
  {
    (f.inTemplate ==> cfg.templates) && (WellNested(cfg) && IsScope(cfg.graph[id]) ==> f.Clear())
  }

  /** What holds between any two visits of a run. */
  ghost predicate Sound(cfg: Config, st: Walk)
    requires Closed(cfg)
  {
    && (forall i, j :: 0 <= i < j < |st.order| ==> st.order[i] != st.order[j])
    && (forall id :: id in st.order <==> id in st.seen)
    && st.asserts == Asserts(cfg, st.order)
    && (forall e <- st.log :: e.flags.inTemplate ==> cfg.templates)
    && (st.held <==> forall id <- st.seen :: id < |cfg.graph| && IsScope(cfg.graph[id]) ==> st.seen[id].Clear())
    && (WellNested(cfg) ==> st.held)
  }

  lemma KidsAllowed(cfg: Config, id: nat, f: Flags)
    requires Closed(cfg) && id < |cfg.graph| && Allowed(cfg, id, f)
    ensures forall k <- Kids(cfg, id, f) :: k.0 < |cfg.graph| && Allowed(cfg, k.0, k.1)
  {
    var kids := Kids(cfg, id, f);
    forall k | k in kids
      ensures k.0 < |cfg.graph| && Allowed(cfg, k.0, k.1)
    {
      var i :| 0 <= i < |kids| && kids[i] == k;
    }
  }

  lemma {:induction false} GoEachFlags(cfg: Config, ids: seq<nat>, f: Flags)
    ensures forall e <- GoEach(cfg, ids, f) :: e.flags == f && e.id in ids
    decreases |ids|
  {
    if ids == [] {
    } else {
      GoEachFlags(cfg, ids[1..], f);
    }
  }

  lemma EntriesAllowed(cfg: Config, id: nat, f: Flags)
    requires Closed(cfg) && id < |cfg.graph| && Allowed(cfg, id, f)
    ensures forall e <- Before(cfg, id, f) + After(cfg, id, f) :: e.flags.inTemplate ==> cfg.templates
  {
    var n := cfg.graph[id];
    if n.Function? {
      GoEachFlags(cfg, StaticLocals(cfg, n.decls), f);
    } else if n.Enum? {
      GoEachFlags(cfg, n.enumerators, f);
    }
  }

  lemma AssertsOne(cfg: Config, order: seq<nat>, id: nat)
    requires id < |cfg.graph|
    ensures Asserts(cfg, order + [id]) == Asserts(cfg, order) + (if cfg.graph[id].StaticAssert? then [id] else [])
  {
    var longer := order + [id];
    assert longer[..|longer| - 1] == order;
  }

  lemma StartSound(cfg: Config, st: Walk, id: nat, f: Flags)
    requires Closed(cfg) && id < |cfg.graph| && Allowed(cfg, id, f) && Sound(cfg, st) && id !in st.seen
    ensures Sound(cfg, Start(cfg, Mark(st, id, f), id, f))
  {
    hide Before, After, Asserts, WellNested, Closed;
    EntriesAllowed(cfg, id, f);
    AssertsOne(cfg, st.order, id);
    var r := Start(cfg, Mark(st, id, f), id, f);
    forall e | e in r.log
      ensures e.flags.inTemplate ==> cfg.templates
    {
      assert e in st.log || e in Before(cfg, id, f) + After(cfg, id, f);
    }
  }

  lemma FinishSound(cfg: Config, st: Walk, id: nat, f: Flags)
    requires Closed(cfg) && id < |cfg.graph| && Allowed(cfg, id, f) && Sound(cfg, st)
    ensures Sound(cfg, Finish(cfg, st, id, f))
  {
    EntriesAllowed(cfg, id, f);
  }

  lemma {:induction false} VisitSound(cfg: Config, st: Walk, id: nat, f: Flags)
    requires Closed(cfg) && id < |cfg.graph| && Allowed(cfg, id, f) && Sound(cfg, st)
    ensures Sound(cfg, Visit(cfg, st, id, f))
    decreases Unseen(cfg, st.seen), 0, 0
  {
    hide Sound, Allowed, Before, After;
    if id !in st.seen {
      assert id in Unseen(cfg, st.seen) && id !in Unseen(cfg, st.seen[id := f]);
      var start := Start(cfg, Mark(st, id, f), id, f);
      StartSound(cfg, st, id, f);
      KidsAllowed(cfg, id, f);
      VisitAllSound(cfg, start, Kids(cfg, id, f));
      FinishSound(cfg, VisitAll(cfg, start, Kids(cfg, id, f)), id, f);
    }
  }

  lemma {:induction false} VisitAllSound(cfg: Config, st: Walk, kids: seq<(nat, Flags)>)
    requires Closed(cfg) && Sound(cfg, st)
    requires forall k <- kids :: k.0 < |cfg.graph| && Allowed(cfg, k.0, k.1)
    ensures Sound(cfg, VisitAll(cfg, st, kids))
    decreases Unseen(cfg, st.seen), 1, |kids|
  {
    hide Sound, Allowed;
    if kids == [] {
    } else {
      assert kids[0] in kids && forall k <- kids[1..] :: k in kids;
      VisitSound(cfg, st, kids[0].0, kids[0].1);
      var next := Visit(cfg, st, kids[0].0, kids[0].1);
      UnseenShrinks(cfg, next.seen, st.seen);
      VisitAllSound(cfg, next, kids[1..]);
    }
  }

  /** In a whole run no declaration is visited twice, the static assertions are those visited, in
      that order, nothing is marked as in a template unless templates are on, and the assertions
      on the flags hold exactly when every scope was visited without flags, as happens when scopes
      nest only in scopes. */
  lemma RunIsSound(cfg: Config, unit: nat)
    requires Closed(cfg) && unit < |cfg.graph| && cfg.graph[unit].TranslationUnit?
    ensures Sound(cfg, Build(cfg, unit))
  {
    hide Visit, VisitAll;
    KidsAllowed(cfg, unit, NO_FLAGS);
    VisitAllSound(cfg, AT_START, Kids(cfg, unit, NO_FLAGS));
    assert Start(cfg, AT_START, unit, NO_FLAGS) == AT_START;
    FinishSound(cfg, VisitAll(cfg, AT_START, Kids(cfg, unit, NO_FLAGS)), unit, NO_FLAGS);
  }

  // ---- What a redeclaration chain adds -------------------------------------------------------

  /** The entries about some declarations. */
  function About(log: seq<Entry>, ids: set<nat>): seq<Entry> {
    if log == [] then []
    else (if log[0].id in ids then [log[0]] else []) + About(log[1..], ids)
  }

  lemma {:induction false} AboutAppend(a: seq<Entry>, b: seq<Entry>, ids: set<nat>)
    ensures About(a + b, ids) == About(a, ids) + About(b, ids)
    decreases |a|
  {
    if a == [] {
      assert a + b == b;
    } else {
      var (rest, head) := (a[1..], if a[0].id in ids then [a[0]] else []);
      assert (a + b)[1..] == rest + b;
      AboutAppend(rest, b, ids);
      assert head + (About(rest, ids) + About(b, ids)) == (head + About(rest, ids)) + About(b, ids);
    }
  }

  lemma {:induction false} AboutNone(log: seq<Entry>, ids: set<nat>)
    requires forall e <- log :: e.id !in ids
    ensures About(log, ids) == []
    decreases |log|
  {
    if log == [] {
    } else {
      AboutNone(log[1..], ids);
    }
  }

  /** When only one of the declarations has entries, theirs are its entries. */
  lemma {:induction false} AboutOne(log: seq<Entry>, ids: set<nat>, p: nat)
    requires p in ids && forall d <- ids :: d != p ==> About(log, {d}) == []
    ensures About(log, ids) == About(log, {p})
    decreases |log|
  {
    if log == [] {
    } else {
      assert log[0].id in ids ==> About(log, {log[0].id}) != [];
      forall d | d in ids && d != p
        ensures About(log[1..], {d}) == []
      {
      }
      AboutOne(log[1..], ids, p);
    }
  }

  /** Declarations that come in chains: classes, enumerations and functions. */
  predicate IsChained(n: Node) {
    n.Record? || n.Function? || n.Enum?
  }

  /** The enumerators of an enumeration are enumerators. */
  predicate Typed(cfg: Config) {
    forall id :: 0 <= id < |cfg.graph| && cfg.graph[id].Enum? ==>
      forall e <- cfg.graph[id].enumerators :: e < |cfg.graph| && cfg.graph[e].EnumConstant?
  }

  /** What a chained declaration adds about itself when it is visited with flags `f`. */
  function Own(cfg: Config, id: nat, f: Flags): seq<Entry>
    requires id < |cfg.graph| && IsChained(cfg.graph[id])
  {
    match cfg.graph[id]
    case Record(c, _, _, _) => if SkipsRecord(cfg.graph[id], f) then [] else ChainEntries(cfg, id, c, f)
    case Function(c, _, _, _, _) => if SkipsFunction(cfg, cfg.graph[id]) then [] else ChainEntries(cfg, id, c, f)
    case Enum(c, _) => if c.previous.None? then Go(cfg, id, f, true) else []
  }

  lemma {:induction false} StaticLocalsTyped(cfg: Config, ids: seq<nat>)
    ensures forall i <- StaticLocals(cfg, ids) :: IsStaticLocal(cfg, i)
    decreases |ids|
  {
    if ids == [] {
    } else {
      StaticLocalsTyped(cfg, ids[1..]);
    }
  }

  lemma EntriesOfOthers(cfg: Config, id: nat, f: Flags, d: nat)
    requires Typed(cfg) && id < |cfg.graph| && d < |cfg.graph| && IsChained(cfg.graph[d]) && id != d
    ensures About(Before(cfg, id, f), {d}) == [] && About(After(cfg, id, f), {d}) == []
  {
    var n := cfg.graph[id];
    if n.Function? {
      StaticLocalsTyped(cfg, n.decls);
      GoEachFlags(cfg, StaticLocals(cfg, n.decls), f);
    } else if n.Enum? {
      GoEachFlags(cfg, n.enumerators, f);
    }
    AboutNone(Before(cfg, id, f), {d});
    AboutNone(After(cfg, id, f), {d});
  }

  lemma OwnFunction(cfg: Config, d: nat, f: Flags)
    requires d < |cfg.graph| && cfg.graph[d].Function?
    ensures About(Before(cfg, d, f), {d}) == Own(cfg, d, f)
  {
    hide Go, StaticLocals, About, GoEach;
    var n := cfg.graph[d];
    var locals := StaticLocals(cfg, n.decls);
    var chained := ChainEntries(cfg, d, n.chain, f);
    StaticLocalsTyped(cfg, n.decls);
    GoEachFlags(cfg, locals, f);
    AboutNone(GoEach(cfg, locals, f), {d});
    AboutAppend(chained, GoEach(cfg, locals, f), {d});
    ChainSelf(cfg, d, n.chain, f);
    AboutAppend(chained, [], {d});
    AboutNone([], {d});
  }

  lemma ChainSelf(cfg: Config, d: nat, c: Chain, f: Flags)
    ensures About(ChainEntries(cfg, d, c, f), {d}) == ChainEntries(cfg, d, c, f)
  {
  }

  lemma OwnEnum(cfg: Config, d: nat, f: Flags)
    requires Typed(cfg) && d < |cfg.graph| && cfg.graph[d].Enum?
    ensures About(Before(cfg, d, f), {d}) == Own(cfg, d, f)
  {
    var es := cfg.graph[d].enumerators;
    GoEachFlags(cfg, es, f);
    AboutNone(GoEach(cfg, es, f), {d});
    AboutAppend(Go(cfg, d, f, true), GoEach(cfg, es, f), {d});
  }

  lemma OwnEntries(cfg: Config, d: nat, f: Flags)
    requires Typed(cfg) && d < |cfg.graph| && IsChained(cfg.graph[d])
    ensures About(Before(cfg, d, f), {d}) + About(After(cfg, d, f), {d}) == Own(cfg, d, f)
  {
    match cfg.graph[d]
    case Record(c, _, _, _) => ChainSelf(cfg, d, c, f);
    case Function(_, _, _, _, _) => OwnFunction(cfg, d, f);
    case Enum(_, _) => OwnEnum(cfg, d, f);
  }

  /** What a step adds about `d`: what `d` adds itself if the step visits it first. */
  ghost predicate AddsOwn(cfg: Config, st: Walk, r: Walk, d: nat)
    requires d < |cfg.graph| && IsChained(cfg.graph[d])
  {
    About(r.log, {d}) == About(st.log, {d}) + (if d !in st.seen && d in r.seen then Own(cfg, d, r.seen[d]) else [])
  }

  /** A dispatch adds what the visits inside it add, and the declaration's own entries. */
  lemma DispatchAdds(cfg: Config, st: Walk, id: nat, f: Flags, done: Walk, d: nat)
    requires Typed(cfg) && id < |cfg.graph| && d < |cfg.graph| && IsChained(cfg.graph[d]) && id !in st.seen
    requires var start := Start(cfg, Mark(st, id, f), id, f);
             Extends(done.seen, start.seen) && AddsOwn(cfg, start, done, d)
    ensures AddsOwn(cfg, st, Finish(cfg, done, id, f), d)
  {
    hide Before, After, Own, About, Typed, IsChained;
    AboutAppend(st.log, Before(cfg, id, f), {d});
    AboutAppend(done.log, After(cfg, id, f), {d});
    var start := Start(cfg, Mark(st, id, f), id, f);
    assert id in start.seen && start.seen[id] == f;
    if id == d {
      OwnEntries(cfg, d, f);
      assert done.seen[d] == f;
    } else {
      EntriesOfOthers(cfg, id, f, d);
    }
  }

  lemma {:induction false} VisitAdds(cfg: Config, st: Walk, id: nat, f: Flags, d: nat)
    requires Closed(cfg) && Typed(cfg) && id < |cfg.graph| && d < |cfg.graph| && IsChained(cfg.graph[d])
    ensures AddsOwn(cfg, st, Visit(cfg, st, id, f), d)
    decreases Unseen(cfg, st.seen), 0, 0
  {
    hide Before, After, Own, About, Typed, IsChained;
    if id !in st.seen {
      assert id in Unseen(cfg, st.seen) && id !in Unseen(cfg, st.seen[id := f]);
      var start := Start(cfg, Mark(st, id, f), id, f);
      VisitAllAdds(cfg, start, Kids(cfg, id, f), d);
      DispatchAdds(cfg, st, id, f, VisitAll(cfg, start, Kids(cfg, id, f)), d);
    } else {
      assert About(st.log, {d}) + [] == About(st.log, {d});
    }
  }

  lemma AddsThen(cfg: Config, st: Walk, next: Walk, r: Walk, d: nat)
    requires d < |cfg.graph| && IsChained(cfg.graph[d])
    requires AddsOwn(cfg, st, next, d) && AddsOwn(cfg, next, r, d)
    requires Extends(next.seen, st.seen) && Extends(r.seen, next.seen)
    ensures AddsOwn(cfg, st, r, d)
  {
    hide About, Own, IsChained;
  }

  lemma {:induction false} VisitAllAdds(cfg: Config, st: Walk, kids: seq<(nat, Flags)>, d: nat)
    requires Closed(cfg) && Typed(cfg) && d < |cfg.graph| && IsChained(cfg.graph[d])
    requires forall i :: 0 <= i < |kids| ==> kids[i].0 < |cfg.graph|
    ensures AddsOwn(cfg, st, VisitAll(cfg, st, kids), d)
    decreases Unseen(cfg, st.seen), 1, |kids|
  {
    hide Own, IsChained, About, Typed, Visit, Extends;
    if kids == [] {
      assert About(st.log, {d}) + [] == About(st.log, {d});
    } else {
      VisitAdds(cfg, st, kids[0].0, kids[0].1, d);
      var next := Visit(cfg, st, kids[0].0, kids[0].1);
      UnseenShrinks(cfg, next.seen, st.seen);
      VisitAllAdds(cfg, next, kids[1..], d);
      AddsThen(cfg, st, next, VisitAll(cfg, next, kids[1..]), d);
    }
  }

  /** A whole run adds about a chained declaration exactly what its one visit does. */
  lemma RunAdds(cfg: Config, unit: nat, d: nat)
    requires Closed(cfg) && Typed(cfg) && unit < |cfg.graph| && cfg.graph[unit].TranslationUnit?
    requires d < |cfg.graph| && IsChained(cfg.graph[d])
    ensures var r := Build(cfg, unit);
            About(r.log, {d}) == if d in r.seen then Own(cfg, d, r.seen[d]) else []
  {
    hide Own, Visit, VisitAll;
    VisitAllAdds(cfg, AT_START, Kids(cfg, unit, NO_FLAGS), d);
    assert Start(cfg, AT_START, unit, NO_FLAGS) == AT_START;
    EntriesOfOthers(cfg, unit, NO_FLAGS, d);
    AboutAppend(VisitAll(cfg, AT_START, Kids(cfg, unit, NO_FLAGS)).log, After(cfg, unit, NO_FLAGS), {d});
    assert About(AT_START.log, {d}) == [];
  }

  /** A redeclaration chain: its members agree on the definition, and one of them is the first. */
  predicate IsChain(cfg: Config, chain: set<nat>, definition: Option<nat>, first: nat) {
    && first in chain
    && (definition.Some? ==> definition.value in chain)
    && (forall d <- chain :: d < |cfg.graph| && IsChained(cfg.graph[d])
          && cfg.graph[d].chain.definition == definition
          && (cfg.graph[d].chain.previous.None? <==> d == first))
  }

  /** The member that stands for a chain: its definition, or else its first declaration. */
  function Principal(definition: Option<nat>, first: nat): nat {
    if definition.Some? then definition.value else first
  }

  /** Nothing keeps a visited class or function out of the module: the filter asks for it, and it
      is no implicit class, no specialization outside its template, no deleted member and, with
      templates off, not dependent. */
  predicate Admitted(cfg: Config, id: nat, f: Flags)
    requires id < |cfg.graph|
  {
    && !cfg.filter(id).Nothing?
    && match cfg.graph[id]
       case Record(_, implicit, specialized, _) => !implicit && (specialized ==> f.inSpecialization)
       case Function(_, member, deleted, dependent, _) => !(member && deleted) && (dependent ==> cfg.templates)
       case _ => true
  }

  /** A chain of classes or functions is recorded exactly once, or not at all: by its principal
      member, if that is visited and admitted, under the flags of its visit, and as a definition
      exactly when the chain has one and the filter asks for it. */
  lemma ChainRecordedOnce(cfg: Config, unit: nat, chain: set<nat>, definition: Option<nat>, first: nat)
    requires Closed(cfg) && Typed(cfg) && unit < |cfg.graph| && cfg.graph[unit].TranslationUnit?
    requires IsChain(cfg, chain, definition, first) && forall d <- chain :: !cfg.graph[d].Enum?
    ensures var r := Build(cfg, unit);
            var p := Principal(definition, first);
            About(r.log, chain) ==
            if p in r.seen && Admitted(cfg, p, r.seen[p])
            then [Entry(p, r.seen[p], definition.Some? && cfg.filter(p).Definition?)]
            else []
  {
    hide Build;
    var r := Build(cfg, unit);
    var p := Principal(definition, first);
    forall d | d in chain && d != p
      ensures About(r.log, {d}) == []
    {
      RunAdds(cfg, unit, d);
    }
    AboutOne(r.log, chain, p);
    RunAdds(cfg, unit, p);
  }

  /** A chain of enumerations is recorded by its first declaration, always as a definition if the
      filter asks for definitions. */
  lemma EnumRecordedFirst(cfg: Config, unit: nat, chain: set<nat>, definition: Option<nat>, first: nat)
    requires Closed(cfg) && Typed(cfg) && unit < |cfg.graph| && cfg.graph[unit].TranslationUnit?
    requires IsChain(cfg, chain, definition, first) && forall d <- chain :: cfg.graph[d].Enum?
    ensures var r := Build(cfg, unit);
            About(r.log, chain) == if first in r.seen then Go(cfg, first, r.seen[first], true) else []
  {
    hide Build;
    var r := Build(cfg, unit);
    forall d | d in chain && d != first
      ensures About(r.log, {d}) == []
    {
      RunAdds(cfg, unit, d);
    }
    AboutOne(r.log, chain, first);
    RunAdds(cfg, unit, first);
  }

  /** So an enumeration is recorded like other chains exactly when its first declaration is its
      definition, or when it has no definition and the filter asks for a declaration. */
  lemma EnumLikeOthers(cfg: Config, unit: nat, chain: set<nat>, definition: Option<nat>, first: nat)
    requires Closed(cfg) && Typed(cfg) && unit < |cfg.graph| && cfg.graph[unit].TranslationUnit?
    requires IsChain(cfg, chain, definition, first) && forall d <- chain :: cfg.graph[d].Enum?
    requires forall d <- chain :: d in Build(cfg, unit).seen && !cfg.filter(d).Nothing?
    ensures var r := Build(cfg, unit);
            var p := Principal(definition, first);
            About(r.log, chain) == [Entry(p, r.seen[p], definition.Some? && cfg.filter(p).Definition?)]
            <==> definition == Some(first) || (definition.None? && cfg.filter(first).Declaration?)
  {
    hide Build;
    EnumRecordedFirst(cfg, unit, chain, definition, first);
  }

  /** A unit with `enum E : int;` and then `enum E : int { ... };`. */
  const REDECLARED_ENUM := Config([TranslationUnit([1, 2]), Enum(Chain(Some(2), None), []),
                                   Enum(Chain(Some(2), Some(1)), [])], false, _ => Definition)

  lemma RedeclaredGraph()
    ensures Closed(REDECLARED_ENUM) && Typed(REDECLARED_ENUM)
  {
    forall id, f | 0 <= id < |REDECLARED_ENUM.graph|
      ensures Kids(REDECLARED_ENUM, id, f) == if id == 0 then [(1, f), (2, f)] else []
    {
    }
  }

  /** The opaque declaration is what gets recorded, and as a definition. */
  lemma OpaqueEnum()
    ensures Closed(REDECLARED_ENUM) && Typed(REDECLARED_ENUM)
    ensures About(Build(REDECLARED_ENUM, 0).log, {1, 2}) == [Entry(1, NO_FLAGS, true)]
  {
    hide Visit, VisitAll, Closed, Typed, Own, Before, After;
    var cfg := REDECLARED_ENUM;
    RedeclaredGraph();
    EnumRecordedFirst(cfg, 0, {1, 2}, Some(2), 1);
    FirstFlags(cfg, Start(cfg, AT_START, 0, NO_FLAGS), Kids(cfg, 0, NO_FLAGS));
    assert Go(cfg, 1, NO_FLAGS, true) == [Entry(1, NO_FLAGS, true)];
  }

  /** The first visit decides the flags. */
  lemma FirstFlags(cfg: Config, st: Walk, kids: seq<(nat, Flags)>)
    requires Closed(cfg) && (forall i :: 0 <= i < |kids| ==> kids[i].0 < |cfg.graph|)
    requires kids != [] && kids[0].0 !in st.seen
    ensures var r := VisitAll(cfg, st, kids);
            kids[0].0 in r.seen && r.seen[kids[0].0] == kids[0].1
  {
    var (id, f) := kids[0];
    assert Visit(cfg, st, id, f) == Dispatch(cfg, Mark(st, id, f), id, f);
    assert id in Mark(st, id, f).seen;
    assert id in Visit(cfg, st, id, f).seen;
  }

  // ---- Where entries come from ---------------------------------------------------------------

  /** What a visit with flags `f` adds, the visits inside it aside. */
  function Entries(cfg: Config, id: nat, f: Flags): seq<Entry>
    requires id < |cfg.graph|
  {
    Before(cfg, id, f) + After(cfg, id, f)
  }

  /** An entry that some declaration first visited between two points of a run adds. */
  ghost predicate Added(cfg: Config, sooner: map<nat, Flags>, later: map<nat, Flags>, e: Entry) {
    exists n <- later :: n < |cfg.graph| && n !in sooner && e in Entries(cfg, n, later[n])
  }

  /** The log grows by what the new visits add. */
  ghost predicate Accounted(cfg: Config, st: Walk, r: Walk) {
    && Extends(r.seen, st.seen)
    && forall e :: e in r.log <==> e in st.log || Added(cfg, st.seen, r.seen, e)
  }

  lemma AccountedThen(cfg: Config, st: Walk, next: Walk, r: Walk)
    requires Accounted(cfg, st, next) && Accounted(cfg, next, r)
    ensures Accounted(cfg, st, r)
  {
    hide Entries;
    forall e
      ensures e in r.log <==> e in st.log || Added(cfg, st.seen, r.seen, e)
    {
      if Added(cfg, st.seen, next.seen, e) {
        var n :| n in next.seen && n < |cfg.graph| && n !in st.seen && e in Entries(cfg, n, next.seen[n]);
        assert n in r.seen && r.seen[n] == next.seen[n];
      }
      if Added(cfg, next.seen, r.seen, e) {
        var n :| n in r.seen && n < |cfg.graph| && n !in next.seen && e in Entries(cfg, n, r.seen[n]);
        assert n !in st.seen;
      }
      if Added(cfg, st.seen, r.seen, e) {
        var n :| n in r.seen && n < |cfg.graph| && n !in st.seen && e in Entries(cfg, n, r.seen[n]);
        if n in next.seen {
          assert Added(cfg, st.seen, next.seen, e);
        } else {
          assert Added(cfg, next.seen, r.seen, e);
        }
      }
    }
  }

  /** A visit adds its own entries around those of the visits inside it. */
  lemma DispatchAccounted(cfg: Config, st: Walk, id: nat, f: Flags, done: Walk)
    requires id < |cfg.graph| && id !in st.seen
    requires Accounted(cfg, Start(cfg, Mark(st, id, f), id, f), done)
    ensures Accounted(cfg, st, Finish(cfg, done, id, f))
  {
    hide Before, After;
    var start, r := Start(cfg, Mark(st, id, f), id, f), Finish(cfg, done, id, f);
    assert id in start.seen && done.seen[id] == start.seen[id] == f;
    forall e
      ensures e in r.log <==> e in st.log || Added(cfg, st.seen, r.seen, e)
    {
      assert e in r.log <==>
        e in st.log || e in Entries(cfg, id, f) || Added(cfg, start.seen, done.seen, e);
      if e in Entries(cfg, id, f) {
        assert id in r.seen && id !in st.seen && e in Entries(cfg, id, r.seen[id]);
      }
      if Added(cfg, start.seen, done.seen, e) {
        var n :| n in done.seen && n < |cfg.graph| && n !in start.seen && e in Entries(cfg, n, done.seen[n]);
        assert n in r.seen && n !in st.seen && e in Entries(cfg, n, r.seen[n]);
      }
      if Added(cfg, st.seen, r.seen, e) {
        var n :| n in r.seen && n < |cfg.graph| && n !in st.seen && e in Entries(cfg, n, r.seen[n]);
        assert n == id || n !in start.seen;
      }
    }
  }

  lemma {:induction false} VisitAccounted(cfg: Config, st: Walk, id: nat, f: Flags)
    requires Closed(cfg) && id < |cfg.graph|
    ensures Accounted(cfg, st, Visit(cfg, st, id, f))
    decreases Unseen(cfg, st.seen), 0, 0
  {
    hide Entries;
    if id in st.seen {
    } else {
      assert id in Unseen(cfg, st.seen) && id !in Unseen(cfg, st.seen[id := f]);
      var start := Start(cfg, Mark(st, id, f), id, f);
      VisitAllAccounted(cfg, start, Kids(cfg, id, f));
      DispatchAccounted(cfg, st, id, f, VisitAll(cfg, start, Kids(cfg, id, f)));
    }
  }

  lemma {:induction false} VisitAllAccounted(cfg: Config, st: Walk, kids: seq<(nat, Flags)>)
    requires Closed(cfg) && forall i :: 0 <= i < |kids| ==> kids[i].0 < |cfg.graph|
    ensures Accounted(cfg, st, VisitAll(cfg, st, kids))
    decreases Unseen(cfg, st.seen), 1, |kids|
  {
    hide Entries, Visit;
    if kids == [] {
    } else {
      VisitAccounted(cfg, st, kids[0].0, kids[0].1);
      var next := Visit(cfg, st, kids[0].0, kids[0].1);
      UnseenShrinks(cfg, next.seen, st.seen);
      VisitAllAccounted(cfg, next, kids[1..]);
      AccountedThen(cfg, st, next, VisitAll(cfg, next, kids[1..]));
    }
  }

  lemma RunAccounts(cfg: Config, unit: nat, e: Entry)
    requires Closed(cfg) && unit < |cfg.graph| && cfg.graph[unit].TranslationUnit?
    ensures var r := Build(cfg, unit);
            e in r.log <==> exists n <- r.seen :: n < |cfg.graph| && e in Entries(cfg, n, r.seen[n])
  {
    hide Entries, Visit, VisitAll;
    var kids := Kids(cfg, unit, NO_FLAGS);
    VisitAllAccounted(cfg, AT_START, kids);
    assert Start(cfg, AT_START, unit, NO_FLAGS) == AT_START;
    var all := VisitAll(cfg, AT_START, kids);
    assert Build(cfg, unit).log == all.log + [] == all.log;
    assert e in all.log <==> Added(cfg, map[], all.seen, e);
  }

  /** A member of a redeclaration chain yields a definition if it is the definition and the filter
      asks for one, and a declaration if it is the definition or the first of a chain without one. */
  predicate ChainYields(cfg: Config, id: nat, c: Chain, definition: bool) {
    || (c.definition == Some(id) && definition == cfg.filter(id).Definition?)
    || (c.definition.None? && c.previous.None? && !definition)
  }

  /** The visit of a declaration with flags `f` yields an entry. */
  predicate Yields(cfg: Config, n: nat, f: Flags, e: Entry)
    requires n < |cfg.graph|
  {
    var asked := cfg.filter(e.id).Definition?;
    && !cfg.filter(e.id).Nothing?
    && match cfg.graph[n]
       case Record(c, implicit, specialized, _) =>
         && !implicit && (specialized ==> f.inSpecialization)
         && e.id == n && e.flags == f && ChainYields(cfg, n, c, e.definition)
       case Function(c, member, deleted, dependent, ds) =>
         && !(member && deleted) && (dependent ==> cfg.templates) && e.flags == f
         && (|| (e.id == n && ChainYields(cfg, n, c, e.definition))
             || (&& c.definition == Some(n) && cfg.filter(n).Definition?
                 && e.id in ds && IsStaticLocal(cfg, e.id) && e.definition == asked))
       case Enum(c, es) =>
         c.previous.None? && (e.id == n || e.id in es) && e.flags == f && e.definition == asked
       case EnumConstant => e.id == n && e.flags == f && e.definition == asked
       case Variable(templated, _) =>
         (templated || cfg.templates) && e.id == n && e.flags == f && e.definition == asked
       case TypedefName => e.id == n && e.flags == f && e.definition == asked
       case FunctionTemplate(_) =>
         cfg.templates && e.id == n && e.flags == Flags(true, f.inSpecialization) && e.definition == asked
       case VarTemplate(_) =>
         cfg.templates && e.id == n && e.flags == Flags(true, f.inSpecialization) && e.definition == asked
       case _ => false
  }

  lemma GoAre(cfg: Config, id: nat, f: Flags, definition: bool, e: Entry)
    ensures e in Go(cfg, id, f, definition) <==>
            && e.id == id && e.flags == f && !cfg.filter(id).Nothing?
            && e.definition == (definition && cfg.filter(id).Definition?)
  {
  }

  lemma {:induction false} GoEachAre(cfg: Config, ids: seq<nat>, f: Flags, e: Entry)
    ensures e in GoEach(cfg, ids, f) <==>
            && e.id in ids && e.flags == f && !cfg.filter(e.id).Nothing?
            && e.definition == cfg.filter(e.id).Definition?
    decreases |ids|
  {
    if ids == [] {
    } else {
      hide Go;
      GoAre(cfg, ids[0], f, true, e);
      GoEachAre(cfg, ids[1..], f, e);
      assert e.id in ids <==> e.id == ids[0] || e.id in ids[1..];
    }
  }

  lemma ChainAre(cfg: Config, id: nat, c: Chain, f: Flags, e: Entry)
    ensures e in ChainEntries(cfg, id, c, f) <==>
            e.id == id && e.flags == f && !cfg.filter(id).Nothing? && ChainYields(cfg, id, c, e.definition)
  {
    hide Go;
    GoAre(cfg, id, f, true, e);
    GoAre(cfg, id, f, false, e);
  }

  lemma EntriesAre(cfg: Config, n: nat, f: Flags, e: Entry)
    requires n < |cfg.graph|
    ensures e in Entries(cfg, n, f) <==> Yields(cfg, n, f, e)
  {
    hide Go, GoEach, ChainEntries, ChainYields, StaticLocals;
    match cfg.graph[n]
    case Record(c, _, _, _) => ChainAre(cfg, n, c, f, e);
    case Function(c, _, _, _, ds) =>
      ChainAre(cfg, n, c, f, e);
      GoEachAre(cfg, StaticLocals(cfg, ds), f, e);
      StaticLocalsAre(cfg, ds, e.id);
    case Enum(_, es) =>
      GoAre(cfg, n, f, true, e);
      GoEachAre(cfg, es, f, e);
    case FunctionTemplate(_) => GoAre(cfg, n, f.SetTemplate(), true, e);
    case VarTemplate(_) => GoAre(cfg, n, f.SetTemplate(), true, e);
    case _ => GoAre(cfg, n, f, true, e);
  }

  /** In a whole run an entry is added exactly when some declaration visited yields it under the
      flags of its first visit. */
  lemma RunEntries(cfg: Config, unit: nat, e: Entry)
    requires Closed(cfg) && unit < |cfg.graph| && cfg.graph[unit].TranslationUnit?
    ensures var r := Build(cfg, unit);
            e in r.log <==> exists n <- r.seen :: n < |cfg.graph| && Yields(cfg, n, r.seen[n], e)
  {
    hide Entries, Yields, Build;
    var r := Build(cfg, unit);
    RunAccounts(cfg, unit, e);
    forall n | n in r.seen && n < |cfg.graph|
      ensures e in Entries(cfg, n, r.seen[n]) <==> Yields(cfg, n, r.seen[n], e)
    {
      EntriesAre(cfg, n, r.seen[n], e);
    }
  }

  lemma {:induction false} AboutSome(log: seq<Entry>, d: nat)
    ensures About(log, {d}) != [] <==> exists e <- log :: e.id == d
    decreases |log|
  {
    if log == [] {
    } else {
      AboutSome(log[1..], d);
      if log[0].id == d {
        assert log[0] in log;
      } else {
        assert forall e <- log :: e.id == d ==> e in log[1..];
      }
    }
  }

  // ---- The order of entries ------------------------------------------------------------------

  /** Visits are made from left to right. */
  lemma {:induction false} LeftToRight(cfg: Config, st: Walk, a: seq<(nat, Flags)>, b: seq<(nat, Flags)>)
    requires Closed(cfg)
    requires forall i :: 0 <= i < |a| ==> a[i].0 < |cfg.graph|
    requires forall i :: 0 <= i < |b| ==> b[i].0 < |cfg.graph|
    ensures (forall i :: 0 <= i < |a + b| ==> (a + b)[i].0 < |cfg.graph|)
         && VisitAll(cfg, st, a + b) == VisitAll(cfg, VisitAll(cfg, st, a), b)
    decreases |a|
  {
    hide Visit, Closed;
    if a == [] {
      assert a + b == b;
    } else {
      assert (a + b)[1..] == a[1..] + b;
      LeftToRight(cfg, Visit(cfg, st, a[0].0, a[0].1), a[1..], b);
    }
  }

  /** Visits are recorded behind those before them, and so are entries and static assertions. */
  predicate Grows(st: Walk, r: Walk) {
    st.order <= r.order && st.log <= r.log && st.asserts <= r.asserts
  }

  /** A declaration is visited before the declarations that it asks for. */
  lemma {:induction false} VisitGrows(cfg: Config, st: Walk, id: nat, f: Flags)
    requires Closed(cfg) && id < |cfg.graph|
    ensures Grows(st, Visit(cfg, st, id, f))
    ensures id !in st.seen ==> st.order + [id] <= Visit(cfg, st, id, f).order
    decreases Unseen(cfg, st.seen), 0, 0
  {
    hide Kids, Before, After;
    if id !in st.seen {
      assert id in Unseen(cfg, st.seen) && id !in Unseen(cfg, st.seen[id := f]);
      VisitAllGrows(cfg, Start(cfg, Mark(st, id, f), id, f), Kids(cfg, id, f));
    }
  }

  lemma {:induction false} VisitAllGrows(cfg: Config, st: Walk, kids: seq<(nat, Flags)>)
    requires Closed(cfg) && forall i :: 0 <= i < |kids| ==> kids[i].0 < |cfg.graph|
    ensures Grows(st, VisitAll(cfg, st, kids))
    decreases Unseen(cfg, st.seen), 1, |kids|
  {
    hide Visit;
    if kids == [] {
    } else {
      VisitGrows(cfg, st, kids[0].0, kids[0].1);
      var next := Visit(cfg, st, kids[0].0, kids[0].1);
      UnseenShrinks(cfg, next.seen, st.seen);
      VisitAllGrows(cfg, next, kids[1..]);
    }
  }

  /** The visits that a declaration asks for, in their order: its members, or its specializations
      after the pattern. */
  lemma KidsInOrder(cfg: Config, id: nat, f: Flags, i: nat)
    requires id < |cfg.graph| && i < |Kids(cfg, id, f)|
    ensures var k := Kids(cfg, id, f)[i];
            match cfg.graph[id]
            case TranslationUnit(ds) => i < |ds| && k == (ds[i], f)
            case Namespace(ds) => i < |ds| && k == (ds[i], f)
            case LinkageSpec(ds) => i < |ds| && k == (ds[i], f)
            case Record(_, _, _, ds) => i < |ds| && k == (ds[i], f)
            case FunctionTemplate(ss) => i < |ss| && k == (ss[i], Flags(f.inTemplate, true))
            case VarTemplate(ss) => i < |ss| && k == (ss[i], Flags(f.inTemplate, true))
            case ClassTemplate(p, ss) =>
              if !cfg.templates then i < |ss| && k == (ss[i], Flags(f.inTemplate, true))
              else if i == 0 then k == (p, Flags(true, f.inSpecialization))
              else i <= |ss| && k == (ss[i - 1], Flags(f.inTemplate, true))
            case Friend(d) => i == 0 && d == Some(k.0) && k.1 == f
            case _ => false
  {
    hide With;
    match cfg.graph[id]
    case TranslationUnit(ds) => WithAt(ds, f, i);
    case Namespace(ds) => WithAt(ds, f, i);
    case LinkageSpec(ds) => WithAt(ds, f, i);
    case Record(_, _, _, ds) => WithAt(ds, f, i);
    case FunctionTemplate(ss) => WithAt(ss, f.SetSpecialization(), i);
    case VarTemplate(ss) => WithAt(ss, f.SetSpecialization(), i);
    case ClassTemplate(p, ss) => PatternFirst(cfg, p, ss, f, i);
    case _ =>
  }

  lemma WithAt(ds: seq<nat>, f: Flags, i: nat)
    requires i < |With(ds, f)|
    ensures i < |ds| && With(ds, f)[i] == (ds[i], f)
  {
  }

  lemma PatternFirst(cfg: Config, p: nat, ss: seq<nat>, f: Flags, i: nat)
    requires var kids := (if cfg.templates then [(p, f.SetTemplate())] else []) + With(ss, f.SetSpecialization());
             i < |kids|
    ensures var kids := (if cfg.templates then [(p, f.SetTemplate())] else []) + With(ss, f.SetSpecialization());
            if !cfg.templates then i < |ss| && kids[i] == (ss[i], f.SetSpecialization())
            else if i == 0 then kids[i] == (p, f.SetTemplate())
            else i <= |ss| && kids[i] == (ss[i - 1], f.SetSpecialization())
  {
  }

  lemma {:induction false} StaticLocalsAppend(cfg: Config, a: seq<nat>, b: seq<nat>)
    ensures StaticLocals(cfg, a + b) == StaticLocals(cfg, a) + StaticLocals(cfg, b)
    decreases |a|
  {
    if a == [] {
      assert a + b == b;
    } else {
      assert (a + b)[1..] == a[1..] + b;
      StaticLocalsAppend(cfg, a[1..], b);
      var head := if IsStaticLocal(cfg, a[0]) then [a[0]] else [];
      assert head + (StaticLocals(cfg, a[1..]) + StaticLocals(cfg, b))
          == (head + StaticLocals(cfg, a[1..])) + StaticLocals(cfg, b);
    }
  }

  /** The declarations for which the filter asks. */
  function Wanted(cfg: Config, ids: seq<nat>): seq<nat> {
    if ids == [] then []
    else (if cfg.filter(ids[0]).Nothing? then [] else [ids[0]]) + Wanted(cfg, ids[1..])
  }

  lemma {:induction false} GoEachIds(cfg: Config, ids: seq<nat>, f: Flags)
    ensures Ids(GoEach(cfg, ids, f)) == Wanted(cfg, ids)
    decreases |ids|
  {
    if ids == [] {
    } else {
      GoEachIds(cfg, ids[1..], f);
      IdsAppend(Go(cfg, ids[0], f, true), GoEach(cfg, ids[1..], f));
    }
  }

  lemma IdsAppend(a: seq<Entry>, b: seq<Entry>)
    ensures Ids(a + b) == Ids(a) + Ids(b)
  {
  }

  /** A class is recorded after everything that the visits of its members record. */
  lemma RecordLast(cfg: Config, st: Walk, id: nat, f: Flags, e: Entry)
    requires Closed(cfg) && id < |cfg.graph| && id !in st.seen
    requires cfg.graph[id].Record? && Yields(cfg, id, f, e)
    ensures var members := With(cfg.graph[id].decls, f);
            && members == Kids(cfg, id, f)
            && Visit(cfg, st, id, f).log == VisitAll(cfg, Mark(st, id, f), members).log + [e]
  {
    hide VisitAll, ChainEntries;
    EntriesAre(cfg, id, f, e);
    assert id in Unseen(cfg, st.seen) && id !in Unseen(cfg, st.seen[id := f]);
    assert Start(cfg, Mark(st, id, f), id, f) == Mark(st, id, f) by {
      assert st.log + [] == st.log;
    }
    OneEntry(cfg, id, cfg.graph[id].chain, f, e);
  }

  lemma OneEntry(cfg: Config, id: nat, c: Chain, f: Flags, e: Entry)
    requires e in ChainEntries(cfg, id, c, f)
    ensures ChainEntries(cfg, id, c, f) == [e]
  {
  }

  /** A function or an enumeration is recorded first, and then its static locals or enumerators in
      their order, and nothing else. */
  lemma ThenTheRest(cfg: Config, st: Walk, id: nat, f: Flags, e: Entry)
    requires Closed(cfg) && id < |cfg.graph| && id !in st.seen && e.id == id && Yields(cfg, id, f, e)
    requires cfg.graph[id].Enum? || cfg.graph[id].Function?
    ensures var rest := if cfg.graph[id].Enum? then cfg.graph[id].enumerators
                        else if e.definition then StaticLocals(cfg, cfg.graph[id].decls) else [];
            && |Visit(cfg, st, id, f).log| > |st.log|
            && Visit(cfg, st, id, f).log[..|st.log|] == st.log
            && Visit(cfg, st, id, f).log[|st.log|] == e
            && Ids(Visit(cfg, st, id, f).log[|st.log| + 1..]) == Wanted(cfg, rest)
  {
    hide GoEach, StaticLocals, Wanted, ChainEntries, Ids, Visit, Before, After;
    var n := cfg.graph[id];
    EntriesAre(cfg, id, f, e);
    var r := Visit(cfg, st, id, f);
    AloneLog(cfg, st, id, f);
    var others := if n.Enum? then n.enumerators else if e.definition then StaticLocals(cfg, n.decls) else [];
    OwnFirst(cfg, id, f, e, others);
    GoEachIds(cfg, others, f);
    assert r.log[|st.log| + 1..] == GoEach(cfg, others, f);
  }

  /** What a declaration that asks for no visits records. */
  lemma AloneLog(cfg: Config, st: Walk, id: nat, f: Flags)
    requires Closed(cfg) && id < |cfg.graph| && id !in st.seen
    requires cfg.graph[id].Enum? || cfg.graph[id].Function?
    ensures Visit(cfg, st, id, f).log == st.log + Before(cfg, id, f)
  {
    hide Before;
    assert id in Unseen(cfg, st.seen) && id !in Unseen(cfg, st.seen[id := f]);
    var start := Start(cfg, Mark(st, id, f), id, f);
    assert Kids(cfg, id, f) == [] && VisitAll(cfg, start, []) == start;
    assert After(cfg, id, f) == [] && start.log + [] == start.log;
  }

  lemma OwnFirst(cfg: Config, id: nat, f: Flags, e: Entry, others: seq<nat>)
    requires id < |cfg.graph| && e.id == id && Yields(cfg, id, f, e)
    requires cfg.graph[id].Enum? || cfg.graph[id].Function?
    requires others == if cfg.graph[id].Enum? then cfg.graph[id].enumerators
                       else if e.definition then StaticLocals(cfg, cfg.graph[id].decls) else []
    ensures Before(cfg, id, f) == [e] + GoEach(cfg, others, f)
  {
    hide StaticLocals;
    var n := cfg.graph[id];
    if n.Enum? {
      assert Go(cfg, id, f, true) == [e];
    } else {
      assert ChainEntries(cfg, id, n.chain, f) == [e];
    }
  }

  // ---- Variables -----------------------------------------------------------------------------

  /** A visited function that is recorded as a definition, with its static locals. */
  predicate ListsLocals(cfg: Config, n: nat)
    requires n < |cfg.graph|
  {
    match cfg.graph[n]
    case Function(c, member, deleted, dependent, _) =>
      !(member && deleted) && (dependent ==> cfg.templates) && c.definition == Some(n) && cfg.filter(n).Definition?
    case _ => false
  }

  /** A static local of such a function. */
  predicate ListsLocal(cfg: Config, n: nat, d: nat)
    requires n < |cfg.graph|
  {
    ListsLocals(cfg, n) && IsStaticLocal(cfg, d) && d in cfg.graph[n].decls
  }

  lemma {:induction false} StaticLocalsAre(cfg: Config, ids: seq<nat>, d: nat)
    ensures d in StaticLocals(cfg, ids) <==> d in ids && IsStaticLocal(cfg, d)
    decreases |ids|
  {
    if ids == [] {
    } else {
      StaticLocalsAre(cfg, ids[1..], d);
      assert d in ids <==> d == ids[0] || d in ids[1..];
    }
  }

  lemma {:induction false} GoEachSome(cfg: Config, ids: seq<nat>, f: Flags, d: nat)
    ensures (exists e <- GoEach(cfg, ids, f) :: e.id == d) <==> d in ids && !cfg.filter(d).Nothing?
    decreases |ids|
  {
    if ids == [] {
    } else {
      var (head, rest) := (Go(cfg, ids[0], f, true), GoEach(cfg, ids[1..], f));
      GoEachSome(cfg, ids[1..], f, d);
      assert GoEach(cfg, ids, f) == head + rest;
      assert d in ids <==> d == ids[0] || d in ids[1..];
      if ids[0] == d && !cfg.filter(d).Nothing? {
        assert head[0] in head + rest && head[0].id == d;
      }
      if e :| e in rest && e.id == d {
        assert e in head + rest;
      }
    }
  }

  /** Which visits add a variable: its own, unless templates are off and it is not templated,
      and that of a function in which it is a static local. */
  lemma VariableAdded(cfg: Config, n: nat, f: Flags, d: nat)
    requires Typed(cfg) && n < |cfg.graph| && d < |cfg.graph| && cfg.graph[d].Variable?
    ensures (exists e <- Entries(cfg, n, f) :: e.id == d) <==>
            && !cfg.filter(d).Nothing?
            && ((n == d && (cfg.templates || cfg.graph[d].templated))
                || ListsLocal(cfg, n, d))
  {
    var g := cfg.graph[n];
    assert After(cfg, n, f) != [] ==> g.Record?;
    match g
    case Function(c, _, _, _, ds) =>
      GoEachSome(cfg, StaticLocals(cfg, ds), f, d);
      StaticLocalsAre(cfg, ds, d);
      FunctionAdds(cfg, n, f, d);
    case Enum(c, es) =>
      GoEachSome(cfg, es, f, d);
      assert d !in es;
      assert forall e <- Entries(cfg, n, f) :: e.id == d ==> e in GoEach(cfg, es, f);
    case Variable(_, _) =>
      if n == d && (cfg.templates || cfg.graph[d].templated) && !cfg.filter(d).Nothing? {
        assert Entries(cfg, n, f)[0].id == d;
      }
    case _ =>
      assert forall e <- Entries(cfg, n, f) :: e.id == n;
  }

  lemma FunctionAdds(cfg: Config, n: nat, f: Flags, d: nat)
    requires n < |cfg.graph| && cfg.graph[n].Function? && n != d
    ensures (exists e <- Entries(cfg, n, f) :: e.id == d) <==>
            && ListsLocals(cfg, n)
            && exists e <- GoEach(cfg, StaticLocals(cfg, cfg.graph[n].decls), f) :: e.id == d
  {
    hide GoEach, StaticLocals;
    var g := cfg.graph[n];
    var (own, locals) := (ChainEntries(cfg, n, g.chain, f), GoEach(cfg, StaticLocals(cfg, g.decls), f));
    assert forall e <- own :: e.id == n;
    if ListsLocals(cfg, n) {
      assert Entries(cfg, n, f) == own + locals;
    } else {
      assert forall e <- Entries(cfg, n, f) :: e in own;
    }
  }

  /** A run leaves a variable out exactly when the filter does, or when no visited function lists
      it as a static local and it is not visited, or not templated while templates are off. */
  lemma VariableLeftOut(cfg: Config, unit: nat, d: nat)
    requires Closed(cfg) && Typed(cfg) && unit < |cfg.graph| && cfg.graph[unit].TranslationUnit?
    requires d < |cfg.graph| && cfg.graph[d].Variable?
    ensures var r := Build(cfg, unit);
            About(r.log, {d}) == [] <==>
            || cfg.filter(d).Nothing?
            || (&& (d !in r.seen || (!cfg.templates && !cfg.graph[d].templated))
                && !exists n <- r.seen :: n < |cfg.graph| && ListsLocal(cfg, n, d))
  {
    hide Build, Entries, About, Typed, Closed, ListsLocal;
    var r := Build(cfg, unit);
    AboutSome(r.log, d);
    forall n | n in r.seen && n < |cfg.graph|
      ensures (exists e <- Entries(cfg, n, r.seen[n]) :: e.id == d) <==>
              && !cfg.filter(d).Nothing?
              && ((n == d && (cfg.templates || cfg.graph[d].templated))
                  || ListsLocal(cfg, n, d))
    {
      VariableAdded(cfg, n, r.seen[n], d);
    }
    if e :| e in r.log && e.id == d {
      RunAccounts(cfg, unit, e);
    }
    forall n | n in r.seen && n < |cfg.graph|
      ensures (exists e <- Entries(cfg, n, r.seen[n]) :: e.id == d) ==> exists e <- r.log :: e.id == d
    {
      if e :| e in Entries(cfg, n, r.seen[n]) && e.id == d {
        RunAccounts(cfg, unit, e);
      }
    }
  }

  /** A unit with a single plain variable, `int x;`. */
  function OneVariable(templates: bool): Config {
    Config([TranslationUnit([1]), Variable(false, false)], templates, _ => Definition)
  }

  lemma OneVariableGraph(templates: bool)
    ensures Closed(OneVariable(templates)) && Typed(OneVariable(templates))
  {
    var cfg := OneVariable(templates);
    forall id, f | 0 <= id < |cfg.graph|
      ensures Kids(cfg, id, f) == if id == 0 then [(1, f)] else []
    {
    }
  }

  /** It is recorded only when templates are on. */
  lemma PlainVariable(templates: bool)
    ensures Closed(OneVariable(templates)) && Typed(OneVariable(templates))
    ensures About(Build(OneVariable(templates), 0).log, {1}) == [] <==> !templates
  {
    hide Visit, VisitAll, Closed, Typed, Before, After, About;
    var cfg := OneVariable(templates);
    OneVariableGraph(templates);
    VariableLeftOut(cfg, 0, 1);
    FirstFlags(cfg, Start(cfg, AT_START, 0, NO_FLAGS), Kids(cfg, 0, NO_FLAGS));
  }

  // ---- The lists of the module ---------------------------------------------------------------

  /** The entries of one of the two main lists. */
  function Mains(log: seq<Entry>, definition: bool): seq<Entry> {
    if log == [] then []
    else
      var n := |log| - 1;
      Mains(log[..n], definition)
      + (if log[n].definition == definition && !log[n].flags.inTemplate then [log[n]] else [])
  }

  /** The entries of one of the two template lists. */
  function Templates(log: seq<Entry>, definition: bool): seq<Entry> {
    if log == [] then []
    else
      var n := |log| - 1;
      Templates(log[..n], definition)
      + (if log[n].definition == definition && !log[n].flags.Clear() then [log[n]] else [])
  }

  function Ids(entries: seq<Entry>): seq<nat> {
    seq(|entries|, i requires 0 <= i < |entries| => entries[i].id)
  }

  function OutsideTemplates(entries: seq<Entry>): seq<Entry> {
    if entries == [] then []
    else
      var n := |entries| - 1;
      OutsideTemplates(entries[..n]) + (if entries[n].flags.inTemplate then [] else [entries[n]])
  }

  function Specializations(entries: seq<Entry>): seq<Entry> {
    if entries == [] then []
    else
      var n := |entries| - 1;
      Specializations(entries[..n]) + (if entries[n].flags.inSpecialization then [entries[n]] else [])
  }

  lemma LastEntry(a: seq<Entry>, e: Entry)
    ensures (a + [e])[..|a + [e]| - 1] == a && (a + [e])[|a + [e]| - 1] == e
  {
  }

  lemma OneMore(a: seq<Entry>, e: Entry)
    ensures OutsideTemplates(a + [e]) == OutsideTemplates(a) + (if e.flags.inTemplate then [] else [e])
    ensures Specializations(a + [e]) == Specializations(a) + (if e.flags.inSpecialization then [e] else [])
  {
    LastEntry(a, e);
  }

  lemma {:induction false} ListsAre(log: seq<Entry>, definition: bool, e: Entry)
    ensures e in Mains(log, definition) <==> e in log && e.definition == definition && !e.flags.inTemplate
    ensures e in Templates(log, definition) <==>
            e in log && e.definition == definition && (e.flags.inTemplate || e.flags.inSpecialization)
    decreases |log|
  {
    if log == [] {
    } else {
      var n := |log| - 1;
      ListsAre(log[..n], definition, e);
      assert log == log[..n] + [log[n]];
    }
  }

  /** Lists grow at the end. */
  lemma {:induction false} ListsAppend(a: seq<Entry>, b: seq<Entry>, definition: bool)
    ensures Mains(a + b, definition) == Mains(a, definition) + Mains(b, definition)
    ensures Templates(a + b, definition) == Templates(a, definition) + Templates(b, definition)
    decreases |b|
  {
    if b == [] {
      assert a + b == a;
    } else {
      var n := |b| - 1;
      assert (a + b)[..|a + b| - 1] == a + b[..n] && (a + b)[|a + b| - 1] == b[n];
      ListsAppend(a, b[..n], definition);
    }
  }

  /** The main lists have no template entry, and the other entries of a template list are exactly
      the specializations of the main list, in the same order. */
  lemma {:induction false} ListsAgree(log: seq<Entry>, definition: bool)
    ensures forall e <- Mains(log, definition) :: !e.flags.inTemplate
    ensures OutsideTemplates(Templates(log, definition)) == Specializations(Mains(log, definition))
    decreases |log|
  {
    if log == [] {
      assert OutsideTemplates([]) == [] && Specializations([]) == [];
    } else {
      hide OutsideTemplates, Specializations;
      var n := |log| - 1;
      var e := log[n];
      ListsAgree(log[..n], definition);
      var templates, mains := Templates(log[..n], definition), Mains(log[..n], definition);
      OneMore(templates, e);
      OneMore(mains, e);
      assert templates + [] == templates && mains + [] == mains;
      var common := OutsideTemplates(templates);
      assert common + [] == common;
    }
  }
}

/** The module and its builder, as src/ModuleBuilder.cpp updates them in place. */
module ModuleBuilders {
  import opened Text
  import opened ModuleWalk

  /** The lists that a run fills. The ghost log has what was added to them, in order. */
  class Module {
    var declarations: seq<nat>
    var definitions: seq<nat>
    var templateDeclarations: seq<nat>
    var templateDefinitions: seq<nat>
    var asserts: seq<nat>
    ghost var log: seq<Entry>

    ghost predicate Valid()
      reads this
    {
      && declarations == Ids(Mains(log, false))
      && definitions == Ids(Mains(log, true))
      && templateDeclarations == Ids(Templates(log, false))
      && templateDefinitions == Ids(Templates(log, true))
    }

    constructor ()
      ensures Valid() && log == [] && asserts == []
    {
      declarations, definitions, templateDeclarations, templateDefinitions := [], [], [], [];
      asserts := [];
      log := [];
    }

    method AddDefinition(d: nat, flags: Flags)
      requires Valid()
      modifies this
      ensures Valid() && log == old(log) + [Entry(d, flags, true)] && asserts == old(asserts)
    {
      log := log + [Entry(d, flags, true)];
      if flags.inTemplate {
        templateDefinitions := templateDefinitions + [d];
      } else {
        definitions := definitions + [d];
        if flags.inSpecialization {
          templateDefinitions := templateDefinitions + [d];
        }
      }
      LogOne(old(log), Entry(d, flags, true), true);
      LogOne(old(log), Entry(d, flags, true), false);
    }

    method AddDeclaration(d: nat, flags: Flags)
      requires Valid()
      modifies this
      ensures Valid() && log == old(log) + [Entry(d, flags, false)] && asserts == old(asserts)
    {
      log := log + [Entry(d, flags, false)];
      if flags.inTemplate {
        templateDeclarations := templateDeclarations + [d];
      } else {
        declarations := declarations + [d];
        if flags.inSpecialization {
          templateDeclarations := templateDeclarations + [d];
        }
      }
      LogOne(old(log), Entry(d, flags, false), true);
      LogOne(old(log), Entry(d, flags, false), false);
    }

    method AddAssert(d: nat)
      requires Valid()
      modifies this
      ensures Valid() && log == old(log) && asserts == old(asserts) + [d]
    {
      asserts := asserts + [d];
    }
  }

  /** One more entry in the log is at most one more declaration in a list. */
  lemma LogOne(log: seq<Entry>, e: Entry, definition: bool)
    ensures Ids(Mains(log + [e], definition)) ==
            Ids(Mains(log, definition)) + (if e.definition == definition && !e.flags.inTemplate then [e.id] else [])
    ensures Ids(Templates(log + [e], definition)) ==
            Ids(Templates(log, definition)) + (if e.definition == definition && !e.flags.Clear() then [e.id] else [])
  {
    LastEntry(log, e);
  }

  class BuildModule {
    const cfg: Config
    const target: Module
    var visited: set<nat>
    var held: bool
    ghost var first: map<nat, Flags>
    ghost var order: seq<nat>

    ghost predicate Valid()
      reads this, target
    {
      Closed(cfg) && target.Valid() && visited == first.Keys
    }

    ghost function Progressed(): Walk
      reads this, target
    {
      Walk(first, order, target.log, target.asserts, held)
    }

    constructor (cfg: Config, target: Module)
      requires Closed(cfg) && target.Valid() && target.log == [] && target.asserts == []
      ensures this.cfg == cfg && this.target == target
      ensures Valid() && Progressed() == AT_START
    {
      this.cfg, this.target := cfg, target;
      visited, held := {}, true;
      first, order := map[], [];
    }

    /** Adds a declaration as the filter asks, and says how it was added. */
    method Include(d: nat, flags: Flags, definition: bool) returns (what: What)
      requires Valid()
      modifies this, target
      ensures Valid() && Progressed() == old(Progressed()).(log := old(target.log) + Go(cfg, d, flags, definition))
      ensures what == if cfg.filter(d).Definition? && !definition then Declaration else cfg.filter(d)
    {
      match cfg.filter(d)
      case Definition =>
        if definition {
          target.AddDefinition(d, flags);
          return Definition;
        } else {
          target.AddDeclaration(d, flags);
          return Declaration;
        }
      case Declaration =>
        target.AddDeclaration(d, flags);
        return Declaration;
      case Nothing =>
        assert target.log + [] == target.log;
        return Nothing;
    }

    /** Static local variables of a function body. */
    method IncludeStaticLocals(ds: seq<nat>, flags: Flags)
      requires Valid()
      modifies this, target
      ensures Valid()
      ensures Progressed() == old(Progressed()).(log := old(target.log) + GoEach(cfg, StaticLocals(cfg, ds), flags))
    {
      hide Mains, Templates, Ids, Closed, Go;
      var i := 0;
      while i < |ds|
        invariant 0 <= i <= |ds|
        invariant Valid()
        invariant Progressed() == old(Progressed()).(log := target.log)
        invariant old(target.log) + GoEach(cfg, StaticLocals(cfg, ds), flags)
               == target.log + GoEach(cfg, StaticLocals(cfg, ds[i..]), flags)
      {
        assert ds[i..][0] == ds[i] && ds[i..][1..] == ds[i + 1..];
        ghost var rest := StaticLocals(cfg, ds[i + 1..]);
        if IsStaticLocal(cfg, ds[i]) {
          assert ([ds[i]] + rest)[1..] == rest;
          var _ := Include(ds[i], flags, true);
        } else {
          assert [] + rest == rest;
        }
        i := i + 1;
      }
      assert target.log + [] == target.log;
    }

    method IncludeAll(ds: seq<nat>, flags: Flags)
      requires Valid()
      modifies this, target
      ensures Valid()
      ensures Progressed() == old(Progressed()).(log := old(target.log) + GoEach(cfg, ds, flags))
    {
      hide Mains, Templates, Ids, Closed, Go;
      var i := 0;
      while i < |ds|
        invariant 0 <= i <= |ds|
        invariant Valid()
        invariant Progressed() == old(Progressed()).(log := target.log)
        invariant old(target.log) + GoEach(cfg, ds, flags) == target.log + GoEach(cfg, ds[i..], flags)
      {
        var _ := Include(ds[i], flags, true);
        i := i + 1;
      }
      assert target.log + [] == target.log;
    }

    /** Visits a declaration unless it has been visited. */
    method VisitDecl(d: nat, flags: Flags)
      requires Valid() && d < |cfg.graph|
      modifies this, target
      ensures Valid() && Progressed() == Visit(cfg, old(Progressed()), d, flags)
      decreases Unseen(cfg, first), 0, 0
    {
      if d !in visited {
        assert d in Unseen(cfg, first) && d !in Unseen(cfg, first[d := flags]);
        visited := visited + {d};
        first := first[d := flags];
        order := order + [d];
        DispatchDecl(d, flags);
      }
    }

    method VisitEach(ds: seq<nat>, flags: Flags)
      requires Valid() && forall i :: 0 <= i < |ds| ==> ds[i] < |cfg.graph|
      modifies this, target
      ensures Valid() && Progressed() == VisitAll(cfg, old(Progressed()), With(ds, flags))
      decreases Unseen(cfg, first), 1, |ds|
    {
      hide Mains, Templates, Ids;
      ghost var kids := With(ds, flags);
      var i := 0;
      while i < |ds|
        invariant 0 <= i <= |ds|
        invariant Valid() && Extends(first, old(first))
        invariant VisitAll(cfg, old(Progressed()), kids) == VisitAll(cfg, Progressed(), kids[i..])
      {
        UnseenShrinks(cfg, first, old(first));
        assert kids[i..][0] == (ds[i], flags) && kids[i..][1..] == kids[i + 1..];
        VisitDecl(ds[i], flags);
        i := i + 1;
      }
    }

    /** The visitor for the kind of the declaration. */
    method DispatchDecl(d: nat, flags: Flags)
      requires Valid() && d < |cfg.graph|
      modifies this, target
      ensures Valid() && Progressed() == Dispatch(cfg, old(Progressed()), d, flags)
      decreases Unseen(cfg, first), 2, 0
    {
      hide Mains, Templates, Ids;
      match cfg.graph[d]
      case TranslationUnit(ds) => VisitScope(d, ds, flags);
      case Namespace(ds) => VisitScope(d, ds, flags);
      case LinkageSpec(ds) => VisitScope(d, ds, flags);
      case Record(_, _, _, _) => VisitRecord(d, flags);
      case FunctionTemplate(ss) => VisitTemplate(d, ss, flags);
      case VarTemplate(ss) => VisitTemplate(d, ss, flags);
      case ClassTemplate(_, _) => VisitClassTemplate(d, flags);
      case Friend(_) => VisitFriend(d, flags);
      case _ =>
        VisitLeaf(d, flags);
        NothingAfter(cfg, Start(cfg, old(Progressed()), d, flags), d, flags);
    }

    /** Translation units, namespaces and linkage specifications. */
    method VisitScope(d: nat, ds: seq<nat>, flags: Flags)
      requires Valid() && d < |cfg.graph| && IsScope(cfg.graph[d]) && cfg.graph[d].decls == ds
      modifies this, target
      ensures Valid() && Progressed() == Dispatch(cfg, old(Progressed()), d, flags)
      decreases Unseen(cfg, first), 1, |ds| + 1
    {
      hide Mains, Templates, Ids;
      KidsInGraph(cfg, d, flags);
      held := held && flags.Clear();
      NothingBefore(cfg, old(Progressed()), d, flags);
      assert Progressed() == Start(cfg, old(Progressed()), d, flags);
      VisitEach(ds, flags);
      NothingAfter(cfg, Progressed(), d, flags);
    }

    method VisitRecord(d: nat, flags: Flags)
      requires Valid() && d < |cfg.graph| && cfg.graph[d].Record?
      modifies this, target
      ensures Valid() && Progressed() == Dispatch(cfg, old(Progressed()), d, flags)
      decreases Unseen(cfg, first), 1, |cfg.graph[d].decls| + 1
    {
      hide Mains, Templates, Ids;
      KidsInGraph(cfg, d, flags);
      NothingBefore(cfg, old(Progressed()), d, flags);
      var n := cfg.graph[d];
      if n.implicit || (!flags.inSpecialization && n.specialized) {
        NothingAfter(cfg, Progressed(), d, flags);
        return;
      }
      VisitEach(n.decls, flags);
      VisitTag(d, n.chain, flags);
    }

    method VisitTag(d: nat, c: Chain, flags: Flags)
      requires Valid()
      modifies this, target
      ensures Valid() && first == old(first)
      ensures Progressed() == old(Progressed()).(log := old(target.log) + ChainEntries(cfg, d, c, flags))
    {
      hide Mains, Templates, Ids;
      assert target.log + [] == target.log;
      if c.definition == Some(d) {
        var _ := Include(d, flags, true);
      } else if c.definition == None && c.previous == None {
        var _ := Include(d, flags, false);
      }
    }

    method VisitFunction(d: nat, flags: Flags)
      requires Valid() && d < |cfg.graph| && cfg.graph[d].Function?
      modifies this, target
      ensures Valid()
      ensures Progressed() == old(Progressed()).(log := old(target.log) + Before(cfg, d, flags))
    {
      hide Go, GoEach, StaticLocals, Mains, Templates, Ids, Closed;
      assert target.log + [] == target.log;
      var n := cfg.graph[d];
      if n.member && n.deleted {
        return;
      }
      if !cfg.templates && n.dependent {
        return;
      }
      if n.chain.definition == Some(d) {
        var what := Include(d, flags, true);
        if what.Definition? {
          IncludeStaticLocals(n.decls, flags);
        } else {
          assert Go(cfg, d, flags, true) + [] == Go(cfg, d, flags, true);
        }
      } else if n.chain.definition == None && n.chain.previous == None {
        var _ := Include(d, flags, false);
        assert Go(cfg, d, flags, false) + [] == Go(cfg, d, flags, false);
      }
    }

    method VisitEnum(d: nat, flags: Flags)
      requires Valid() && d < |cfg.graph| && cfg.graph[d].Enum?
      modifies this, target
      ensures Valid()
      ensures Progressed() == old(Progressed()).(log := old(target.log) + Before(cfg, d, flags))
    {
      hide GoEach, Go, Mains, Templates, Ids, Closed;
      assert target.log + [] == target.log;
      if cfg.graph[d].chain.previous != None {
        return;
      }
      var _ := Include(d, flags, true);
      IncludeAll(cfg.graph[d].enumerators, flags);
    }

    /** The kinds that ask for no visits. */
    method VisitLeaf(d: nat, flags: Flags)
      requires Valid() && d < |cfg.graph| && Kids(cfg, d, flags) == []
      requires var n := cfg.graph[d];
               n.Function? || n.Enum? || n.EnumConstant? || n.Variable? || n.TypedefName? || n.StaticAssert? || n.Other?
      modifies this, target
      ensures Valid() && Progressed() == Start(cfg, old(Progressed()), d, flags)
    {
      hide Mains, Templates, Ids;
      assert target.log + [] == target.log;
      match cfg.graph[d]
      case Function(_, _, _, _, _) => VisitFunction(d, flags);
      case Enum(_, _) => VisitEnum(d, flags);
      case EnumConstant => var _ := Include(d, flags, true);
      case Variable(templated, _) =>
        if !cfg.templates && !templated {
          return;
        }
        var _ := Include(d, flags, true);
      case TypedefName => var _ := Include(d, flags, true);
      case StaticAssert => target.AddAssert(d);
      case Other =>
    }

    /** Function and variable templates. */
    method VisitTemplate(d: nat, ss: seq<nat>, flags: Flags)
      requires Valid() && d < |cfg.graph| && (cfg.graph[d].FunctionTemplate? || cfg.graph[d].VarTemplate?)
      requires cfg.graph[d].specializations == ss
      modifies this, target
      ensures Valid() && Progressed() == Dispatch(cfg, old(Progressed()), d, flags)
      decreases Unseen(cfg, first), 1, |ss| + 1
    {
      hide Mains, Templates, Ids;
      KidsInGraph(cfg, d, flags);
      assert target.log + [] == target.log;
      if cfg.templates {
        var _ := Include(d, flags.SetTemplate(), true);
      }
      assert Progressed() == Start(cfg, old(Progressed()), d, flags);
      VisitEach(ss, flags.SetSpecialization());
      NothingAfter(cfg, Progressed(), d, flags);
    }

    method VisitClassTemplate(d: nat, flags: Flags)
      requires Valid() && d < |cfg.graph| && cfg.graph[d].ClassTemplate?
      modifies this, target
      ensures Valid() && Progressed() == Dispatch(cfg, old(Progressed()), d, flags)
      decreases Unseen(cfg, first), 1, |cfg.graph[d].specializations| + 1
    {
      hide Mains, Templates, Ids;
      KidsInGraph(cfg, d, flags);
      NothingBefore(cfg, old(Progressed()), d, flags);
      var n := cfg.graph[d];
      ghost var kids := Kids(cfg, d, flags);
      if cfg.templates {
        assert kids[0] == (n.pattern, flags.SetTemplate());
        assert kids[1..] == With(n.specializations, flags.SetSpecialization());
        VisitDecl(n.pattern, flags.SetTemplate());
        UnseenShrinks(cfg, first, old(first));
      } else {
        assert kids == With(n.specializations, flags.SetSpecialization());
      }
      VisitEach(n.specializations, flags.SetSpecialization());
      NothingAfter(cfg, Progressed(), d, flags);
    }

    method VisitFriend(d: nat, flags: Flags)
      requires Valid() && d < |cfg.graph| && cfg.graph[d].Friend?
      modifies this, target
      ensures Valid() && Progressed() == Dispatch(cfg, old(Progressed()), d, flags)
      decreases Unseen(cfg, first), 1, 0
    {
      hide Mains, Templates, Ids;
      KidsInGraph(cfg, d, flags);
      NothingBefore(cfg, old(Progressed()), d, flags);
      match cfg.graph[d].friend
      case Some(f) =>
        assert Kids(cfg, d, flags) == [(f, flags)];
        assert Kids(cfg, d, flags)[0].0 < |cfg.graph|;
        VisitOne(cfg, old(Progressed()), f, flags);
        VisitDecl(f, flags);
        NothingAfter(cfg, Progressed(), d, flags);
      case None => NothingAfter(cfg, Progressed(), d, flags);
    }
  }

  lemma ClosedAt(cfg: Config, d: nat, f: Flags)
    requires Closed(cfg) && d < |cfg.graph|
    ensures forall i :: 0 <= i < |Kids(cfg, d, f)| ==> Kids(cfg, d, f)[i].0 < |cfg.graph|
  {
    hide Kids;
  }

  lemma KidsInGraph(cfg: Config, d: nat, f: Flags)
    requires Closed(cfg) && d < |cfg.graph|
    ensures forall i :: 0 <= i < |Kids(cfg, d, f)| ==> Kids(cfg, d, f)[i].0 < |cfg.graph|
    ensures var n := cfg.graph[d];
            && (IsScope(n) || (n.Record? && !SkipsRecord(n, f)) ==>
                  forall i :: 0 <= i < |n.decls| ==> n.decls[i] < |cfg.graph|)
            && (n.FunctionTemplate? || n.VarTemplate? || n.ClassTemplate? ==>
                  forall i :: 0 <= i < |n.specializations| ==> n.specializations[i] < |cfg.graph|)
  {
    ClosedAt(cfg, d, f);
    hide Closed;
    var n := cfg.graph[d];
    var kids := Kids(cfg, d, f);
    if IsScope(n) || (n.Record? && !SkipsRecord(n, f)) {
      assert forall i :: 0 <= i < |n.decls| ==> kids[i].0 == n.decls[i];
    } else if n.FunctionTemplate? || n.VarTemplate? || n.ClassTemplate? {
      var k := |kids| - |n.specializations|;
      assert forall i :: 0 <= i < |n.specializations| ==> kids[k + i].0 == n.specializations[i];
    }
  }

  lemma VisitOne(cfg: Config, st: Walk, d: nat, f: Flags)
    requires Closed(cfg) && d < |cfg.graph|
    ensures VisitAll(cfg, st, [(d, f)]) == Visit(cfg, st, d, f)
  {
    assert [(d, f)][1..] == [];
  }

  lemma NothingBefore(cfg: Config, st: Walk, d: nat, f: Flags)
    requires d < |cfg.graph| && Before(cfg, d, f) == [] && !cfg.graph[d].StaticAssert?
    ensures Start(cfg, st, d, f) == st.(held := st.held && (IsScope(cfg.graph[d]) ==> f.Clear()))
  {
    assert st.log + [] == st.log;
  }

  lemma NothingAfter(cfg: Config, st: Walk, d: nat, f: Flags)
    requires d < |cfg.graph| && After(cfg, d, f) == []
    ensures Finish(cfg, st, d, f) == st
  {
    assert st.log + [] == st.log;
  }

  /** A run over a translation unit leaves in the module what the traversal of its graph says:
      the lists are the definitions and declarations of its log. */
  method Build(cfg: Config, unit: nat) returns (target: Module, held: bool)
    requires Closed(cfg) && unit < |cfg.graph| && cfg.graph[unit].TranslationUnit?
    ensures fresh(target) && target.Valid()
    ensures var r := ModuleWalk.Build(cfg, unit);
            target.log == r.log && target.asserts == r.asserts && held == r.held
  {
    target := new Module();
    var builder := new BuildModule(cfg, target);
    builder.VisitScope(unit, cfg.graph[unit].decls, NO_FLAGS);
    held := builder.held;
  }
}

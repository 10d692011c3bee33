/** The names of types: src/ClangPrinter.cpp mangles the chain of declaration contexts around a
    type after the `<nested-name>` and `<source-name>` rules of section 5.1 of the Itanium
    C++ ABI. */
module Mangling {
  import opened Text
  import opened Formatters
  import opened Lexing
  import opened Docs

  datatype Kind = Namespace | Record | Enumeration

  /** A context and the contexts around it. The name of an unnamed record is that of the typedef
      that names it. */
  datatype Context =
    | Unit
    | Named(kind: Kind, name: string, parent: Context)
    | Linkage(parent: Context)

  /** The names from the outermost context inwards; linkage specifications have none. */
  function Path(c: Context): seq<string> {
    match c
    case Unit => []
    case Named(_, name, parent) => Path(parent) + [name]
    case Linkage(parent) => Path(parent)
  }

  predicate IsIdentifier(name: string) {
    name != "" && !IsDigit(name[0])
  }

  predicate WellNamed(path: seq<string>) {
    forall i :: 0 <= i < |path| ==> IsIdentifier(path[i])
  }

  function SourceName(name: string): string {
    Decimal(|name|) + name
  }

  function SourceNames(path: seq<string>): string {
    if path == [] then "" else SourceName(path[0]) + SourceNames(path[1..])
  }

  /** The mangled name of a path: nested names are bracketed by `N` and `E`. */
  function Mangle(path: seq<string>): string {
    "_Z" + (if |path| > 1 then "N" + SourceNames(path) + "E" else SourceNames(path))
  }

  lemma {:induction false} SourceNamesAppend(path: seq<string>, name: string)
    ensures SourceNames(path + [name]) == SourceNames(path) + SourceName(name)
    decreases |path|
  {
    if path == [] {
      assert ([name])[1..] == [];
      assert [] + [name] == [name];
    } else {
      assert (path + [name])[1..] == path[1..] + [name];
      SourceNamesAppend(path[1..], name);
    }
  }

  /** What one call writes when `remaining` names are still to come after it. */
  function Portion(path: seq<string>, remaining: nat): string {
    "_Z" + (if remaining + |path| > 1 then "N" else "") + SourceNames(path)
    + (if remaining == 0 && |path| > 1 then "E" else "")
  }

  lemma PortionOfUnit(remaining: nat)
    ensures Portion([], remaining) == "_Z" + (if 1 < remaining then "N" else "")
  {
  }

  /** The portion of a name is that of the context around it, the name, and perhaps the end. */
  lemma PortionGrows(path: seq<string>, name: string, remaining: nat)
    ensures Portion(path + [name], remaining)
         == Portion(path, remaining + 1) + Decimal(|name|) + name
            + (if remaining == 0 && 0 < |path| then "E" else "")
  {
    hide Decimal, SourceNames;
    SourceNamesAppend(path, name);
    var z := "_Z" + (if remaining + 1 + |path| > 1 then "N" else "");
    var e := if remaining == 0 && 0 < |path| then "E" else "";
    var ss, d := SourceNames(path), Decimal(|name|);
    assert Portion(path, remaining + 1) == z + ss by {
      assert z + ss + "" == z + ss;
    }
    assert Portion(path + [name], remaining) == z + (ss + (d + name)) + e;
    Regroup(z, ss, d, name, e);
  }

  lemma Regroup(z: string, ss: string, d: string, name: string, e: string)
    ensures z + (ss + (d + name)) + e == z + ss + d + name + e
  {
    assert z + (ss + (d + name)) == z + ss + d + name;
  }

  lemma WrittenName(st: State, outer: string, name: string, last: string)
    ensures Written(Written(Written(st, outer), Decimal(|name|)), name) == Written(st, outer + Decimal(|name|) + name)
    ensures Written(Written(st, outer + Decimal(|name|) + name), last)
         == Written(st, outer + Decimal(|name|) + name + last)
  {
    hide Written, Decimal;
    WrittenTwice(st, outer, Decimal(|name|));
    WrittenTwice(st, outer + Decimal(|name|), name);
    WrittenTwice(st, outer + Decimal(|name|) + name, last);
  }

  /** Whether `N` is needed is decided by counting names down to the outermost context, and
      whether `E` is by counting them back up; the two agree. */
  method PrintSimpleContext(f: Formatter, c: Context, remaining: nat) returns (compound: nat)
    modifies f
    ensures f.St() == Written(old(f.St()), Portion(Path(c), remaining))
    ensures compound == |Path(c)|
    ensures f.depth == old(f.depth)
    decreases c
  {
    hide Written, Decimal, Portion;
    match c
    case Unit =>
      f.Put("_Z");
      f.Put(if 1 < remaining then "N" else "");
      WrittenTwice(old(f.St()), "_Z", if 1 < remaining then "N" else "");
      PortionOfUnit(remaining);
      return 0;
    case Named(_, name, parent) =>
      var n := PrintSimpleContext(f, parent, remaining + 1);
      f.Put(Decimal(|name|));
      f.Put(name);
      if remaining == 0 && 0 < n {
        f.Put("E");
      }
      ghost var outer := Portion(Path(parent), remaining + 1);
      WrittenName(old(f.St()), outer, name, "E");
      PortionGrows(Path(parent), name, remaining);
      assert outer + Decimal(|name|) + name + "" == outer + Decimal(|name|) + name;
      return n + 1;
    case Linkage(parent) =>
      compound := PrintSimpleContext(f, parent, remaining);
  }

  /** The name of a type, in quotes. */
  method PrintTypeName(f: Formatter, c: Context)
    modifies f
    ensures f.St() == Quotation(old(f.St()), Mangle(Path(c)))
    ensures f.depth == old(f.depth)
  {
    f.Put("\"");
    var _ := PrintSimpleContext(f, c, 0);
    f.Put("\"");
    assert Portion(Path(c), 0) == Mangle(Path(c));
  }

  /** A type `B` in a namespace or class `A`. */
  lemma NestedName(a: string, b: string, outer: Kind, inner: Kind)
    ensures Mangle(Path(Named(inner, b, Named(outer, a, Unit)))) == "_ZN" + Decimal(|a|) + a + Decimal(|b|) + b + "E"
  {
    hide Decimal;
    var path := Path(Named(inner, b, Named(outer, a, Unit)));
    assert Path(Unit) == [] && Path(Named(outer, a, Unit)) == [a];
    assert path == [a, b] && path[1..] == [b] && [b][1..] == [];
    assert SourceNames([b]) == SourceName(b) + "" == SourceName(b);
    assert SourceNames(path) == SourceName(a) + SourceName(b);
  }

  // ---- Reading a mangled name ----------------------------------------------------------------

  function Digits(s: string): (n: nat)
    ensures n <= |s| && forall i :: 0 <= i < n ==> IsDigit(s[i])
    ensures n < |s| ==> !IsDigit(s[n])
  {
    if s == "" || !IsDigit(s[0]) then 0 else 1 + Digits(s[1..])
  }

  /** A source name at the head of a text, and what follows it. */
  function TakeName(s: string): (r: Option<(string, string)>)
    ensures r.Some? ==> |r.value.1| < |s|
  {
    var d := Digits(s);
    if d == 0 then None
    else
      var n := DecimalValue(s[..d]);
      if n > |s| - d then None else Some((s[d..d + n], s[d + n..]))
  }

  /** Source names up to the final `E`. */
  function TakeNames(s: string): Option<seq<string>>
    decreases |s|
  {
    if s == "E" then Some([])
    else
      match TakeName(s)
      case None => None
      case Some((name, rest)) =>
        match TakeNames(rest)
        case None => None
        case Some(names) => Some([name] + names)
  }

  function Demangle(s: string): Option<seq<string>> {
    if |s| < 2 || s[..2] != "_Z" then None
    else if |s| == 2 then Some([])
    else if s[2] == 'N' then TakeNames(s[3..])
    else
      match TakeName(s[2..])
      case Some((name, "")) => Some([name])
      case _ => None
  }

  lemma DigitsOf(n: nat, name: string, rest: string)
    requires name != "" && !IsDigit(name[0])
    ensures Digits(Decimal(n) + name + rest) == |Decimal(n)|
  {
    var s := Decimal(n) + name + rest;
    assert s[|Decimal(n)|] == name[0];
    assert forall i :: 0 <= i < |Decimal(n)| ==> s[i] == Decimal(n)[i];
  }

  /** A source name is read back whatever follows it. */
  lemma TakeSourceName(name: string, rest: string)
    requires IsIdentifier(name)
    ensures TakeName(SourceName(name) + rest) == Some((name, rest))
  {
    var d := Decimal(|name|);
    var s := SourceName(name) + rest;
    DigitsOf(|name|, name, rest);
    DecimalRoundTrip(|name|);
    assert s[..|d|] == d;
    assert s[|d|..|d| + |name|] == name;
    assert s[|d| + |name|..] == rest;
  }

  lemma StartsWithDigit(name: string, rest: string)
    ensures SourceName(name) + rest != "E"
  {
    assert (SourceName(name) + rest)[0] == Decimal(|name|)[0];
  }

  lemma {:induction false} TakeSourceNames(path: seq<string>)
    requires WellNamed(path)
    ensures TakeNames(SourceNames(path) + "E") == Some(path)
    decreases |path|
  {
    if path == [] {
      assert "" + "E" == "E";
    } else {
      hide TakeName, SourceName;
      var rest := SourceNames(path[1..]) + "E";
      assert SourceNames(path) + "E" == SourceName(path[0]) + rest;
      TakeSourceName(path[0], rest);
      TakeSourceNames(path[1..]);
      StartsWithDigit(path[0], rest);
      assert [path[0]] + path[1..] == path;
    }
  }

  /** A mangled name determines its path. */
  lemma MangleRoundTrip(path: seq<string>)
    requires WellNamed(path)
    ensures Demangle(Mangle(path)) == Some(path)
  {
    var s := Mangle(path);
    if |path| > 1 {
      assert s[..2] == "_Z" && s[2] == 'N';
      assert s[3..] == SourceNames(path) + "E";
      TakeSourceNames(path);
    } else if |path| == 1 {
      assert path[1..] == [] && path == [path[0]];
      assert SourceNames(path) == SourceName(path[0]) + "";
      TakeSourceName(path[0], "");
      assert s[..2] == "_Z" && s[2..] == SourceName(path[0]) + "";
      assert IsDigit(s[2]) by { assert s[2] == Decimal(|path[0]|)[0]; }
    } else {
      assert s == "_Z" && s[..2] == "_Z";
    }
  }

  /** A context without its linkage specifications and the kinds of its members. */
  function Stripped(c: Context): Context {
    match c
    case Unit => Unit
    case Named(_, name, parent) => Named(Namespace, name, Stripped(parent))
    case Linkage(parent) => Stripped(parent)
  }

  lemma {:induction false} PathStripped(c: Context)
    ensures Path(Stripped(c)) == Path(c)
  {
    match c
    case Unit =>
    case Named(_, _, parent) => PathStripped(parent);
    case Linkage(parent) => PathStripped(parent);
  }

  lemma {:induction false} PathDetermines(c: Context, d: Context)
    requires Path(Stripped(c)) == Path(Stripped(d))
    ensures Stripped(c) == Stripped(d)
    decreases c, d
  {
    if c.Linkage? {
      PathDetermines(c.parent, d);
    } else if d.Linkage? {
      PathDetermines(c, d.parent);
    } else if c.Named? && d.Named? {
      var (a, b) := (Path(Stripped(c.parent)), Path(Stripped(d.parent)));
      assert (a + [c.name])[..|a|] == a && (b + [d.name])[..|b|] == b;
      assert (a + [c.name])[|a|] == c.name && (b + [d.name])[|b|] == d.name;
      PathDetermines(c.parent, d.parent);
    }
  }

  /** The printed names of two types agree exactly when their contexts do, linkage specifications
      and the kinds of contexts on the way aside. */
  lemma ManglingInjective(c: Context, d: Context)
    requires WellNamed(Path(c)) && WellNamed(Path(d))
    ensures Mangle(Path(c)) == Mangle(Path(d)) <==> Stripped(c) == Stripped(d)
  {
    hide Mangle;
    MangleRoundTrip(Path(c));
    MangleRoundTrip(Path(d));
    PathStripped(c);
    PathStripped(d);
    if Path(c) == Path(d) {
      PathDetermines(c, d);
    }
  }

  lemma {:induction false} SourceNamesPlain(path: seq<string>)
    requires forall i :: 0 <= i < |path| ==> IsPlain(path[i])
    ensures IsPlain(SourceNames(path))
    decreases |path|
  {
    if path == [] {
    } else {
      SourceNamesPlain(path[1..]);
    }
  }

  /** A mangled name can stand between quotes. */
  lemma MangledPlain(path: seq<string>)
    requires forall i :: 0 <= i < |path| ==> IsPlain(path[i])
    ensures IsPlain(Mangle(path))
  {
    SourceNamesPlain(path);
  }
}

/** The visitor for class declarations and expressions: the candidate guard,
    once-per-file helper injection, and placement of the wrapper according to
    the class's syntactic context. The file is a mutable object, as Babel's
    program path is; its methods are specified by the functions below. */
module Plugin {
  import opened Syntax
  import opened Renaming
  import opened Wrapper

  /** A compilation unit: the names bound in its top-level scope and its
      top-level statements. */
  datatype Unit = Unit(bound: set<string>, body: seq<Node>)

  function Program(body: seq<Node>): Node {
    Other("Program", body)
  }

  /** The helper's function expression; what it does is `Runtime.Helper`. */
  const HelperFunction: Node := Other("HelperFunction", [])

  /** `var __babelPluginTransformClassExtendedHook = function(...) {...}` */
  const HelperDeclaration: Node := VarDecl(Var, Ident(HelperName), HelperFunction)

  /** `addHelperToFile`: nothing when the name is already bound in the file
      scope, otherwise `file.scope.push`, which puts one declaration at the
      top of the program and binds the name. */
  function WithHelper(u: Unit): (r: Unit)
    // afterwards the name is bound; a file that had it is left alone
    ensures r.bound == u.bound + {HelperName}
    ensures HelperName in u.bound ==> r == u
    // otherwise one statement goes in on top of the old ones
    ensures HelperName !in u.bound ==> |r.body| == |u.body| + 1 && r.body[1..] == u.body
  {
    if HelperName in u.bound then u
    else Unit(u.bound + {HelperName}, [HelperDeclaration] + u.body)
  }

  /** How many top-level helper declarations a program holds. */
  function HelperCount(s: seq<Node>): nat {
    if s == [] then 0 else (if s[0] == HelperDeclaration then 1 else 0) + HelperCount(s[1..])
  }

  /** At most one helper declaration, and none can be added once there is one. */
  predicate HelperUnique(u: Unit) {
    HelperCount(u.body) <= 1 && (HelperCount(u.body) == 1 ==> HelperName in u.bound)
  }

  /** Injecting the helper adds exactly one declaration when the name is
      free, none otherwise, and afterwards the name is bound. */
  lemma WithHelperCount(u: Unit)
    ensures HelperName in WithHelper(u).bound && WithHelper(u).bound == u.bound + {HelperName}
    ensures HelperCount(WithHelper(u).body) == HelperCount(u.body) + (if HelperName in u.bound then 0 else 1)
  {
    if HelperName !in u.bound {
      assert ([HelperDeclaration] + u.body)[1..] == u.body;
    }
  }

  /** Injecting twice is injecting once. */
  lemma WithHelperIdempotent(u: Unit)
    ensures WithHelper(WithHelper(u)) == WithHelper(u)
  {
  }

  lemma WithHelperUnique(u: Unit)
    requires HelperUnique(u)
    ensures HelperUnique(WithHelper(u))
  {
    WithHelperCount(u);
  }

  lemma {:induction false} HelperCountConcat(a: seq<Node>, b: seq<Node>)
    ensures HelperCount(a + b) == HelperCount(a) + HelperCount(b)
  {
    if a == [] {
      assert a + b == b;
    } else {
      assert (a + b)[0] == a[0] && (a + b)[1..] == a[1..] + b;
      HelperCountConcat(a[1..], b);
    }
  }

  lemma HelperCountUpdate(s: seq<Node>, i: nat, v: Node)
    requires i < |s|
    ensures HelperCount(s[i := v]) + (if s[i] == HelperDeclaration then 1 else 0)
         == HelperCount(s) + (if v == HelperDeclaration then 1 else 0)
  {
    assert s == s[..i] + [s[i]] + s[i + 1..];
    assert s[i := v] == s[..i] + [v] + s[i + 1..];
    HelperCountConcat(s[..i] + [s[i]], s[i + 1..]);
    HelperCountConcat(s[..i], [s[i]]);
    HelperCountConcat(s[..i] + [v], s[i + 1..]);
    HelperCountConcat(s[..i], [v]);
  }

  /** The only nodes inside the helper declaration: no class, no call, no
      other declaration. */
  lemma HelperDeclarationNodes(p: seq<nat>)
    requires At(HelperDeclaration, p).Some?
    ensures var n := At(HelperDeclaration, p).value;
      n == HelperDeclaration || n == Ident(HelperName) || n == HelperFunction
  {
    if p != [] {
      assert Kids(HelperDeclaration) == [Ident(HelperName), HelperFunction];
      assert Kids(Kids(HelperDeclaration)[p[0]]) == [];
    }
  }

  /** A class position: a path from the program to a class node. */
  predicate IsSite(body: seq<Node>, loc: seq<nat>) {
    |loc| >= 1 && At(Program(body), loc).Some? && At(Program(body), loc).value.Class?
  }

  function ClassAt(body: seq<Node>, loc: seq<nat>): Node
    requires IsSite(body, loc)
  {
    At(Program(body), loc).value
  }

  /** `path.parent` */
  function ParentAt(body: seq<Node>, loc: seq<nat>): Node
    requires IsSite(body, loc)
  {
    AtPrefix(Program(body), loc, |loc| - 1);
    At(Program(body), loc[..|loc| - 1]).value
  }

  /** The guard at the top of the visitor: a superclass, and not the plugin's own class. */
  function IsCandidate(cls: Node): (r: bool)
    // only a class with a superclass is transformed, and never a tagged one
    ensures r ==> cls.Class? && cls.superClass.Some? && !cls.skip
    ensures cls.Class? && cls.superClass.Some? && !cls.skip ==> r
  {
    cls.Class? && cls.superClass.Some? && !cls.skip
  }

  datatype Context = ExportDefaultContext | DeclarationContext | ExpressionContext

  /** The branch the visitor takes: the parent first, then the node's own kind. */
  function ContextOf(parent: Node, cls: Node): (r: Context)
    requires cls.Class?
    // a default export wins over the class's own kind
    ensures r == ExportDefaultContext <==> parent.ExportDefault?
    ensures r == DeclarationContext <==> !parent.ExportDefault? && cls.isDecl
    ensures r == ExpressionContext <==> !parent.ExportDefault? && !cls.isDecl
  {
    if parent.ExportDefault? then ExportDefaultContext
    else if cls.isDecl then DeclarationContext
    else ExpressionContext
  }

  /** A name that the generated code does not already use anywhere. */
  predicate Fresh(u: Unit, x: string) {
    x !in Names(Program(u.body)) && x != HelperName
  }

  /** What a visit needs: a class position; and for a candidate, that
      `transform` can run, that the statement forms have a name to bind,
      that an export default is a top-level statement, and fresh names
      from the unique-name generator. */
  ghost predicate CanVisit(u: Unit, loc: seq<nat>, childUid: string, parentUid: string) {
    && IsSite(u.body, loc)
    && var cls := ClassAt(u.body, loc);
       var parent := ParentAt(u.body, loc);
       var name := ChildName(cls, parent);
       IsCandidate(cls) ==>
         && Transformable(cls, name)
         && (ContextOf(parent, cls) != ExpressionContext ==> name.Some?)
         && (ContextOf(parent, cls) == ExportDefaultContext ==> |loc| == 2)
         && Fresh(u, childUid) && Fresh(u, parentUid) && childUid != parentUid
  }

  /** The name the visitor infers is one the program already uses. */
  lemma ChildNameInProgram(body: seq<Node>, loc: seq<nat>)
    requires IsSite(body, loc)
    ensures var name := ChildName(ClassAt(body, loc), ParentAt(body, loc));
      name.Some? ==> name.value in Names(Program(body))
  {
    var cls, parent := ClassAt(body, loc), ParentAt(body, loc);
    NamesAt(Program(body), loc);
    AtPrefix(Program(body), loc, |loc| - 1);
    NamesAt(Program(body), loc[..|loc| - 1]);
  }

  /** The replacement's position after the helper went in at the top: the
      visited statement moved down by one. */
  function Shifted(u: Unit, loc: seq<nat>): seq<nat>
    requires |loc| >= 1
  {
    if HelperName in u.bound then loc else [loc[0] + 1] + loc[1..]
  }

  lemma ShiftedSite(u: Unit, loc: seq<nat>)
    requires IsSite(u.body, loc)
    ensures IsSite(WithHelper(u).body, Shifted(u, loc))
    ensures ClassAt(WithHelper(u).body, Shifted(u, loc)) == ClassAt(u.body, loc)
    ensures |loc| >= 2 ==> ParentAt(WithHelper(u).body, Shifted(u, loc)) == ParentAt(u.body, loc)
    ensures |loc| == 1 ==> ParentAt(WithHelper(u).body, Shifted(u, loc)) == Program(WithHelper(u).body)
    ensures |loc| == 1 ==> ParentAt(u.body, loc) == Program(u.body)
  {
    var here := Shifted(u, loc);
    if HelperName !in u.bound {
      var b1 := WithHelper(u).body;
      assert b1[loc[0] + 1] == u.body[loc[0]];
      assert here[0] == loc[0] + 1 && here[1..] == loc[1..];
      AtPrefix(Program(u.body), loc, |loc| - 1);
      if |loc| >= 2 {
        var pl := loc[..|loc| - 1];
        assert here[..|here| - 1][0] == pl[0] + 1 && here[..|here| - 1][1..] == pl[1..];
      }
    }
  }

  /** The statement the visited position lies in is not a helper
      declaration, before or after anything is put at that position. */
  lemma NotHelperStatement(s: Node, p: seq<nat>, x: Node)
    requires At(s, p).Some? && At(s, p).value.Class?
    requires x.Call? || (x.VarDecl? && x.kind == Let) || x.Ident?
    requires x.Ident? ==> s.ExportDefault?
    ensures s != HelperDeclaration && ReplaceAt(s, p, x) != HelperDeclaration
  {
    if s == HelperDeclaration {
      HelperDeclarationNodes(p);
    }
    if p == [] {
    } else if x.Ident? {
      assert ReplaceAt(s, p, x).ExportDefault?;
    } else if ReplaceAt(s, p, x) == HelperDeclaration {
      ReplaceAtHere(s, p, x, []);
      assert p + [] == p;
      HelperDeclarationNodes(p);
    }
  }

  /** `replaceWith` below the program node replaces one top-level statement. */
  lemma ReplaceInProgram(body: seq<Node>, loc: seq<nat>, x: Node)
    requires |loc| >= 1 && At(Program(body), loc).Some?
    ensures ReplaceAt(Program(body), loc, x)
         == Program(body[loc[0] := ReplaceAt(body[loc[0]], loc[1..], x)])
  {
  }

  /** Placement: the tree surgery of the visitor's three branches. */
  function Place(body: seq<Node>, loc: seq<nat>, name: Option<string>, iife: Node): (r: seq<Node>)
    requires IsSite(body, loc)
    requires ContextOf(ParentAt(body, loc), ClassAt(body, loc)) != ExpressionContext ==> name.Some?
    requires ParentAt(body, loc).ExportDefault? ==> |loc| == 2
    // only a default export adds a statement
    ensures |r| == |body| + (if ParentAt(body, loc).ExportDefault? then 1 else 0)
  {
    var cls, parent := ClassAt(body, loc), ParentAt(body, loc);
    if parent.ExportDefault? then
      // `path.parentPath.insertBefore(var name = IIFE)`, then `path.replaceWith(name)`
      var i := loc[0];
      var withVar := body[..i] + [VarDecl(Var, Ident(name.value), iife)] + body[i..];
      assert withVar[i + 1] == body[i];
      Kids(ReplaceAt(Program(withVar), [i + 1] + loc[1..], Ident(name.value)))
    else if cls.isDecl then
      Kids(ReplaceAt(Program(body), loc, VarDecl(Let, Ident(name.value), iife)))
    else
      Kids(ReplaceAt(Program(body), loc, iife))
  }

  lemma ExportDefaultSite(body: seq<Node>, loc: seq<nat>)
    requires IsSite(body, loc) && ParentAt(body, loc).ExportDefault? && |loc| == 2
    ensures loc[0] < |body| && body[loc[0]].ExportDefault? && loc[1..] == [0] && loc == [loc[0], 0]
  {
    var i := loc[0];
    assert Kids(Program(body)) == body;
    assert i < |body| && At(Program(body), loc) == At(body[i], loc[1..]);
    assert loc[..1] == [i] && [i][1..] == [];
    assert At(Program(body), [i]) == At(body[i], []);
    assert body[i].ExportDefault?;
    assert loc[1..] == [loc[1]] && [loc[1]][1..] == [];
    assert loc[1] < |Kids(body[i])|;
  }

  /** A default export: `var name = IIFE` right before the export statement,
      which now exports the bare name; every other statement is kept. */
  lemma PlaceExportDefault(body: seq<Node>, loc: seq<nat>, name: string, iife: Node)
    requires IsSite(body, loc) && ParentAt(body, loc).ExportDefault? && |loc| == 2
    ensures var i := loc[0];
      Place(body, loc, Some(name), iife)
      == body[..i] + [VarDecl(Var, Ident(name), iife), ExportDefault(Ident(name))] + body[i + 1..]
  {
    var i := loc[0];
    ExportDefaultSite(body, loc);
    var withVar := body[..i] + [VarDecl(Var, Ident(name), iife)] + body[i..];
    assert withVar[i + 1] == body[i];
    ReplaceInProgram(withVar, [i + 1] + loc[1..], Ident(name));
    assert ([i + 1] + loc[1..])[1..] == [0];
    assert ReplaceAt(body[i], [0], Ident(name)) == ExportDefault(Ident(name));
    assert withVar[i + 1 := ExportDefault(Ident(name))]
        == body[..i] + [VarDecl(Var, Ident(name), iife), ExportDefault(Ident(name))] + body[i + 1..];
  }

  /** A declaration or an expression: the class's position now holds the
      `let` declaration or the IIFE, and no position beside or above it
      holds anything new. */
  lemma PlaceInPosition(body: seq<Node>, loc: seq<nat>, name: Option<string>, iife: Node)
    requires IsSite(body, loc) && !ParentAt(body, loc).ExportDefault?
    requires ClassAt(body, loc).isDecl ==> name.Some?
    ensures var r := Place(body, loc, name, iife);
      && At(Program(r), loc)
         == Some(if ClassAt(body, loc).isDecl then VarDecl(Let, Ident(name.value), iife) else iife)
      && (forall q :: !IsPrefix(loc, q) && !IsPrefix(q, loc) ==> At(Program(r), q) == At(Program(body), q))
      // every node above keeps its place and its own fields
      && (forall q :: IsPrefix(q, loc) && |q| < |loc| ==>
            && At(Program(r), q).Some? && At(Program(body), q).Some?
            && Head(At(Program(r), q).value) == Head(At(Program(body), q).value))
  {
    PlaceReplace(body, loc, name, iife);
    ReplaceAtSummary(Program(body), loc, if ClassAt(body, loc).isDecl then VarDecl(Let, Ident(name.value), iife) else iife);
  }

  /** Under a default export, placement is one `insertBefore` and one `replaceWith`. */
  lemma PlaceExportDefaultSteps(body: seq<Node>, loc: seq<nat>, name: Option<string>, iife: Node)
    requires IsSite(body, loc) && ParentAt(body, loc).ExportDefault? && |loc| == 2 && name.Some?
    ensures var i := loc[0];
      var withVar := body[..i] + [VarDecl(Var, Ident(name.value), iife)] + body[i..];
      && At(Program(withVar), [i + 1] + loc[1..]).Some?
      && Place(body, loc, name, iife) == Kids(ReplaceAt(Program(withVar), [i + 1] + loc[1..], Ident(name.value)))
  {
  }

  /** In a declaration or an expression context, placement is one `replaceWith`. */
  lemma PlaceReplace(body: seq<Node>, loc: seq<nat>, name: Option<string>, iife: Node)
    requires IsSite(body, loc) && !ParentAt(body, loc).ExportDefault?
    requires ClassAt(body, loc).isDecl ==> name.Some?
    ensures Program(Place(body, loc, name, iife))
         == ReplaceAt(Program(body), loc, if ClassAt(body, loc).isDecl then VarDecl(Let, Ident(name.value), iife) else iife)
  {
    ReplaceInProgram(body, loc, if ClassAt(body, loc).isDecl then VarDecl(Let, Ident(name.value), iife) else iife);
  }

  /** Placement never adds or removes a helper declaration. */
  lemma PlaceHelperCount(body: seq<Node>, loc: seq<nat>, name: Option<string>, iife: Node)
    requires IsSite(body, loc)
    requires ContextOf(ParentAt(body, loc), ClassAt(body, loc)) != ExpressionContext ==> name.Some?
    requires ParentAt(body, loc).ExportDefault? ==> |loc| == 2
    requires iife.Call?
    ensures HelperCount(Place(body, loc, name, iife)) == HelperCount(body)
  {
    if ParentAt(body, loc).ExportDefault? {
      PlaceExportDefault(body, loc, name.value, iife);
      ExportDefaultSite(body, loc);
      ExportHelperCount(body, loc[0], name.value, iife);
    } else {
      ReplaceHelperCount(body, loc, name, iife);
    }
  }

  lemma ExportHelperCount(body: seq<Node>, j: nat, name: string, iife: Node)
    requires j < |body| && body[j].ExportDefault? && iife.Call?
    ensures HelperCount(body[..j] + [VarDecl(Var, Ident(name), iife), ExportDefault(Ident(name))] + body[j + 1..])
         == HelperCount(body)
  {
    var pair := [VarDecl(Var, Ident(name), iife), ExportDefault(Ident(name))];
    assert body == body[..j] + [body[j]] + body[j + 1..];
    HelperCountConcat(body[..j] + [body[j]], body[j + 1..]);
    HelperCountConcat(body[..j], [body[j]]);
    HelperCountConcat(body[..j] + pair, body[j + 1..]);
    HelperCountConcat(body[..j], pair);
    assert pair[1..] == [ExportDefault(Ident(name))] && [ExportDefault(Ident(name))][1..] == [];
    assert [body[j]][1..] == [];
    assert HelperCount([body[j]]) == 0 && HelperCount(pair) == 0;
  }

  lemma ReplaceHelperCount(body: seq<Node>, loc: seq<nat>, name: Option<string>, iife: Node)
    requires IsSite(body, loc) && !ParentAt(body, loc).ExportDefault?
    requires ClassAt(body, loc).isDecl ==> name.Some?
    requires iife.Call?
    ensures HelperCount(Place(body, loc, name, iife)) == HelperCount(body)
  {
    var j := loc[0];
    assert Kids(Program(body)) == body;
    assert At(body[j], loc[1..]) == At(Program(body), loc);
    var x := if ClassAt(body, loc).isDecl then VarDecl(Let, Ident(name.value), iife) else iife;
    PlaceReplace(body, loc, name, iife);
    ReplaceInProgram(body, loc, x);
    HelperCountUpdate(body, j, ReplaceAt(body[j], loc[1..], x));
    NotHelperStatement(body[j], loc[1..], x);
  }

  /** Where statement `k` of the wrapper ends up after placement. */
  function PlacedPath(body: seq<Node>, loc: seq<nat>, k: nat): seq<nat>
    requires IsSite(body, loc)
  {
    if ParentAt(body, loc).ExportDefault? then [loc[0], 1, 0, k]
    else if ClassAt(body, loc).isDecl then loc + [1, 0, k]
    else loc + [0, k]
  }

  lemma IifeStatementAt(iife: Node, k: nat)
    requires IsIife(iife) && k < |Statements(iife)|
    ensures At(iife, [0, k]) == Some(Statements(iife)[k])
  {
    assert Kids(iife) == [iife.callee];
    assert At(iife, [0, k]) == At(iife.callee, [k]) by { assert [0, k][1..] == [k]; }
    assert Kids(iife.callee) == Statements(iife);
    assert At(iife.callee, [k]) == At(Statements(iife)[k], []) by { assert [k][1..] == []; }
  }

  /** Every statement of the wrapper is reachable at its placed path. */
  lemma PlaceStatementAt(body: seq<Node>, loc: seq<nat>, name: Option<string>, iife: Node, k: nat)
    requires IsSite(body, loc)
    requires ContextOf(ParentAt(body, loc), ClassAt(body, loc)) != ExpressionContext ==> name.Some?
    requires ParentAt(body, loc).ExportDefault? ==> |loc| == 2
    requires IsIife(iife) && k < |Statements(iife)|
    ensures At(Program(Place(body, loc, name, iife)), PlacedPath(body, loc, k)) == Some(Statements(iife)[k])
  {
    IifeStatementAt(iife, k);
    var r := Place(body, loc, name, iife);
    var g := PlacedPath(body, loc, k);
    if ParentAt(body, loc).ExportDefault? {
      PlaceExportDefault(body, loc, name.value, iife);
      ExportDefaultSite(body, loc);
      var decl := VarDecl(Var, Ident(name.value), iife);
      assert Kids(Program(r)) == r && r[loc[0]] == decl;
      assert At(Program(r), g) == At(decl, [1, 0, k]) by { assert g[1..] == [1, 0, k]; }
      assert At(decl, [1, 0, k]) == At(iife, [0, k]) by { assert [1, 0, k][1..] == [0, k]; }
    } else {
      var x := if ClassAt(body, loc).isDecl then VarDecl(Let, Ident(name.value), iife) else iife;
      ReplaceInProgram(body, loc, x);
      assert Program(r) == ReplaceAt(Program(body), loc, x);
      var tail := if ClassAt(body, loc).isDecl then [1, 0, k] else [0, k];
      assert g == loc + tail;
      ReplaceAtHere(Program(body), loc, x, tail);
      if ClassAt(body, loc).isDecl {
        assert At(x, [1, 0, k]) == At(iife, [0, k]) by { assert [1, 0, k][1..] == [0, k]; }
      }
    }
  }

  /** The visitor `"ClassDeclaration|ClassExpression"(path, state)`. */
  function VisitSpec(u: Unit, loc: seq<nat>, childUid: string, parentUid: string): (r: Unit)
    requires CanVisit(u, loc, childUid, parentUid)
    ensures !IsCandidate(ClassAt(u.body, loc)) ==> r == u
    ensures IsCandidate(ClassAt(u.body, loc)) ==> r.bound == u.bound + {HelperName}
  {
    var cls := ClassAt(u.body, loc);
    if !IsCandidate(cls) then u
    else
      var parent := ParentAt(u.body, loc);
      var name := ChildName(cls, parent);
      ChildNameInProgram(u.body, loc);
      var iife := Transform(cls, name, childUid, parentUid);
      var u1 := WithHelper(u);
      ShiftedSite(u, loc);
      Unit(u1.bound, Place(u1.body, Shifted(u, loc), name, iife))
  }

  /** The candidate branch of `VisitSpec`, spelled out for the lemmas below. */
  lemma VisitCandidate(u: Unit, loc: seq<nat>, childUid: string, parentUid: string)
    requires CanVisit(u, loc, childUid, parentUid) && IsCandidate(ClassAt(u.body, loc))
    ensures var cls := ClassAt(u.body, loc);
      var name := ChildName(cls, ParentAt(u.body, loc));
      var here := Shifted(u, loc);
      var b1 := WithHelper(u).body;
      && Transformable(cls, name) && (name.Some? ==> parentUid != name.value)
      && IsSite(b1, here) && ClassAt(b1, here) == cls
      && ParentAt(b1, here).ExportDefault? == ParentAt(u.body, loc).ExportDefault?
      && ChildName(cls, ParentAt(b1, here)) == name
      && (ContextOf(ParentAt(b1, here), cls) != ExpressionContext ==> name.Some?)
      && (ParentAt(b1, here).ExportDefault? ==> |here| == 2)
      && VisitSpec(u, loc, childUid, parentUid)
         == Unit(u.bound + {HelperName}, Place(b1, here, name, Transform(cls, name, childUid, parentUid)))
  {
    ChildNameInProgram(u.body, loc);
    ShiftedSite(u, loc);
  }

  /** The helper is declared once per file: a visit adds a declaration only
      when it transforms a class and the name was free, and files that had
      at most one keep at most one. */
  lemma VisitHelperCount(u: Unit, loc: seq<nat>, childUid: string, parentUid: string)
    requires CanVisit(u, loc, childUid, parentUid)
    ensures var r := VisitSpec(u, loc, childUid, parentUid);
      HelperCount(r.body) == HelperCount(u.body)
        + (if IsCandidate(ClassAt(u.body, loc)) && HelperName !in u.bound then 1 else 0)
    ensures HelperUnique(u) ==> HelperUnique(VisitSpec(u, loc, childUid, parentUid))
  {
    var cls := ClassAt(u.body, loc);
    if IsCandidate(cls) {
      VisitCandidate(u, loc, childUid, parentUid);
      var name := ChildName(cls, ParentAt(u.body, loc));
      WithHelperCount(u);
      PlaceHelperCount(WithHelper(u).body, Shifted(u, loc), name, Transform(cls, name, childUid, parentUid));
    }
  }

  /** Where the plugin's own class sits after a visit. */
  function GeneratedPath(u: Unit, loc: seq<nat>): seq<nat>
    requires IsSite(u.body, loc)
  {
    ShiftedSite(u, loc);
    var k := if ClassAt(u.body, loc).superClass.Some? && !ClassAt(u.body, loc).superClass.value.Ident? then 1 else 0;
    PlacedPath(WithHelper(u).body, Shifted(u, loc), k)
  }

  /** Visiting the plugin's own output does nothing: after a transform, the
      class at the generated position is the tagged one, and the visitor
      leaves the file as it is. */
  lemma RevisitGenerated(u: Unit, loc: seq<nat>, childUid: string, parentUid: string,
                         uid2: string, parent2: string)
    requires CanVisit(u, loc, childUid, parentUid) && IsCandidate(ClassAt(u.body, loc))
    ensures var r := VisitSpec(u, loc, childUid, parentUid);
      var g := GeneratedPath(u, loc);
      && IsSite(r.body, g)
      && ClassAt(r.body, g).skip && ClassAt(r.body, g).id == Some(childUid)
      && CanVisit(r, g, uid2, parent2)
      && VisitSpec(r, g, uid2, parent2) == r
  {
    var cls := ClassAt(u.body, loc);
    var name := ChildName(cls, ParentAt(u.body, loc));
    VisitCandidate(u, loc, childUid, parentUid);
    var iife := Transform(cls, name, childUid, parentUid);
    var k := |Statements(iife)| - 2;
    PlaceStatementAt(WithHelper(u).body, Shifted(u, loc), name, iife, k);
  }

  /** The file being compiled, updated in place by the visitor. */
  class File {
    var bound: set<string>
    var body: seq<Node>

    function State(): Unit
      reads this
    {
      Unit(bound, body)
    }

    constructor (bound0: set<string>, body0: seq<Node>)
      ensures State() == Unit(bound0, body0)
    {
      bound := bound0;
      body := body0;
    }

    /** `addHelperToFile(state.file)` */
    method AddHelperToFile()
      modifies this
      ensures State() == WithHelper(old(State()))
    {
      if HelperName in bound {
        return;
      }
      body := [HelperDeclaration] + body;
      bound := bound + {HelperName};
    }

    /** `insertBefore` on the top-level statement at `i`. */
    method InsertBefore(i: nat, stmt: Node)
      requires i <= |body|
      modifies this
      ensures bound == old(bound) && body == old(body)[..i] + [stmt] + old(body)[i..]
    {
      body := body[..i] + [stmt] + body[i..];
    }

    /** `replaceWith` on the node at `loc`. */
    method ReplaceWith(loc: seq<nat>, x: Node)
      requires |loc| >= 1 && At(Program(body), loc).Some?
      modifies this
      ensures bound == old(bound) && body == Kids(ReplaceAt(Program(old(body)), loc, x))
    {
      body := Kids(ReplaceAt(Program(body), loc, x));
    }

    /** The visitor, run on the class at `loc`; `childUid` and `parentUid`
        are what the unique-name generator hands out. */
    method Visit(loc: seq<nat>, childUid: string, parentUid: string)
      requires CanVisit(State(), loc, childUid, parentUid)
      modifies this
      ensures State() == VisitSpec(old(State()), loc, childUid, parentUid)
    {
      ghost var u := State();
      var cls := At(Program(body), loc).value;
      if cls.superClass.None? {
        return;
      }
      if cls.skip {
        return;
      }
      VisitCandidate(u, loc, childUid, parentUid);
      var pushed := HelperName !in bound;
      AddHelperToFile();
      // the NodePath's key follows its statement down when one goes in on top
      var here := if pushed then [loc[0] + 1] + loc[1..] else loc;
      assert here == Shifted(u, loc);
      var name := ChildName(cls, ParentAt(body, here));
      var iife := Transform(cls, name, childUid, parentUid);
      PlaceWrapper(here, name, iife);
    }

    /** The three branches at the end of the visitor: where the wrapper goes
        depends on the class's context. */
    method PlaceWrapper(here: seq<nat>, name: Option<string>, iife: Node)
      requires IsSite(body, here)
      requires ContextOf(ParentAt(body, here), ClassAt(body, here)) != ExpressionContext ==> name.Some?
      requires ParentAt(body, here).ExportDefault? ==> |here| == 2
      modifies this
      ensures bound == old(bound) && body == Place(old(body), here, name, iife)
    {
      ghost var b1 := body;
      var cls := At(Program(body), here).value;
      if ParentAt(body, here).ExportDefault? {
        var i := here[0];
        PlaceExportDefaultSteps(b1, here, name, iife);
        InsertBefore(i, VarDecl(Var, Ident(name.value), iife));
        ReplaceWith([i + 1] + here[1..], Ident(name.value));
      } else if cls.isDecl {
        PlaceReplace(b1, here, name, iife);
        ReplaceWith(here, VarDecl(Let, Ident(name.value), iife));
      } else {
        PlaceReplace(b1, here, name, iife);
        ReplaceWith(here, iife);
      }
    }
  }
}

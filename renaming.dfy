/** The self-reference rewriter: inside the rebuilt class every identifier
    spelled like the class name becomes the fresh internal name, except below
    a scope where that name no longer resolves to the class's own binding. */
module Renaming {
  import opened Syntax

  /** `scope.bindingIdentifierEquals(x, binding.identifier)` for a scope whose
      resolved bindings are `m`. An unresolved name never equals. */
  predicate SameBinding(m: map<string, BindingId>, x: string, b: BindingId) {
    x in m && m[x] == b
  }

  /** Whether the traversal goes below `n`: the `Scope` visitor calls
      `path.skip()` on a scope where `x` resolves to another binding. */
  predicate Enters(n: Node, x: string, b: BindingId) {
    match n
    case Scope(m, _) => SameBinding(m, x, b)
    case Class(_, _, _, _, _, m, _) => SameBinding(m, x, b)
    case _ => true
  }

  /** Whether a node is a scope (something the `Scope` visitor fires on). */
  predicate IsScope(n: Node) {
    n.Scope? || n.Class?
  }

  function RenameName(z: string, x: string, y: string): string {
    if z == x then y else z
  }

  function RenameId(id: Option<string>, x: string, y: string): Option<string> {
    if id.Some? then Some(RenameName(id.value, x, y)) else None
  }

  /** The traversal's effect on the subtree `n`: the `Identifier` visitor
      renames `x` to `y`, the `Scope` visitor prunes shadowing scopes. */
  function Rename(n: Node, x: string, y: string, b: BindingId): (r: Node)
    // a scope where `x` resolves elsewhere is skipped whole
    ensures !Enters(n, x, b) ==> r == n
    decreases n, 1
  {
    match n
    case Ident(z) => Ident(RenameName(z, x, y))
    case StrLit(_) => n
    case Scope(m, body) => if SameBinding(m, x, b) then Scope(m, RenameAll(body, x, y, b)) else n
    case Class(_, _, _, _, _, m, _) => if SameBinding(m, x, b) then RenameClass(n, x, y, b) else n
    case VarDecl(k, t, i) => VarDecl(k, Rename(t, x, y, b), Rename(i, x, y, b))
    case ExportDefault(d) => ExportDefault(Rename(d, x, y, b))
    case Return(a) => Return(Rename(a, x, y, b))
    case Call(c, args) => Call(Rename(c, x, y, b), RenameAll(args, x, y, b))
    case Other(k, cs) => Other(k, RenameAll(cs, x, y, b))
  }

  /** Everything below a class node: its decorators, its id, its superclass
      and its body. This is also where `traverse(CLASS_EXPRESSION, ...)`
      starts, since a traversal visits the children of the node it is given. */
  function RenameClass(n: Node, x: string, y: string, b: BindingId): (r: Node)
    requires n.Class?
    ensures r.Class? && r.isDecl == n.isDecl && r.bindingFor == n.bindingFor && r.skip == n.skip
    // the id, the superclass, the body and the decorators, each renamed
    ensures r.id == RenameId(n.id, x, y)
    ensures r.superClass.Some? <==> n.superClass.Some?
    ensures r.superClass.Some? ==> r.superClass.value == Rename(n.superClass.value, x, y, b)
    ensures r.body == RenameAll(n.body, x, y, b) && r.decorators == RenameAll(n.decorators, x, y, b)
    decreases n, 0
  {
    Class(n.isDecl, RenameId(n.id, x, y),
          if n.superClass.Some? then Some(Rename(n.superClass.value, x, y, b)) else None,
          RenameAll(n.body, x, y, b), RenameAll(n.decorators, x, y, b), n.bindingFor, n.skip)
  }

  function RenameAll(s: seq<Node>, x: string, y: string, b: BindingId): (r: seq<Node>)
    ensures |r| == |s|
    ensures forall i :: 0 <= i < |s| ==> r[i] == Rename(s[i], x, y, b)
    decreases s, 1
  {
    if s == [] then [] else [Rename(s[0], x, y, b)] + RenameAll(s[1..], x, y, b)
  }

  /** The traversal started at `n` reaches the node at path `p`: every node
      strictly above it lets the traversal in. */
  predicate Reaches(n: Node, p: seq<nat>, x: string, b: BindingId)
    decreases |p|
  {
    At(n, p).Some? && (p == [] || (Enters(n, x, b) && Reaches(Kids(n)[p[0]], p[1..], x, b)))
  }

  lemma RenameAllConcat(s: seq<Node>, t: seq<Node>, x: string, y: string, b: BindingId)
    ensures RenameAll(s + t, x, y, b) == RenameAll(s, x, y, b) + RenameAll(t, x, y, b)
  {
    var l, r := RenameAll(s + t, x, y, b), RenameAll(s, x, y, b) + RenameAll(t, x, y, b);
    assert |l| == |r|;
    forall i | 0 <= i < |l| ensures l[i] == r[i] {
      if i < |s| { assert (s + t)[i] == s[i]; } else { assert (s + t)[i] == t[i - |s|]; }
    }
  }

  /** Below a node the traversal enters, the children are renamed one by one. */
  lemma KidsRename(n: Node, x: string, y: string, b: BindingId)
    requires Enters(n, x, b)
    ensures Kids(Rename(n, x, y, b)) == RenameAll(Kids(n), x, y, b)
  {
    match n
    case Class(_, _, sup, body, decos, _, _) =>
      RenameAllConcat(decos + OptionKid(sup), body, x, y, b);
      RenameAllConcat(decos, OptionKid(sup), x, y, b);
    case Call(c, args) =>
      RenameAllConcat([c], args, x, y, b);
    case _ =>
  }

  /** Renaming keeps the tree's shape: the same paths exist before and after. */
  lemma {:induction false} RenamePaths(n: Node, p: seq<nat>, x: string, y: string, b: BindingId)
    ensures At(Rename(n, x, y, b), p).Some? <==> At(n, p).Some?
    decreases |p|
  {
    if p != [] && Enters(n, x, b) {
      KidsRename(n, x, y, b);
      if p[0] < |Kids(n)| {
        RenamePaths(Kids(n)[p[0]], p[1..], x, y, b);
      }
    }
  }

  /** The identifier at any path is renamed exactly when it is spelled `x`
      and the traversal reaches it; every other identifier keeps its name,
      in particular every identifier under a shadowing scope. */
  lemma {:induction false} RenameAt(n: Node, p: seq<nat>, x: string, y: string, b: BindingId)
    requires At(n, p).Some? && At(n, p).value.Ident?
    ensures At(Rename(n, x, y, b), p).Some?
    ensures At(Rename(n, x, y, b), p).value
         == Ident(if At(n, p).value.name == x && Reaches(n, p, x, b) then y else At(n, p).value.name)
    decreases |p|
  {
    if p != [] {
      if Enters(n, x, b) {
        KidsRename(n, x, y, b);
        RenameAt(Kids(n)[p[0]], p[1..], x, y, b);
      } else {
        assert Rename(n, x, y, b) == n;
      }
    }
  }

  /** Renaming changes names only: with identifier and class names blanked,
      the renamed tree is the original one (every node kind, literal,
      declaration kind, scope map and tag is kept). */
  lemma {:induction false} RenameErase(n: Node, x: string, y: string, b: BindingId)
    ensures Erase(Rename(n, x, y, b)) == Erase(n)
    decreases n, 1
  {
    match n
    case Ident(_) =>
    case StrLit(_) =>
    case Scope(m, body) =>
      if SameBinding(m, x, b) { RenameEraseAll(body, x, y, b); }
    case Class(_, _, sup, body, decos, m, _) =>
      if SameBinding(m, x, b) {
        if sup.Some? { RenameErase(sup.value, x, y, b); }
        RenameEraseAll(body, x, y, b);
        RenameEraseAll(decos, x, y, b);
      }
    case VarDecl(_, t, i) =>
      RenameErase(t, x, y, b);
      RenameErase(i, x, y, b);
    case ExportDefault(d) => RenameErase(d, x, y, b);
    case Return(a) => RenameErase(a, x, y, b);
    case Call(c, args) =>
      RenameErase(c, x, y, b);
      RenameEraseAll(args, x, y, b);
    case Other(_, cs) => RenameEraseAll(cs, x, y, b);
  }

  lemma {:induction false} RenameEraseAll(s: seq<Node>, x: string, y: string, b: BindingId)
    ensures EraseAll(RenameAll(s, x, y, b)) == EraseAll(s)
    decreases s, 0
  {
    if s != [] {
      RenameErase(s[0], x, y, b);
      RenameEraseAll(s[1..], x, y, b);
      assert RenameAll(s, x, y, b)[1..] == RenameAll(s[1..], x, y, b);
    }
  }

  /** The inverse rewrite: the same traversal, turning `y` back into `x`. */
  function Restore(n: Node, x: string, y: string, b: BindingId): Node
    decreases n, 1
  {
    match n
    case Ident(z) => Ident(RenameName(z, y, x))
    case StrLit(_) => n
    case Scope(m, body) => if SameBinding(m, x, b) then Scope(m, RestoreAll(body, x, y, b)) else n
    case Class(_, _, _, _, _, m, _) => if SameBinding(m, x, b) then RestoreClass(n, x, y, b) else n
    case VarDecl(k, t, i) => VarDecl(k, Restore(t, x, y, b), Restore(i, x, y, b))
    case ExportDefault(d) => ExportDefault(Restore(d, x, y, b))
    case Return(a) => Return(Restore(a, x, y, b))
    case Call(c, args) => Call(Restore(c, x, y, b), RestoreAll(args, x, y, b))
    case Other(k, cs) => Other(k, RestoreAll(cs, x, y, b))
  }

  function RestoreClass(n: Node, x: string, y: string, b: BindingId): (r: Node)
    requires n.Class?
    ensures r.Class?
    decreases n, 0
  {
    Class(n.isDecl, RenameId(n.id, y, x),
          if n.superClass.Some? then Some(Restore(n.superClass.value, x, y, b)) else None,
          RestoreAll(n.body, x, y, b), RestoreAll(n.decorators, x, y, b), n.bindingFor, n.skip)
  }

  function RestoreAll(s: seq<Node>, x: string, y: string, b: BindingId): (r: seq<Node>)
    ensures |r| == |s|
    decreases s, 1
  {
    if s == [] then [] else [Restore(s[0], x, y, b)] + RestoreAll(s[1..], x, y, b)
  }

  /** With a fresh `y`, renaming loses nothing: restoring gives the
      original subtree back. */
  lemma {:induction false} RestoreRename(n: Node, x: string, y: string, b: BindingId)
    requires x != y && y !in Names(n)
    ensures Restore(Rename(n, x, y, b), x, y, b) == n
    decreases n, 1
  {
    match n
    case Ident(_) =>
    case StrLit(_) =>
    case Scope(m, body) =>
      if SameBinding(m, x, b) { RestoreRenameAll(body, x, y, b); }
    case Class(_, _, _, _, _, m, _) =>
      if SameBinding(m, x, b) { RestoreRenameClass(n, x, y, b); }
    case VarDecl(_, t, i) =>
      RestoreRename(t, x, y, b);
      RestoreRename(i, x, y, b);
    case ExportDefault(d) => RestoreRename(d, x, y, b);
    case Return(a) => RestoreRename(a, x, y, b);
    case Call(c, args) =>
      RestoreRename(c, x, y, b);
      RestoreRenameAll(args, x, y, b);
    case Other(_, cs) => RestoreRenameAll(cs, x, y, b);
  }

  /** The same for the children of a class; its own id is left aside, since
      the class the plugin builds carries the fresh name as its id. */
  lemma {:induction false} RestoreRenameClass(n: Node, x: string, y: string, b: BindingId)
    requires n.Class? && x != y
    requires y !in NamesAll(n.decorators) && y !in NamesAll(n.body)
    requires n.superClass.Some? ==> y !in Names(n.superClass.value)
    ensures var r := RestoreClass(RenameClass(n, x, y, b), x, y, b);
      r.isDecl == n.isDecl && r.superClass == n.superClass && r.body == n.body
      && r.decorators == n.decorators && r.bindingFor == n.bindingFor && r.skip == n.skip
      && (n.id.Some? && n.id.value != y ==> r.id == n.id)
    decreases n, 0
  {
    if n.superClass.Some? { RestoreRename(n.superClass.value, x, y, b); }
    RestoreRenameAll(n.body, x, y, b);
    RestoreRenameAll(n.decorators, x, y, b);
  }

  lemma {:induction false} RestoreRenameAll(s: seq<Node>, x: string, y: string, b: BindingId)
    requires x != y && y !in NamesAll(s)
    ensures RestoreAll(RenameAll(s, x, y, b), x, y, b) == s
    decreases s, 1
  {
    if s != [] {
      RestoreRename(s[0], x, y, b);
      RestoreRenameAll(s[1..], x, y, b);
      assert RenameAll(s, x, y, b)[1..] == RenameAll(s[1..], x, y, b);
    }
  }
}

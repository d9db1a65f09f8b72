/** The part of the JavaScript syntax tree the class-extended-hook transform
    looks at or builds, with uniform child access and paths into the tree.
    A path is a sequence of child indices; `At` follows one and `ReplaceAt`
    models a NodePath's `replaceWith`. */
module Syntax {

  datatype Option<+T> = None | Some(value: T)

  /** JavaScript truthiness of a string that may be undefined. */
  predicate Truthy(s: Option<string>) {
    s.Some? && s.value != ""
  }

  /** Identity of a binding, as the host's scope analysis would resolve it. */
  type BindingId = nat

  datatype VarKind = Var | Let | Const

  /** `Scope` stands for every scope-introducing node other than a class
      (function, method, block); `bindingFor` is the host's answer to "which
      binding does this name resolve to, seen from here" (absent: unbound).
      A class is a scope too. `VarDecl` is a declaration with one declarator.
      `skip` is the plugin's private SKIP tag. */
  datatype Node =
    | Ident(name: string)
    | StrLit(value: string)
    | Scope(bindingFor: map<string, BindingId>, body: seq<Node>)
    | Class(isDecl: bool, id: Option<string>, superClass: Option<Node>, body: seq<Node>,
            decorators: seq<Node>, bindingFor: map<string, BindingId>, skip: bool)
    | VarDecl(kind: VarKind, target: Node, init: Node)
    | ExportDefault(decl: Node)
    | Return(arg: Node)
    | Call(callee: Node, args: seq<Node>)
    | Other(tag: string, children: seq<Node>)

  function OptionKid(o: Option<Node>): seq<Node> {
    if o.Some? then [o.value] else []
  }

  /** The children a traversal visits, in order (a class's own id is a
      string here and is not a child). */
  function Kids(n: Node): seq<Node> {
    match n
    case Ident(_) => []
    case StrLit(_) => []
    case Scope(_, body) => body
    case Class(_, _, sup, body, decos, _, _) => decos + OptionKid(sup) + body
    case VarDecl(_, t, i) => [t, i]
    case ExportDefault(d) => [d]
    case Return(a) => [a]
    case Call(c, args) => [c] + args
    case Other(_, cs) => cs
  }

  /** `n` with its children replaced by `ks`, everything else kept. */
  function WithKids(n: Node, ks: seq<Node>): Node
    requires |ks| == |Kids(n)|
  {
    match n
    case Ident(_) => n
    case StrLit(_) => n
    case Scope(m, _) => Scope(m, ks)
    case Class(d, id, sup, _, decos, m, sk) =>
      var nd := |decos|;
      var ns := |OptionKid(sup)|;
      Class(d, id, if sup.Some? then Some(ks[nd]) else None, ks[nd + ns..], ks[..nd], m, sk)
    case VarDecl(k, _, _) => VarDecl(k, ks[0], ks[1])
    case ExportDefault(_) => ExportDefault(ks[0])
    case Return(_) => Return(ks[0])
    case Call(_, _) => Call(ks[0], ks[1..])
    case Other(k, _) => Other(k, ks)
  }

  lemma KidsWithKids(n: Node, ks: seq<Node>)
    requires |ks| == |Kids(n)|
    ensures Kids(WithKids(n, ks)) == ks
  {
    match n
    case Class(d, id, sup, _, decos, m, sk) =>
      var nd := |decos|;
      var ns := |OptionKid(sup)|;
      var r := WithKids(n, ks);
      assert r.decorators == ks[..nd];
      assert OptionKid(r.superClass) == ks[nd..nd + ns];
      assert r.body == ks[nd + ns..];
      assert ks == ks[..nd] + ks[nd..nd + ns] + ks[nd + ns..];
    case Call(_, _) =>
      assert ks == [ks[0]] + ks[1..];
    case _ =>
  }

  /** The node reached by following `p` from `n`, if the path exists. */
  function At(n: Node, p: seq<nat>): Option<Node>
    decreases |p|
  {
    if p == [] then Some(n)
    else if p[0] < |Kids(n)| then At(Kids(n)[p[0]], p[1..])
    else None
  }

  /** `n` with the node at `p` replaced by `x` (a NodePath's `replaceWith`). */
  function ReplaceAt(n: Node, p: seq<nat>, x: Node): Node
    requires At(n, p).Some?
    decreases |p|
  {
    if p == [] then x
    else WithKids(n, Kids(n)[p[0] := ReplaceAt(Kids(n)[p[0]], p[1..], x)])
  }

  /** `p` is a prefix of `q` */
  predicate IsPrefix(p: seq<nat>, q: seq<nat>) {
    |p| <= |q| && q[..|p|] == p
  }

  lemma {:induction false} AtPrefix(n: Node, p: seq<nat>, i: nat)
    requires At(n, p).Some? && i <= |p|
    ensures At(n, p[..i]).Some?
    decreases |p|
  {
    if i > 0 {
      assert p[..i][0] == p[0] && p[..i][1..] == p[1..][..i - 1];
      AtPrefix(Kids(n)[p[0]], p[1..], i - 1);
    }
  }

  lemma {:induction false} AtConcat(n: Node, p: seq<nat>, q: seq<nat>)
    requires At(n, p).Some?
    ensures At(n, p + q) == At(At(n, p).value, q)
    decreases |p|
  {
    if p != [] {
      assert p + q != [] && (p + q)[0] == p[0] && (p + q)[1..] == p[1..] + q;
      AtConcat(Kids(n)[p[0]], p[1..], q);
    } else {
      assert p + q == q;
    }
  }

  /** After `replaceWith`, the path leads to the new node, and below it to
      the new node's own descendants. */
  lemma {:induction false} ReplaceAtHere(n: Node, p: seq<nat>, x: Node, q: seq<nat>)
    requires At(n, p).Some?
    ensures At(ReplaceAt(n, p, x), p + q) == At(x, q)
    decreases |p|
  {
    if p != [] {
      assert p + q != [] && (p + q)[0] == p[0] && (p + q)[1..] == p[1..] + q;
      var ks := Kids(n);
      ReplaceAtHere(ks[p[0]], p[1..], x, q);
      KidsWithKids(n, ks[p[0] := ReplaceAt(ks[p[0]], p[1..], x)]);
    } else {
      assert p + q == q;
    }
  }

  lemma PrefixTail(p: seq<nat>, q: seq<nat>)
    requires p != [] && q != [] && p[0] == q[0]
    ensures IsPrefix(p, q) <==> IsPrefix(p[1..], q[1..])
  {
    if IsPrefix(p[1..], q[1..]) {
      assert q[..|p|] == [q[0]] + q[1..][..|p| - 1];
    }
  }

  /** `replaceWith` changes nothing that is neither above nor below the
      replaced node. */
  lemma {:induction false} ReplaceAtElsewhere(n: Node, p: seq<nat>, x: Node, q: seq<nat>)
    requires At(n, p).Some?
    requires !IsPrefix(p, q) && !IsPrefix(q, p)
    ensures At(ReplaceAt(n, p, x), q) == At(n, q)
    decreases |p|
  {
    assert p != [] && q != [];
    var ks := Kids(n);
    var ks' := ks[p[0] := ReplaceAt(ks[p[0]], p[1..], x)];
    KidsWithKids(n, ks');
    if p[0] != q[0] {
      if q[0] < |ks| {
        assert ks'[q[0]] == ks[q[0]];
      }
    } else {
      PrefixTail(p, q);
      PrefixTail(q, p);
      ReplaceAtElsewhere(ks[p[0]], p[1..], x, q[1..]);
    }
  }

  /** A placeholder child. */
  const Hole: Node := Other("", [])

  /** The node's own fields, with every child blanked out. */
  function Head(n: Node): Node {
    WithKids(n, seq(|Kids(n)|, i => Hole))
  }

  /** Replacing the children keeps the node's own fields. */
  lemma HeadWithKids(n: Node, ks: seq<Node>)
    requires |ks| == |Kids(n)|
    ensures Head(WithKids(n, ks)) == Head(n)
  {
    KidsWithKids(n, ks);
    match n
    case Class(d, id, sup, _, decos, m, sk) =>
      var nd := |decos|;
      var ns := |OptionKid(sup)|;
      var r := WithKids(n, ks);
      assert |r.decorators| == nd && |OptionKid(r.superClass)| == ns;
    case _ =>
  }

  /** `replaceWith` keeps every node above the replaced one in place, with
      its own fields (declaration kind, scope map, class id and tag, ...)
      unchanged; only the child on the path differs. */
  lemma {:induction false} ReplaceAtAbove(n: Node, p: seq<nat>, x: Node, q: seq<nat>)
    requires At(n, p).Some? && IsPrefix(q, p) && |q| < |p|
    ensures At(n, q).Some? && At(ReplaceAt(n, p, x), q).Some?
    ensures Head(At(ReplaceAt(n, p, x), q).value) == Head(At(n, q).value)
    decreases |q|
  {
    var ks := Kids(n);
    var ks' := ks[p[0] := ReplaceAt(ks[p[0]], p[1..], x)];
    KidsWithKids(n, ks');
    if q == [] {
      HeadWithKids(n, ks');
    } else {
      assert q[0] == p[0];
      PrefixTail(q, p);
      ReplaceAtAbove(ks[p[0]], p[1..], x, q[1..]);
    }
  }

  /** The three facts about `replaceWith` together: the new node is at the
      path, nothing beside the path changes, and every node above keeps its
      own fields. */
  lemma ReplaceAtSummary(n: Node, p: seq<nat>, x: Node)
    requires At(n, p).Some?
    ensures At(ReplaceAt(n, p, x), p) == Some(x)
    ensures forall q :: !IsPrefix(p, q) && !IsPrefix(q, p) ==> At(ReplaceAt(n, p, x), q) == At(n, q)
    ensures forall q :: IsPrefix(q, p) && |q| < |p| ==>
      && At(ReplaceAt(n, p, x), q).Some? && At(n, q).Some?
      && Head(At(ReplaceAt(n, p, x), q).value) == Head(At(n, q).value)
  {
    ReplaceAtHere(n, p, x, []);
    assert p + [] == p;
    forall q | !IsPrefix(p, q) && !IsPrefix(q, p)
      ensures At(ReplaceAt(n, p, x), q) == At(n, q)
    {
      ReplaceAtElsewhere(n, p, x, q);
    }
    forall q | IsPrefix(q, p) && |q| < |p|
      ensures At(ReplaceAt(n, p, x), q).Some? && At(n, q).Some?
      ensures Head(At(ReplaceAt(n, p, x), q).value) == Head(At(n, q).value)
    {
      ReplaceAtAbove(n, p, x, q);
    }
  }

  /** The tree with every identifier name and class name blanked: what is
      left of it when names are ignored. */
  function Erase(n: Node): Node
    decreases n, 1
  {
    match n
    case Ident(_) => Ident("")
    case StrLit(_) => n
    case Scope(m, body) => Scope(m, EraseAll(body))
    case Class(d, id, sup, body, decos, m, sk) =>
      Class(d, if id.Some? then Some("") else None, if sup.Some? then Some(Erase(sup.value)) else None,
            EraseAll(body), EraseAll(decos), m, sk)
    case VarDecl(k, t, i) => VarDecl(k, Erase(t), Erase(i))
    case ExportDefault(d) => ExportDefault(Erase(d))
    case Return(a) => Return(Erase(a))
    case Call(c, args) => Call(Erase(c), EraseAll(args))
    case Other(k, cs) => Other(k, EraseAll(cs))
  }

  function EraseAll(s: seq<Node>): (r: seq<Node>)
    ensures |r| == |s|
    decreases s, 0
  {
    if s == [] then [] else [Erase(s[0])] + EraseAll(s[1..])
  }

  /** Every identifier name and class name occurring in a tree. */
  function Names(n: Node): set<string> {
    match n
    case Ident(x) => {x}
    case StrLit(_) => {}
    case Scope(_, body) => NamesAll(body)
    case Class(_, id, sup, body, decos, _, _) =>
      (if id.Some? then {id.value} else {})
      + NamesAll(decos)
      + (if sup.Some? then Names(sup.value) else {})
      + NamesAll(body)
    case VarDecl(_, t, i) => Names(t) + Names(i)
    case ExportDefault(d) => Names(d)
    case Return(a) => Names(a)
    case Call(c, args) => Names(c) + NamesAll(args)
    case Other(_, cs) => NamesAll(cs)
  }

  function NamesAll(s: seq<Node>): set<string> {
    if s == [] then {} else Names(s[0]) + NamesAll(s[1..])
  }

  lemma {:induction false} NamesAllElement(s: seq<Node>, i: nat)
    requires i < |s|
    ensures Names(s[i]) <= NamesAll(s)
  {
    if i > 0 { NamesAllElement(s[1..], i - 1); }
  }

  lemma {:induction false} NamesAllConcat(a: seq<Node>, b: seq<Node>)
    ensures NamesAll(a + b) == NamesAll(a) + NamesAll(b)
  {
    if a != [] {
      assert a + b != [] && (a + b)[0] == a[0] && (a + b)[1..] == a[1..] + b;
      NamesAllConcat(a[1..], b);
    } else {
      assert a + b == b;
    }
  }

  lemma NamesKids(n: Node)
    ensures NamesAll(Kids(n)) <= Names(n)
  {
    match n
    case Class(_, _, sup, body, decos, _, _) =>
      NamesAllConcat(decos + OptionKid(sup), body);
      NamesAllConcat(decos, OptionKid(sup));
      if sup.Some? { assert NamesAll([sup.value]) == Names(sup.value); }
    case Call(c, args) =>
      assert ([c] + args)[1..] == args;
    case VarDecl(_, t, i) =>
      assert NamesAll([t, i]) == Names(t) + NamesAll([i]) by { assert [t, i][1..] == [i]; }
      assert NamesAll([i]) == Names(i) by { assert [i][1..] == []; }
    case _ =>
  }

  /** The names of a subtree are names of the whole tree. */
  lemma {:induction false} NamesAt(n: Node, p: seq<nat>)
    requires At(n, p).Some?
    ensures Names(At(n, p).value) <= Names(n)
    decreases |p|
  {
    if p != [] {
      NamesAt(Kids(n)[p[0]], p[1..]);
      NamesAllElement(Kids(n), p[0]);
      NamesKids(n);
    }
  }
}

/** Wrapper synthesis: the class's external name, the classification of its
    superclass, and the immediately-invoked function that declares the
    renamed class and hands it to the shared helper. */
module Wrapper {
  import opened Syntax
  import opened Renaming

  /** The reserved name of the helper injected once per file. */
  const HelperName := "__babelPluginTransformClassExtendedHook"

  /** `getChildName`: the class's own id; for an anonymous class that is the
      initialiser of a variable declarator, the declarator's identifier;
      otherwise undefined. (A declarator whose target is a pattern has no
      `name`, which reads as undefined.) */
  function ChildName(cls: Node, parent: Node): (r: Option<string>)
    requires cls.Class?
    ensures cls.id.Some? ==> r == cls.id
    ensures cls.id.None? ==> (r.Some? <==> parent.VarDecl? && parent.target.Ident?)
    ensures r.Some? && cls.id.None? ==> r.value == parent.target.name
  {
    if cls.id.Some? then cls.id
    else if parent.VarDecl? && parent.target.Ident? then Some(parent.target.name)
    else None
  }

  /** `CHILD_NAME`: a string literal of the name, or the identifier `undefined`. */
  function ChildNameArg(name: Option<string>): (r: Node)
    ensures r.StrLit? <==> Truthy(name)
    ensures r.StrLit? ==> r.value == name.value
    ensures !r.StrLit? ==> r == Ident("undefined")
  {
    if Truthy(name) then StrLit(name.value) else Ident("undefined")
  }

  /** What the helper receives as its name argument, read back. */
  function NameOfArg(arg: Node): Option<string> {
    if arg.StrLit? then Some(arg.value) else None
  }

  /** The name argument is a faithful encoding of every name a class can have. */
  lemma NameArgRoundTrip(name: Option<string>)
    requires name != Some("")
    ensures NameOfArg(ChildNameArg(name)) == name
  {
  }

  /** How the parent is referenced inside the wrapper: a bare identifier
      superclass directly, anything else through a fresh temporary. */
  datatype ParentRef = Direct(name: string) | Hoisted(temp: string, expr: Node)

  function ClassifyParent(sup: Node, parentUid: string): (r: ParentRef)
    ensures r.Direct? <==> sup.Ident?
    ensures r.Direct? ==> r.name == sup.name
    ensures r.Hoisted? ==> r.temp == parentUid && r.expr == sup
  {
    if sup.Ident? then Direct(sup.name) else Hoisted(parentUid, sup)
  }

  /** The `extends` target of the rebuilt class before renaming. The
      helper's parent argument is that same node after renaming. */
  function ParentIdent(ref: ParentRef): Node {
    match ref
    case Direct(p) => Ident(p)
    case Hoisted(t, _) => Ident(t)
  }

  /** `var PARENTID = PARENT;` when the parent is hoisted. */
  function Preamble(ref: ParentRef): seq<Node> {
    match ref
    case Direct(_) => []
    case Hoisted(t, e) => [VarDecl(Var, Ident(t), e)]
  }

  /** `(function(){ stmts })()`; the function declares only fresh names, so
      every other name resolves in it as it does at the class's position. */
  function Iife(scope: map<string, BindingId>, stmts: seq<Node>): Node {
    Call(Scope(scope, stmts), [])
  }

  predicate IsIife(r: Node) {
    r.Call? && r.callee.Scope? && r.args == []
  }

  /** `__babelPluginTransformClassExtendedHook(CHILD, PARENT, CHILD_NAME)` */
  function HelperCall(child: Node, parent: Node, name: Node): Node {
    Call(Ident(HelperName), [child, parent, name])
  }

  /** Every scope-introducing node below any of `s`: the traversal would
      meet it and dereference the class's binding. */
  ghost predicate ScopeFree(s: seq<Node>) {
    forall i, p :: 0 <= i < |s| && At(s[i], p).Some? ==> !IsScope(At(s[i], p).value)
  }

  /** What `transform` needs: a superclass, and either a name that resolves
      from the class's scope, or (anonymous) nothing in the decorators or
      body on which the `Scope` visitor would dereference the missing
      binding. */
  ghost predicate Transformable(cls: Node, name: Option<string>) {
    && cls.Class?
    && cls.superClass.Some?
    && (name.Some? ==> name.value in cls.bindingFor)
    && (name.None? ==> ScopeFree(cls.decorators) && ScopeFree(cls.body))
  }

  /** The rebuilt class, renamed and tagged: `t.classDeclaration(CHILD, parentRef,
      body, decorators)` followed by the rename traversal and `[SKIP] = true`. */
  function GeneratedClass(cls: Node, name: Option<string>, childUid: string, ref: ParentRef): (r: Node)
    requires Transformable(cls, name)
    // a tagged declaration under the fresh name, in the original class's scope
    ensures r.Class? && r.isDecl && r.id == Some(childUid) && r.skip && r.bindingFor == cls.bindingFor
    // the parent reference, renamed when it is spelled like the class
    ensures r.superClass == Some(Ident(if name.Some? then RenameName(ParentIdent(ref).name, name.value, childUid)
                                       else ParentIdent(ref).name))
    // the original body and decorators, with self-references renamed
    ensures name.None? ==> r.body == cls.body && r.decorators == cls.decorators
    ensures name.Some? ==> var b := cls.bindingFor[name.value];
      r.body == RenameAll(cls.body, name.value, childUid, b) && r.decorators == RenameAll(cls.decorators, name.value, childUid, b)
  {
    var built := Class(true, Some(childUid), Some(ParentIdent(ref)), cls.body, cls.decorators,
                       cls.bindingFor, false);
    var renamed := if name.Some? then RenameClass(built, name.value, childUid, cls.bindingFor[name.value])
                   else built;
    renamed.(skip := true)
  }

  /** Both branches of `transform`, parameterised by the parent reference.
      The helper's parent argument is the class's `extends` node itself, read
      after the renaming went through it. */
  function Wrap(cls: Node, name: Option<string>, childUid: string, ref: ParentRef): (r: Node)
    requires Transformable(cls, name)
    // a call of a nullary function that sees the names the class saw
    ensures IsIife(r) && r.callee.bindingFor == cls.bindingFor
    // [temporary,] class, return of the helper call
    ensures var s := Statements(r); var c := GeneratedClass(cls, name, childUid, ref);
      && |s| == |Preamble(ref)| + 2 && s[..|Preamble(ref)|] == Preamble(ref)
      && s[|s| - 2] == c
      && s[|s| - 1] == Return(HelperCall(Ident(childUid), c.superClass.value, ChildNameArg(name)))
  {
    var c := GeneratedClass(cls, name, childUid, ref);
    var s := Preamble(ref) + [c, Return(HelperCall(Ident(childUid), c.superClass.value, ChildNameArg(name)))];
    assert s[..|Preamble(ref)|] == Preamble(ref);
    Iife(cls.bindingFor, s)
  }

  function Statements(r: Node): seq<Node>
    requires IsIife(r)
  {
    r.callee.body
  }

  /** `transform(childClassName, path)`; `childUid` and `parentUid` are the
      names `generateUidIdentifier` returns (the second is used only for a
      hoisted parent). */
  function Transform(cls: Node, name: Option<string>, childUid: string, parentUid: string): (r: Node)
    requires Transformable(cls, name)
    requires name.Some? ==> parentUid != name.value
    // the temporary is there exactly when the parent is not an identifier
    ensures IsIife(r) && |Statements(r)| == if cls.superClass.value.Ident? then 2 else 3
    // the class comes right before the final helper call, and is the plugin's own
    ensures var s := Statements(r); var c := s[|s| - 2];
      && c.Class? && c.isDecl && c.id == Some(childUid) && c.skip && c.superClass.Some?
    // the helper gets the fresh class, the class's (renamed) parent reference and the name
    ensures var s := Statements(r); var c := s[|s| - 2];
      s[|s| - 1] == Return(HelperCall(Ident(childUid), c.superClass.value, ChildNameArg(name)))
    // an identifier parent is referenced directly, renamed only if spelled like the class
    ensures var s := Statements(r); var c := s[|s| - 2]; var sup := cls.superClass.value;
      sup.Ident? ==> c.superClass == Some(if name.Some? then Ident(RenameName(sup.name, name.value, childUid)) else sup)
    // any other parent is evaluated once, into the temporary, before the class
    ensures var s := Statements(r); var c := s[|s| - 2]; var sup := cls.superClass.value;
      !sup.Ident? ==> s[0] == VarDecl(Var, Ident(parentUid), sup) && c.superClass == Some(Ident(parentUid))
    // the body and decorators are the original ones, with self-references renamed
    ensures var s := Statements(r); var c := s[|s| - 2];
      && (name.None? ==> c.body == cls.body && c.decorators == cls.decorators)
      && (name.Some? ==> var b := cls.bindingFor[name.value];
            c.body == RenameAll(cls.body, name.value, childUid, b)
            && c.decorators == RenameAll(cls.decorators, name.value, childUid, b))
  {
    Wrap(cls, name, childUid, ClassifyParent(cls.superClass.value, parentUid))
  }

  /** What a wrapper still says about the class it came from. */
  datatype Recovered = Recovered(superClass: Node, body: seq<Node>, decorators: seq<Node>, name: Option<string>)

  /** Reads a wrapper back: the name from the helper call, the parent from
      the temporary or the `extends` clause, and the body with the fresh
      name (the class's id) turned back into the original one. */
  function Unwrap(r: Node): Option<Recovered> {
    if !IsIife(r) || |Statements(r)| < 2 then None
    else
      var s := Statements(r);
      var c := s[|s| - 2];
      var ret := s[|s| - 1];
      if !(c.Class? && c.id.Some? && c.superClass.Some? && ret.Return? && ret.arg.Call?
           && |ret.arg.args| == 3) then None
      else
        var name := NameOfArg(ret.arg.args[2]);
        if name.Some? && name.value !in c.bindingFor then None
        else
          var back := if name.Some? then RestoreClass(c, name.value, c.id.value, c.bindingFor[name.value]) else c;
          var sup := if |s| == 3 && s[0].VarDecl? then s[0].init else back.superClass.value;
          Some(Recovered(sup, back.body, back.decorators, name))
  }

  /** The wrapper loses nothing: its parent expression, body, decorators and
      name argument give back the original class's, provided the generated
      names are fresh. */
  lemma TransformUnwrap(cls: Node, name: Option<string>, childUid: string, parentUid: string)
    requires Transformable(cls, name)
    requires name != Some("")
    requires childUid !in Names(cls) && childUid != parentUid
    requires name.Some? ==> childUid != name.value && parentUid != name.value
    ensures Unwrap(Transform(cls, name, childUid, parentUid))
         == Some(Recovered(cls.superClass.value, cls.body, cls.decorators, name))
  {
    var sup := cls.superClass.value;
    var ref := ClassifyParent(sup, parentUid);
    var built := Class(true, Some(childUid), Some(ParentIdent(ref)), cls.body, cls.decorators,
                       cls.bindingFor, false);
    NameArgRoundTrip(name);
    if name.Some? {
      var x, b := name.value, cls.bindingFor[name.value];
      assert childUid !in Names(ParentIdent(ref)) by {
        if sup.Ident? { assert Names(sup) <= Names(cls); }
      }
      RestoreRenameClass(built, x, childUid, b);
      if sup.Ident? {
        assert Names(sup) <= Names(cls);
        RestoreRename(sup, x, childUid, b);
      }
    }
  }
}

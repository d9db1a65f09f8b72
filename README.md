# class-extended-hook, modelled in Dafny

A Babel plugin (`src/index.js`) rewrites every class that has a superclass.
The rewritten class is handed to the parent's static `extended` hook when it
is defined. The hook can observe the new subclass or replace it. The plugin:

- skips classes without a superclass and classes it generated itself (the SKIP tag);
- injects one shared helper, `__babelPluginTransformClassExtendedHook`, into the file;
- infers the class's external name (`getChildName`);
- rebuilds the class under a fresh name, renaming the class's self-references
  but not going into scopes that shadow the class's binding;
- puts the rebuilt class inside an immediately-invoked function. When the
  superclass is not a plain identifier, the function first evaluates it once
  into a temporary. The function then returns the helper's result;
- puts that function where the class was, in the form the syntactic context
  requires:
  - default export: a `var` statement before the export;
  - declaration: a `let` declaration;
  - expression: the call itself.

The model has five modules:

- `Syntax` (syntax.dfy): the syntax tree. A path is a list of child indices.
  `At` follows a path and `ReplaceAt` is a NodePath's `replaceWith`. Every
  scope node carries the host's binding resolution for each name
  (`bindingFor`). That map is the model's stand-in for Babel's scope analysis.
- `Renaming` (renaming.dfy): the self-reference rewrite. It has an inverse,
  `Restore`.
- `Wrapper` (wrapper.dfy), with an inverse, `Unwrap`. It covers:
  - name inference and the name argument;
  - superclass classification;
  - the wrapper built by `transform`. Its two duplicated branches are one
    function, parameterised by the parent reference.
- `Runtime` (runtime.dfy): what the injected helper does when the output runs.
- `Plugin` (plugin.dfy): the visitor and helper injection.
  - The file is a class `File` whose methods update its statements and
    top-level bindings in place.
  - Each method is proved against the specification functions `WithHelper`,
    `Place` and `VisitSpec`.

The renaming visitor fires on every `Identifier` node, not only on references
to the class. The model keeps this: an identifier spelled like the class name
is renamed wherever the traversal reaches it. That includes a method key or a
member-expression property of that spelling (the tree here does not tell
those apart).

An anonymous class expression that initialises a variable declarator
(`const x = class extends Bar {}`) takes the declarator's identifier as its
name (`src/index.js:44-45`), so the helper receives `"x"` and names the class
after the variable (`Wrapper.ChildName`).

The superclass node is renamed in place like every other identifier, and the
helper call's parent argument is built from its name afterwards
(`src/index.js:51`, `:58`, `:87`). So in `var A = class extends A {}` both the
`extends` clause and the helper's second argument become the fresh name.

## Model

| member | source | states |
|---|---|---|
| Wrapper.ChildName | src/index.js:41-47 | The name is the class's own id when it has one. An anonymous class gets a name exactly when its parent is a variable declarator with an identifier target, and that name is the target's. |
| Wrapper.ChildNameArg | src/index.js:52 | The name argument is a string literal exactly when the name is truthy, and then it carries that name. Otherwise it is the identifier `undefined`. |
| Wrapper.NameArgRoundTrip | src/index.js:52 | Every name a class can have (any string but the empty one, or none) is read back unchanged from the name argument. |
| Wrapper.ClassifyParent | src/index.js:55-62 | A superclass is referenced directly exactly when it is an identifier, by its own name. Anything else is hoisted into the fresh temporary together with its expression. |
| Renaming.Rename | src/index.js:63-74 | A scope where the class name resolves to another binding is skipped whole: it comes out unchanged. What the rename does at each identifier is stated by `Renaming.RenameAt`, and that it changes names only by `Renaming.RenameErase`. |
| Renaming.RenameClass | src/index.js:56-74 | The rebuilt class keeps its kind, scope map and tag. Its id is renamed, and its superclass, body and decorators are each `Rename`d. |
| Renaming.RenameAt | src/index.js:63-74 | At every path, an identifier becomes the fresh name exactly when it is spelled like the class and every scope from the starting node down to the identifier lets the traversal in. A scope keeps the traversal out when the name is unresolved there or resolves to another binding. Every other identifier keeps its name. |
| Renaming.RenamePaths | src/index.js:63-74 | Exactly the same paths exist before and after renaming. |
| Renaming.RenameErase | src/index.js:63-74 | Renaming changes identifier and class names only: with names blanked, the renamed tree equals the original. Every node kind, literal, declaration kind, scope map and tag is kept. |
| Renaming.RestoreRename | src/index.js:63-74 | Renaming to a name that does not occur in the subtree loses nothing: the inverse rewrite gives back the original subtree. |
| Renaming.RestoreRenameClass | src/index.js:56-74 | The same holds for the superclass, body and decorators of a class, and for its id unless that id is the fresh name. |
| Wrapper.GeneratedClass | src/index.js:56-77 | The rebuilt class is a declaration with the fresh id, tagged SKIP, in the original class's scope. Its `extends` target is the parent reference, renamed when it is spelled like the class. Its body and decorators are the original ones, renamed for a named class and untouched for an anonymous one. |
| Wrapper.Wrap | src/index.js:79-89 | The wrapper is a call of a nullary function that sees the class's bindings. Its statements are exactly the preamble (the temporary, if any), the rebuilt class, and the return of the helper call. That call's arguments are the fresh class, an identifier equal to the class's renamed `extends` target, and the name argument. |
| Wrapper.Transform | src/index.js:49-128 | The wrapper has exactly two statements for an identifier superclass and three otherwise. In order they are: the temporary, if any; the tagged class declaration with the fresh id; and `return helper(fresh, parentRef, nameArg)`, where `parentRef` is an identifier equal to the class's `extends` target after renaming (the temporary, for a hoisted parent). A non-identifier superclass is evaluated once, into the temporary, which is the `extends` target. An identifier superclass is the `extends` target itself, renamed to the fresh name only when it is spelled like the class. The body and decorators are the original ones: renamed for a named class, untouched for an anonymous one. |
| Wrapper.TransformUnwrap | src/index.js:49-128 | With fresh generated names, the wrapper determines the original superclass expression, body, decorators and name. Nothing of the class is lost or duplicated. |
| Runtime.Helper | src/index.js:12-32 | The helper throws exactly when the parent is `null`, its `extended` is not a function (with the plugin's TypeError message), or the hook throws. An exception the hook throws propagates unchanged. It returns the named child when there is no hook or the hook returns undefined. Otherwise it returns the hook's value itself. That value is renamed only when it is a function, the name is truthy and its name differs. Whatever function comes back carries the class's name when that name is truthy. |
| Runtime.Named | src/index.js:13-15 | The child keeps its identity and carries the name when it is truthy, and its own name otherwise. |
| Runtime.WithName | src/index.js:14 | Defining `name` keeps the function's identity and sets only its name. |
| Runtime.RunHelper | src/index.js:12-32 | The helper body, run statement by statement on a mutable `child`, computes `Helper`. |
| Plugin.WithHelper | src/index.js:7-39 | Afterwards the helper name is bound. A file where it was bound is left as it is. Otherwise exactly one statement goes in on top of the unchanged old ones. |
| Plugin.WithHelperCount | src/index.js:7-38 | After injection the helper name is bound. Exactly one declaration is added when the name was free, and none when it was bound. |
| Plugin.WithHelperIdempotent | src/index.js:9 | Injecting the helper twice is injecting it once. |
| Plugin.WithHelperUnique | src/index.js:7-39 | A file with at most one helper declaration (and the name bound whenever there is one) keeps that property after injection. |
| Plugin.File.AddHelperToFile | src/index.js:7-39 | The file's new state is `WithHelper` of its old state. |
| Plugin.ChildNameInProgram | src/index.js:41-47 | The inferred name is a name the program already contains, so fresh names differ from it. |
| Plugin.ShiftedSite | src/index.js:35-38 | After the helper declaration goes in on top, the visited class sits one statement lower. It is the same class. A nested class keeps the same parent, and a top-level class has the new program node as its parent. |
| Plugin.IsCandidate | src/index.js:133-135 | A class is transformed exactly when it has a superclass and does not carry the SKIP tag. |
| Plugin.ContextOf | src/index.js:141-165 | A class under a default export takes the export branch whatever its kind. Otherwise a declaration takes the declaration branch and an expression the expression branch. |
| Plugin.Place | src/index.js:141-165 | Placement adds one top-level statement for a default export and none otherwise. Its exact effect in each context is stated by `Plugin.PlaceExportDefault` and `Plugin.PlaceInPosition`. |
| Plugin.PlaceExportDefault | src/index.js:141-152 | For a default export, `var name = IIFE` is inserted right before the export statement. The export now exports the bare name. Every other statement is kept, in order. |
| Plugin.PlaceInPosition | src/index.js:153-165 | A class declaration's position now holds `let name = IIFE`, and a class expression's holds the IIFE itself. Every position neither above nor below the class holds what it held before. Every node above the class is still there, with its own fields (declaration kind, scope map, class id and tag, node tag) unchanged. |
| Plugin.PlaceHelperCount | src/index.js:141-165 | Placement neither adds nor removes a helper declaration. |
| Plugin.PlaceStatementAt | src/index.js:141-165 | Each statement of the wrapper is found in the output at the position the context dictates. |
| Plugin.VisitSpec | src/index.js:133-165 | A class without a superclass, or one carrying the SKIP tag, leaves the file unchanged. A candidate class binds the helper name in the file. |
| Plugin.VisitCandidate | src/index.js:136-165 | For a candidate, the visit injects the helper and then places `transform`'s wrapper at the shifted position, where the same class and the same inferred name are found. |
| Plugin.VisitHelperCount | src/index.js:136 | A visit adds one helper declaration when it transforms a class while the helper name is free, and none otherwise. A file with at most one keeps at most one. |
| Plugin.RevisitGenerated | src/index.js:133-135 | After a transform, the plugin's own class, with the fresh id and the SKIP tag, is at the generated position. Visiting it leaves the file unchanged. |
| Plugin.File.InsertBefore | src/index.js:142-151 | `insertBefore` puts one statement in front of the given top-level statement and changes nothing else. |
| Plugin.File.ReplaceWith | src/index.js:152-164 | `replaceWith` replaces the node at the path and keeps the bindings. |
| Plugin.File.PlaceWrapper | src/index.js:141-165 | The visitor's three placement branches, run as `insertBefore`/`replaceWith` steps, leave the statements equal to `Place` of the old ones and keep the bindings. |
| Plugin.File.Visit | src/index.js:133-165 | Running the visitor on a class position leaves the file in state `VisitSpec` of its old state. |
| Syntax.ReplaceAtHere | src/index.js:152-164 | After `replaceWith`, the path leads to the new node and below it to the new node's descendants. |
| Syntax.ReplaceAtAbove | src/index.js:152-164 | After `replaceWith`, every node above the replaced one is still on the path and keeps its own fields. Only the child on the path differs. |
| Syntax.ReplaceAtElsewhere | src/index.js:152-164 | `replaceWith` changes nothing at positions neither above nor below the replaced node. |

## Left out

- Babel's traversal scheduling is left out. `File.Visit` runs the visitor once, at a given class position, and does not model the order in which a whole-file pass meets classes. That includes classes nested in the output, which the SKIP tag and `RevisitGenerated` cover for the generated class only.
- `generateUidIdentifier`, `getBinding`/`bindingIdentifierEquals` and `hasBinding` are host services, modelled as inputs:
  - the fresh names are parameters, required to occur nowhere in the program;
  - binding resolution is each scope node's `bindingFor` map;
  - the file's bindings are the set `bound`.
- `@babel/template` parsing and printing are left out. The templates are built directly as syntax nodes. The helper's function expression is an opaque node, and its behaviour is `Runtime.Helper`.
- `file.scope.push` is modelled as putting one `var` declaration at the top of the program. Babel may instead extend an existing declaration there; that case is not modelled.
- Variable declarations hold one declarator, and the tree has only the node kinds the plugin inspects or builds. Everything else is a generic node with children.
- The rename traversal mutates `node.name` in place. The rebuilt class shares its body, its decorators and, for an identifier parent, its superclass node with the original class. The helper's parent argument is a new identifier: it is built from the renamed `extends` node's name (`src/index.js:87`), or it is the temporary (`:119`). The model computes a renamed copy, and its helper argument is an identifier equal to the renamed `extends` target. The original class is replaced, so renaming the nodes it shares is not observable.
- Decorators: `path.node.decorators || []` is a list that is empty when absent.
- Wrapper.Transform: two crash paths of the source are preconditions, not behaviour.
  - An anonymous class that is not a declarator's initialiser has no binding. The `Scope` visitor dereferences it, so the model requires that the body and decorators contain no scope.
  - An anonymous `export default class extends X {}` would build `t.identifier(undefined)`. A name is required for the default-export and declaration contexts.
- Runtime.Helper leaves out JavaScript property semantics:
  - property lookup through the prototype chain, getters, and `configurable`;
  - the hook's side effects other than its return value;
  - non-function values a hook may return, including `null`, which are all one kind of value.

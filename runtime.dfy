/** What the injected helper does when the generated code runs: name the
    child class, let the parent's `extended` hook observe or replace it, and
    keep the replacement's name equal to the original class name. */
module Runtime {
  import opened Syntax

  /** A JavaScript value as far as the helper can tell values apart:
      `undefined`, a function (a class is one) with its `name` property,
      and every other value. */
  datatype JsValue = Undefined | Function(ref: nat, name: string) | Object(ref: nat)

  datatype JsError = TypeError(message: string)

  /** How a call ends: with a value, or by throwing. */
  datatype Completion = Normal(value: JsValue) | Throw(error: JsError)

  /** The parent's `extended` property: missing, present but not callable,
      or a function of the child it is called with. */
  datatype Extended = Absent | NotCallable | Hook(call: JsValue -> Completion)

  /** The superclass value: `null` (a class may extend `null`) or an object
      that may carry an `extended` property. */
  datatype Parent = Null | Constructor(extended: Extended)

  const NotAFunctionMessage := "Attempted to call extended, but it was not a function"

  /** The engine's error for `"extended" in null`. */
  const InOnNullMessage := "Cannot use 'in' operator to search for 'extended' in null"

  /** `Object.defineProperty(v, "name", { value: n, ... })` on a function. */
  function WithName(v: JsValue, n: string): (r: JsValue)
    requires v.Function?
    ensures r.Function? && r.ref == v.ref && r.name == n
  {
    v.(name := n)
  }

  /** The helper `__babelPluginTransformClassExtendedHook(child, parent, childName)`. */
  function Helper(child: JsValue, parent: Parent, childName: Option<string>): (r: Completion)
    requires child.Function?
    // only a parent that is null, a non-callable hook, or a hook that throws makes it throw
    ensures r.Throw? <==> (parent.Null? || parent.extended.NotCallable?
                            || (parent.extended.Hook? && parent.extended.call(Named(child, childName)).Throw?))
    ensures parent.Null? ==> r == Throw(TypeError(InOnNullMessage))
    ensures parent.Constructor? && parent.extended.NotCallable? ==> r == Throw(TypeError(NotAFunctionMessage))
    // whatever the hook throws propagates unchanged
    ensures parent.Constructor? && parent.extended.Hook? && parent.extended.call(Named(child, childName)).Throw?
            ==> r == parent.extended.call(Named(child, childName))
    // no hook, or a hook returning undefined: the child itself, named
    ensures parent.Constructor? && parent.extended.Absent? ==> r == Normal(Named(child, childName))
    ensures parent.Constructor? && parent.extended.Hook?
            && parent.extended.call(Named(child, childName)) == Normal(Undefined)
            ==> r == Normal(Named(child, childName))
    // a hook returning a value: that value (the same object), renamed only when it is a function
    ensures parent.Constructor? && parent.extended.Hook?
            && parent.extended.call(Named(child, childName)).Normal?
            && !parent.extended.call(Named(child, childName)).value.Undefined?
            ==> var v := parent.extended.call(Named(child, childName)).value;
                r.Normal? && SameValue(r.value, v)
                && (r.value.Function? && !Truthy(childName) ==> r.value == v)
                && (!v.Function? ==> r.value == v)
    // whatever class comes back carries the original class name
    ensures r.Normal? && r.value.Function? && Truthy(childName) ==> r.value.name == childName.value
  {
    var named := Named(child, childName);
    match parent
    case Null => Throw(TypeError(InOnNullMessage))
    case Constructor(Absent) => Normal(named)
    case Constructor(NotCallable) => Throw(TypeError(NotAFunctionMessage))
    case Constructor(Hook(f)) =>
      var returned := f(named);
      if returned.Throw? then returned
      else if returned.value.Undefined? then Normal(named)
      else if Truthy(childName) && returned.value.Function? && returned.value.name != childName.value
      then Normal(WithName(returned.value, childName.value))
      else returned
  }

  /** The helper's body statement by statement: name the child, look for
      the hook, call it, and adopt (and name) what it returns. */
  method RunHelper(child0: JsValue, parent: Parent, childName: Option<string>) returns (r: Completion)
    requires child0.Function?
    ensures r == Helper(child0, parent, childName)
  {
    var child := child0;
    if Truthy(childName) {
      child := WithName(child, childName.value);
    }
    if parent.Null? {
      return Throw(TypeError(InOnNullMessage));
    }
    if !parent.extended.Absent? {
      if parent.extended.Hook? {
        var returned := parent.extended.call(child);
        if returned.Throw? {
          return returned;
        }
        var returnedNewChild := returned.value;
        if !returnedNewChild.Undefined? {
          if Truthy(childName) && returnedNewChild.Function? && returnedNewChild.name != childName.value {
            returnedNewChild := WithName(returnedNewChild, childName.value);
          }
          child := returnedNewChild;
        }
      } else {
        return Throw(TypeError(NotAFunctionMessage));
      }
    }
    return Normal(child);
  }

  /** The child after `if (childName) Object.defineProperty(child, "name", ...)`;
      this happens before the parent is inspected, so the hook sees it. */
  function Named(child: JsValue, childName: Option<string>): (r: JsValue)
    requires child.Function?
    ensures r.Function? && r.ref == child.ref
    ensures r.name == if Truthy(childName) then childName.value else child.name
  {
    if Truthy(childName) then WithName(child, childName.value) else child
  }

  /** Two values are the same object (names aside). */
  predicate SameValue(a: JsValue, b: JsValue) {
    match a
    case Undefined => b.Undefined?
    case Function(r, _) => b.Function? && b.ref == r
    case Object(r) => b.Object? && b.ref == r
  }
}

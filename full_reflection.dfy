/** The generic accessor protocol of src/WithFullReflection.php as functions:
    how `__call` splits a method name, what the private `get` and `set`
    accept and do, and which setter calls the constructor makes. */
module FullReflection {
  import opened Php
  import opened Shape
  import opened ArrayTransform

  /** `substr($methodName, 0, 3)`: the operation a method name asks for. */
  function Operation(methodName: string): (r: string)
    ensures r <= methodName
    ensures |r| == if |methodName| < 3 then |methodName| else 3
  {
    Prefix(methodName, 3)
  }

  /** `lcfirst(substr($methodName, 3))`: the property the operation is about. */
  function Operand(methodName: string): (r: string)
    ensures |methodName| <= 3 ==> r == ""
    ensures |methodName| > 3 ==> |r| == |methodName| - 3 && r[1..] == methodName[4..]
    ensures |methodName| > 3 && !IsUpper(methodName[3]) ==> r == methodName[3..]
    ensures |methodName| > 3 && IsUpper(methodName[3]) ==> IsLower(r[0])
    ensures |methodName| > 3 && IsUpper(methodName[3]) ==> r[0] as int == methodName[3] as int + 32
  {
    Lcfirst(Substr(methodName, 3))
  }

  /** The call `__call` hands on: operation `op` invoked with the argument
      list `[operand] + rest`. */
  datatype Invocation = Invocation(op: string, operand: string, rest: seq<Value>)

  /** `array_unshift`: the operand goes in front of the caller's arguments. */
  function Arguments(inv: Invocation): (r: seq<Value>)
    ensures |r| == |inv.rest| + 1 && r[0] == Str(inv.operand) && r[1..] == inv.rest
  {
    [Str(inv.operand)] + inv.rest
  }

  /** `__call`'s checks and argument rewriting, before the invocation. */
  function Intercept(c: ReflectionClass, methodName: string, args: seq<Value>): (r: Result<Invocation>)
    ensures r.Err? <==> Operation(methodName) !in c.methods
    ensures r.Err? ==> r.error == UndefinedMethod(methodName)
    ensures r.Ok? ==> r.value.op == Operation(methodName) && Arguments(r.value)[1..] == args
    ensures r.Ok? ==> r.value.operand == Lcfirst(Substr(methodName, 3))
  {
    if Operation(methodName) !in c.methods then Err(UndefinedMethod(methodName))
    else Ok(Invocation(Operation(methodName), Operand(methodName), args))
  }

  /** The guard `set` and `get` share: the property must exist and not be private. */
  function Access(c: ReflectionClass, operand: string): (r: Result<Prop>)
    ensures r.Ok? <==> HasProperty(c, operand) && PropertyNamed(c, operand).visibility != Private
    ensures r.Ok? ==> r.value in c.props && r.value.name == operand
  {
    if !HasProperty(c, operand) then Err(UndefinedProperty(operand))
    else if PropertyNamed(c, operand).visibility == Private then Err(PrivateProperty(operand))
    else Ok(PropertyNamed(c, operand))
  }

  /** The private `set`: the new property values, or the error thrown. */
  function SetOn(c: ReflectionClass, vals: map<string, Value>, operand: string, v: Value): (r: Result<map<string, Value>>)
    requires Covers(c.props, vals)
    ensures r.Err? <==> Access(c, operand).Err?
    ensures r.Err? ==> r.error == Access(c, operand).error
    ensures r.Ok? ==> r.value.Keys == vals.Keys
    ensures r.Ok? ==> r.value[operand] == v && forall k :: k in vals && k != operand ==> r.value[k] == vals[k]
  {
    match Access(c, operand)
    case Err(e) => Err(e)
    case Ok(_) => Ok(vals[operand := v])
  }

  /** The private `get`: the property's value, or the error thrown. */
  function GetOn(c: ReflectionClass, vals: map<string, Value>, operand: string): (r: Result<Value>)
    requires Covers(c.props, vals)
    ensures r.Err? <==> Access(c, operand).Err?
    ensures r.Err? ==> r.error == Access(c, operand).error
    ensures r.Ok? ==> operand in vals && r.value == vals[operand]
  {
    match Access(c, operand)
    case Err(e) => Err(e)
    case Ok(p) => Ok(vals[p.name])
  }

  /** What an intercepted call returns: a property value (`get`), the object
      itself (`set`), or the invocation of some other method of the class,
      whose body is outside this model. */
  datatype Returned = Got(v: Value) | This | Forwarded(inv: Invocation)

  datatype Outcome = Outcome(returned: Returned, vals: map<string, Value>)

  /** `invokeArgs` on the operation `__call` found. */
  function Perform(c: ReflectionClass, vals: map<string, Value>, inv: Invocation): (r: Result<Outcome>)
    requires Covers(c.props, vals)
    ensures r.Ok? ==> r.value.vals.Keys == vals.Keys
  {
    if inv.op == "set" then
      if inv.rest == [] then Err(MissingArgument)
      else match SetOn(c, vals, inv.operand, inv.rest[0])
        case Err(e) => Err(e)
        case Ok(vals') => Ok(Outcome(This, vals'))
    else if inv.op == "get" then
      match GetOn(c, vals, inv.operand)
      case Err(e) => Err(e)
      case Ok(v) => Ok(Outcome(Got(v), vals))
    else Ok(Outcome(Forwarded(inv), vals))
  }

  /** A whole `__call`: intercept, then perform. */
  function CallOn(c: ReflectionClass, vals: map<string, Value>, methodName: string, args: seq<Value>): (r: Result<Outcome>)
    requires Covers(c.props, vals)
    ensures r.Ok? ==> r.value.vals.Keys == vals.Keys
    ensures Operation(methodName) !in c.methods ==> r == Err(UndefinedMethod(methodName))
  {
    match Intercept(c, methodName, args)
    case Err(e) => Err(e)
    case Ok(inv) => Perform(c, vals, inv)
  }

  /** `set` and `get` reject exactly the same names: the undeclared and the private. */
  lemma SetAndGetRejectAlike(c: ReflectionClass, vals: map<string, Value>, operand: string, v: Value)
    requires Covers(c.props, vals)
    ensures SetOn(c, vals, operand, v).Err? <==> GetOn(c, vals, operand).Err?
    ensures SetOn(c, vals, operand, v).Err? ==>
      SetOn(c, vals, operand, v).error == GetOn(c, vals, operand).error ==
        (if HasProperty(c, operand) then PrivateProperty(operand) else UndefinedProperty(operand))
  {
  }

  /** Every eligible property of a class is accepted by set and get. */
  lemma EligibleIsAccessible(c: ReflectionClass, p: Prop)
    requires UniqueNames(c.props) && p in c.props && Eligible(p)
    ensures Access(c, p.name) == Ok(p)
  {
    PropertyNamedIsDeclared(c, p);
  }

  /** `set(p, v)` then `get(p)` gives back `v`, and no other property reads differently. */
  lemma GetAfterSet(c: ReflectionClass, vals: map<string, Value>, operand: string, v: Value, other: string)
    requires Covers(c.props, vals) && SetOn(c, vals, operand, v).Ok?
    ensures GetOn(c, SetOn(c, vals, operand, v).value, operand) == Ok(v)
    ensures other != operand ==> GetOn(c, SetOn(c, vals, operand, v).value, other) == GetOn(c, vals, other)
  {
  }

  /** The accessor name for a property, "get" . ucfirst(name) and the like. */
  function AccessorName(op: string, name: string): (r: string)
    ensures |r| == |op| + |name| && r[..|op|] == op
    ensures name != "" ==> r[|op| + 1..] == name[1..]
    ensures name != "" && IsLower(name[0]) ==> IsUpper(r[|op|]) && r[|op|] as int == name[0] as int - 32
    ensures name == "" || !IsLower(name[0]) ==> r == op + name
  {
    op + Ucfirst(name)
  }

  /** `__call` turns an accessor name back into its operation and property,
      provided the property name does not start upper-case. */
  lemma {:induction false} InterceptAccessor(c: ReflectionClass, op: string, name: string, args: seq<Value>)
    requires |op| == 3 && op in c.methods && LowerInitial(name)
    ensures Intercept(c, AccessorName(op, name), args) == Ok(Invocation(op, name, args))
  {
    var m := AccessorName(op, name);
    assert m[..3] == op;
    assert Substr(m, 3) == Ucfirst(name) by {
      if |m| > 3 { assert m[3..] == Ucfirst(name); }
    }
    LcfirstUndoesUcfirst(name);
  }

  /** Generic accessor equivalence: for an eligible property whose name does
      not start upper-case, calling "set" . ucfirst(name) with `v` and then
      "get" . ucfirst(name) returns `v`. */
  lemma SetterThenGetter(c: ReflectionClass, vals: map<string, Value>, p: Prop, v: Value)
    requires UniqueNames(c.props) && Covers(c.props, vals)
    requires "get" in c.methods && "set" in c.methods
    requires p in c.props && Eligible(p) && LowerInitial(p.name)
    ensures var s := CallOn(c, vals, AccessorName("set", p.name), [v]);
      && s == Ok(Outcome(This, vals[p.name := v]))
      && CallOn(c, s.value.vals, AccessorName("get", p.name), []) == Ok(Outcome(Got(v), s.value.vals))
  {
    InterceptAccessor(c, "set", p.name, [v]);
    InterceptAccessor(c, "get", p.name, []);
    EligibleIsAccessible(c, p);
  }

  /** One call of the setter-based constructor: the setter name and the value. */
  datatype SetterCall = SetterCall(methodName: string, arg: Value)

  /** The setter call the constructor makes for one property, if any: the
      property must be eligible and its input not empty. */
  function CallFor(p: Prop, input: PhpArray): (r: seq<SetterCall>)
    ensures |r| <= 1
    ensures r != [] <==> Eligible(p) && !IsEmptyAt(input, p.name)
    ensures r != [] ==> r[0].methodName == AccessorName("set", p.name) && r[0].arg == input.entries[p.name]
  {
    if Eligible(p) && !IsEmptyAt(input, p.name)
    then [SetterCall(AccessorName("set", p.name), input.entries[p.name])] else []
  }

  /** The setter calls the constructor makes, in property order. */
  function SetterCalls(props: seq<Prop>, input: PhpArray): (r: seq<SetterCall>)
    ensures |r| <= |props|
  {
    if props == [] then [] else CallFor(props[0], input) + SetterCalls(props[1..], input)
  }

  /** The property values after a run of calls, and the error that stopped it, if any. */
  datatype Run = Run(vals: map<string, Value>, failure: Option<Error>)

  /** Run setter calls one after another through `__call`; the first error
      ends the run and leaves the values as the calls before it made them. */
  function RunCalls(c: ReflectionClass, vals: map<string, Value>, calls: seq<SetterCall>): (r: Run)
    requires Covers(c.props, vals)
    ensures r.vals.Keys == vals.Keys
  {
    if calls == [] then Run(vals, None)
    else match CallOn(c, vals, calls[0].methodName, [calls[0].arg])
      case Err(e) => Run(vals, Some(e))
      case Ok(o) => RunCalls(c, o.vals, calls[1..])
  }

  /** The constructor calls a setter exactly for each eligible property with a
      non-empty input, with that input: falsy inputs are skipped. */
  lemma {:induction false} SetterCallsExactly(props: seq<Prop>, input: PhpArray)
    ensures forall p :: p in props && Eligible(p) && !IsEmptyAt(input, p.name) ==>
      SetterCall(AccessorName("set", p.name), input.entries[p.name]) in SetterCalls(props, input)
    ensures forall call :: call in SetterCalls(props, input) ==>
      exists q :: q in props && Eligible(q) && !IsEmptyAt(input, q.name)
        && call == SetterCall(AccessorName("set", q.name), input.entries[q.name])
  {
    if props != [] {
      SetterCallsExactly(props[1..], input);
      assert props == [props[0]] + props[1..];
    }
  }

  /** The calls still to make from property `i` on. */
  lemma SetterCallsFrom(props: seq<Prop>, i: nat, input: PhpArray)
    requires i < |props|
    ensures SetterCalls(props[i..], input) == CallFor(props[i], input) + SetterCalls(props[i + 1..], input)
  {
    assert props[i..][1..] == props[i + 1..];
  }

  /** Running a first call and then the rest. */
  lemma RunCallsCons(c: ReflectionClass, vals: map<string, Value>, call: SetterCall, rest: seq<SetterCall>)
    requires Covers(c.props, vals)
    ensures var first := CallOn(c, vals, call.methodName, [call.arg]);
      RunCalls(c, vals, [call] + rest) ==
        if first.Err? then Run(vals, Some(first.error)) else RunCalls(c, first.value.vals, rest)
  {
    assert ([call] + rest)[0] == call && ([call] + rest)[1..] == rest;
  }

  /** The calls follow the property order: the calls for a concatenation of
      property lists are the calls for the first, then those for the second. */
  lemma {:induction false} SetterCallsInOrder(a: seq<Prop>, b: seq<Prop>, input: PhpArray)
    ensures SetterCalls(a + b, input) == SetterCalls(a, input) + SetterCalls(b, input)
  {
    if a == [] {
      assert a + b == b;
    } else {
      calc {
        SetterCalls(a + b, input);
        { assert (a + b)[0] == a[0] && (a + b)[1..] == a[1..] + b; }
        CallFor(a[0], input) + SetterCalls(a[1..] + b, input);
        { SetterCallsInOrder(a[1..], b, input); }
        CallFor(a[0], input) + (SetterCalls(a[1..], input) + SetterCalls(b, input));
      }
    }
  }

  /** The setter-based constructor skips a falsy input that the raw
      reflection constructor (and fromArray) assigns: for one protected
      property `count` holding 7, the input `count => 0` is ignored by the
      former and stored by the latter. */
  lemma FalsyInputSkippedBySetters()
    ensures var c := ReflectionClass([Prop("count", Protected, false)], {"get", "set"});
      var vals := map["count" := Int(7)];
      var input := PhpArray(["count"], map["count" := Int(0)]);
      && RunCalls(c, vals, SetterCalls(c.props, input)) == Run(vals, None)
      && Assigned(c.props, vals, input, Isset) == map["count" := Int(0)]
  {
    var c := ReflectionClass([Prop("count", Protected, false)], {"get", "set"});
    var input := PhpArray(["count"], map["count" := Int(0)]);
    assert SetterCalls(c.props[1..], input) == [];
    assert c.props[..0] == [];
  }

  /** A property whose name starts upper-case defeats the setter-based
      constructor: the setter "setName" comes back from `__call` as the
      operand "name", which is not a property, and construction throws. */
  lemma CapitalisedPropertyBreaksSetters()
    ensures var c := ReflectionClass([Prop("Name", Protected, false)], {"get", "set"});
      var input := PhpArray(["Name"], map["Name" := Str("Ann")]);
      RunCalls(c, map["Name" := Null], SetterCalls(c.props, input)).failure == Some(UndefinedProperty("name"))
  {
    var c := ReflectionClass([Prop("Name", Protected, false)], {"get", "set"});
    var input := PhpArray(["Name"], map["Name" := Str("Ann")]);
    assert SetterCalls(c.props[1..], input) == [];
    var m := AccessorName("set", "Name");
    assert m == "setName";
    assert Operation(m) == "set" by { assert m[..3] == "set"; }
    assert Operand(m) == "name" by { assert m[3..] == "Name"; }
    assert !HasProperty(c, "name") by {
      forall p | p in c.props ensures p.name != "name" { assert p == c.props[0]; }
    }
  }

  /** The setter call for an eligible property whose name does not start
      upper-case assigns that property and returns the object. */
  lemma SetterCallAssigns(c: ReflectionClass, vals: map<string, Value>, p: Prop, v: Value)
    requires UniqueNames(c.props) && Covers(c.props, vals) && "set" in c.methods
    requires p in c.props && Eligible(p) && LowerInitial(p.name)
    ensures CallOn(c, vals, AccessorName("set", p.name), [v]) == Ok(Outcome(This, vals[p.name := v]))
  {
    InterceptAccessor(c, "set", p.name, [v]);
    EligibleIsAccessible(c, p);
  }

  /** When every eligible name starts lower-case and the class has `set`, the
      setter-based constructor succeeds and amounts to assigning, under
      `!empty`, each eligible property its input. */
  lemma {:induction false} SettersAssignNonEmpty(c: ReflectionClass, vals: map<string, Value>, input: PhpArray, ps: seq<Prop>)
    requires UniqueNames(c.props) && Covers(c.props, vals) && "set" in c.methods
    requires forall p :: p in ps ==> p in c.props
    requires forall p :: p in ps && Eligible(p) ==> LowerInitial(p.name)
    ensures var run := RunCalls(c, vals, SetterCalls(ps, input));
      run.failure == None &&
      forall k :: k in vals ==>
        run.vals[k] == if EligibleNamed(ps, k) && Admits(NotEmpty, input, k) then input.entries[k] else vals[k]
  {
    if ps != [] {
      var p := ps[0];
      var rest := SetterCalls(ps[1..], input);
      assert forall q :: q in ps[1..] ==> q in ps;
      var vals' := vals;
      if Eligible(p) && !IsEmptyAt(input, p.name) {
        var call := SetterCall(AccessorName("set", p.name), input.entries[p.name]);
        assert SetterCalls(ps, input) == [call] + rest;
        SetterCallAssigns(c, vals, p, call.arg);
        RunCallsCons(c, vals, call, rest);
        vals' := vals[p.name := call.arg];
      } else {
        assert SetterCalls(ps, input) == rest;
      }
      SettersAssignNonEmpty(c, vals', input, ps[1..]);
      AssignOneThenRest(vals, vals', RunCalls(c, vals', rest).vals, ps, input);
    }
  }

  /** The bookkeeping step of SettersAssignNonEmpty: assigning the first
      property, then the rest, is assigning all of them. */
  lemma AssignOneThenRest(vals: map<string, Value>, vals': map<string, Value>, after: map<string, Value>,
                          ps: seq<Prop>, input: PhpArray)
    requires ps != []
    requires vals' == if Eligible(ps[0]) && Admits(NotEmpty, input, ps[0].name)
      then vals[ps[0].name := input.entries[ps[0].name]] else vals
    requires vals'.Keys == vals.Keys && after.Keys == vals.Keys
    requires forall k :: k in vals' ==>
      after[k] == if EligibleNamed(ps[1..], k) && Admits(NotEmpty, input, k) then input.entries[k] else vals'[k]
    ensures forall k :: k in vals ==>
      after[k] == if EligibleNamed(ps, k) && Admits(NotEmpty, input, k) then input.entries[k] else vals[k]
  {
    assert ps == [ps[0]] + ps[1..];
    forall k | k in vals
      ensures after[k] == if EligibleNamed(ps, k) && Admits(NotEmpty, input, k) then input.entries[k] else vals[k]
    {
      assert EligibleNamed(ps, k) <==> EligibleNamed(ps[1..], k) || (Eligible(ps[0]) && ps[0].name == k);
    }
  }

  /** The setter-based constructor, on a class it completes for, reaches the
      same state as an `!empty`-guarded assignment of the whole input. */
  lemma SetterConstructionIsNonEmptyAssignment(c: ReflectionClass, vals: map<string, Value>, input: PhpArray)
    requires UniqueNames(c.props) && Covers(c.props, vals) && "set" in c.methods
    requires forall p :: p in c.props && Eligible(p) ==> LowerInitial(p.name)
    ensures RunCalls(c, vals, SetterCalls(c.props, input)) == Run(Assigned(c.props, vals, input, NotEmpty), None)
  {
    SettersAssignNonEmpty(c, vals, input, c.props);
    AssignedAt(c.props, vals, input, NotEmpty);
  }
}

/** An object of a class that composes the reflection traits: its property
    values, the lazily created `$reflector` (src/WithReflector.php, repeated in
    src/WithFullReflection.php) and the `$fieldsList` memo
    (src/WithArrayTransform.php), with the traits' methods over them. */
module ReflectiveObject {
  import opened Php
  import opened Shape
  import opened ArrayTransform
  import opened FullReflection

  /** A class declares its properties once each. */
  ghost predicate WellFormedClass(c: ReflectionClass)
  {
    UniqueNames(c.props)
  }

  class Instance {
    /** The reflection of the object's own class, `new ReflectionClass($this)`. */
    const cls: ReflectionClass
    /** The current value of every declared property. */
    var values: map<string, Value>
    /** `$reflector`: null until first use. */
    var reflector: Option<ReflectionClass>
    /** `$fieldsList`: null until getFields first fills it. */
    var fieldsList: Option<seq<string>>

    ghost predicate Valid()
      reads this
    {
      && WellFormedClass(cls)
      && values.Keys == NameSet(cls.props)
      && (reflector.Some? ==> Fits(reflector.value))
    }

    /** A reflector the object can be read through: every property it reports
        is a property of the object (the subject is the object's class or one
        of its ancestors). */
    ghost predicate Fits(c: ReflectionClass)
      reads this
    {
      WellFormedClass(c) && NameSet(c.props) <= values.Keys
    }

    /** The reflector getReflector hands out: the cached one, or a fresh
        reflection of the object's class. */
    function Current(): (r: ReflectionClass)
      reads this
      ensures Valid() ==> Fits(r)
      ensures reflector.Some? ==> r == reflector.value
    {
      if reflector.Some? then reflector.value else cls
    }

    /** A new object: every property at its declared default, no reflector, no
        field list. */
    constructor (cls: ReflectionClass, defaults: map<string, Value>)
      requires WellFormedClass(cls) && defaults.Keys == NameSet(cls.props)
      ensures Valid()
      ensures this.cls == cls && values == defaults && reflector == None && fieldsList == None
    {
      this.cls := cls;
      values := defaults;
      reflector := None;
      fieldsList := None;
    }

    lemma CurrentCovers()
      requires Valid()
      ensures Covers(Current().props, values) && Fits(Current())
    {
    }

    /** getReflector: create the reflector on first use, never replace it. */
    method GetReflector() returns (r: ReflectionClass)
      requires Valid()
      modifies this`reflector
      ensures Valid()
      ensures r == old(Current()) && reflector == Some(r)
      ensures old(reflector).Some? ==> reflector == old(reflector)
    {
      if reflector.None? {
        var _ := SetReflector(None);
      }
      r := reflector.value;
    }

    /** setReflector: reflect the given subject, or the object itself when
        none is given, replacing any earlier reflector; returns the object. */
    method SetReflector(subject: Option<ReflectionClass>) returns (self: Instance)
      requires Valid()
      requires subject.Some? ==> Fits(subject.value)
      modifies this`reflector
      ensures Valid() && self == this
      ensures reflector == Some(if subject.None? then cls else subject.value)
    {
      var target := if subject.None? then cls else subject.value;
      reflector := Some(target);
      self := this;
    }

    /** toArray: the eligible properties, in reflection order, with their
        current values; no property changes. */
    method ToArray() returns (classData: PhpArray)
      requires Valid()
      modifies this`reflector
      ensures Valid() && reflector == Some(old(Current()))
      ensures classData == Snapshot(old(Current()).props, values)
    {
      var c := GetReflector();
      classData := EmptyArray;
      var i := 0;
      while i < |c.props|
        invariant i <= |c.props| && Valid() && reflector == Some(c)
        invariant Covers(c.props, values) && Covers(c.props[..i], values)
        invariant classData == Snapshot(c.props[..i], values)
      {
        var p := c.props[i];
        SnapshotStep(c.props, i, values);
        if !p.isStatic && p.visibility == Protected {
          classData := Put(classData, p.name, values[p.name]);
        }
        i := i + 1;
      }
      assert c.props[..i] == c.props;
    }

    /** fromArray: assign each eligible property whose source entry is set;
        nothing else changes; returns the object. */
    method FromArray(source: PhpArray) returns (self: Instance)
      requires Valid()
      modifies this`reflector, this`values
      ensures Valid() && self == this && reflector == Some(old(Current()))
      ensures values == Assigned(old(Current()).props, old(values), source, Isset)
    {
      var c := GetReflector();
      ghost var initial := values;
      var i := 0;
      while i < |c.props|
        invariant i <= |c.props| && reflector == Some(c) && Covers(c.props, initial)
        invariant Covers(c.props[..i], initial) && values == Assigned(c.props[..i], initial, source, Isset)
      {
        var p := c.props[i];
        AssignedStep(c.props, i, initial, source, Isset);
        if !p.isStatic && p.visibility == Protected && IsSet(source, p.name) {
          values := values[p.name := source.entries[p.name]];
        }
        i := i + 1;
      }
      assert c.props[..i] == c.props;
      self := this;
    }

    /** getFields: on the first call, list the eligible property names in
        reflection order and keep the list; later calls return the kept list
        without looking at the reflector. */
    method GetFields() returns (fields: seq<string>)
      requires Valid()
      modifies this`fieldsList, this`reflector
      ensures Valid() && fieldsList == Some(fields)
      ensures old(fieldsList).Some? ==> fields == old(fieldsList).value && reflector == old(reflector)
      ensures old(fieldsList).None? ==>
        fields == EligibleNames(old(Current()).props) && reflector == Some(old(Current()))
    {
      if fieldsList.None? {
        fieldsList := Some([]);
        var c := GetReflector();
        var i := 0;
        while i < |c.props|
          invariant i <= |c.props| && Valid() && reflector == Some(c)
          invariant fieldsList == Some(EligibleNames(c.props[..i]))
        {
          var p := c.props[i];
          EligibleNamesStep(c.props, i);
          if !p.isStatic && p.visibility == Protected {
            fieldsList := Some(fieldsList.value + [p.name]);
          } else {
            assert fieldsList.value + [] == fieldsList.value;
          }
          i := i + 1;
        }
        assert c.props[..i] == c.props;
      }
      fields := fieldsList.value;
    }

    /** The constructor of src/WithReflectionConstructor.php: on a non-empty
        input, assign every eligible property whose input is set, straight
        into the property, through a reflection of the object's own class
        (not the cached reflector). */
    method RawConstruct(properties: PhpArray)
      requires Valid()
      modifies this`values
      ensures Valid()
      ensures values == Assigned(cls.props, old(values), properties, Isset)
    {
      if IsEmptyArray(properties) {
        EmptySourceAssignsNothing(cls.props, values, properties, Isset);
        return;
      }
      var c := cls;
      ghost var initial := values;
      var i := 0;
      while i < |c.props|
        invariant i <= |c.props| && Covers(c.props, initial)
        invariant Covers(c.props[..i], initial) && values == Assigned(c.props[..i], initial, properties, Isset)
      {
        var p := c.props[i];
        AssignedStep(c.props, i, initial, properties, Isset);
        if !p.isStatic && p.visibility == Protected && IsSet(properties, p.name) {
          values := values[p.name := properties.entries[p.name]];
        }
        i := i + 1;
      }
      assert c.props[..i] == c.props;
    }

    /** The private `set`: assign an existing, non-private property and
        return the object; otherwise throw and change no property. */
    method Set(operand: string, value: Value) returns (r: Result<Instance>)
      requires Valid()
      modifies this`reflector, this`values
      ensures Valid() && reflector == Some(old(Current()))
      ensures var expected := SetOn(old(Current()), old(values), operand, value);
        && (expected.Ok? ==> r == Ok(this) && values == expected.value)
        && (expected.Err? ==> r == Err(expected.error) && values == old(values))
    {
      var c := GetReflector();
      if !HasProperty(c, operand) {
        return Err(UndefinedProperty(operand));
      }
      var p := PropertyNamed(c, operand);
      if p.visibility == Private {
        return Err(PrivateProperty(operand));
      }
      values := values[operand := value];
      r := Ok(this);
    }

    /** The private `get`: the value of an existing, non-private property;
        otherwise throw. No property changes. */
    method Get(operand: string) returns (r: Result<Value>)
      requires Valid()
      modifies this`reflector
      ensures Valid() && reflector == Some(old(Current()))
      ensures r == GetOn(old(Current()), values, operand)
    {
      var c := GetReflector();
      if !HasProperty(c, operand) {
        return Err(UndefinedProperty(operand));
      }
      var p := PropertyNamed(c, operand);
      if p.visibility == Private {
        return Err(PrivateProperty(operand));
      }
      r := Ok(values[operand]);
    }

    /** `__call`: the first three characters name the operation, which must be
        a method of the class; the lcfirst'ed rest of the name is put in front
        of the arguments and the operation is invoked. */
    method Call(methodName: string, args: seq<Value>) returns (r: Result<Returned>)
      requires Valid()
      modifies this`reflector, this`values
      ensures Valid() && reflector == Some(old(Current()))
      ensures var expected := CallOn(old(Current()), old(values), methodName, args);
        && (expected.Ok? ==> r == Ok(expected.value.returned) && values == expected.value.vals)
        && (expected.Err? ==> r == Err(expected.error) && values == old(values))
    {
      var operationType := Operation(methodName);
      var c := GetReflector();
      if operationType !in c.methods {
        return Err(UndefinedMethod(methodName));
      }
      var operand := Operand(methodName);
      if operationType == "set" {
        if args == [] {
          return Err(MissingArgument);
        }
        var s := Set(operand, args[0]);
        r := if s.Ok? then Ok(This) else Err(s.error);
      } else if operationType == "get" {
        var g := Get(operand);
        r := if g.Ok? then Ok(Got(g.value)) else Err(g.error);
      } else {
        r := Ok(Forwarded(Invocation(operationType, operand, args)));
      }
    }

    /** One property of the setter-based constructor: call its setter
        through `__call` when it is eligible and its input is not empty. The
        calls `rest` still to come run after it unless it throws. */
    method SetterStep(ghost c: ReflectionClass, p: Prop, properties: PhpArray, ghost rest: seq<SetterCall>)
      returns (failure: Option<Error>)
      requires Valid() && reflector == Some(c)
      modifies this`reflector, this`values
      ensures Valid() && reflector == Some(c)
      ensures Covers(c.props, old(values)) && Covers(c.props, values)
      ensures RunCalls(c, old(values), CallFor(p, properties) + rest) ==
        if failure.Some? then Run(values, failure) else RunCalls(c, values, rest)
    {
      CurrentCovers();
      if !p.isStatic && p.visibility == Protected && !IsEmptyAt(properties, p.name) {
        var call := SetterCall(AccessorName("set", p.name), properties.entries[p.name]);
        RunCallsCons(c, values, call, rest);
        var r := Call(call.methodName, [call.arg]);
        failure := if r.Err? then Some(r.error) else None;
        CurrentCovers();
      } else {
        assert [] + rest == rest;
        failure := None;
      }
    }

    /** The constructor of src/WithFullReflection.php: for each eligible
        property with a non-empty input, in order, call "set" . ucfirst(name)
        with that input through `__call`; the first error ends construction. */
    method SetterConstruct(properties: PhpArray) returns (failure: Option<Error>)
      requires Valid()
      modifies this`reflector, this`values
      ensures Valid() && reflector == Some(old(Current()))
      ensures Covers(old(Current()).props, old(values))
      ensures Run(values, failure) == RunCalls(old(Current()), old(values), SetterCalls(old(Current()).props, properties))
    {
      var c := GetReflector();
      CurrentCovers();
      ghost var goal := RunCalls(c, values, SetterCalls(c.props, properties));
      var i := 0;
      assert c.props[i..] == c.props;
      while i < |c.props|
        invariant i <= |c.props| && Valid() && reflector == Some(c) && Covers(c.props, values)
        invariant RunCalls(c, values, SetterCalls(c.props[i..], properties)) == goal
      {
        SetterCallsFrom(c.props, i, properties);
        failure := SetterStep(c, c.props[i], properties, SetterCalls(c.props[i + 1..], properties));
        if failure.Some? {
          return;
        }
        i := i + 1;
      }
      failure := None;
    }
  }

  /** Construction through WithReflectionConstructor and fromArray on a fresh
      object agree: both assign, under `isset`, the input to the eligible
      properties of the object's class. */
  method RawConstructIsFromArray(cls: ReflectionClass, defaults: map<string, Value>, properties: PhpArray)
    returns (raw: map<string, Value>, viaFromArray: map<string, Value>)
    requires WellFormedClass(cls) && defaults.Keys == NameSet(cls.props)
    ensures raw == viaFromArray
    ensures raw == Assigned(cls.props, defaults, properties, Isset)
  {
    var a := new Instance(cls, defaults);
    a.RawConstruct(properties);
    var b := new Instance(cls, defaults);
    var _ := b.FromArray(properties);
    raw, viaFromArray := a.values, b.values;
  }
}

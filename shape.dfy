/** What PHP reflection reports about a class: its properties in reflection
    order (name, visibility, static or not) and the names of its methods. */
module Shape {
  import opened Php

  datatype Visibility = Public | Protected | Private

  datatype Prop = Prop(name: string, visibility: Visibility, isStatic: bool)

  /** A ReflectionClass as the traits use it. */
  datatype ReflectionClass = ReflectionClass(props: seq<Prop>, methods: set<string>)

  /** The properties the traits work on: protected and not static
      (`getProperties(IS_PROTECTED)` followed by `!isStatic()`). */
  predicate Eligible(p: Prop)
  {
    p.visibility == Protected && !p.isStatic
  }

  /** Some eligible property of `props` is called `n`. */
  predicate EligibleNamed(props: seq<Prop>, n: string)
  {
    exists p :: p in props && Eligible(p) && p.name == n
  }

  /** PHP never reports two properties of one class under the same name. */
  predicate UniqueNames(props: seq<Prop>)
  {
    forall i, j :: 0 <= i < j < |props| ==> props[i].name != props[j].name
  }

  /** Every property of `props` has a value in `vals`. */
  predicate Covers(props: seq<Prop>, vals: map<string, Value>)
  {
    forall p :: p in props ==> p.name in vals
  }

  /** The names of all properties, as a set. */
  function NameSet(props: seq<Prop>): (r: set<string>)
    ensures forall p :: p in props ==> p.name in r
    ensures forall n :: n in r ==> exists p :: p in props && p.name == n
  {
    set p | p in props :: p.name
  }

  /** `ReflectionClass::hasProperty`. */
  predicate HasProperty(c: ReflectionClass, n: string)
    ensures HasProperty(c, n) <==> n in NameSet(c.props)
  {
    exists p :: p in c.props && p.name == n
  }

  /** The first property named `n` in `props`. */
  function FirstNamed(props: seq<Prop>, n: string): (p: Prop)
    requires exists q :: q in props && q.name == n
    ensures p in props && p.name == n
  {
    if props[0].name == n then props[0] else FirstNamed(props[1..], n)
  }

  /** `ReflectionClass::getProperty`. */
  function PropertyNamed(c: ReflectionClass, n: string): (p: Prop)
    requires HasProperty(c, n)
    ensures p in c.props && p.name == n
  {
    FirstNamed(c.props, n)
  }

  /** With unique names, the property found under a name is the one declared under it. */
  lemma PropertyNamedIsDeclared(c: ReflectionClass, p: Prop)
    requires UniqueNames(c.props) && p in c.props
    ensures HasProperty(c, p.name) && PropertyNamed(c, p.name) == p
  {
    var q := PropertyNamed(c, p.name);
    var i :| 0 <= i < |c.props| && c.props[i] == p;
    var j :| 0 <= j < |c.props| && c.props[j] == q;
    assert i == j;
  }

  /** The names of the eligible properties, in reflection order: the list
      `getFields` fills in. */
  function EligibleNames(props: seq<Prop>): (r: seq<string>)
    ensures forall n :: n in r <==> EligibleNamed(props, n)
  {
    if props == [] then []
    else
      var m := |props| - 1;
      assert props == props[..m] + [props[m]];
      EligibleNames(props[..m]) + (if Eligible(props[m]) then [props[m].name] else [])
  }

  /** One more property of the loop over `props`, for getFields. */
  lemma EligibleNamesStep(props: seq<Prop>, i: nat)
    requires i < |props|
    ensures EligibleNames(props[..i + 1]) ==
      EligibleNames(props[..i]) + (if Eligible(props[i]) then [props[i].name] else [])
  {
    assert props[..i + 1][..i] == props[..i];
  }

  /** Splitting off the last property from the eligibility test. */
  lemma EligibleNamedLast(props: seq<Prop>, n: string)
    requires props != []
    ensures EligibleNamed(props, n) <==>
      EligibleNamed(props[..|props| - 1], n) || (Eligible(props[|props| - 1]) && props[|props| - 1].name == n)
  {
    assert props == props[..|props| - 1] + [props[|props| - 1]];
  }
}

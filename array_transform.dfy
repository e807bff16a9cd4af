/** What `toArray` and `fromArray` compute, as functions of the class shape
    and the property values, and what they promise (src/WithArrayTransform.php). */
module ArrayTransform {
  import opened Php
  import opened Shape

  /** The presence test that guards an assignment: `isset` (fromArray and the
      raw reflection constructor) or `!empty` (the setter-based constructor). */
  datatype Guard = Isset | NotEmpty

  predicate Admits(g: Guard, src: PhpArray, k: string)
  {
    match g
    case Isset => IsSet(src, k)
    case NotEmpty => !IsEmptyAt(src, k)
  }

  /** Every non-empty value is also set; the converse fails for the falsy
      values `0`, `false`, `""`, `"0"` and `[]`. */
  lemma NotEmptyIsStricter(src: PhpArray, k: string)
    ensures Admits(NotEmpty, src, k) ==> Admits(Isset, src, k)
    ensures k in src.entries && src.entries[k] != Null && Falsy(src.entries[k]) ==>
      Admits(Isset, src, k) && !Admits(NotEmpty, src, k)
  {
  }

  /** `toArray`: the eligible properties, in order, each mapped to its value. */
  function Snapshot(props: seq<Prop>, vals: map<string, Value>): (r: PhpArray)
    requires Covers(props, vals)
    ensures r.entries.Keys <= vals.Keys && |r.keys| <= |props|
  {
    if props == [] then EmptyArray
    else
      var m := |props| - 1;
      var before := Snapshot(props[..m], vals);
      if Eligible(props[m]) then Put(before, props[m].name, vals[props[m].name]) else before
  }

  /** `fromArray`'s loop: for each eligible property in order whose source
      entry passes the guard, assign that entry. */
  function Assigned(props: seq<Prop>, vals: map<string, Value>, src: PhpArray, g: Guard): (r: map<string, Value>)
    requires Covers(props, vals)
    ensures r.Keys == vals.Keys
  {
    if props == [] then vals
    else
      var m := |props| - 1;
      var before := Assigned(props[..m], vals, src, g);
      var p := props[m];
      if Eligible(p) && Admits(g, src, p.name) then before[p.name := src.entries[p.name]] else before
  }

  /** One more property of the loop over `props`, for toArray. */
  lemma SnapshotStep(props: seq<Prop>, i: nat, vals: map<string, Value>)
    requires i < |props| && Covers(props, vals)
    ensures Covers(props[..i], vals) && Covers(props[..i + 1], vals)
    ensures Snapshot(props[..i + 1], vals) ==
      if Eligible(props[i]) then Put(Snapshot(props[..i], vals), props[i].name, vals[props[i].name])
      else Snapshot(props[..i], vals)
  {
    assert props[..i + 1][..i] == props[..i];
  }

  /** One more property of the loop over `props`, for fromArray. */
  lemma AssignedStep(props: seq<Prop>, i: nat, vals: map<string, Value>, src: PhpArray, g: Guard)
    requires i < |props| && Covers(props, vals)
    ensures Covers(props[..i], vals) && Covers(props[..i + 1], vals)
    ensures Assigned(props[..i + 1], vals, src, g) ==
      if Eligible(props[i]) && Admits(g, src, props[i].name)
      then Assigned(props[..i], vals, src, g)[props[i].name := src.entries[props[i].name]]
      else Assigned(props[..i], vals, src, g)
  {
    assert props[..i + 1][..i] == props[..i];
  }

  /** toArray's keys are exactly the eligible names, each mapped to the
      property's current value. */
  lemma {:induction false} SnapshotEntries(props: seq<Prop>, vals: map<string, Value>)
    requires Covers(props, vals)
    ensures forall k :: k in Snapshot(props, vals).entries <==> EligibleNamed(props, k)
    ensures forall k :: k in Snapshot(props, vals).entries ==> k in vals && Snapshot(props, vals).entries[k] == vals[k]
  {
    if props != [] {
      var m := |props| - 1;
      SnapshotEntries(props[..m], vals);
      forall k ensures EligibleNamed(props, k) <==> EligibleNamed(props[..m], k) || (Eligible(props[m]) && props[m].name == k) {
        EligibleNamedLast(props, k);
      }
    }
  }

  /** toArray's key order is the reflection order of the eligible properties,
      the list getFields returns, with every key once. */
  lemma {:induction false} SnapshotKeyOrder(props: seq<Prop>, vals: map<string, Value>)
    requires Covers(props, vals) && UniqueNames(props)
    ensures Snapshot(props, vals).keys == EligibleNames(props)
    ensures WellFormedArray(Snapshot(props, vals))
  {
    if props != [] {
      var m := |props| - 1;
      SnapshotKeyOrder(props[..m], vals);
      SnapshotEntries(props[..m], vals);
    }
  }

  /** fromArray, property by property: an eligible property whose source
      entry passes the guard takes that entry; every other property, and every
      value that is not a property, keeps its value; no key is created. */
  lemma {:induction false} AssignedAt(props: seq<Prop>, vals: map<string, Value>, src: PhpArray, g: Guard)
    requires Covers(props, vals)
    ensures forall k :: k in vals ==>
      Assigned(props, vals, src, g)[k] == if EligibleNamed(props, k) && Admits(g, src, k) then src.entries[k] else vals[k]
  {
    if props != [] {
      var m := |props| - 1;
      AssignedAt(props[..m], vals, src, g);
      forall k ensures EligibleNamed(props, k) <==> EligibleNamed(props[..m], k) || (Eligible(props[m]) && props[m].name == k) {
        EligibleNamedLast(props, k);
      }
    }
  }

  /** An empty source assigns nothing (the `!empty($properties)` shortcut of
      the raw constructor changes no outcome). */
  lemma EmptySourceAssignsNothing(props: seq<Prop>, vals: map<string, Value>, src: PhpArray, g: Guard)
    requires Covers(props, vals) && IsEmptyArray(src)
    ensures Assigned(props, vals, src, g) == vals
  {
    AssignedAt(props, vals, src, g);
  }

  /** Round trip: fromArray(toArray()) leaves every property as it was. */
  lemma FromArrayOfSnapshot(props: seq<Prop>, vals: map<string, Value>)
    requires Covers(props, vals)
    ensures Assigned(props, vals, Snapshot(props, vals), Isset) == vals
  {
    AssignedAt(props, vals, Snapshot(props, vals), Isset);
    SnapshotEntries(props, vals);
  }

  /** Snapshot after fromArray: every eligible property the source sets reads
      back as the source's value, every other one as before. */
  lemma SnapshotOfAssigned(props: seq<Prop>, vals: map<string, Value>, src: PhpArray)
    requires Covers(props, vals)
    ensures var after := Snapshot(props, Assigned(props, vals, src, Isset));
      forall k :: k in after.entries ==>
        k in vals && after.entries[k] == (if IsSet(src, k) then src.entries[k] else vals[k])
  {
    AssignedAt(props, vals, src, Isset);
    SnapshotEntries(props, Assigned(props, vals, src, Isset));
  }

  /** Applying the same source twice is the same as applying it once. */
  lemma AssignedIdempotent(props: seq<Prop>, vals: map<string, Value>, src: PhpArray, g: Guard)
    requires Covers(props, vals)
    ensures Assigned(props, Assigned(props, vals, src, g), src, g) == Assigned(props, vals, src, g)
  {
    var once := Assigned(props, vals, src, g);
    AssignedAt(props, vals, src, g);
    AssignedAt(props, once, src, g);
  }
}

# Picturae utility traits, modelled in Dafny

This project models the PHP traits of the Picturae `Utils` package that give a
class reflective behaviour and a small event bus:

- **WithArrayTransform** turns the protected, non-static properties of an
  object into an array (`toArray`). It assigns them from an array
  (`fromArray`). It lists their names once and keeps that list (`getFields`).
- **WithReflectionConstructor** is a constructor. It assigns each protected,
  non-static property straight from the input array whenever that input is
  `isset`.
- **WithFullReflection** is a second constructor. It calls
  `"set" . ucfirst(name)` for every protected, non-static property whose input
  is not `empty`. It also provides `__call`, which turns method names such as
  `getName` / `setName` into calls of the private `get` / `set` with the
  operand `lcfirst(substr(name, 3))`.
- **WithReflector** (and its copy inside WithFullReflection) creates the
  `$reflector` lazily.
- **WithEvents** is a per-object registry of callbacks keyed by event type,
  with `subscribe`, `unsubscribe`, `trigger` and `clear`.

A class is described by what reflection reports about it. That is an ordered
list of properties, each with a name, a visibility and a static flag, together
with the names of its methods (`Shape.ReflectionClass`). PHP values are
`Null`, booleans, integers, strings and lists (`Php.Value`). A PHP array is
an ordered key list plus an entry map (`Php.PhpArray`). `isset` and `empty`
are predicates on it. PHP exceptions become `Err` results carrying the kind of
failure (`Php.Error`).

Each file's modelling follows the form of its source:

- The object and the event bus are classes whose methods update fields in
  place:
  - `ReflectiveObject.Instance` holds the property values, `$reflector` and
    `$fieldsList`.
  - `Events.EventBus` holds `$eventList`.
- The loops of `toArray`, `fromArray`, `getFields`, both constructors and
  `trigger` are `while` loops. Each is proved against a specification
  function:
  - `ArrayTransform.Snapshot`
  - `ArrayTransform.Assigned`
  - `Shape.EligibleNames`
  - `FullReflection.SetterCalls` / `FullReflection.RunCalls`
  - `Events.Invocations`
- The lemmas state what the source promises about those functions.

Files:

- `php.dfy`: PHP values, arrays, `isset`/`empty`, `ucfirst`/`lcfirst`/`substr`.
- `shape.dfy`: the class shape and the eligible (protected, non-static) properties.
- `array_transform.dfy`: `toArray` / `fromArray` as functions, and their laws.
- `full_reflection.dfy`: `__call`, `get`, `set` and the setter-based constructor as functions.
- `reflective_object.dfy`: the object, with the trait methods as imperative methods.
- `events.dfy`: the event registry.

## Model

| member | source | states |
|---|---|---|
| Php.Put | src/WithArrayTransform.php:31 | `$a[k] = v` keeps an array well formed: each key once in the key order, and the key order and entry map agree |
| Php.Ucfirst | src/WithFullReflection.php:36 | `ucfirst` keeps the length and every character after the first; a lower-case initial becomes the upper-case letter 32 code points below it; any other string is returned unchanged |
| Php.Lcfirst | src/WithFullReflection.php:91 | `lcfirst` keeps the length and every character after the first; an upper-case initial becomes the lower-case letter 32 code points above it; any other string is returned unchanged |
| Php.Prefix | src/WithFullReflection.php:81 | `substr($s, 0, n)` is a prefix of `$s` of length `n`, or all of `$s` when it is shorter |
| Php.Substr | src/WithFullReflection.php:91 | `substr($s, 3)` is the rest of the name after the first three characters, and empty when the name is shorter |
| Php.LcfirstUndoesUcfirst | src/WithFullReflection.php:73-74 | `lcfirst(ucfirst(n)) == n` holds exactly when `n` does not start with an upper-case letter |
| Shape.HasProperty | src/WithFullReflection.php:113 | `hasProperty(n)` holds exactly when `n` is the name of a declared property |
| Shape.PropertyNamed | src/WithFullReflection.php:117 | `getProperty(n)` returns a declared property called `n` |
| Shape.PropertyNamedIsDeclared | src/WithFullReflection.php:117 | when names are unique, `getProperty(p.name)` is `p` itself |
| Shape.EligibleNames | src/WithArrayTransform.php:61-65 | a name is in the list exactly when some protected, non-static property has it |
| ArrayTransform.Snapshot | src/WithArrayTransform.php:25-35 | `toArray` only has keys of the object's properties, at most one per reflected property (`SnapshotEntries` and `SnapshotKeyOrder` characterise it fully) |
| ArrayTransform.NotEmptyIsStricter | src/WithReflectionConstructor.php:28 | every `!empty` input is `isset`; falsy non-null inputs (`0`, `false`, `""`, `"0"`, `[]`) are `isset` but `empty` |
| ArrayTransform.Assigned | src/WithArrayTransform.php:44-49 | the guarded assignment never creates or removes a property |
| ArrayTransform.SnapshotEntries | src/WithArrayTransform.php:25-35 | `toArray` has a key exactly for each protected, non-static property, mapped to that property's current value |
| ArrayTransform.SnapshotKeyOrder | src/WithArrayTransform.php:25-35 | `toArray`'s key order is the reflection order of those properties, the list `getFields` builds, each key once |
| ArrayTransform.AssignedAt | src/WithArrayTransform.php:44-49 | `fromArray` assigns `source[name]` to each protected, non-static property whose source entry is set; every other property keeps its value; extra source keys are ignored |
| ArrayTransform.EmptySourceAssignsNothing | src/WithReflectionConstructor.php:25 | an empty input array assigns nothing |
| ArrayTransform.FromArrayOfSnapshot | src/WithArrayTransform.php:25-51 | `fromArray(toArray())` leaves every property as it was |
| ArrayTransform.SnapshotOfAssigned | src/WithArrayTransform.php:25-51 | after `fromArray(src)`, `toArray` reads each property as `src`'s value where that is set, and as the old value elsewhere |
| ArrayTransform.AssignedIdempotent | src/WithArrayTransform.php:44-49 | applying the same source twice gives the same state as applying it once |
| FullReflection.Operation | src/WithFullReflection.php:81 | the operation is the first three characters of the method name, or the whole name when it is shorter |
| FullReflection.Operand | src/WithFullReflection.php:91 | the operand is the method name after its first three characters, with an upper-case initial turned into the same letter lower-cased, and empty for names of three characters or fewer |
| FullReflection.Arguments | src/WithFullReflection.php:89-92 | the invoked operation receives the operand first, then the caller's arguments unchanged |
| FullReflection.Intercept | src/WithFullReflection.php:79-92 | `__call` throws "undefined method" exactly when the first three characters are not a method of the class; otherwise it invokes that operation with operand `lcfirst(substr(name, 3))` and the original arguments after it |
| FullReflection.Access | src/WithFullReflection.php:113-122 | a property is accessible exactly when it is declared and not private, and it is then the declared property of that name |
| FullReflection.SetOn | src/WithFullReflection.php:109-131 | `set` throws exactly when the property is inaccessible, with the same error; otherwise it stores `v` under the operand, keeps every other property and never adds or removes one |
| FullReflection.GetOn | src/WithFullReflection.php:137-155 | `get` throws exactly when the property is inaccessible, with the same error; otherwise it returns the property's current value |
| FullReflection.Perform | src/WithFullReflection.php:94-100 | invoking the operation never adds or removes a property |
| FullReflection.CallOn | src/WithFullReflection.php:79-101 | an unknown operation throws "undefined method" for the whole name; a call never adds or removes a property |
| FullReflection.SetAndGetRejectAlike | src/WithFullReflection.php:113-122 | `set` and `get` reject the same names: undeclared ones as undefined, private ones as private |
| FullReflection.EligibleIsAccessible | src/WithFullReflection.php:113-122 | every protected, non-static property is accepted by `set` and `get` |
| FullReflection.GetAfterSet | src/WithFullReflection.php:109-155 | `set(p, v)` then `get(p)` returns `v`; every other property reads as before |
| FullReflection.InterceptAccessor | src/WithFullReflection.php:81-92 | `"get" . ucfirst(f)` (and `"set"`) reaches operation `get` with operand `f` when `f` does not start upper-case |
| FullReflection.SetterThenGetter | src/WithFullReflection.php:79-155 | calling `setX(v)` and then `getX()` for a protected property `x` returns `v`, and `setX` returns the object |
| FullReflection.AccessorName | src/WithFullReflection.php:36 | `"set" . ucfirst(name)` starts with `set`, keeps the rest of the name after its initial, turns a lower-case initial into the same letter upper-cased, and otherwise appends the name unchanged |
| FullReflection.CallFor | src/WithFullReflection.php:35-38 | one property yields a setter call exactly when it is protected, non-static and its input is not `empty`, calling `"set" . ucfirst(name)` with that input |
| FullReflection.SetterCalls | src/WithFullReflection.php:34-39 | the constructor makes at most one setter call per reflected property |
| FullReflection.SetterCallAssigns | src/WithFullReflection.php:36-38 | the constructor's setter call for an eligible property whose name does not start upper-case assigns that property and returns the object |
| FullReflection.RunCalls | src/WithFullReflection.php:33-40 | running setter calls never adds or removes a property |
| FullReflection.SetterCallsExactly | src/WithFullReflection.php:34-39 | the constructor calls `"set" . ucfirst(name)` with the input exactly for the protected, non-static properties whose input is not `empty` |
| FullReflection.SetterCallsInOrder | src/WithFullReflection.php:34-39 | the setter calls follow the property order |
| FullReflection.FalsyInputSkippedBySetters | src/WithFullReflection.php:35 | an input `0` is skipped by the setter-based constructor but assigned by the `isset`-guarded assignment |
| FullReflection.CapitalisedPropertyBreaksSetters | src/WithFullReflection.php:36 | a protected property named `Name` makes the setter-based constructor throw "undefined property `name`" |
| FullReflection.SettersAssignNonEmpty | src/WithFullReflection.php:31-41 | when the class has `set` and no eligible name starts upper-case, the setter calls succeed and assign each eligible property its non-empty input, nothing else |
| FullReflection.SetterConstructionIsNonEmptyAssignment | src/WithFullReflection.php:31-41 | under the same conditions the setter-based constructor reaches the state of an `!empty`-guarded assignment |
| ReflectiveObject.Instance.constructor | src/WithReflector.php:19 | a new object has its property defaults, no reflector and no field list |
| ReflectiveObject.Instance.Current | src/WithReflector.php:25-31 | the reflector in use is the cached one when there is one, and it only reports properties the object has |
| ReflectiveObject.Instance.CurrentCovers | src/WithReflector.php:25-31 | the reflector in use only reports properties the object has |
| ReflectiveObject.Instance.GetReflector | src/WithReflector.php:25-31 | on first use the reflector is created for the object's own class and kept; an existing reflector is returned and never replaced |
| ReflectiveObject.Instance.SetReflector | src/WithReflector.php:39-46 | with no subject, the reflector reflects the object itself; any earlier reflector is replaced; the object is returned |
| ReflectiveObject.Instance.ToArray | src/WithArrayTransform.php:25-35 | returns the snapshot of the current reflector's properties and changes no property |
| ReflectiveObject.Instance.FromArray | src/WithArrayTransform.php:42-51 | the new values are the `isset`-guarded assignment of the source; the object is returned |
| ReflectiveObject.Instance.GetFields | src/WithArrayTransform.php:56-69 | the first call lists the eligible names in reflection order and keeps the list; later calls return the kept list and leave the reflector alone |
| ReflectiveObject.Instance.RawConstruct | src/WithReflectionConstructor.php:23-37 | the new values are the `isset`-guarded assignment of the input over a reflection of the object's own class |
| ReflectiveObject.Instance.Set | src/WithFullReflection.php:109-131 | assigns exactly the named property and returns the object, or throws and changes nothing |
| ReflectiveObject.Instance.Get | src/WithFullReflection.php:137-155 | returns the property's value, or throws; no property changes |
| ReflectiveObject.Instance.Call | src/WithFullReflection.php:79-101 | the result and new values are those of the `__call` function; on a throw no property changes |
| ReflectiveObject.Instance.SetterStep | src/WithFullReflection.php:35-39 | one property of the setter-based constructor: its setter call, if any, followed by the remaining calls unless it throws |
| ReflectiveObject.Instance.SetterConstruct | src/WithFullReflection.php:31-41 | the values and the first error are those of running the constructor's setter calls in order |
| ReflectiveObject.RawConstructIsFromArray | src/WithReflectionConstructor.php:23-37 | on a fresh object, the reflection constructor and `fromArray` reach the same values: the `isset`-guarded assignment of the input |
| Events.MakeEventCallback | src/WithEvents.php:89-98 | a non-callable is refused; otherwise the registration pairs the fresh id with the callback |
| Events.Subscribed | src/WithEvents.php:32-35 | subscribe appends exactly one registration at the end of the type's list (created when missing), and leaves other types unchanged |
| Events.Listed | src/WithEvents.php:66 | the registrations of a type with a list are that list; an unknown type has none |
| Events.Invocations | src/WithEvents.php:66-70 | trigger makes one call per registration, in order, each with the same parameters |
| Events.Triggered | src/WithEvents.php:64-71 | trigger calls, in order, each callback registered for the type with the same parameters, and nothing for an unknown type |
| Events.RemoveById | src/WithEvents.php:50-52 | the filter keeps only registrations with another id, and never grows the list |
| Events.RemoveByIdMembers | src/WithEvents.php:50-52 | the filter keeps exactly the registrations whose id differs |
| Events.RemoveByIdKeepsOrder | src/WithEvents.php:48-53 | the filter keeps the original order |
| Events.RemoveByIdAbsent | src/WithEvents.php:48-53 | filtering by an id nobody carries changes nothing |
| Events.RemoveByIdFromMiddle | src/WithEvents.php:48-53 | filtering out the id that only one registration carries removes exactly that registration and keeps the others in order |
| Events.SubscribeThenRemove | src/WithEvents.php:29-53 | filtering out the id just subscribed gives back the list as it was |
| Events.SubscribeThenTrigger | src/WithEvents.php:29-71 | triggering after a subscribe makes the earlier calls, then the new callback's |
| Events.InvocationsConcat | src/WithEvents.php:67-69 | triggering a concatenated list makes the calls of the first part, then those of the second |
| Events.TriggerInSubscriptionOrder | src/WithEvents.php:29-71 | callbacks h1, h2, h3 subscribed to a new type are triggered in that order with the same parameters |
| Events.SubscribeKeepsIdsUnique | src/WithEvents.php:35 | subscribing under an unused id keeps registration ids unique across the registry |
| Events.UnsubscribeAsWritten | src/WithEvents.php:44-57 | with the type's list present, unsubscribe returns false; with it absent, it throws |
| Events.UnsubscribeIntended | src/WithEvents.php:44-57 | the corrected unsubscribe filters the type's list when present, returns whether it did, and leaves other types alone |
| Events.AsWrittenUnsubscribeKeepsRegistration | src/WithEvents.php:47 | unsubscribe as written returns false for a registered id, while the corrected one removes the registration |
| Events.SubscribeThenUnsubscribeIntended | src/WithEvents.php:29-57 | for an event type that already had a list and a new id, removing the id subscribe returned with the corrected unsubscribe restores the registry |
| Events.UnsubscribeThenTrigger | src/WithEvents.php:44-71 | with the corrected unsubscribe, trigger no longer calls the removed callback and still calls every other one in order |
| Events.Cleared | src/WithEvents.php:77-83 | clear removes only the given type's list |
| Events.EventBus.constructor | src/WithEvents.php:21 | the registry starts empty |
| Events.EventBus.Subscribe | src/WithEvents.php:29-37 | a non-callable throws before the registry changes; otherwise the registration is appended and its id returned |
| Events.EventBus.Unsubscribe | src/WithEvents.php:44-57 | as written: returns false for a present type, throws for an absent one, and never changes the registry |
| Events.EventBus.UnsubscribeFixed | src/WithEvents.php:44-57 | the corrected unsubscribe, changing the registry as `UnsubscribeIntended` says |
| Events.EventBus.Trigger | src/WithEvents.php:64-71 | returns the calls `Triggered` specifies, none for an unknown type; the registry does not change |
| Events.EventBus.Clear | src/WithEvents.php:77-83 | removes the type's list (if any) and returns the bus |

## Left out

- The PHP Reflection API itself (`getProperties` order across inheritance, `setAccessible`). The class shape is given as an ordered property list and a method-name set.
- `uniqid()`. `Subscribe` takes the new id as a parameter. Id uniqueness is an assumption of `SubscribeKeepsIdsUnique`, because `uniqid` does not guarantee it.
- `is_callable` and running callbacks. A callback is an opaque token with a callable flag. `Trigger` returns the calls it would make rather than making them. Callbacks that change the bus during `trigger` are not modelled.
- Magic-method priority. A class that declares an explicit `setX`/`getX` is called directly by PHP, bypassing `__call`; the model sends every accessor call through `__call`.
- Other operations reached through `__call`. A method other than `get`/`set` is returned as a `Forwarded` invocation. The model assumes it leaves property values unchanged.
- PHP's case-insensitive `hasMethod` and multibyte `ucfirst`/`lcfirst`. Names are ASCII and method lookup is exact.
- Floating-point values (including `empty(0.0)`), objects and resources as property values.
- The missing-list branch of `unsubscribe` depends on the PHP version (a warning or a `TypeError`). It is modelled as an error outcome. Where `array_filter(null)` only warns, the source also writes `$this->eventList[$eventType]` on that branch (src/WithEvents.php:48) and returns true; the model never makes that write.
- Field-type metadata (`getFieldsConfig`/`getFieldType`). It is not implemented in any of the modelled files.
- `array_filter`'s key preservation. The filtered list is modelled as a plain sequence.
- Integer keys in the input arrays. Keys are strings.
- The clash between `WithReflector` and `WithFullReflection`, which both declare `$reflector` when composed into one class.
- Static properties live in the object's own value map. `set`, `SetOn`, `Instance.Set` and `__call("setX")` can write a static property there, whereas PHP keeps one value per class shared by every instance. That sharing is not modelled, and neither is one object seeing another's write.
- ReflectiveObject.Instance.SetReflector: a given subject must only report properties the object has (`Fits`). PHP accepts any class name or object and fails later, in `setValue`/`getValue`, when a property does not belong to `$this`.
- An event list that is set but not an array (the `is_array` checks in `subscribe`, `unsubscribe` and `trigger`). Lists are always sequences.

## Findings

| source | as written | input that shows it | evidently intended | confidence | as-written member | corrected member |
|---|---|---|---|---|---|---|
| src/WithEvents.php:47 | the guard is negated: the filter runs only when the type has no list (and then filters `null`), so an existing registration is never removed and `false` is returned | subscribe `h` to `"save"`, getting id `i`; then `unsubscribe("save", i)` returns false and `h` is still triggered | filter the type's list when it exists and return true | high, not executed | Events.AsWrittenUnsubscribeKeepsRegistration | Events.UnsubscribeIntended |

/** The slice of PHP the traits rely on: values, string-keyed arrays,
    isset/empty, the ASCII case helpers and substr, and the errors thrown. */
module Php {

  datatype Option<T> = None | Some(value: T)

  datatype Result<T> = Ok(value: T) | Err(error: Error)

  /** The exceptions the core raises (all RuntimeException in the source, plus
      PHP's own argument-count and type errors). */
  datatype Error =
    | UndefinedMethod(methodName: string)       // __call: the operation is not a method
    | UndefinedProperty(propertyName: string)   // set/get: no such declared property
    | PrivateProperty(propertyName: string)     // set/get: the property is private
    | MissingArgument                           // set reached without its value argument
    | NotCallable                               // subscribe with a non-callable handler
    | FilterOnMissingList(eventType: string)    // unsubscribe passes null to array_filter

  /** PHP values without floats and objects; a list stands for any array value. */
  datatype Value = Null | Bool(b: bool) | Int(i: int) | Str(s: string) | Arr(elems: seq<Value>)

  /** The values PHP's empty() treats as empty. */
  predicate Falsy(v: Value)
  {
    match v
    case Null => true
    case Bool(b) => !b
    case Int(i) => i == 0
    case Str(s) => s == "" || s == "0"
    case Arr(e) => e == []
  }

  /** A string-keyed PHP array: its keys in insertion order and its entries. */
  datatype PhpArray = PhpArray(keys: seq<string>, entries: map<string, Value>)

  const EmptyArray := PhpArray([], map[])

  /** Every key once, and exactly the keys that have an entry. */
  ghost predicate WellFormedArray(a: PhpArray)
  {
    && (forall i, j :: 0 <= i < j < |a.keys| ==> a.keys[i] != a.keys[j])
    && (forall k :: k in a.entries <==> k in a.keys)
  }

  /** `$a[$k] = $v`: overwrite in place, or append a new key at the end. */
  function Put(a: PhpArray, k: string, v: Value): (r: PhpArray)
    ensures WellFormedArray(a) ==> WellFormedArray(r)
  {
    if k in a.entries then PhpArray(a.keys, a.entries[k := v])
    else PhpArray(a.keys + [k], a.entries[k := v])
  }

  /** `isset($a[$k])`: the key is present and its value is not null. */
  predicate IsSet(a: PhpArray, k: string)
  {
    k in a.entries && a.entries[k] != Null
  }

  /** `empty($a[$k])`: the key is absent or its value is falsy. */
  predicate IsEmptyAt(a: PhpArray, k: string)
  {
    k !in a.entries || Falsy(a.entries[k])
  }

  /** `empty($a)` for a whole array. */
  predicate IsEmptyArray(a: PhpArray)
  {
    |a.entries| == 0
  }

  predicate IsLower(ch: char) { 'a' <= ch <= 'z' }

  predicate IsUpper(ch: char) { 'A' <= ch <= 'Z' }

  /** ucfirst on ASCII: upper-case the first character if it is a lower-case letter. */
  function Ucfirst(s: string): (r: string)
    ensures |r| == |s| && (s != "" ==> r[1..] == s[1..])
    ensures s != "" && IsLower(s[0]) ==> IsUpper(r[0]) && r[0] as int == s[0] as int - 32
    ensures s == "" || !IsLower(s[0]) ==> r == s
  {
    if s != "" && IsLower(s[0]) then [(s[0] as int - 32) as char] + s[1..] else s
  }

  /** lcfirst on ASCII: lower-case the first character if it is an upper-case letter. */
  function Lcfirst(s: string): (r: string)
    ensures |r| == |s| && (s != "" ==> r[1..] == s[1..])
    ensures s != "" && IsUpper(s[0]) ==> IsLower(r[0]) && r[0] as int == s[0] as int + 32
    ensures s == "" || !IsUpper(s[0]) ==> r == s
  {
    if s != "" && IsUpper(s[0]) then [(s[0] as int + 32) as char] + s[1..] else s
  }

  /** `substr($s, 0, $n)`. */
  function Prefix(s: string, n: nat): (r: string)
    ensures |r| == (if n <= |s| then n else |s|) && r <= s
  {
    if n <= |s| then s[..n] else s
  }

  /** `substr($s, $start)`; past the end PHP gives the empty string. */
  function Substr(s: string, start: nat): (r: string)
    ensures start <= |s| ==> s == s[..start] + r
    ensures start >= |s| ==> r == ""
  {
    if start < |s| then s[start..] else ""
  }

  /** A name whose first character is not an upper-case letter. */
  predicate LowerInitial(n: string)
  {
    n == "" || !IsUpper(n[0])
  }

  /** lcfirst undoes ucfirst exactly on names that do not start upper-case. */
  lemma LcfirstUndoesUcfirst(n: string)
    ensures Lcfirst(Ucfirst(n)) == n <==> LowerInitial(n)
  {
    if n != "" && IsLower(n[0]) {
      assert Ucfirst(n) == [(n[0] as int - 32) as char] + n[1..];
      assert Ucfirst(n)[1..] == n[1..];
    }
  }
}

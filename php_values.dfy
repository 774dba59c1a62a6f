/**
 * PHP values as they appear in a service definition and in caller arguments,
 * and the handful of PHP array and conversion primitives the description
 * engine relies on.
 *
 * A PHP array is an ordered association list. Keys are kept as strings: PHP
 * itself folds the key "0" onto the integer 0, so the two never coexist.
 */
module PhpValues {
  import opened Wrappers
  import opened PhpStrings

  datatype Value =
    | VNull
    | VBool(b: bool)
    | VInt(i: int)
    | VStr(s: string)
    | VArr(entries: seq<(string, Value)>)

  type Entries = seq<(string, Value)>

  /** The value stored under `k`, if the key is present (first occurrence). */
  function Lookup(es: Entries, k: string): (r: Option<Value>)
    ensures r.Some? ==> exists i :: 0 <= i < |es| && es[i] == (k, r.value)
    ensures r.None? <==> forall i :: 0 <= i < |es| ==> es[i].0 != k
  {
    if es == [] then None
    else if es[0].0 == k then Some(es[0].1)
    else
      var r := Lookup(es[1..], k);
      assert forall i :: 1 <= i < |es| ==> es[i] == es[1..][i - 1];
      r
  }

  /** `$a[$k] ?? null`: a missing key reads as null. */
  function Get(es: Entries, k: string): Value
  {
    match Lookup(es, k)
    case Some(v) => v
    case None => VNull
  }

  /** `isset($a[$k])`: the key is present and its value is not null. */
  predicate Isset(es: Entries, k: string)
  {
    Get(es, k) != VNull
  }

  /** The entries of an array value; any other value has none. */
  function EntriesOf(v: Value): Entries
  {
    if v.VArr? then v.entries else []
  }

  /**
   * `$v[$k]` where `$v` may not be an array: only arrays have entries.
   * (Offsets into strings are not part of this model.)
   */
  function Index(v: Value, k: string): Value
  {
    Get(EntriesOf(v), k)
  }

  /** `$a[$k] = $v`: overwrite in place when the key exists, append otherwise. */
  function Set(es: Entries, k: string, v: Value): Entries
  {
    if es == [] then [(k, v)]
    else if es[0].0 == k then [(k, v)] + es[1..]
    else [es[0]] + Set(es[1..], k, v)
  }

  /** After assignment the key holds the value, no other key changes, and only a new key adds an entry. */
  lemma {:induction false} SetLookup(es: Entries, k: string, v: Value)
    ensures Lookup(Set(es, k, v), k) == Some(v)
    ensures forall j :: j != k ==> Lookup(Set(es, k, v), j) == Lookup(es, j)
    ensures |Set(es, k, v)| == if Lookup(es, k).Some? then |es| else |es| + 1
  {
    if es != [] && es[0].0 != k {
      SetLookup(es[1..], k, v);
      var r := Set(es, k, v);
      assert r[0] == es[0] && r[1..] == Set(es[1..], k, v);
    } else if es != [] {
      assert (Set(es, k, v))[1..] == es[1..];
    }
  }

  /** The keys of an array, in order. */
  function Keys(es: Entries): seq<string>
  {
    if es == [] then [] else [es[0].0] + Keys(es[1..])
  }

  /** A key list after assigning `k`: unchanged when `k` is present, else `k` appended. */
  function AddKey(keys: seq<string>, k: string): seq<string>
  {
    if k in keys then keys else keys + [k]
  }

  /** Assignment keeps the order of existing keys and appends a new one at the end. */
  lemma {:induction false} SetKeys(es: Entries, k: string, v: Value)
    ensures Keys(Set(es, k, v)) == AddKey(Keys(es), k)
  {
    if es == [] {
      assert Keys([(k, v)]) == [k] + Keys([]);
    } else {
      var r := Set(es, k, v);
      assert Keys(es) == [es[0].0] + Keys(es[1..]);
      if es[0].0 == k {
        assert r[0] == (k, v) && r[1..] == es[1..];
      } else {
        SetKeys(es[1..], k, v);
        assert r[0] == es[0] && r[1..] == Set(es[1..], k, v);
        assert k in Keys(es) <==> k in Keys(es[1..]);
      }
    }
  }

  /**
   * `array_merge($defaults, $args)` for string keys, as seen through lookups:
   * every argument wins over the default of the same key. (PHP appends new
   * keys in argument order; this version appends them in reverse order, which
   * no lookup can observe.)
   */
  function Merge(defaults: Entries, args: Entries): Entries
  {
    if args == [] then defaults
    else Set(Merge(defaults, args[1..]), args[0].0, args[0].1)
  }

  lemma {:induction false} MergeLookup(defaults: Entries, args: Entries, k: string)
    ensures Lookup(Merge(defaults, args), k) ==
            if Lookup(args, k).Some? then Lookup(args, k) else Lookup(defaults, k)
  {
    if args != [] {
      MergeLookup(defaults, args[1..], k);
      SetLookup(Merge(defaults, args[1..]), args[0].0, args[0].1);
    }
  }

  /** PHP truthiness: null, false, 0, "", "0" and the empty array are falsy. */
  predicate Truthy(v: Value)
  {
    match v
    case VNull => false
    case VBool(b) => b
    case VInt(i) => i != 0
    case VStr(s) => s != "" && s != "0"
    case VArr(es) => es != []
  }

  /** `is_numeric($v)` (floats are not part of this model). */
  predicate IsNumeric(v: Value)
  {
    match v
    case VInt(_) => true
    case VStr(s) => IsNumericString(s)
    case _ => false
  }

  /**
   * PHP 8 loose equality `$v == $name` against a string literal that is
   * neither empty nor numeric, which is how the engine compares every
   * configuration tag ('json', 'uri', 'integer', ...).
   */
  predicate LooseEqualsName(v: Value, name: string)
  {
    match v
    case VNull => name == ""
    case VBool(b) => b == (name != "" && name != "0")
    case VInt(i) => IntToString(i) == name
    case VStr(s) => s == name
    case VArr(_) => false
  }

  /**
   * The integer a value stands for in a numeric comparison: an int, or a
   * string written as an optionally signed run of digits.
   */
  function IntOf(v: Value): Option<int>
  {
    match v
    case VInt(i) => Some(i)
    case VStr(s) => ParseInt(s)
    case _ => None
  }

  /**
   * PHP's conversion of a value to string where an array is refused with a
   * TypeError (rtrim, ltrim, the replacement of preg_replace).
   */
  function StringArg(v: Value): (r: Option<string>)
    ensures r.None? <==> v.VArr?
  {
    match v
    case VNull => Some("")
    case VBool(b) => Some(if b then "1" else "")
    case VInt(i) => Some(IntToString(i))
    case VStr(s) => Some(s)
    case VArr(_) => None
  }

  /** The type PHP 8.0-8.2 names in a TypeError's "…, <type> given". */
  function TypeName(v: Value): string
  {
    match v
    case VNull => "null"
    case VBool(_) => "bool"
    case VInt(_) => "int"
    case VStr(_) => "string"
    case VArr(_) => "array"
  }
}

/**
 * The parameter validator: `testParameter` checks one candidate value against
 * one parameter rule, rule key by rule key in the rule's own order, failing on
 * the first constraint it breaks; `checkParameterType` is its type table.
 */
module ParameterValidator {
  import opened Wrappers
  import opened PhpStrings
  import opened PhpValues

  /**
   * `preg_match($pattern, $subject)` returning 1. Regular-expression matching
   * is supplied by the caller; this model does not interpret patterns.
   */
  type PatternMatcher = (Value, Value) -> bool

  /** The type tags the type table knows. */
  const TypeNames: set<string> :=
    {"string", "object", "array", "integer", "boolean", "number", "numeric", "null", "any"}

  /** Which values each type tag admits. */
  predicate Admits(name: string, v: Value)
  {
    match name
    case "string" => v.VStr?
    case "object" => v.VArr?
    case "array" => v.VArr?
    case "integer" => v.VInt?
    case "boolean" => v.VBool?
    case "number" => IsNumeric(v)
    case "numeric" => IsNumeric(v)
    case "null" => !Truthy(v)
    case "any" => true
    case _ => false
  }

  /**
   * `checkParameterType($type, $value)`: the chain of `$type == '<tag>'` tests.
   * A value passes when some tag that the declared type loosely equals admits
   * it; a list of tags equals no tag, so it admits nothing.
   */
  function CheckParameterType(t: Value, v: Value): (ok: bool)
    ensures ok <==> exists name :: name in TypeNames && LooseEqualsName(t, name) && Admits(name, v)
  {
    if LooseEqualsName(t, "string") && v.VStr? then true
    else if LooseEqualsName(t, "object") && v.VArr? then true
    else if LooseEqualsName(t, "array") && v.VArr? then true
    else if LooseEqualsName(t, "integer") && v.VInt? then true
    else if LooseEqualsName(t, "boolean") && v.VBool? then true
    else if LooseEqualsName(t, "number") && IsNumeric(v) then true
    else if LooseEqualsName(t, "numeric") && IsNumeric(v) then true
    else if LooseEqualsName(t, "null") && !Truthy(v) then true
    else LooseEqualsName(t, "any")
  }

  /**
   * Why a value was refused: a WebserviceException naming the parameter, or,
   * for EnumNotArray, the TypeError in_array() raises on a non-array list.
   */
  datatype Rejection =
    | RequiredMissing
    | WrongType
    | NotEnumerated
    | EnumNotArray(given: string)     // in_array() on a non-array: PHP's own TypeError
    | PatternMismatch
    | BelowMinimum
    | AboveMaximum

  function RejectionMessage(name: string, r: Rejection): string
  {
    match r
    case RequiredMissing => name + " is a required parameter"
    case WrongType => name + " is not the correct type"
    case NotEnumerated => name + " is not one of the accepted values"
    case EnumNotArray(given) => "in_array(): Argument #2 ($haystack) must be of type array, " + given + " given"
    case PatternMismatch => name + " does not match the expected pattern"
    case BelowMinimum => name + " is less than the minimum value"
    case AboveMaximum => name + " is more than the maximum value"
  }

  /** `in_array($v, $haystack)`, with strict equality standing for PHP's loose one. */
  predicate InArray(v: Value, haystack: Entries)
  {
    exists k :: 0 <= k < |haystack| && haystack[k].1 == v
  }

  /** `in_array($rule['type'], ['numeric', 'number', 'integer'])`. */
  predicate DeclaresNumericType(rule: Entries)
  {
    var t := Get(rule, "type");
    LooseEqualsName(t, "numeric") || LooseEqualsName(t, "number") || LooseEqualsName(t, "integer")
  }

  /** `$a < $b` when both sides are integers or integer strings. */
  predicate Less(a: Value, b: Value)
  {
    IntOf(a).Some? && IntOf(b).Some? && IntOf(a).value < IntOf(b).value
  }

  /** The check one rule key performs; keys the validator does not know pass. */
  function CheckConstraint(rule: Entries, key: string, criteria: Value, value: Value, matches: PatternMatcher): Option<Rejection>
  {
    if key == "type" then
      if CheckParameterType(criteria, value) then None else Some(WrongType)
    else if key == "enum" then
      if !criteria.VArr? then Some(EnumNotArray(TypeName(criteria)))
      else if InArray(value, criteria.entries) then None
      else Some(NotEnumerated)
    else if key == "pattern" then
      if matches(criteria, value) then None else Some(PatternMismatch)
    else if key == "minimum" && DeclaresNumericType(rule) then
      if Less(value, criteria) then Some(BelowMinimum) else None
    else if key == "maximum" && DeclaresNumericType(rule) then
      if Less(criteria, value) then Some(AboveMaximum) else None
    else None
  }

  /** The first rejection among `keys`, checked in order. */
  function FirstRejection(rule: Entries, keys: Entries, value: Value, matches: PatternMatcher): Option<Rejection>
  {
    if keys == [] then None
    else
      var c := CheckConstraint(rule, keys[0].0, keys[0].1, value, matches);
      if c.Some? then c else FirstRejection(rule, keys[1..], value, matches)
  }

  /** What `testParameter` decides: None when the value is accepted. */
  function Validate(rule: Value, value: Value, matches: PatternMatcher): Option<Rejection>
  {
    if value == VNull then
      if Truthy(Index(rule, "required")) then Some(RequiredMissing) else None
    else FirstRejection(EntriesOf(rule), EntriesOf(rule), value, matches)
  }

  /** `testParameter($parmName, $parmConfig, $value)`, returning instead of throwing. */
  method TestParameter(rule: Value, value: Value, matches: PatternMatcher) returns (r: Option<Rejection>)
    ensures r == Validate(rule, value, matches)
  {
    if value == VNull {
      if Truthy(Index(rule, "required")) {
        return Some(RequiredMissing);
      }
      return None;
    }
    var es := EntriesOf(rule);
    var i := 0;
    while i < |es|
      invariant 0 <= i <= |es|
      invariant FirstRejection(es, es, value, matches) == FirstRejection(es, es[i..], value, matches)
    {
      var c := CheckConstraint(es, es[i].0, es[i].1, value, matches);
      assert es[i..][1..] == es[i + 1..];
      if c.Some? {
        return c;
      }
      i := i + 1;
    }
    return None;
  }

  // ---- properties ----

  /**
   * A value passes exactly when no rule key refuses it, and a refusal is the
   * one of the first key, in rule order, that refuses it.
   */
  lemma {:induction false} FirstRejectionIsFirstFailure(rule: Entries, keys: Entries, value: Value, matches: PatternMatcher)
    ensures FirstRejection(rule, keys, value, matches).None? <==>
      forall k :: 0 <= k < |keys| ==> CheckConstraint(rule, keys[k].0, keys[k].1, value, matches).None?
    ensures FirstRejection(rule, keys, value, matches).Some? ==>
      exists k :: 0 <= k < |keys| &&
        CheckConstraint(rule, keys[k].0, keys[k].1, value, matches) == FirstRejection(rule, keys, value, matches) &&
        forall j :: 0 <= j < k ==> CheckConstraint(rule, keys[j].0, keys[j].1, value, matches).None?
  {
    FirstRejectionNone(rule, keys, value, matches);
    FirstRejectionWitness(rule, keys, value, matches);
  }

  lemma {:induction false} FirstRejectionNone(rule: Entries, keys: Entries, value: Value, matches: PatternMatcher)
    ensures FirstRejection(rule, keys, value, matches).None? <==>
      forall k :: 0 <= k < |keys| ==> CheckConstraint(rule, keys[k].0, keys[k].1, value, matches).None?
  {
    if keys != [] {
      FirstRejectionNone(rule, keys[1..], value, matches);
      assert forall k :: 1 <= k < |keys| ==> keys[k] == keys[1..][k - 1];
    }
  }

  lemma {:induction false} FirstRejectionWitness(rule: Entries, keys: Entries, value: Value, matches: PatternMatcher)
    ensures FirstRejection(rule, keys, value, matches).Some? ==>
      exists k :: 0 <= k < |keys| &&
        CheckConstraint(rule, keys[k].0, keys[k].1, value, matches) == FirstRejection(rule, keys, value, matches) &&
        forall j :: 0 <= j < k ==> CheckConstraint(rule, keys[j].0, keys[j].1, value, matches).None?
  {
    if keys != [] && CheckConstraint(rule, keys[0].0, keys[0].1, value, matches).None? {
      FirstRejectionWitness(rule, keys[1..], value, matches);
      if FirstRejection(rule, keys[1..], value, matches).Some? {
        var k :| 0 <= k < |keys[1..]| &&
          CheckConstraint(rule, keys[1..][k].0, keys[1..][k].1, value, matches) == FirstRejection(rule, keys[1..], value, matches) &&
          forall j :: 0 <= j < k ==> CheckConstraint(rule, keys[1..][j].0, keys[1..][j].1, value, matches).None?;
        assert keys[k + 1] == keys[1..][k];
        assert forall j :: 1 <= j < k + 1 ==> keys[j] == keys[1..][j - 1];
      }
    }
  }

  /** A null value is refused exactly when the rule's `required` is truthy. */
  lemma NullRefusedOnlyWhenRequired(rule: Value, matches: PatternMatcher)
    ensures Validate(rule, VNull, matches).Some? <==> Truthy(Index(rule, "required"))
    ensures Validate(rule, VNull, matches).Some? ==> Validate(rule, VNull, matches) == Some(RequiredMissing)
  {
  }

  /**
   * `minimum` and `maximum` refuse a value only when the rule's type is
   * numeric, number or integer; under any other type they are inert.
   */
  lemma RangeChecksNeedNumericType(rule: Value, value: Value, matches: PatternMatcher)
    requires Validate(rule, value, matches) == Some(BelowMinimum) || Validate(rule, value, matches) == Some(AboveMaximum)
    ensures DeclaresNumericType(EntriesOf(rule))
  {
    var es := EntriesOf(rule);
    FirstRejectionIsFirstFailure(es, es, value, matches);
  }

  /**
   * A `type` given as a list of tags never equals a tag, so every non-null
   * value is refused (by the type check, or by an earlier rule key).
   */
  lemma ListTypeRefusesEveryValue(rule: Value, value: Value, matches: PatternMatcher)
    requires Index(rule, "type").VArr? && value != VNull
    ensures Validate(rule, value, matches).Some?
  {
    var es := EntriesOf(rule);
    var k :| 0 <= k < |es| && es[k] == ("type", Index(rule, "type"));
    assert CheckConstraint(es, es[k].0, es[k].1, value, matches) == Some(WrongType);
    FirstRejectionIsFirstFailure(es, es, value, matches);
  }

  /** A plain tag admits what the type table says, and nothing else. */
  lemma TagSemantics(name: string, v: Value)
    ensures CheckParameterType(VStr(name), v) <==> name in TypeNames && Admits(name, v)
  {
  }

  /** `integer` refuses numeric strings; `number` and `numeric` accept them. */
  lemma IntegerRefusesNumericStrings(s: string)
    requires IsNumericString(s)
    ensures !CheckParameterType(VStr("integer"), VStr(s))
    ensures CheckParameterType(VStr("number"), VStr(s)) && CheckParameterType(VStr("numeric"), VStr(s))
  {
    TagSemantics("integer", VStr(s));
    TagSemantics("number", VStr(s));
    TagSemantics("numeric", VStr(s));
  }

  /** A `true` type loosely equals every tag, `any` included: it admits everything. */
  lemma TrueTypeAdmitsEverything(v: Value)
    ensures CheckParameterType(VBool(true), v)
  {
    assert LooseEqualsName(VBool(true), "any") && Admits("any", v);
  }
}

/**
 * The service description engine (class Description): construction resolves
 * `namespace:key` parameter references against the named-parameter library,
 * sanity-checks the service, every operation and every parameter rule, and
 * seeds the defaults from per-parameter `default` fields; afterwards the
 * description builds operation URIs and reports response types.
 */
module ServiceDescription {
  import opened Wrappers
  import opened PhpStrings
  import opened PhpValues
  import opened FormEncoding
  import opened ParameterValidator
  import opened OperationNotFound

  /** The in-memory service definition: the `service`, `defaults`, `parameters` and `operations` sections. */
  datatype Definition = Definition(service: Entries, defaults: Entries, parameters: Entries, operations: Entries)

  datatype Error =
    | SchemaError(message: string)                         // WebserviceException during construction
    | NotFound(exception: OperationNotFoundException)
    | InvalidParameter(parameter: string, rejection: Rejection)
    | ArgumentTypeError(message: string)                   // PHP TypeError: an array where a string is needed

  /** The fields of a Description. */
  datatype State = State(serviceName: string, service: Entries, defaults: Entries, parameters: Entries, operations: Entries)

  function NamedParameterMessage(reference: string, serviceName: string): string
  {
    "Named parameter '" + reference + "' not found in service '" + serviceName + "'"
  }

  const BaseUrlMessage: string := "baseURL is a required field"

  function InvalidOperationMessage(opName: string): string
  {
    "Invalid operation configuration for '" + opName + "'"
  }

  function InvalidParameterMessage(opName: string, parmName: string): string
  {
    "Invalid parameter configuration for '" + opName + ":" + parmName + "'"
  }

  // ---- reference resolution ----

  /**
   * `preg_match('/^(.*?):(.*)$/', $s, $regs)`: the namespace is the text before
   * the first colon and the key the rest. `.` does not match a newline and `$`
   * also matches before a final newline.
   */
  function ParseReference(s: string): (r: Option<(string, string)>)
    ensures r.Some? ==>
      && ':' !in r.value.0
      && (s == r.value.0 + ":" + r.value.1 || s == r.value.0 + ":" + r.value.1 + "\n")
  {
    var body := if |s| > 0 && s[|s| - 1] == '\n' then s[..|s| - 1] else s;
    var c := FindFirst(body, ch => ch == ':');
    if '\n' in body || c == |body| then None
    else
      assert body == body[..c] + ":" + body[c + 1..];
      assert ':' !in body[..c] by {
        assert forall j :: 0 <= j < c ==> body[..c][j] == body[j];
      }
      Some((body[..c], body[c + 1..]))
  }

  /** A colon-separated pair without newlines, colon-free on the left, parses back. */
  lemma ReferenceRoundTrip(ns: string, key: string)
    requires ':' !in ns && '\n' !in ns && '\n' !in key
    ensures ParseReference(ns + ":" + key) == Some((ns, key))
  {
    var s := ns + ":" + key;
    assert |s| > 0 && s[|s| - 1] != '\n' by {
      if key == [] { assert s[|s| - 1] == ':'; } else { assert s[|s| - 1] == key[|key| - 1]; }
    }
    var c := FindFirst(s, ch => ch == ':');
    assert s[|ns|] == ':';
    assert c == |ns|;
    assert s[..c] == ns && s[c + 1..] == key;
    assert '\n' !in s by {
      forall j | 0 <= j < |s| ensures s[j] != '\n' {
        if j < |ns| { assert s[j] == ns[j]; }
        else if j > |ns| { assert s[j] == key[j - |ns| - 1]; }
      }
    }
  }

  /** `isset($parameters[$ns][$key])`, and the rule found there. */
  function LibraryRule(lib: Entries, ns: string, key: string): (r: Option<Value>)
    ensures r.Some? ==> r.value != VNull
  {
    var v := Index(Get(lib, ns), key);
    if v == VNull then None else Some(v)
  }

  /**
   * What a parameter entry becomes: a string reference is replaced by its
   * library rule (None when the library lacks it); anything else stays.
   */
  function ResolvedValue(lib: Entries, v: Value): Option<Value>
  {
    if v.VStr? && ParseReference(v.s).Some? then
      LibraryRule(lib, ParseReference(v.s).value.0, ParseReference(v.s).value.1)
    else Some(v)
  }

  function ResolveParameters(serviceName: string, lib: Entries, ps: Entries): Result<Entries, Error>
  {
    if ps == [] then Success([])
    else match ResolvedValue(lib, ps[0].1)
      case None => Failure(SchemaError(NamedParameterMessage(ps[0].1.s, serviceName)))
      case Some(rule) => Prepend([(ps[0].0, rule)], ResolveParameters(serviceName, lib, ps[1..]))
  }

  /** Entries `pre` in front of a successful result; a failure stays as it is. */
  function Prepend(pre: Entries, r: Result<Entries, Error>): Result<Entries, Error>
  {
    if r.Success? then Success(pre + r.value) else r
  }

  lemma PrependNothing(r: Result<Entries, Error>)
    ensures Prepend([], r) == r
  {
    if r.Success? {
      assert [] + r.value == r.value;
    }
  }

  lemma PrependPrepend(a: Entries, b: Entries, r: Result<Entries, Error>)
    ensures Prepend(a, Prepend(b, r)) == Prepend(a + b, r)
  {
    if r.Success? {
      assert a + (b + r.value) == (a + b) + r.value;
    }
  }

  /** Resolution of one operation: only arrays with an array `parameters` are touched. */
  function ResolveOperation(serviceName: string, lib: Entries, op: Value): Result<Value, Error>
  {
    if op.VArr? && Index(op, "parameters").VArr? then
      match ResolveParameters(serviceName, lib, Index(op, "parameters").entries)
      case Success(ps) => Success(VArr(Set(op.entries, "parameters", VArr(ps))))
      case Failure(e) => Failure(e)
    else Success(op)
  }

  function ResolveOperations(serviceName: string, lib: Entries, ops: Entries): Result<Entries, Error>
  {
    if ops == [] then Success([])
    else match ResolveOperation(serviceName, lib, ops[0].1)
      case Failure(e) => Failure(e)
      case Success(op) => Prepend([(ops[0].0, op)], ResolveOperations(serviceName, lib, ops[1..]))
  }

  /**
   * Resolution succeeds exactly when every reference names a library rule,
   * and then replaces each entry by what it resolves to, keeping names and order.
   */
  lemma {:induction false} ResolveParametersCharacterised(serviceName: string, lib: Entries, ps: Entries)
    ensures ResolveParameters(serviceName, lib, ps).Success? <==>
      forall k :: 0 <= k < |ps| ==> ResolvedValue(lib, ps[k].1).Some?
    ensures ResolveParameters(serviceName, lib, ps).Success? ==>
      var r := ResolveParameters(serviceName, lib, ps).value;
      |r| == |ps| && forall k :: 0 <= k < |ps| ==> r[k] == (ps[k].0, ResolvedValue(lib, ps[k].1).value)
  {
    if ps != [] {
      ResolveParametersCharacterised(serviceName, lib, ps[1..]);
      assert forall k :: 1 <= k < |ps| ==> ps[k] == ps[1..][k - 1];
    }
  }

  lemma ResolveStep(serviceName: string, lib: Entries, ps: Entries, j: nat)
    requires j < |ps|
    ensures ResolveParameters(serviceName, lib, ps[j..]) ==
      match ResolvedValue(lib, ps[j].1)
      case None => Failure(SchemaError(NamedParameterMessage(ps[j].1.s, serviceName)))
      case Some(rule) => Prepend([(ps[j].0, rule)], ResolveParameters(serviceName, lib, ps[j + 1..]))
  {
    assert ps[j..][0] == ps[j] && ps[j..][1..] == ps[j + 1..];
  }

  lemma ResolveOperationStep(serviceName: string, lib: Entries, ops: Entries, i: nat)
    requires i < |ops|
    ensures ResolveOperations(serviceName, lib, ops[i..]) ==
      match ResolveOperation(serviceName, lib, ops[i].1)
      case Failure(e) => Failure(e)
      case Success(op) => Prepend([(ops[i].0, op)], ResolveOperations(serviceName, lib, ops[i + 1..]))
  {
    assert ops[i..][0] == ops[i] && ops[i..][1..] == ops[i + 1..];
  }

  /** One pass of the outer resolution loop (lines 32-48): an operation with a parameter list has it resolved. */
  method ResolveOperationRules(serviceName: string, lib: Entries, op: Value) returns (r: Result<Value, Error>)
    ensures r == ResolveOperation(serviceName, lib, op)
  {
    if op.VArr? && Index(op, "parameters").VArr? {
      var ps := ResolveParameterList(serviceName, lib, Index(op, "parameters").entries);
      if ps.Failure? {
        return Failure(ps.error);
      }
      return Success(VArr(Set(op.entries, "parameters", VArr(ps.value))));
    }
    return Success(op);
  }

  /** One pass of the inner loop (lines 35-46): a string reference is looked up, anything else kept. */
  method ResolveEntry(lib: Entries, v: Value) returns (r: Option<Value>)
    ensures r == ResolvedValue(lib, v)
    ensures r.None? ==> v.VStr?
  {
    r := Some(v);
    if v.VStr? {
      var reference := ParseReference(v.s);
      if reference.Some? {
        r := LibraryRule(lib, reference.value.0, reference.value.1);
      }
    }
  }

  /** The inner resolution loop (lines 34-47) over one operation's parameters. */
  method ResolveParameterList(serviceName: string, lib: Entries, ps: Entries) returns (r: Result<Entries, Error>)
    ensures r == ResolveParameters(serviceName, lib, ps)
  {
    var out := ps;
    var j := 0;
    PrependNothing(ResolveParameters(serviceName, lib, ps));
    while j < |ps|
      invariant 0 <= j <= |ps| && |out| == |ps|
      invariant out[j..] == ps[j..]
      invariant ResolveParameters(serviceName, lib, ps) == Prepend(out[..j], ResolveParameters(serviceName, lib, ps[j..]))
    {
      var (name, v) := ps[j];
      ResolveStep(serviceName, lib, ps, j);
      ghost var done := out[..j];
      var rule := ResolveEntry(lib, v);
      if rule.None? {
        return Failure(SchemaError(NamedParameterMessage(v.s, serviceName)));
      }
      out := out[j := (name, rule.value)];
      assert out[..j] == done && out[j + 1..] == ps[j + 1..];
      PrependPrepend(out[..j], [out[j]], ResolveParameters(serviceName, lib, ps[j + 1..]));
      assert out[..j + 1] == out[..j] + [out[j]];
      j := j + 1;
    }
    assert out[..j] == out && out + [] == out;
    return Success(out);
  }

  // ---- sanity checks and default seeding ----

  /** Line 60-62: httpMethod, uri, a json/xml responseType and an array of parameters. */
  predicate OperationWellFormed(op: Value)
  {
    var e := EntriesOf(op);
    && Isset(e, "httpMethod")
    && Isset(e, "uri")
    && Isset(e, "responseType")
    && (LooseEqualsName(Get(e, "responseType"), "json") || LooseEqualsName(Get(e, "responseType"), "xml"))
    && Isset(e, "parameters")
    && Get(e, "parameters").VArr?
  }

  /** Line 68: a type and a location that is uri or query. */
  predicate ParameterWellFormed(rule: Value)
  {
    && Index(rule, "type") != VNull
    && Index(rule, "location") != VNull
    && (LooseEqualsName(Index(rule, "location"), "uri") || LooseEqualsName(Index(rule, "location"), "query"))
  }

  /** Lines 73-76: a parameter's default fills the gap when the defaults have none. */
  function SeedDefault(defaults: Entries, name: string, rule: Value): Entries
  {
    if Index(rule, "default") != VNull && !Isset(defaults, name) then Set(defaults, name, Index(rule, "default"))
    else defaults
  }

  function CheckParameters(opName: string, ps: Entries, defaults: Entries): Result<Entries, Error>
  {
    if ps == [] then Success(defaults)
    else if !ParameterWellFormed(ps[0].1) then Failure(SchemaError(InvalidParameterMessage(opName, ps[0].0)))
    else CheckParameters(opName, ps[1..], SeedDefault(defaults, ps[0].0, ps[0].1))
  }

  function CheckOperations(ops: Entries, defaults: Entries): Result<Entries, Error>
  {
    if ops == [] then Success(defaults)
    else if !OperationWellFormed(ops[0].1) then Failure(SchemaError(InvalidOperationMessage(ops[0].0)))
    else match CheckParameters(ops[0].0, Index(ops[0].1, "parameters").entries, defaults)
      case Failure(e) => Failure(e)
      case Success(d) => CheckOperations(ops[1..], d)
  }

  /** The inner check loop (lines 66-77) over one operation's parameters. */
  method CheckParameterList(opName: string, ps: Entries, defaults: Entries) returns (r: Result<Entries, Error>)
    ensures r == CheckParameters(opName, ps, defaults)
  {
    var seeded := defaults;
    var j := 0;
    while j < |ps|
      invariant 0 <= j <= |ps|
      invariant CheckParameters(opName, ps, defaults) == CheckParameters(opName, ps[j..], seeded)
    {
      var (name, rule) := ps[j];
      assert ps[j..][1..] == ps[j + 1..];
      if !ParameterWellFormed(rule) {
        return Failure(SchemaError(InvalidParameterMessage(opName, name)));
      }
      if Index(rule, "default") != VNull && !Isset(seeded, name) {
        seeded := Set(seeded, name, Index(rule, "default"));
      }
      j := j + 1;
    }
    return Success(seeded);
  }

  /** What construction yields: all-or-nothing. */
  function Construct(serviceName: string, def: Definition): Result<State, Error>
  {
    match ResolveOperations(serviceName, def.parameters, def.operations)
    case Failure(e) => Failure(e)
    case Success(ops) =>
      if !Isset(def.service, "baseUrl") then Failure(SchemaError(BaseUrlMessage))
      else match CheckOperations(ops, def.defaults)
        case Failure(e) => Failure(e)
        case Success(defaults) => Success(State(serviceName, def.service, defaults, def.parameters, ops))
  }

  // ---- building a URI ----

  /** The TypeErrors PHP raises when an array reaches a string argument. */
  const RTrimTypeMessage: string := "rtrim(): Argument #1 ($string) must be of type string, array given"
  const LTrimTypeMessage: string := "ltrim(): Argument #1 ($string) must be of type string, array given"
  const ReplacementTypeMessage: string :=
    "preg_replace(): Argument #1 ($pattern) must be of type array when argument #2 ($replacement) is an array, string given"

  /** Line 93: `rtrim(baseUrl, '/') . '/' . ltrim(uri)`. */
  function StartUri(service: Entries, op: Value): Result<string, Error>
  {
    match StringArg(Get(service, "baseUrl"))
    case None => Failure(ArgumentTypeError(RTrimTypeMessage))
    case Some(base) =>
      match StringArg(Index(op, "uri"))
      case None => Failure(ArgumentTypeError(LTrimTypeMessage))
      case Some(path) => Success(RTrimChar(base, '/') + "/" + LTrim(path))
  }

  function Placeholder(name: string): (p: string)
    ensures |p| > 0 && p[0] == '{'
    ensures '{' !in name ==> IsPlaceholder(p)
  {
    "{" + name + "}"
  }

  /** `switch` on the location takes the first case it loosely equals. */
  predicate IsUriLocated(rule: Value)
  {
    LooseEqualsName(Index(rule, "location"), "uri")
  }

  predicate IsQueryLocated(rule: Value)
  {
    !IsUriLocated(rule) && LooseEqualsName(Index(rule, "location"), "query")
  }

  /** One pass of the loop body (lines 98-110). */
  function ApplyParameter(name: string, rule: Value, value: Value, uri: string, query: Entries, matches: PatternMatcher): Result<(string, Entries), Error>
  {
    match Validate(rule, value, matches)
    case Some(rejection) => Failure(InvalidParameter(name, rejection))
    case None =>
      if IsUriLocated(rule) then
        match StringArg(value)
        case None => Failure(ArgumentTypeError(ReplacementTypeMessage))
        case Some(text) => Success((ReplaceAll(uri, Placeholder(name), text), query))
      else if IsQueryLocated(rule) then Success((uri, Set(query, name, value)))
      else Success((uri, query))
  }

  /** The loop over the operation's parameters in declared order (lines 95-111). */
  function WalkParameters(ps: Entries, merged: Entries, uri: string, query: Entries, matches: PatternMatcher): Result<(string, Entries), Error>
  {
    if ps == [] then Success((uri, query))
    else match ApplyParameter(ps[0].0, ps[0].1, Get(merged, ps[0].0), uri, query, matches)
      case Failure(e) => Failure(e)
      case Success(step) => WalkParameters(ps[1..], merged, step.0, step.1, matches)
  }

  /** The parameters an operation declares. */
  function DeclaredParameters(st: State, operation: string): Entries
  {
    EntriesOf(Index(Get(st.operations, operation), "parameters"))
  }

  /**
   * What `buildOperationUri($operation, $parameters)` returns or throws for
   * any `$parameters`: an unknown operation is reported with the value as
   * given; otherwise `array_merge` (line 90) refuses a non-array with PHP 8's
   * TypeError.
   */
  function BuildUriFor(st: State, operation: string, parameters: Value, matches: PatternMatcher): Result<string, Error>
  {
    if !Isset(st.operations, operation) then Failure(NotFound(New(st.serviceName, operation, parameters)))
    else if !parameters.VArr? then Failure(ArgumentTypeError(MergeArgumentMessage(parameters)))
    else BuildUri(st, operation, parameters.entries, matches)
  }

  /** PHP 8's TypeError message for `array_merge($this->defaults, $parameters)` on a non-array. */
  function MergeArgumentMessage(parameters: Value): string
  {
    "array_merge(): Argument #2 must be of type array, " + TypeName(parameters) + " given"
  }

  /** What `buildOperationUri($operation, $args)` returns or throws for an array of arguments. */
  function BuildUri(st: State, operation: string, args: Entries, matches: PatternMatcher): Result<string, Error>
  {
    if !Isset(st.operations, operation) then Failure(NotFound(New(st.serviceName, operation, VArr(args))))
    else
      var op := Get(st.operations, operation);
      match StartUri(st.service, op)
      case Failure(e) => Failure(e)
      case Success(start) =>
        match WalkParameters(DeclaredParameters(st, operation), Merge(st.defaults, args), start, [], matches)
        case Failure(e) => Failure(e)
        case Success(walked) =>
          Success(if |walked.1| > 0 then walked.0 + "?" + HttpBuildQuery(walked.1) else walked.0)
  }

  /** One pass of the loop body (lines 98-110): validate, then place the value. */
  method PlaceParameter(name: string, rule: Value, value: Value, uri: string, query: Entries, matches: PatternMatcher)
    returns (r: Result<(string, Entries), Error>)
    ensures r == ApplyParameter(name, rule, value, uri, query, matches)
  {
    var rejection := TestParameter(rule, value, matches);
    if rejection.Some? {
      return Failure(InvalidParameter(name, rejection.value));
    }
    if IsUriLocated(rule) {
      var text := StringArg(value);
      if text.None? {
        return Failure(ArgumentTypeError(ReplacementTypeMessage));
      }
      return Success((ReplaceAll(uri, Placeholder(name), text.value), query));
    } else if IsQueryLocated(rule) {
      return Success((uri, Set(query, name, value)));
    }
    return Success((uri, query));
  }

  /** The loop of lines 94-111 over the declared parameters, starting from an empty query. */
  method WalkParameterList(ps: Entries, merged: Entries, start: string, matches: PatternMatcher)
    returns (r: Result<(string, Entries), Error>)
    ensures r == WalkParameters(ps, merged, start, [], matches)
  {
    var uri := start;
    var query: Entries := [];
    var i := 0;
    while i < |ps|
      invariant 0 <= i <= |ps|
      invariant WalkParameters(ps, merged, start, [], matches) == WalkParameters(ps[i..], merged, uri, query, matches)
    {
      var (name, rule) := ps[i];
      assert ps[i..][0] == (name, rule) && ps[i..][1..] == ps[i + 1..];
      var step := PlaceParameter(name, rule, Get(merged, name), uri, query, matches);
      if step.Failure? {
        return Failure(step.error);
      }
      uri, query := step.value.0, step.value.1;
      i := i + 1;
    }
    return Success((uri, query));
  }

  // ---- the object ----

  class Description {
    var serviceName: string
    var service: Entries
    var defaults: Entries
    var parameters: Entries
    var operations: Entries

    function Snapshot(): State
      reads this
    {
      State(serviceName, service, defaults, parameters, operations)
    }

    /** Lines 22-27: the sections of the definition, as given. */
    constructor Load(serviceName: string, def: Definition)
      ensures Snapshot() == State(serviceName, def.service, def.defaults, def.parameters, def.operations)
    {
      this.serviceName := serviceName;
      this.service := def.service;
      this.defaults := def.defaults;
      this.parameters := def.parameters;
      this.operations := def.operations;
    }

    /**
     * Lines 29-49: references in operation parameter lists are replaced, in
     * place, by their library rules. On failure the instance is abandoned.
     */
    method ResolveReferences() returns (err: Option<Error>)
      modifies this`operations
      ensures var expected := ResolveOperations(serviceName, parameters, old(operations));
        && (expected.Success? ==> err.None? && operations == expected.value)
        && (expected.Failure? ==> err == Some(expected.error))
    {
      ghost var original := operations;
      var i := 0;
      PrependNothing(ResolveOperations(serviceName, parameters, original));
      while i < |operations|
        invariant 0 <= i <= |operations| == |original|
        invariant operations[i..] == original[i..]
        invariant ResolveOperations(serviceName, parameters, original) ==
          Prepend(operations[..i], ResolveOperations(serviceName, parameters, original[i..]))
      {
        var (name, op) := operations[i];
        ResolveOperationStep(serviceName, parameters, original, i);
        var resolved := ResolveOperationRules(serviceName, parameters, op);
        if resolved.Failure? {
          return Some(resolved.error);
        }
        operations := operations[i := (name, resolved.value)];
        PrependPrepend(operations[..i], [operations[i]], ResolveOperations(serviceName, parameters, original[i + 1..]));
        assert operations[..i + 1] == operations[..i] + [operations[i]];
        i := i + 1;
      }
      assert operations[..i] == operations && operations + [] == operations;
      return None;
    }

    /**
     * Lines 51-78: the service needs a baseUrl; every operation and parameter
     * rule is checked, and parameter defaults are seeded into the defaults.
     */
    method CheckConfiguration() returns (err: Option<Error>)
      modifies this`defaults
      ensures !Isset(service, "baseUrl") ==> err == Some(SchemaError(BaseUrlMessage))
      ensures Isset(service, "baseUrl") ==>
        var expected := CheckOperations(operations, old(defaults));
        && (expected.Success? ==> err.None? && defaults == expected.value)
        && (expected.Failure? ==> err == Some(expected.error))
    {
      if !Isset(service, "baseUrl") {
        return Some(SchemaError(BaseUrlMessage));
      }
      var i := 0;
      while i < |operations|
        invariant 0 <= i <= |operations|
        invariant CheckOperations(operations, old(defaults)) == CheckOperations(operations[i..], defaults)
      {
        var (name, op) := operations[i];
        assert operations[i..][0] == (name, op) && operations[i..][1..] == operations[i + 1..];
        if !OperationWellFormed(op) {
          return Some(SchemaError(InvalidOperationMessage(name)));
        }
        var seeded := CheckParameterList(name, Index(op, "parameters").entries, defaults);
        if seeded.Failure? {
          return Some(seeded.error);
        }
        defaults := seeded.value;
        i := i + 1;
      }
      return None;
    }

    /** `new Description($serviceName)`: an instance exists only if every step succeeds. */
    static method Create(serviceName: string, def: Definition) returns (r: Result<Description, Error>)
      ensures Construct(serviceName, def).Success? <==> r.Success?
      ensures r.Success? ==> fresh(r.value) && r.value.Snapshot() == Construct(serviceName, def).value
      ensures r.Failure? ==> r.error == Construct(serviceName, def).error
    {
      var d := new Description.Load(serviceName, def);
      var err := d.ResolveReferences();
      ghost var resolved := ResolveOperations(serviceName, def.parameters, def.operations);
      if err.Some? {
        assert Construct(serviceName, def) == Failure(resolved.error);
        return Failure(err.value);
      }
      assert d.operations == resolved.value;
      err := d.CheckConfiguration();
      if err.Some? {
        return Failure(err.value);
      }
      assert d.Snapshot() == Construct(serviceName, def).value;
      return Success(d);
    }

    /** `buildOperationUri($operation, $parameters)`, returning instead of throwing. */
    method BuildOperationUri(operation: string, parameters: Value, matches: PatternMatcher) returns (r: Result<string, Error>)
      ensures r == BuildUriFor(Snapshot(), operation, parameters, matches)
    {
      if !Isset(operations, operation) {
        return Failure(NotFound(New(serviceName, operation, parameters)));
      }
      if !parameters.VArr? {
        return Failure(ArgumentTypeError(MergeArgumentMessage(parameters)));
      }
      var args := parameters.entries;
      var op := Get(operations, operation);
      var start := StartUri(service, op);
      if start.Failure? {
        return Failure(start.error);
      }
      var walked := WalkParameterList(EntriesOf(Index(op, "parameters")), Merge(defaults, args), start.value, matches);
      if walked.Failure? {
        return Failure(walked.error);
      }
      var (uri, query) := walked.value;
      if |query| > 0 {
        uri := uri + "?" + HttpBuildQuery(query);
      }
      return Success(uri);
    }

    /**
     * `getResponseType($operation)`. The source passes an undefined variable
     * as the parameters, so the exception carries null.
     */
    method GetResponseType(operation: string) returns (r: Result<Value, Error>)
      ensures !Isset(operations, operation) ==> r == Failure(NotFound(New(serviceName, operation, VNull)))
      ensures Isset(operations, operation) ==> r == Success(Index(Get(operations, operation), "responseType"))
    {
      if !Isset(operations, operation) {
        return Failure(NotFound(New(serviceName, operation, VNull)));
      }
      return Success(Index(Get(operations, operation), "responseType"));
    }
  }
}

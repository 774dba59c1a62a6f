/**
 * What the service description engine guarantees: construction is
 * all-or-nothing and leaves only well-formed operations, defaults are seeded
 * only into gaps, caller arguments override defaults, every declared
 * parameter is validated before a URI is returned, and the query string is
 * appended exactly when some parameter is query-located.
 */
module DescriptionProperties {
  import opened Wrappers
  import opened PhpStrings
  import opened PhpValues
  import opened FormEncoding
  import opened ParameterValidator
  import opened OperationNotFound
  import opened ServiceDescription

  // ---- construction ----

  /**
   * A `namespace:key` entry becomes the library rule `parameters[namespace][key]`
   * (None when the library lacks it); an entry that is not such a string stays.
   */
  lemma ReferenceResolvesToLibraryRule(lib: Entries, ns: string, key: string, v: Value)
    requires ':' !in ns && '\n' !in ns && '\n' !in key
    ensures ResolvedValue(lib, VStr(ns + ":" + key)) == LibraryRule(lib, ns, key)
    ensures !v.VStr? ==> ResolvedValue(lib, v) == Some(v)
  {
    ReferenceRoundTrip(ns, key);
  }

  /** A library none of whose rules is itself a reference string. */
  ghost predicate LibraryHoldsNoReferences(lib: Entries)
  {
    forall ns, key :: LibraryRule(lib, ns, key).Some? ==> IsRule(LibraryRule(lib, ns, key).value)
  }

  predicate IsRule(v: Value)
  {
    !(v.VStr? && ParseReference(v.s).Some?)
  }

  /** Resolving an already resolved parameter list changes nothing. */
  lemma ResolutionIsIdempotent(serviceName: string, lib: Entries, ps: Entries)
    requires LibraryHoldsNoReferences(lib)
    requires ResolveParameters(serviceName, lib, ps).Success?
    ensures ResolveParameters(serviceName, lib, ResolveParameters(serviceName, lib, ps).value)
      == ResolveParameters(serviceName, lib, ps)
  {
    var r := ResolveParameters(serviceName, lib, ps).value;
    ResolveParametersCharacterised(serviceName, lib, ps);
    ResolveParametersCharacterised(serviceName, lib, r);
    forall k | 0 <= k < |r| ensures ResolvedValue(lib, r[k].1) == Some(r[k].1) {
      var v := ps[k].1;
      if v.VStr? && ParseReference(v.s).Some? {
        assert IsRule(LibraryRule(lib, ParseReference(v.s).value.0, ParseReference(v.s).value.1).value);
      }
    }
    var r2 := ResolveParameters(serviceName, lib, r).value;
    assert r2 == r;
  }

  /** Every operation resolves exactly when each of them does. */
  lemma {:induction false} ResolveOperationsCharacterised(serviceName: string, lib: Entries, ops: Entries)
    ensures ResolveOperations(serviceName, lib, ops).Success? <==>
      forall k :: 0 <= k < |ops| ==> ResolveOperation(serviceName, lib, ops[k].1).Success?
    ensures ResolveOperations(serviceName, lib, ops).Success? ==>
      var r := ResolveOperations(serviceName, lib, ops).value;
      |r| == |ops| && forall k :: 0 <= k < |ops| ==> r[k] == (ops[k].0, ResolveOperation(serviceName, lib, ops[k].1).value)
  {
    if ops != [] {
      ResolveOperationsCharacterised(serviceName, lib, ops[1..]);
      assert forall k :: 1 <= k < |ops| ==> ops[k] == ops[1..][k - 1];
    }
  }

  /**
   * A reference to a rule the library lacks makes construction fail, whatever
   * the rest of the definition holds (references are resolved before any
   * other check).
   */
  lemma UnresolvedReferenceIsFatal(serviceName: string, def: Definition, i: nat, j: nat)
    requires i < |def.operations|
    requires def.operations[i].1.VArr? && Index(def.operations[i].1, "parameters").VArr?
    requires j < |Index(def.operations[i].1, "parameters").entries|
    requires ResolvedValue(def.parameters, Index(def.operations[i].1, "parameters").entries[j].1).None?
    ensures Construct(serviceName, def).Failure?
    ensures Construct(serviceName, def).error.SchemaError?
  {
    var ps := Index(def.operations[i].1, "parameters").entries;
    ResolveParametersCharacterised(serviceName, def.parameters, ps);
    ResolveOperationsCharacterised(serviceName, def.parameters, def.operations);
    ResolveOperationsFailsWithSchemaError(serviceName, def.parameters, def.operations);
  }

  lemma {:induction false} ResolveOperationsFailsWithSchemaError(serviceName: string, lib: Entries, ops: Entries)
    ensures ResolveOperations(serviceName, lib, ops).Failure? ==> ResolveOperations(serviceName, lib, ops).error.SchemaError?
  {
    if ops != [] {
      ResolveOperationsFailsWithSchemaError(serviceName, lib, ops[1..]);
      var op := ops[0].1;
      if op.VArr? && Index(op, "parameters").VArr? {
        ResolveParametersFailsWithSchemaError(serviceName, lib, Index(op, "parameters").entries);
      }
    }
  }

  lemma {:induction false} ResolveParametersFailsWithSchemaError(serviceName: string, lib: Entries, ps: Entries)
    ensures ResolveParameters(serviceName, lib, ps).Failure? ==> ResolveParameters(serviceName, lib, ps).error.SchemaError?
  {
    if ps != [] {
      ResolveParametersFailsWithSchemaError(serviceName, lib, ps[1..]);
    }
  }

  /** A missing baseUrl is reported only once every reference has resolved. */
  lemma ResolutionPrecedesBaseUrlCheck(serviceName: string, def: Definition)
    requires ResolveOperations(serviceName, def.parameters, def.operations).Failure?
    ensures Construct(serviceName, def) == Failure(ResolveOperations(serviceName, def.parameters, def.operations).error)
  {
  }

  /** A well-formed operation whose parameter rules are all well-formed. */
  predicate OperationChecked(op: Value)
  {
    && OperationWellFormed(op)
    && forall j :: 0 <= j < |Index(op, "parameters").entries| ==>
         ParameterWellFormed(Index(op, "parameters").entries[j].1)
  }

  /** A rule that declares no default. */
  predicate NoDefault(rule: Value)
  {
    Index(rule, "default") == VNull
  }

  predicate NoDefaultsDeclared(ops: Entries)
  {
    forall k, j :: 0 <= k < |ops| && 0 <= j < |EntriesOf(Index(ops[k].1, "parameters"))| ==>
      NoDefault(EntriesOf(Index(ops[k].1, "parameters"))[j].1)
  }

  lemma RulesCheckedSplit(ps: Entries)
    requires ps != []
    ensures (forall j :: 0 <= j < |ps| ==> ParameterWellFormed(ps[j].1)) <==>
      ParameterWellFormed(ps[0].1) && forall j :: 0 <= j < |ps[1..]| ==> ParameterWellFormed(ps[1..][j].1)
  {
    assert forall j :: 1 <= j < |ps| ==> ps[j] == ps[1..][j - 1];
  }

  /** The parameter check passes exactly when every rule is well-formed. */
  lemma {:induction false} CheckParametersOutcome(opName: string, ps: Entries, defaults: Entries)
    ensures CheckParameters(opName, ps, defaults).Success? <==> forall j :: 0 <= j < |ps| ==> ParameterWellFormed(ps[j].1)
  {
    if ps != [] {
      RulesCheckedSplit(ps);
      CheckParametersOutcome(opName, ps[1..], SeedDefault(defaults, ps[0].0, ps[0].1));
    }
  }

  /** When no rule declares a default, a passing parameter check leaves the defaults as they were. */
  lemma {:induction false} CheckParametersKeepsDefaults(opName: string, ps: Entries, defaults: Entries)
    requires forall j :: 0 <= j < |ps| ==> NoDefault(ps[j].1)
    ensures CheckParameters(opName, ps, defaults).Success? ==> CheckParameters(opName, ps, defaults) == Success(defaults)
  {
    if ps != [] && ParameterWellFormed(ps[0].1) {
      assert NoDefault(ps[0].1);
      assert SeedDefault(defaults, ps[0].0, ps[0].1) == defaults;
      assert forall j :: 0 <= j < |ps[1..]| ==> NoDefault(ps[1..][j].1) by {
        forall j | 0 <= j < |ps[1..]| ensures NoDefault(ps[1..][j].1) {
          assert ps[1..][j] == ps[j + 1];
        }
      }
      CheckParametersKeepsDefaults(opName, ps[1..], defaults);
    }
  }

  lemma OperationsCheckedSplit(ops: Entries)
    requires ops != []
    ensures (forall k :: 0 <= k < |ops| ==> OperationChecked(ops[k].1)) <==>
      OperationChecked(ops[0].1) && forall k :: 0 <= k < |ops[1..]| ==> OperationChecked(ops[1..][k].1)
  {
    assert forall k :: 1 <= k < |ops| ==> ops[k] == ops[1..][k - 1];
  }

  lemma OperationCheckedIff(opName: string, op: Value, defaults: Entries)
    ensures OperationChecked(op) <==>
      OperationWellFormed(op) && CheckParameters(opName, EntriesOf(Index(op, "parameters")), defaults).Success?
  {
    CheckParametersOutcome(opName, EntriesOf(Index(op, "parameters")), defaults);
  }

  /** The operation check passes exactly when every operation and each of its rules is well-formed. */
  lemma {:induction false} CheckOperationsOutcome(ops: Entries, defaults: Entries)
    ensures CheckOperations(ops, defaults).Success? <==> forall k :: 0 <= k < |ops| ==> OperationChecked(ops[k].1)
  {
    if ops != [] {
      var ps := EntriesOf(Index(ops[0].1, "parameters"));
      OperationCheckedIff(ops[0].0, ops[0].1, defaults);
      OperationsCheckedSplit(ops);
      if OperationWellFormed(ops[0].1) {
        assert Index(ops[0].1, "parameters").entries == ps;
        if CheckParameters(ops[0].0, ps, defaults).Success? {
          CheckOperationsOutcome(ops[1..], CheckParameters(ops[0].0, ps, defaults).value);
        }
      }
    }
  }

  /** When no rule declares a default, a passing check leaves the defaults as they were. */
  lemma {:induction false} CheckOperationsKeepsDefaults(ops: Entries, defaults: Entries)
    requires NoDefaultsDeclared(ops)
    ensures CheckOperations(ops, defaults).Success? ==> CheckOperations(ops, defaults) == Success(defaults)
  {
    if ops != [] && OperationWellFormed(ops[0].1) {
      var ps := EntriesOf(Index(ops[0].1, "parameters"));
      assert forall j :: 0 <= j < |ps| ==> NoDefault(ps[j].1) by {
        forall j | 0 <= j < |ps| ensures NoDefault(ps[j].1) {
          assert NoDefault(EntriesOf(Index(ops[0].1, "parameters"))[j].1);
        }
      }
      CheckParametersKeepsDefaults(ops[0].0, ps, defaults);
      assert NoDefaultsDeclared(ops[1..]) by {
        forall k, j | 0 <= k < |ops[1..]| && 0 <= j < |EntriesOf(Index(ops[1..][k].1, "parameters"))|
          ensures NoDefault(EntriesOf(Index(ops[1..][k].1, "parameters"))[j].1)
        {
          assert ops[1..][k] == ops[k + 1];
        }
      }
      CheckOperationsKeepsDefaults(ops[1..], defaults);
    }
  }

  /**
   * Construction succeeds exactly when every reference resolves, the service
   * has a baseUrl, and every resolved operation and rule is well-formed.
   */
  lemma ConstructSucceedsIff(serviceName: string, def: Definition)
    ensures Construct(serviceName, def).Success? <==>
      && ResolveOperations(serviceName, def.parameters, def.operations).Success?
      && Isset(def.service, "baseUrl")
      && forall k :: 0 <= k < |ResolveOperations(serviceName, def.parameters, def.operations).value| ==>
           OperationChecked(ResolveOperations(serviceName, def.parameters, def.operations).value[k].1)
  {
    var r := ResolveOperations(serviceName, def.parameters, def.operations);
    if r.Success? {
      CheckOperationsOutcome(r.value, def.defaults);
    }
  }

  /**
   * A constructed description has a baseUrl, and every operation declares
   * httpMethod, uri, a json/xml responseType and an array of parameter rules,
   * each with a type and a uri/query location.
   */
  lemma ConstructedDescriptionIsWellFormed(serviceName: string, def: Definition)
    requires Construct(serviceName, def).Success?
    ensures Isset(Construct(serviceName, def).value.service, "baseUrl")
    ensures forall k :: 0 <= k < |Construct(serviceName, def).value.operations| ==>
      OperationChecked(Construct(serviceName, def).value.operations[k].1)
  {
    var ops := ResolveOperations(serviceName, def.parameters, def.operations).value;
    CheckOperationsOutcome(ops, def.defaults);
  }

  /** The response type a constructed description reports is json or xml. */
  lemma ResponseTypeIsJsonOrXml(serviceName: string, def: Definition, operation: string)
    requires Construct(serviceName, def).Success?
    requires Isset(Construct(serviceName, def).value.operations, operation)
    ensures var rt := Index(Get(Construct(serviceName, def).value.operations, operation), "responseType");
      LooseEqualsName(rt, "json") || LooseEqualsName(rt, "xml")
  {
    var st := Construct(serviceName, def).value;
    ConstructedDescriptionIsWellFormed(serviceName, def);
    var k :| 0 <= k < |st.operations| && st.operations[k] == (operation, Get(st.operations, operation));
    assert OperationChecked(st.operations[k].1);
  }

  // ---- default seeding ----

  /** The default the first parameter named `name` declares, in operation order. */
  function FirstDefaultIn(ps: Entries, name: string): (r: Option<Value>)
    ensures r.Some? ==> r.value != VNull && exists j :: 0 <= j < |ps| && ps[j].0 == name && Index(ps[j].1, "default") == r.value
  {
    if ps == [] then None
    else if ps[0].0 == name && Index(ps[0].1, "default") != VNull then Some(Index(ps[0].1, "default"))
    else FirstDefaultIn(ps[1..], name)
  }

  function FirstDefault(ops: Entries, name: string): (r: Option<Value>)
    ensures r.Some? ==> r.value != VNull
  {
    if ops == [] then None
    else
      var d := FirstDefaultIn(EntriesOf(Index(ops[0].1, "parameters")), name);
      if d.Some? then d else FirstDefault(ops[1..], name)
  }

  /** The entry for `name` after seeding: a gap takes the first declared default. */
  function Filled(defaults: Entries, declared: Option<Value>, name: string): Option<Value>
  {
    if Isset(defaults, name) || declared.None? then Lookup(defaults, name) else declared
  }

  lemma SeedDefaultLookup(defaults: Entries, p: string, rule: Value, name: string)
    ensures Lookup(SeedDefault(defaults, p, rule), name) ==
      Filled(defaults, if p == name && Index(rule, "default") != VNull then Some(Index(rule, "default")) else None, name)
  {
    SetLookup(defaults, p, Index(rule, "default"));
  }

  /** Filling a gap twice: the earlier declaration wins. */
  lemma FilledTwice(d: Entries, d1: Entries, first: Option<Value>, second: Option<Value>, name: string)
    requires first.Some? ==> first.value != VNull
    requires Lookup(d1, name) == Filled(d, first, name)
    ensures Filled(d1, second, name) == Filled(d, if first.Some? then first else second, name)
  {
  }

  lemma {:induction false} CheckParametersFillsGaps(opName: string, ps: Entries, defaults: Entries, name: string)
    requires CheckParameters(opName, ps, defaults).Success?
    ensures Lookup(CheckParameters(opName, ps, defaults).value, name) == Filled(defaults, FirstDefaultIn(ps, name), name)
  {
    if ps != [] {
      var d1 := SeedDefault(defaults, ps[0].0, ps[0].1);
      CheckParametersFillsGaps(opName, ps[1..], d1, name);
      SeedDefaultLookup(defaults, ps[0].0, ps[0].1, name);
      var here := if ps[0].0 == name && Index(ps[0].1, "default") != VNull then Some(Index(ps[0].1, "default")) else None;
      FilledTwice(defaults, d1, here, FirstDefaultIn(ps[1..], name), name);
    }
  }

  lemma {:induction false} CheckOperationsFillsGaps(ops: Entries, defaults: Entries, name: string)
    requires CheckOperations(ops, defaults).Success?
    ensures Lookup(CheckOperations(ops, defaults).value, name) == Filled(defaults, FirstDefault(ops, name), name)
  {
    if ops != [] {
      var ps := Index(ops[0].1, "parameters").entries;
      var d1 := CheckParameters(ops[0].0, ps, defaults).value;
      assert EntriesOf(Index(ops[0].1, "parameters")) == ps;
      CheckParametersFillsGaps(ops[0].0, ps, defaults, name);
      CheckOperationsFillsGaps(ops[1..], d1, name);
      FilledTwice(defaults, d1, FirstDefaultIn(ps, name), FirstDefault(ops[1..], name), name);
    }
  }

  /**
   * Seeding only fills gaps: a key the service defaults already set keeps its
   * value; a key they leave unset takes the default of the first parameter of
   * that name that declares one; every other key is unchanged.
   */
  lemma DefaultsOnlyFillGaps(serviceName: string, def: Definition, name: string)
    requires Construct(serviceName, def).Success?
    ensures var st := Construct(serviceName, def).value;
      Lookup(st.defaults, name) == Filled(def.defaults, FirstDefault(st.operations, name), name)
  {
    var ops := ResolveOperations(serviceName, def.parameters, def.operations).value;
    CheckOperationsFillsGaps(ops, def.defaults, name);
  }

  // ---- building a URI ----

  /** The value a parameter is validated and placed with. */
  lemma CallerArgumentsOverrideDefaults(defaults: Entries, args: Entries, name: string)
    ensures Get(Merge(defaults, args), name) ==
      if Lookup(args, name).Some? then Lookup(args, name).value else Get(defaults, name)
  {
    MergeLookup(defaults, args, name);
  }

  /**
   * An unknown operation is reported with the service, the operation and the
   * caller's arguments as given, whether or not they are an array.
   */
  lemma UnknownOperationIsReported(st: State, operation: string, parameters: Value, matches: PatternMatcher)
    requires !Isset(st.operations, operation)
    ensures BuildUriFor(st, operation, parameters, matches).Failure?
    ensures var e := BuildUriFor(st, operation, parameters, matches).error;
      e.NotFound? && GetService(e.exception) == st.serviceName &&
      GetOperation(e.exception) == operation && GetParameters(e.exception) == parameters
  {
  }

  /**
   * For a known operation, arguments that are not an array never give a URI:
   * `array_merge` refuses them with a TypeError naming their type, before any
   * parameter is looked at. An array is built into a URI as `BuildUri` says.
   */
  lemma ArgumentsMustBeArray(st: State, operation: string, parameters: Value, matches: PatternMatcher)
    requires Isset(st.operations, operation)
    ensures BuildUriFor(st, operation, parameters, matches).Success? ==> parameters.VArr?
    ensures parameters.VArr? ==> BuildUriFor(st, operation, parameters, matches) == BuildUri(st, operation, parameters.entries, matches)
    ensures !parameters.VArr? ==>
      BuildUriFor(st, operation, parameters, matches) == Failure(ArgumentTypeError("array_merge(): Argument #2 must be of type array, " + TypeName(parameters) + " given"))
  {
  }

  /** A walk that succeeds validated every declared parameter against its merged value. */
  lemma {:induction false} WalkValidatesAll(ps: Entries, merged: Entries, uri: string, query: Entries, matches: PatternMatcher)
    requires WalkParameters(ps, merged, uri, query, matches).Success?
    ensures forall k :: 0 <= k < |ps| ==> Validate(ps[k].1, Get(merged, ps[k].0), matches).None?
  {
    if ps != [] {
      var step := ApplyParameter(ps[0].0, ps[0].1, Get(merged, ps[0].0), uri, query, matches).value;
      WalkValidatesAll(ps[1..], merged, step.0, step.1, matches);
      assert forall k :: 1 <= k < |ps| ==> ps[k] == ps[1..][k - 1];
    }
  }

  /** No URI is returned unless every declared parameter passed validation. */
  lemma UriOnlyAfterValidation(st: State, operation: string, args: Entries, matches: PatternMatcher)
    requires BuildUri(st, operation, args, matches).Success?
    ensures var ps := DeclaredParameters(st, operation);
      forall k :: 0 <= k < |ps| ==> Validate(ps[k].1, Get(Merge(st.defaults, args), ps[k].0), matches).None?
  {
    var start := StartUri(st.service, Get(st.operations, operation)).value;
    WalkValidatesAll(DeclaredParameters(st, operation), Merge(st.defaults, args), start, [], matches);
  }

  /** A parameter whose value fails validation makes the whole call fail. */
  lemma {:induction false} RejectedParameterAbortsWalk(ps: Entries, merged: Entries, uri: string, query: Entries, matches: PatternMatcher, k: nat)
    requires k < |ps| && Validate(ps[k].1, Get(merged, ps[k].0), matches).Some?
    ensures WalkParameters(ps, merged, uri, query, matches).Failure?
  {
    if WalkParameters(ps, merged, uri, query, matches).Success? {
      WalkValidatesAll(ps, merged, uri, query, matches);
    }
  }

  predicate HasQueryParameter(ps: Entries)
  {
    exists k :: 0 <= k < |ps| && IsQueryLocated(ps[k].1)
  }

  lemma HasQueryParameterSplit(ps: Entries)
    requires ps != []
    ensures HasQueryParameter(ps) <==> IsQueryLocated(ps[0].1) || HasQueryParameter(ps[1..])
  {
    assert forall k :: 1 <= k < |ps| ==> ps[k] == ps[1..][k - 1];
    if HasQueryParameter(ps[1..]) {
      var k :| 0 <= k < |ps[1..]| && IsQueryLocated(ps[1..][k].1);
      assert ps[k + 1] == ps[1..][k];
    }
  }

  /**
   * A query-located parameter sets `query[name]` to its value and leaves every
   * other key as it was; any other parameter leaves the query as it was.
   */
  lemma ApplyParameterQuery(name: string, rule: Value, value: Value, uri: string, query: Entries, matches: PatternMatcher)
    requires ApplyParameter(name, rule, value, uri, query, matches).Success?
    ensures var step := ApplyParameter(name, rule, value, uri, query, matches).value;
      if IsQueryLocated(rule) then
        && |step.1| > 0
        && Lookup(step.1, name) == Some(value)
        && forall j :: j != name ==> Lookup(step.1, j) == Lookup(query, j)
      else step.1 == query
  {
    SetLookup(query, name, value);
  }

  lemma {:induction false} WalkQueryNonEmpty(ps: Entries, merged: Entries, uri: string, query: Entries, matches: PatternMatcher)
    requires WalkParameters(ps, merged, uri, query, matches).Success?
    ensures |WalkParameters(ps, merged, uri, query, matches).value.1| > 0 <==> |query| > 0 || HasQueryParameter(ps)
  {
    if ps != [] {
      var step := ApplyParameter(ps[0].0, ps[0].1, Get(merged, ps[0].0), uri, query, matches).value;
      ApplyParameterQuery(ps[0].0, ps[0].1, Get(merged, ps[0].0), uri, query, matches);
      WalkQueryNonEmpty(ps[1..], merged, step.0, step.1, matches);
      HasQueryParameterSplit(ps);
    }
  }

  /** Some declared parameter named `name` is query-located. */
  predicate QueryLocatedName(ps: Entries, name: string)
  {
    exists j :: 0 <= j < |ps| && ps[j].0 == name && IsQueryLocated(ps[j].1)
  }

  lemma QueryLocatedNameSplit(ps: Entries)
    requires ps != []
    ensures forall name :: QueryLocatedName(ps, name) <==>
      (ps[0].0 == name && IsQueryLocated(ps[0].1)) || QueryLocatedName(ps[1..], name)
  {
    forall name | QueryLocatedName(ps[1..], name) ensures QueryLocatedName(ps, name) {
      var j :| 0 <= j < |ps[1..]| && ps[1..][j].0 == name && IsQueryLocated(ps[1..][j].1);
      assert ps[j + 1] == ps[1..][j];
    }
    forall name | QueryLocatedName(ps, name) && !(ps[0].0 == name && IsQueryLocated(ps[0].1))
      ensures QueryLocatedName(ps[1..], name)
    {
      var j :| 0 <= j < |ps| && ps[j].0 == name && IsQueryLocated(ps[j].1);
      assert j > 0 && ps[1..][j - 1] == ps[j];
    }
  }

  /**
   * After the walk, the query holds, under each name some declared parameter
   * places in the query, that name's merged value; every other key is as it was.
   */
  lemma {:induction false} WalkQueryContents(ps: Entries, merged: Entries, uri: string, query: Entries, matches: PatternMatcher)
    requires WalkParameters(ps, merged, uri, query, matches).Success?
    ensures forall name :: Lookup(WalkParameters(ps, merged, uri, query, matches).value.1, name) ==
                          if QueryLocatedName(ps, name) then Some(Get(merged, name)) else Lookup(query, name)
  {
    if ps != [] {
      var step := ApplyParameter(ps[0].0, ps[0].1, Get(merged, ps[0].0), uri, query, matches).value;
      ApplyParameterQuery(ps[0].0, ps[0].1, Get(merged, ps[0].0), uri, query, matches);
      WalkQueryContents(ps[1..], merged, step.0, step.1, matches);
      QueryLocatedNameSplit(ps);
    }
  }

  /**
   * The keys `keys` followed by the query-located names of `ps` in declared
   * order, each name added only the first time it is seen.
   */
  function QueryNamesAfter(ps: Entries, keys: seq<string>): seq<string>
  {
    if ps == [] then keys
    else QueryNamesAfter(ps[1..], if IsQueryLocated(ps[0].1) then AddKey(keys, ps[0].0) else keys)
  }

  /** The query-located names of `ps`, in declared order. */
  function QueryLocatedNames(ps: Entries): seq<string>
  {
    if ps == [] then []
    else (if IsQueryLocated(ps[0].1) then [ps[0].0] else []) + QueryLocatedNames(ps[1..])
  }

  /** No name is declared twice, as in a PHP array. */
  predicate DistinctNames(ps: Entries)
  {
    forall i, j :: 0 <= i < j < |ps| ==> ps[i].0 != ps[j].0
  }

  /** The walk assigns query keys in declared order: a new key goes to the end, an existing one stays put. */
  lemma {:induction false} WalkQueryOrder(ps: Entries, merged: Entries, uri: string, query: Entries, matches: PatternMatcher)
    requires WalkParameters(ps, merged, uri, query, matches).Success?
    ensures Keys(WalkParameters(ps, merged, uri, query, matches).value.1) == QueryNamesAfter(ps, Keys(query))
  {
    if ps != [] {
      var value := Get(merged, ps[0].0);
      var step := ApplyParameter(ps[0].0, ps[0].1, value, uri, query, matches).value;
      if IsQueryLocated(ps[0].1) {
        assert step.1 == Set(query, ps[0].0, value);
        SetKeys(query, ps[0].0, value);
      } else {
        assert step.1 == query;
      }
      WalkQueryOrder(ps[1..], merged, step.0, step.1, matches);
    }
  }

  lemma DistinctTail(ps: Entries, keys: seq<string>, next: seq<string>)
    requires ps != [] && DistinctNames(ps)
    requires forall j :: 0 <= j < |ps| ==> ps[j].0 !in keys
    requires next == keys || next == keys + [ps[0].0]
    ensures DistinctNames(ps[1..])
    ensures forall j :: 0 <= j < |ps[1..]| ==> ps[1..][j].0 !in next
  {
    forall j | 0 <= j < |ps[1..]| ensures ps[1..][j].0 !in next {
      assert ps[1..][j] == ps[j + 1];
      assert ps[j + 1].0 != ps[0].0;
    }
  }

  /** With distinct names not among `keys`, each query-located name is simply appended. */
  lemma {:induction false} QueryNamesAfterDistinct(ps: Entries, keys: seq<string>)
    requires DistinctNames(ps)
    requires forall j :: 0 <= j < |ps| ==> ps[j].0 !in keys
    ensures QueryNamesAfter(ps, keys) == keys + QueryLocatedNames(ps)
  {
    if ps == [] {
      assert keys + [] == keys;
    } else {
      var next := QueryNamesStep(ps, keys);
      DistinctTail(ps, keys, next);
      QueryNamesAfterDistinct(ps[1..], next);
    }
  }

  /** One step of `QueryNamesAfter` over a name not yet among the keys. */
  lemma QueryNamesStep(ps: Entries, keys: seq<string>) returns (next: seq<string>)
    requires ps != [] && ps[0].0 !in keys
    ensures next == keys || next == keys + [ps[0].0]
    ensures QueryNamesAfter(ps, keys) == QueryNamesAfter(ps[1..], next)
    ensures keys + QueryLocatedNames(ps) == next + QueryLocatedNames(ps[1..])
  {
    var rest := QueryLocatedNames(ps[1..]);
    if IsQueryLocated(ps[0].1) {
      next := keys + [ps[0].0];
      assert keys + ([ps[0].0] + rest) == next + rest;
    } else {
      next := keys;
      assert [] + rest == rest;
    }
  }

  /**
   * The query string of a built URI encodes exactly the merged arguments of
   * the query-located parameters: each under its own name, and nothing else.
   */
  lemma QueryHoldsDeclaredArguments(st: State, operation: string, args: Entries, matches: PatternMatcher)
    requires BuildUri(st, operation, args, matches).Success?
    ensures var start := StartUri(st.service, Get(st.operations, operation)).value;
      var walked := WalkParameters(DeclaredParameters(st, operation), Merge(st.defaults, args), start, [], matches).value;
      && (HasQueryParameter(DeclaredParameters(st, operation)) ==>
            BuildUri(st, operation, args, matches).value == walked.0 + "?" + HttpBuildQuery(walked.1))
      && (forall name :: Lookup(walked.1, name) ==
            if QueryLocatedName(DeclaredParameters(st, operation), name) then Some(Get(Merge(st.defaults, args), name)) else None)
  {
    var start := StartUri(st.service, Get(st.operations, operation)).value;
    QueryStringIffQueryParameter(st, operation, args, matches);
    WalkQueryContents(DeclaredParameters(st, operation), Merge(st.defaults, args), start, [], matches);
  }

  /**
   * The query of a built URI lists its keys in the order the parameters are
   * declared; when no name is declared twice, they are exactly the
   * query-located names in declared order.
   */
  lemma QueryFollowsDeclaration(st: State, operation: string, args: Entries, matches: PatternMatcher)
    requires BuildUri(st, operation, args, matches).Success?
    ensures var start := StartUri(st.service, Get(st.operations, operation)).value;
      var walked := WalkParameters(DeclaredParameters(st, operation), Merge(st.defaults, args), start, [], matches).value;
      && Keys(walked.1) == QueryNamesAfter(DeclaredParameters(st, operation), [])
      && (DistinctNames(DeclaredParameters(st, operation)) ==> Keys(walked.1) == QueryLocatedNames(DeclaredParameters(st, operation)))
  {
    var ps := DeclaredParameters(st, operation);
    var start := StartUri(st.service, Get(st.operations, operation)).value;
    WalkQueryOrder(ps, Merge(st.defaults, args), start, [], matches);
    assert Keys([]) == [];
    if DistinctNames(ps) {
      QueryNamesAfterDistinct(ps, []);
      assert [] + QueryLocatedNames(ps) == QueryLocatedNames(ps);
    }
  }

  /**
   * `?` and the form-encoded query are appended exactly when the operation
   * declares a query-located parameter, even when every query value is null
   * and the query string itself is empty.
   */
  lemma QueryStringIffQueryParameter(st: State, operation: string, args: Entries, matches: PatternMatcher)
    requires BuildUri(st, operation, args, matches).Success?
    ensures var start := StartUri(st.service, Get(st.operations, operation)).value;
      var walked := WalkParameters(DeclaredParameters(st, operation), Merge(st.defaults, args), start, [], matches).value;
      BuildUri(st, operation, args, matches).value ==
        if HasQueryParameter(DeclaredParameters(st, operation)) then walked.0 + "?" + HttpBuildQuery(walked.1) else walked.0
  {
    var start := StartUri(st.service, Get(st.operations, operation)).value;
    WalkQueryNonEmpty(DeclaredParameters(st, operation), Merge(st.defaults, args), start, [], matches);
  }

  /** What one successful step does to the URI: substitute a uri-located value, or nothing. */
  lemma PlacedUri(name: string, rule: Value, value: Value, uri: string, query: Entries, matches: PatternMatcher)
    requires ApplyParameter(name, rule, value, uri, query, matches).Success?
    ensures IsUriLocated(rule) ==> StringArg(value).Some?
    ensures ApplyParameter(name, rule, value, uri, query, matches).value.0 ==
      if IsUriLocated(rule) then ReplaceAll(uri, Placeholder(name), StringArg(value).value) else uri
  {
  }

  lemma {:induction false} WalkKeepsPrefix(ps: Entries, merged: Entries, x: string, s: string, query: Entries, matches: PatternMatcher)
    requires '{' !in x
    requires WalkParameters(ps, merged, x + s, query, matches).Success?
    ensures var u := WalkParameters(ps, merged, x + s, query, matches).value.0;
      |u| >= |x| && u[..|x|] == x
  {
    if ps == [] {
      assert (x + s)[..|x|] == x;
    } else {
      var name := ps[0].0;
      var value := Get(merged, name);
      var step := ApplyParameter(name, ps[0].1, value, x + s, query, matches).value;
      PlacedUri(name, ps[0].1, value, x + s, query, matches);
      var s' := if IsUriLocated(ps[0].1) then ReplaceAll(s, Placeholder(name), StringArg(value).value) else s;
      if IsUriLocated(ps[0].1) {
        ReplaceAllSkipsPrefix(x, s, Placeholder(name), StringArg(value).value);
      }
      assert step.0 == x + s';
      WalkKeepsPrefix(ps[1..], merged, x, s', step.1, matches);
    }
  }

  /** A successful build starts with the walked URI. */
  lemma BuildUriExtendsWalk(st: State, operation: string, args: Entries, matches: PatternMatcher)
    requires BuildUri(st, operation, args, matches).Success?
    ensures Isset(st.operations, operation) && StartUri(st.service, Get(st.operations, operation)).Success?
    ensures var start := StartUri(st.service, Get(st.operations, operation)).value;
      var walk := WalkParameters(DeclaredParameters(st, operation), Merge(st.defaults, args), start, [], matches);
      var u := BuildUri(st, operation, args, matches).value;
      walk.Success? && |u| >= |walk.value.0| && u[..|walk.value.0|] == walk.value.0
  {
  }

  /** The start URI is the trimmed baseUrl, a slash, and the left-trimmed operation uri. */
  lemma StartUriShape(service: Entries, op: Value)
    requires StartUri(service, op).Success?
    ensures StringArg(Get(service, "baseUrl")).Some? && StringArg(Index(op, "uri")).Some?
    ensures StartUri(service, op).value ==
      RTrimChar(StringArg(Get(service, "baseUrl")).value, '/') + "/" + LTrim(StringArg(Index(op, "uri")).value)
  {
  }

  lemma PrefixOfPrefix(u: string, w: string, b: string)
    requires |u| >= |w| && u[..|w|] == w
    requires |w| >= |b| && w[..|b|] == b
    ensures |u| >= |b| && u[..|b|] == b
  {
    assert u[..|b|] == u[..|w|][..|b|];
  }

  /**
   * The URI starts with the trimmed baseUrl and a slash: placeholders can only
   * be substituted after it, as long as the base holds no `{`.
   */
  lemma UriStartsWithBase(st: State, operation: string, args: Entries, matches: PatternMatcher)
    requires BuildUri(st, operation, args, matches).Success?
    ensures Isset(st.operations, operation) && StringArg(Get(st.service, "baseUrl")).Some?
    ensures var base := RTrimChar(StringArg(Get(st.service, "baseUrl")).value, '/') + "/";
      var u := BuildUri(st, operation, args, matches).value;
      '{' !in base ==> |u| >= |base| && u[..|base|] == base
  {
    BuildUriExtendsWalk(st, operation, args, matches);
    var op := Get(st.operations, operation);
    StartUriShape(st.service, op);
    var base := RTrimChar(StringArg(Get(st.service, "baseUrl")).value, '/') + "/";
    if '{' !in base {
      var path := LTrim(StringArg(Index(op, "uri")).value);
      var start := StartUri(st.service, op).value;
      var walked := WalkParameters(DeclaredParameters(st, operation), Merge(st.defaults, args), start, [], matches).value;
      WalkKeepsPrefix(DeclaredParameters(st, operation), Merge(st.defaults, args), base, path, [], matches);
      PrefixOfPrefix(BuildUri(st, operation, args, matches).value, walked.0, base);
    }
  }
}

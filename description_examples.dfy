/**
 * The httpbin example service and a few small definitions, worked through the
 * description engine: construction, default layering, a required parameter,
 * a null query value and an unknown operation.
 */
module DescriptionExamples {
  import opened Wrappers
  import opened PhpStrings
  import opened PhpValues
  import opened FormEncoding
  import opened ParameterValidator
  import opened OperationNotFound
  import opened ServiceDescription
  import opened DescriptionProperties

  /** A pattern matcher for definitions that declare no `pattern` rule. */
  function AnyMatch(pattern: Value, value: Value): bool { true }

  function QueryRule(t: string): Value
  {
    VArr([("type", VStr(t)), ("location", VStr("query"))])
  }

  function Operation(uri: string, parameters: Entries): Value
  {
    VArr([("httpMethod", VStr("GET")), ("uri", VStr(uri)), ("responseType", VStr("json")), ("parameters", VArr(parameters))])
  }

  /**
   * The httpbin configuration: `bat` is taken from the `global` library. The
   * service's free-text `description` entry is omitted; the engine never reads it.
   */
  function Httpbin(): Definition
  {
    Definition(
      [("name", VStr("httpbin(1): HTTP Request & Response Service")), ("apiVersion", VStr("1")), ("baseUrl", VStr("http://httpbin.org/"))],
      [("foo", VStr("bar")), ("bat", VStr("baz"))],
      [("global", VArr([("bat", QueryRule("string"))]))],
      [("testing", Operation("get", [("foo", QueryRule("string")), ("bat", VStr("global:bat"))]))])
  }

  function HttpbinOperations(): Entries
  {
    [("testing", Operation("get", [("foo", QueryRule("string")), ("bat", QueryRule("string"))]))]
  }

  function HttpbinState(): State
  {
    State("httpbin", Httpbin().service, Httpbin().defaults, Httpbin().parameters, HttpbinOperations())
  }

  // ---- assembling a result from its stages ----

  lemma ResolveCons(sn: string, lib: Entries, p: (string, Value), rule: Value, rest: Entries, resolved: Entries)
    requires ResolvedValue(lib, p.1) == Some(rule)
    requires ResolveParameters(sn, lib, rest) == Success(resolved)
    ensures ResolveParameters(sn, lib, [p] + rest) == Success([(p.0, rule)] + resolved)
  {
    assert ([p] + rest)[0] == p && ([p] + rest)[1..] == rest;
  }

  lemma ResolveTwo(sn: string, lib: Entries, a: string, va: Value, ra: Value, b: string, vb: Value, rb: Value)
    requires ResolvedValue(lib, va) == Some(ra) && ResolvedValue(lib, vb) == Some(rb)
    ensures ResolveParameters(sn, lib, [(a, va), (b, vb)]) == Success([(a, ra), (b, rb)])
  {
    ResolveSingle(sn, lib, (b, vb), rb);
    ResolveCons(sn, lib, (a, va), ra, [(b, vb)], [(b, rb)]);
    assert [(a, va)] + [(b, vb)] == [(a, va), (b, vb)];
    assert [(a, ra)] + [(b, rb)] == [(a, ra), (b, rb)];
  }

  lemma ResolveSingle(sn: string, lib: Entries, p: (string, Value), rule: Value)
    requires ResolvedValue(lib, p.1) == Some(rule)
    ensures ResolveParameters(sn, lib, [p]) == Success([(p.0, rule)])
  {
    assert ResolveParameters(sn, lib, []) == Success([]);
    ResolveCons(sn, lib, p, rule, [], []);
    assert [p] + [] == [p] && [(p.0, rule)] + [] == [(p.0, rule)];
  }

  lemma ResolveOne(sn: string, lib: Entries, name: string, es: Entries, ps: Entries, rs: Entries)
    requires Index(VArr(es), "parameters") == VArr(ps)
    requires ResolveParameters(sn, lib, ps) == Success(rs)
    ensures ResolveOperations(sn, lib, [(name, VArr(es))]) == Success([(name, VArr(Set(es, "parameters", VArr(rs))))])
  {
    assert [(name, VArr(es))][1..] == [];
    assert [(name, VArr(Set(es, "parameters", VArr(rs))))] + [] == [(name, VArr(Set(es, "parameters", VArr(rs))))];
  }

  lemma ConstructStages(sn: string, def: Definition, ops: Entries)
    requires ResolveOperations(sn, def.parameters, def.operations) == Success(ops)
    requires Isset(def.service, "baseUrl")
    requires CheckOperations(ops, def.defaults) == Success(def.defaults)
    ensures Construct(sn, def) == Success(State(sn, def.service, def.defaults, def.parameters, ops))
  {
  }

  lemma WalkTwo(a: string, ra: Value, b: string, rb: Value, merged: Entries, uri: string, query: Entries,
                matches: PatternMatcher, first: (string, Entries), second: (string, Entries))
    requires ApplyParameter(a, ra, Get(merged, a), uri, query, matches) == Success(first)
    requires ApplyParameter(b, rb, Get(merged, b), first.0, first.1, matches) == Success(second)
    ensures WalkParameters([(a, ra), (b, rb)], merged, uri, query, matches) == Success(second)
  {
    var ps := [(a, ra), (b, rb)];
    assert ps[1..] == [(b, rb)];
    WalkOne(b, rb, merged, first.0, first.1, matches, second);
  }

  lemma WalkOne(a: string, ra: Value, merged: Entries, uri: string, query: Entries,
                matches: PatternMatcher, first: (string, Entries))
    requires ApplyParameter(a, ra, Get(merged, a), uri, query, matches) == Success(first)
    ensures WalkParameters([(a, ra)], merged, uri, query, matches) == Success(first)
  {
    assert [(a, ra)][1..] == [];
  }

  lemma BuildStages(st: State, operation: string, args: Entries, matches: PatternMatcher, start: string, walked: (string, Entries))
    requires Isset(st.operations, operation)
    requires StartUri(st.service, Get(st.operations, operation)) == Success(start)
    requires WalkParameters(DeclaredParameters(st, operation), Merge(st.defaults, args), start, [], matches) == Success(walked)
    ensures BuildUri(st, operation, args, matches) == Success(if |walked.1| > 0 then walked.0 + "?" + HttpBuildQuery(walked.1) else walked.0)
  {
  }

  // ---- constructing httpbin ----

  lemma GlobalBatParses()
    ensures ParseReference("global:bat") == Some(("global", "bat"))
  {
    ReferenceRoundTrip("global", "bat");
    assert "global" + ":" + "bat" == "global:bat";
  }

  lemma GlobalBatFound()
    ensures ResolvedValue(Httpbin().parameters, VStr("global:bat")) == Some(QueryRule("string"))
  {
    GlobalBatParses();
    assert LibraryRule(Httpbin().parameters, "global", "bat") == Some(QueryRule("string"));
  }

  lemma InlineRuleStays()
    ensures ResolvedValue(Httpbin().parameters, QueryRule("string")) == Some(QueryRule("string"))
  {
  }

  /** Setting a key not held by the first entry keeps that entry in front. */
  lemma SetBehind(c: (string, Value), rest: Entries, k: string, w: Value, result: Entries)
    requires c.0 != k && Set(rest, k, w) == result
    ensures Set([c] + rest, k, w) == [c] + result
  {
    assert ([c] + rest)[0] == c && ([c] + rest)[1..] == rest;
  }

  /** Setting the last of four keys replaces its value in place. */
  lemma SetFourthKey(a: (string, Value), b: (string, Value), c: (string, Value), k: string, v: Value, w: Value)
    requires a.0 != k && b.0 != k && c.0 != k
    ensures Set([a, b, c, (k, v)], k, w) == [a, b, c, (k, w)]
  {
    assert [(k, v)][1..] == [];
    SetBehind(c, [(k, v)], k, w, [(k, w)]);
    assert [c] + [(k, v)] == [c, (k, v)] && [c] + [(k, w)] == [c, (k, w)];
    SetBehind(b, [c, (k, v)], k, w, [c, (k, w)]);
    assert [b] + [c, (k, v)] == [b, c, (k, v)] && [b] + [c, (k, w)] == [b, c, (k, w)];
    SetBehind(a, [b, c, (k, v)], k, w, [b, c, (k, w)]);
    assert [a] + [b, c, (k, v)] == [a, b, c, (k, v)] && [a] + [b, c, (k, w)] == [a, b, c, (k, w)];
  }

  function TestingHeader(): Entries
  {
    [("httpMethod", VStr("GET")), ("uri", VStr("get")), ("responseType", VStr("json"))]
  }

  lemma TestingOperationShape(parameters: Entries)
    ensures Operation("get", parameters) == VArr(TestingHeader() + [("parameters", VArr(parameters))])
  {
  }

  lemma TestingParametersRead()
    ensures Index(Httpbin().operations[0].1, "parameters") == VArr([("foo", QueryRule("string")), ("bat", VStr("global:bat"))])
  {
  }

  lemma TestingOperationRewritten()
    ensures VArr(Set(Httpbin().operations[0].1.entries, "parameters", VArr([("foo", QueryRule("string")), ("bat", QueryRule("string"))])))
      == HttpbinOperations()[0].1
  {
    var before := [("foo", QueryRule("string")), ("bat", VStr("global:bat"))];
    var after := [("foo", QueryRule("string")), ("bat", QueryRule("string"))];
    TestingOperationShape(before);
    TestingOperationShape(after);
    assert "httpMethod"[0] != "parameters"[0];
    SetFourthKey(("httpMethod", VStr("GET")), ("uri", VStr("get")), ("responseType", VStr("json")), "parameters", VArr(before), VArr(after));
  }

  /** `global:bat` is replaced by the library's `bat` rule. */
  lemma HttpbinResolves()
    ensures ResolveOperations("httpbin", Httpbin().parameters, Httpbin().operations) == Success(HttpbinOperations())
  {
    GlobalBatFound();
    InlineRuleStays();
    ResolveTwo("httpbin", Httpbin().parameters, "foo", QueryRule("string"), QueryRule("string"), "bat", VStr("global:bat"), QueryRule("string"));
    TestingParametersRead();
    TestingOperationRewritten();
    ResolveOne("httpbin", Httpbin().parameters, "testing", Httpbin().operations[0].1.entries,
      [("foo", QueryRule("string")), ("bat", VStr("global:bat"))], [("foo", QueryRule("string")), ("bat", QueryRule("string"))]);
  }

  lemma QueryRuleChecked()
    ensures ParameterWellFormed(QueryRule("string")) && NoDefault(QueryRule("string"))
  {
  }

  lemma TestingOperationWellFormed()
    ensures OperationWellFormed(HttpbinOperations()[0].1)
    ensures EntriesOf(Index(HttpbinOperations()[0].1, "parameters")) == [("foo", QueryRule("string")), ("bat", QueryRule("string"))]
  {
  }

  lemma SingleOperationChecked(name: string, op: Value, ps: Entries)
    requires OperationWellFormed(op) && EntriesOf(Index(op, "parameters")) == ps
    requires forall j :: 0 <= j < |ps| ==> ParameterWellFormed(ps[j].1) && NoDefault(ps[j].1)
    ensures OperationChecked(op) && NoDefaultsDeclared([(name, op)])
  {
  }

  lemma TestingRulesChecked()
    ensures var ps := [("foo", QueryRule("string")), ("bat", QueryRule("string"))];
      forall j :: 0 <= j < |ps| ==> ParameterWellFormed(ps[j].1) && NoDefault(ps[j].1)
  {
    QueryRuleChecked();
  }

  lemma TestingOperationChecked()
    ensures OperationChecked(HttpbinOperations()[0].1)
    ensures NoDefaultsDeclared(HttpbinOperations())
  {
    TestingRulesChecked();
    TestingOperationWellFormed();
    SingleOperationChecked("testing", HttpbinOperations()[0].1, [("foo", QueryRule("string")), ("bat", QueryRule("string"))]);
  }

  lemma HttpbinChecks()
    ensures CheckOperations(HttpbinOperations(), Httpbin().defaults) == Success(Httpbin().defaults)
  {
    TestingOperationChecked();
    CheckOperationsOutcome(HttpbinOperations(), Httpbin().defaults);
    CheckOperationsKeepsDefaults(HttpbinOperations(), Httpbin().defaults);
  }

  lemma HttpbinHasBaseUrl()
    ensures Isset(Httpbin().service, "baseUrl")
  {
  }

  /** The httpbin configuration constructs, with `global:bat` resolved and its defaults as given. */
  lemma HttpbinConstructs()
    ensures Construct("httpbin", Httpbin()) == Success(HttpbinState())
  {
    HttpbinResolves();
    HttpbinChecks();
    HttpbinHasBaseUrl();
    ConstructStages("httpbin", Httpbin(), HttpbinOperations());
  }

  // ---- building the testing URI ----

  lemma HttpbinBase()
    ensures RTrimChar("http://httpbin.org/", '/') + "/" + LTrim("get") == "http://httpbin.org/get"
  {
    HostSlash();
    RTrimCharExact("http://httpbin.org", "/", '/');
    LTrimGet();
    HostSlashGet();
  }

  lemma HostSlash()
    ensures "http://httpbin.org" + "/" == "http://httpbin.org/"
  {
    var lhs := "http://httpbin.org" + "/";
    var rhs := "http://httpbin.org/";
    assert |lhs| == |rhs|;
    forall i | 0 <= i < |rhs| ensures lhs[i] == rhs[i] {
    }
  }

  lemma HostSlashGet()
    ensures "http://httpbin.org" + "/" + "get" == "http://httpbin.org/get"
  {
    var lhs := "http://httpbin.org" + "/" + "get";
    var rhs := "http://httpbin.org/get";
    assert |lhs| == |rhs|;
    forall i | 0 <= i < |rhs| ensures lhs[i] == rhs[i] {
    }
  }

  lemma LTrimGet()
    ensures LTrim("get") == "get"
  {
    assert !IsTrimSpace("get"[0]);
  }

  lemma HttpbinLocations()
    ensures Isset(HttpbinState().operations, "testing")
    ensures Get(HttpbinState().service, "baseUrl") == VStr("http://httpbin.org/")
    ensures Index(Get(HttpbinState().operations, "testing"), "uri") == VStr("get")
  {
  }

  lemma HttpbinStartUri()
    ensures Isset(HttpbinState().operations, "testing")
    ensures StartUri(HttpbinState().service, Get(HttpbinState().operations, "testing")) == Success("http://httpbin.org/get")
  {
    HttpbinLocations();
    HttpbinBase();
  }

  lemma HttpbinMerged()
    ensures Get(Merge(HttpbinState().defaults, []), "foo") == VStr("bar")
    ensures Get(Merge(HttpbinState().defaults, []), "bat") == VStr("baz")
  {
  }

  lemma QueryRuleLocated(t: string)
    ensures IsQueryLocated(QueryRule(t)) && !IsUriLocated(QueryRule(t))
  {
    var es := QueryRule(t).entries;
    assert es[0].0 == "type" && |"type"| != |"location"|;
    assert es[1..] == [("location", VStr("query"))];
    assert Lookup(es[1..], "location") == Some(VStr("query"));
    assert Lookup(es, "location") == Some(VStr("query"));
  }

  lemma StringAccepted(text: string)
    ensures Validate(QueryRule("string"), VStr(text), AnyMatch) == None
  {
    var es := EntriesOf(QueryRule("string"));
    assert CheckParameterType(VStr("string"), VStr(text));
    assert CheckConstraint(es, "type", VStr("string"), VStr(text), AnyMatch) == None;
    assert CheckConstraint(es, "location", VStr("query"), VStr(text), AnyMatch) == None;
    assert es[1..] == [("location", VStr("query"))] && es[1..][1..] == [];
    assert FirstRejection(es, es[1..], VStr(text), AnyMatch) == None;
    assert FirstRejection(es, es, VStr(text), AnyMatch) == None;
  }

  /** An accepted query parameter is set in the query and leaves the URI alone. */
  lemma QueryStepApplies(name: string, t: string, value: Value, uri: string, query: Entries)
    requires Validate(QueryRule(t), value, AnyMatch) == None
    ensures ApplyParameter(name, QueryRule(t), value, uri, query, AnyMatch) == Success((uri, Set(query, name, value)))
  {
    QueryRuleLocated(t);
  }

  lemma SetNewKey(x: Entries, k: string, w: Value)
    requires |x| == 1 && x[0].0 != k
    ensures Set(x, k, w) == x + [(k, w)]
  {
    assert x[1..] == [];
  }

  lemma FooStep()
    ensures ApplyParameter("foo", QueryRule("string"), VStr("bar"), "http://httpbin.org/get", [], AnyMatch)
      == Success(("http://httpbin.org/get", [("foo", VStr("bar"))]))
  {
    StringAccepted("bar");
    QueryStepApplies("foo", "string", VStr("bar"), "http://httpbin.org/get", []);
  }

  lemma BatStep()
    ensures ApplyParameter("bat", QueryRule("string"), VStr("baz"), "http://httpbin.org/get", [("foo", VStr("bar"))], AnyMatch)
      == Success(("http://httpbin.org/get", [("foo", VStr("bar")), ("bat", VStr("baz"))]))
  {
    StringAccepted("baz");
    QueryStepApplies("bat", "string", VStr("baz"), "http://httpbin.org/get", [("foo", VStr("bar"))]);
    SetNewKey([("foo", VStr("bar"))], "bat", VStr("baz"));
    assert [("foo", VStr("bar"))] + [("bat", VStr("baz"))] == [("foo", VStr("bar")), ("bat", VStr("baz"))];
  }

  lemma TestingDeclares()
    ensures DeclaredParameters(HttpbinState(), "testing") == [("foo", QueryRule("string")), ("bat", QueryRule("string"))]
  {
  }

  /** A string value whose key and text need no escaping is written as `key=text`. */
  lemma PlainField(key: string, text: string)
    requires forall k :: 0 <= k < |key| ==> IsUnreserved(key[k])
    requires forall k :: 0 <= k < |text| ==> IsUnreserved(text[k])
    ensures FieldPieces(UrlEncode(key), VStr(text)) == [key + "=" + text]
  {
    UrlEncodeUnreserved(key);
    UrlEncodeUnreserved(text);
  }

  lemma PiecesTwo(a: (string, Value), b: (string, Value))
    ensures QueryPieces([a, b]) == FieldPieces(UrlEncode(a.0), a.1) + FieldPieces(UrlEncode(b.0), b.1)
  {
    assert [a, b][1..] == [b];
    assert [b][1..] == [];
    var fb := FieldPieces(UrlEncode(b.0), b.1);
    assert QueryPieces([b]) == fb + QueryPieces([]);
    assert fb + [] == fb;
  }

  /** Two plain string fields are written as `k1=t1&k2=t2`. */
  lemma PlainQueryTwo(k1: string, t1: string, k2: string, t2: string)
    requires forall k :: 0 <= k < |k1| ==> IsUnreserved(k1[k])
    requires forall k :: 0 <= k < |t1| ==> IsUnreserved(t1[k])
    requires forall k :: 0 <= k < |k2| ==> IsUnreserved(k2[k])
    requires forall k :: 0 <= k < |t2| ==> IsUnreserved(t2[k])
    ensures HttpBuildQuery([(k1, VStr(t1)), (k2, VStr(t2))]) == k1 + "=" + t1 + "&" + k2 + "=" + t2
  {
    PiecesTwo((k1, VStr(t1)), (k2, VStr(t2)));
    PlainField(k1, t1);
    PlainField(k2, t2);
    var pieces := [k1 + "=" + t1, k2 + "=" + t2];
    assert pieces[1..] == [k2 + "=" + t2];
    assert Join(pieces, '&') == pieces[0] + ['&'] + pieces[1];
  }

  /** The httpbin query as the concatenation the encoder performs. */
  lemma HttpbinQueryConcat()
    ensures "foo" + "=" + "bar" + "&" + "bat" + "=" + "baz" == "foo=bar&bat=baz"
  {
    var lhs := "foo" + "=" + "bar" + "&" + "bat" + "=" + "baz";
    var rhs := "foo=bar&bat=baz";
    assert |lhs| == |rhs|;
    forall i | 0 <= i < |rhs| ensures lhs[i] == rhs[i] {
    }
  }

  lemma HttpbinQueryText()
    ensures HttpBuildQuery([("foo", VStr("bar")), ("bat", VStr("baz"))]) == "foo=bar&bat=baz"
  {
    PlainQueryTwo("foo", "bar", "bat", "baz");
    HttpbinQueryConcat();
  }

  /** The httpbin URI as the concatenation the build performs. */
  lemma HttpbinUriText()
    ensures "http://httpbin.org/get" + "?" + "foo=bar&bat=baz" == "http://httpbin.org/get?foo=bar&bat=baz"
  {
    var lhs := "http://httpbin.org/get" + "?" + "foo=bar&bat=baz";
    var rhs := "http://httpbin.org/get?foo=bar&bat=baz";
    assert |lhs| == |rhs|;
    forall i | 0 <= i < |rhs| ensures lhs[i] == rhs[i] {
    }
  }

  lemma HttpbinQuery()
    ensures "http://httpbin.org/get" + "?" + HttpBuildQuery([("foo", VStr("bar")), ("bat", VStr("baz"))])
      == "http://httpbin.org/get?foo=bar&bat=baz"
  {
    HttpbinQueryText();
    HttpbinUriText();
  }


  lemma HttpbinWalk()
    ensures WalkParameters(DeclaredParameters(HttpbinState(), "testing"), Merge(HttpbinState().defaults, []), "http://httpbin.org/get", [], AnyMatch)
      == Success(("http://httpbin.org/get", [("foo", VStr("bar")), ("bat", VStr("baz"))]))
  {
    HttpbinMerged();
    FooStep();
    BatStep();
    TestingDeclares();
    WalkTwo("foo", QueryRule("string"), "bat", QueryRule("string"), Merge(HttpbinState().defaults, []), "http://httpbin.org/get", [],
      AnyMatch, ("http://httpbin.org/get", [("foo", VStr("bar"))]), ("http://httpbin.org/get", [("foo", VStr("bar")), ("bat", VStr("baz"))]));
  }

  /** The `testing` operation puts both defaults into the query, in declaration order. */
  lemma HttpbinTestingUri()
    ensures BuildUri(HttpbinState(), "testing", [], AnyMatch) == Success("http://httpbin.org/get?foo=bar&bat=baz")
  {
    HttpbinStartUri();
    HttpbinWalk();
    var q := [("foo", VStr("bar")), ("bat", VStr("baz"))];
    BuildStages(HttpbinState(), "testing", [], AnyMatch, "http://httpbin.org/get", ("http://httpbin.org/get", q));
    HttpbinQuery();
  }

  lemma TestingRespondsJson()
    ensures Index(Get(HttpbinOperations(), "testing"), "responseType") == VStr("json")
    ensures !Isset(HttpbinOperations(), "noSuchOp")
  {
  }

  /**
   * The httpbin service constructs, resolves `global:bat`, and its `testing`
   * operation builds the defaults into the query in declaration order; its
   * responses are json, and an operation it lacks is reported.
   */
  lemma HttpbinTesting()
    ensures Construct("httpbin", Httpbin()).Success?
    ensures var st := Construct("httpbin", Httpbin()).value;
      && BuildUriFor(st, "testing", VArr([]), AnyMatch) == Success("http://httpbin.org/get?foo=bar&bat=baz")
      && Index(Get(st.operations, "testing"), "responseType") == VStr("json")
      && BuildUriFor(st, "noSuchOp", VArr([]), AnyMatch) == Failure(NotFound(New("httpbin", "noSuchOp", VArr([]))))
  {
    HttpbinConstructs();
    HttpbinTestingUri();
    TestingRespondsJson();
  }

  /** `buildOperationUri('testing', null)` stops at `array_merge`, whose TypeError names null. */
  lemma NullArgumentsRefused()
    ensures BuildUriFor(HttpbinState(), "testing", VNull, AnyMatch)
      == Failure(ArgumentTypeError("array_merge(): Argument #2 must be of type array, null given"))
  {
    TestingRespondsJson();
    NullTypeMessage();
  }

  lemma NullTypeMessage()
    ensures MergeArgumentMessage(VNull) == "array_merge(): Argument #2 must be of type array, null given"
  {
    var lhs := MergeArgumentMessage(VNull);
    var rhs := "array_merge(): Argument #2 must be of type array, null given";
    assert |lhs| == |rhs|;
    forall i | 0 <= i < |rhs| ensures lhs[i] == rhs[i] {
    }
  }

  // ---- default layering ----

  function BatWithDefault(): Value
  {
    VArr([("type", VStr("string")), ("location", VStr("query")), ("default", VStr("other"))])
  }

  lemma BatDefaultRead()
    ensures ParameterWellFormed(BatWithDefault())
    ensures Index(BatWithDefault(), "default") == VStr("other")
  {
    var es := BatWithDefault().entries;
    assert es[1..][1..] == [("default", VStr("other"))];
    assert Lookup(es[1..][1..], "default") == Some(VStr("other"));
    assert Lookup(es[1..], "location") == Some(VStr("query"));
  }

  lemma OneRuleChecked(opName: string, name: string, rule: Value, defaults: Entries)
    requires ParameterWellFormed(rule)
    ensures CheckParameters(opName, [(name, rule)], defaults) == Success(SeedDefault(defaults, name, rule))
  {
    assert [(name, rule)][1..] == [];
  }

  /** A service-level default is kept over a parameter's declared default. */
  lemma ServiceDefaultWins()
    ensures CheckParameters("op", [("bat", BatWithDefault())], [("bat", VStr("baz"))]) == Success([("bat", VStr("baz"))])
  {
    BatDefaultRead();
    OneRuleChecked("op", "bat", BatWithDefault(), [("bat", VStr("baz"))]);
    assert Isset([("bat", VStr("baz"))], "bat");
  }

  /** Without a service-level default, the parameter's own default is seeded. */
  lemma ParameterDefaultFillsGap()
    ensures CheckParameters("op", [("bat", BatWithDefault())], []) == Success([("bat", VStr("other"))])
  {
    BatDefaultRead();
    OneRuleChecked("op", "bat", BatWithDefault(), []);
    assert Set([], "bat", VStr("other")) == [("bat", VStr("other"))];
  }

  /** The merged value: the default when the caller passes nothing, the caller's value otherwise. */
  lemma CallerValueOverridesBoth()
    ensures Get(Merge([("bat", VStr("baz"))], []), "bat") == VStr("baz")
    ensures Get(Merge([("bat", VStr("baz"))], [("bat", VStr("qux"))]), "bat") == VStr("qux")
  {
    CallerArgumentsOverrideDefaults([("bat", VStr("baz"))], [("bat", VStr("qux"))], "bat");
  }

  // ---- a required parameter ----

  function RequiredIdRule(): Value
  {
    VArr([("type", VStr("integer")), ("location", VStr("uri")), ("required", VBool(true))])
  }

  /** A required parameter with no default and no caller value fails the call; no URI is built. */
  lemma RequiredParameterMissing()
    ensures WalkParameters([("id", RequiredIdRule())], Merge([], []), "http://example.org/items/{id}", [], AnyMatch)
      == Failure(InvalidParameter("id", RequiredMissing))
  {
    assert Get(Merge([], []), "id") == VNull;
    assert Validate(RequiredIdRule(), VNull, AnyMatch) == Some(RequiredMissing);
  }

  // ---- a null query value ----

  function SearchState(): State
  {
    State("search", [("baseUrl", VStr("http://example.org/"))], [], [], [("find", Operation("find", [("q", QueryRule("string"))]))])
  }

  lemma SearchBase()
    ensures RTrimChar("http://example.org/", '/') + "/" + LTrim("find") == "http://example.org/find"
  {
    RTrimCharExact("http://example.org", "/", '/');
    assert "http://example.org" + "/" == "http://example.org/";
    assert LTrim("find") == "find";
  }

  lemma SearchLocations()
    ensures Isset(SearchState().operations, "find")
    ensures Get(SearchState().service, "baseUrl") == VStr("http://example.org/")
    ensures Index(Get(SearchState().operations, "find"), "uri") == VStr("find")
  {
  }

  lemma SearchStartUri()
    ensures Isset(SearchState().operations, "find")
    ensures StartUri(SearchState().service, Get(SearchState().operations, "find")) == Success("http://example.org/find")
  {
    SearchLocations();
    SearchBase();
  }

  lemma SearchDeclares()
    ensures DeclaredParameters(SearchState(), "find") == [("q", QueryRule("string"))]
  {
  }

  lemma SearchMerged()
    ensures Get(Merge(SearchState().defaults, []), "q") == VNull
  {
  }

  lemma QueryStep()
    ensures ApplyParameter("q", QueryRule("string"), VNull, "http://example.org/find", [], AnyMatch)
      == Success(("http://example.org/find", [("q", VNull)]))
  {
    QueryStepApplies("q", "string", VNull, "http://example.org/find", []);
  }

  lemma SearchWalk()
    ensures WalkParameters(DeclaredParameters(SearchState(), "find"), Merge(SearchState().defaults, []), "http://example.org/find", [], AnyMatch)
      == Success(("http://example.org/find", [("q", VNull)]))
  {
    SearchDeclares();
    SearchMerged();
    QueryStep();
    WalkOne("q", QueryRule("string"), Merge(SearchState().defaults, []), "http://example.org/find", [], AnyMatch,
      ("http://example.org/find", [("q", VNull)]));
  }

  lemma NullQueryText()
    ensures "http://example.org/find" + "?" + HttpBuildQuery([("q", VNull)]) == "http://example.org/find?"
  {
    assert HttpBuildQuery([("q", VNull)]) == "";
  }

  /**
   * An optional query parameter left out still counts as a query entry: its
   * null value is dropped by the form encoding, leaving a bare `?`.
   */
  lemma NullQueryLeavesBareQuestionMark()
    ensures BuildUri(SearchState(), "find", [], AnyMatch) == Success("http://example.org/find?")
  {
    SearchStartUri();
    SearchWalk();
    BuildStages(SearchState(), "find", [], AnyMatch, "http://example.org/find", ("http://example.org/find", [("q", VNull)]));
    NullQueryText();
  }

  // ---- a template with two placeholders ----

  lemma AbsentWithoutBrace(pat: string, x: string)
    requires IsPlaceholder(pat) && '{' !in x
    ensures Absent(pat, x)
  {
    forall i: nat | i <= |x| ensures !OccursAt(pat, x, i) {
      if i + |pat| <= |x| {
        assert x[i..i + |pat|][0] == x[i] != '{';
      }
    }
  }

  lemma IdAbsentFromSubPiece()
    ensures Absent("{id}", "/sub/{sub}")
  {
    var x := "/sub/{sub}";
    forall i: nat | i <= |x| ensures !OccursAt("{id}", x, i) {
      if i + 4 <= |x| {
        if i == 5 {
          assert x[i..i + 4][1] == 's';
        } else {
          assert x[i..i + 4][0] == x[i] != '{';
        }
      }
    }
  }

  /** `items/{id}/sub/{sub}` cut at its `{id}`. */
  function ItemPieces(): seq<string>
  {
    ["items/", "/sub/{sub}"]
  }

  lemma ItemPiecesLackId()
    ensures forall k :: 0 <= k < |ItemPieces()| ==> Absent("{id}", ItemPieces()[k])
  {
    AbsentWithoutBrace("{id}", "items/");
    IdAbsentFromSubPiece();
  }

  lemma ItemTemplate()
    ensures Placeholder("id") == "{id}"
    ensures Interleave(ItemPieces(), "{id}") == "items/{id}/sub/{sub}"
  {
    InterleaveTwo("items/", "/sub/{sub}", "{id}");
    var lhs := "items/" + "{id}" + "/sub/{sub}";
    var rhs := "items/{id}/sub/{sub}";
    assert |lhs| == |rhs|;
    forall i | 0 <= i < |rhs| ensures lhs[i] == rhs[i] {
    }
  }

  lemma InterleaveTwo(a: string, b: string, sep: string)
    ensures Interleave([a, b], sep) == a + sep + b
  {
    assert [a, b][1..] == [b];
  }

  /**
   * In `items/{id}/sub/{sub}`, the value of `id` replaces `{id}` and leaves the
   * other placeholder `{sub}` for its own parameter.
   */
  lemma OnePlaceholderOfTwo(text: string)
    ensures ReplaceAll("items/{id}/sub/{sub}", Placeholder("id"), text) == "items/" + text + "/sub/{sub}"
  {
    ItemTemplate();
    ItemPiecesLackId();
    ReplaceEveryPlaceholder(ItemPieces(), "{id}", text);
    InterleaveTwo("items/", "/sub/{sub}", text);
  }
}

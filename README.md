# laravel-webservice: the service description engine in Dafny

A service is described by a configuration. It has four sections:
- `service`: holds at least `baseUrl`;
- `defaults`: default argument values;
- `parameters`: a library of shared parameter rules, grouped into namespaces;
- `operations`: one entry per operation, with `httpMethod`, `uri`, `responseType` and an ordered list of parameter rules.

`new Description($serviceName)` builds a description from this configuration. It does three things, and the instance exists only if all three succeed:
1. It replaces every `namespace:key` string in an operation's parameter list with the library rule it names.
2. It checks the service, every operation and every rule.
3. It copies each rule's `default` into the defaults, but only where the defaults have no value yet.

A description then offers two calls:
- `buildOperationUri`: merges the caller's arguments over the defaults and validates each declared parameter in declaration order. It substitutes `uri`-located values into `{name}` placeholders, collects `query`-located values, and appends `?` plus the form-encoded query.
- `getResponseType`: returns an operation's declared response type.

`Webservice::create` keeps at most one client per service name. An unknown operation is reported with an `OperationNotFoundException`.

The model is organised by module:
- `PhpValues`, `PhpStrings`, `FormEncoding`: the PHP values and built-ins the engine relies on, written out:
  - PHP arrays become ordered association lists;
  - loose `==` against the engine's string literals;
  - `isset`, truthiness and `is_numeric`;
  - `array_merge` on string keys;
  - `rtrim`, `ltrim` and literal placeholder replacement;
  - `urlencode` and `http_build_query`.
- `ParameterValidator`: the rule check and the type table.
- `OperationNotFound`: the exception record.
- `ServiceDescription`: the `Description` class and the functions that specify its methods.
- `DescriptionProperties`: what construction and URI building guarantee.
- `DescriptionExamples`: the shipped httpbin configuration and small definitions, worked through the model.
- `WebserviceRegistry`: the client registry.

How the source's methods appear in the model:
- Throwing methods return a `Result`. The error kinds are:
  - a schema error;
  - operation-not-found;
  - an invalid parameter;
  - the `TypeError` PHP raises on an array where a string is needed (`rtrim`, `ltrim`, `preg_replace`), or on a non-array where `array_merge` needs an array.
- The `TypeError` that `in_array` raises on a non-array `enum` list is kept inside the validator. It is the `EnumNotArray` rejection, carried by an invalid-parameter error. `RejectionMessage` gives it PHP's own message, `…must be of type array, <type> given`, rather than a parameter message.
- `buildOperationUri` takes any value as its arguments, as the source does. `BuildUriFor` reports an unknown operation with that value as given. For a known operation it refuses a non-array, and hands an array's entries to `BuildUri`.
- The model follows PHP 8 semantics. The behaviours that differ under PHP 7 are listed under "## Left out".
- Imperative code stays imperative:
  - the constructor's passes and `buildOperationUri` are loops in methods of class `Description`;
  - each loop is proved equal to a recursive specification function (`ResolveOperations`, `CheckOperations`, `BuildUriFor`).
- The configuration is passed in as a `Definition` value; Laravel's `config()` is not modelled.
- `preg_match` with a rule's `pattern` is passed in as a function. PCRE is not modelled.

Where the code and a natural reading of its purpose differ, the model follows the code:
- A `type` given as a list never matches: `==` between an array and a string is false. Every non-null value is refused, so a list is not a union of types.
- Type `null` admits every falsy value (`false`, `0`, `""`, `"0"`, `[]`), not only null.
- `ltrim` on the operation `uri` strips leading whitespace, not slashes.
- References are resolved, over all operations, before `baseUrl` is checked.
- Defaults from the `defaults` section win over a rule's `default`. Among rules, the first one seen wins.
- A caller's explicit null overrides a default and is then treated as absent.
- A query-located parameter with a null value still counts as a query entry. `http_build_query` drops it, so the URI can end in a bare `?`.
- `getResponseType` passes an undefined variable to the exception, so an unknown operation there carries null parameters. `buildOperationUri` carries the caller's arguments.
- Constraints run in the rule's own key order.
- `in_array` for `responseType` and `location` is loose: `true` passes both checks.

## Model

| member | source | states |
|---|---|---|
| ServiceDescription.Description.Load | src/Description.php:20-27 | the instance holds the service name and the four sections of the definition as given |
| ServiceDescription.Description.ResolveReferences | src/Description.php:29-49 | the in-place pass over operations ends with exactly the operations `ResolveOperations` computes, or reports its first unresolved reference |
| ServiceDescription.ResolveOperationRules | src/Description.php:32-48 | one pass of the outer loop computes `ResolveOperation`: an operation with a parameter array gets its resolved rules, any other stays as it is |
| ServiceDescription.ResolveParameterList | src/Description.php:34-47 | the loop over one operation's parameters computes `ResolveParameters`: references replaced, other entries kept, first unresolved reference reported |
| ServiceDescription.ResolveEntry | src/Description.php:35-46 | one entry of the inner loop: a string of the form `ns:key` becomes the library rule it names, or nothing when the library lacks it; any other entry is kept as it is |
| ServiceDescription.ResolveParametersCharacterised | src/Description.php:34-47 | resolution succeeds iff every entry resolves, and then entry k keeps its name and becomes its resolved rule |
| ServiceDescription.ParseReference | src/Description.php:36-38 | a reference splits at the first colon into a colon-free namespace and the rest, and the parts reassemble the string (with a final newline allowed) |
| ServiceDescription.ReferenceRoundTrip | src/Description.php:36-38 | `ns:key` with a colon-free `ns` and no newlines parses back to exactly `(ns, key)` |
| ServiceDescription.LibraryRule | src/Description.php:40 | a found library rule is never null, matching `isset` |
| DescriptionProperties.ReferenceResolvesToLibraryRule | src/Description.php:34-46 | `ns:key` resolves to `parameters[ns][key]` (or to nothing when absent); non-string entries are left untouched |
| DescriptionProperties.ResolutionIsIdempotent | src/Description.php:34-46 | when no library rule is itself a reference, resolving an already resolved list changes nothing |
| DescriptionProperties.ResolveOperationsCharacterised | src/Description.php:30-49 | all operations resolve iff each does, and the result keeps each operation's name and position |
| DescriptionProperties.UnresolvedReferenceIsFatal | src/Description.php:40-43 | an entry whose reference the library lacks makes construction fail with a schema error, whatever else the definition holds |
| DescriptionProperties.ResolutionPrecedesBaseUrlCheck | src/Description.php:30-55 | a resolution failure is reported even when `baseUrl` is missing too |
| ServiceDescription.Description.CheckConfiguration | src/Description.php:51-78 | a missing `baseUrl` is reported; otherwise the loop ends with the defaults `CheckOperations` computes, or with its first error |
| ServiceDescription.CheckParameterList | src/Description.php:66-77 | the loop over one operation's rules computes `CheckParameters`: first malformed rule reported, defaults seeded in order |
| DescriptionProperties.CheckParametersOutcome | src/Description.php:66-71 | the rule check passes iff every rule has a `type` and a `location` of uri or query |
| DescriptionProperties.CheckParametersKeepsDefaults | src/Description.php:66-77 | when no rule declares a default, a passing rule check leaves the defaults as they were |
| DescriptionProperties.CheckOperationsOutcome | src/Description.php:58-71 | the operation check passes iff every operation has `httpMethod`, `uri`, a json/xml `responseType`, an array of parameters, and well-formed rules |
| DescriptionProperties.CheckOperationsKeepsDefaults | src/Description.php:73-76 | when no rule declares a default, a passing check leaves the defaults unchanged |
| DescriptionProperties.ConstructSucceedsIff | src/Description.php:20-79 | construction succeeds iff every reference resolves, the service has a `baseUrl`, and every resolved operation and rule is well-formed |
| ServiceDescription.Description.Create | src/Description.php:20-79 | an instance is returned iff construction succeeds, and then it holds exactly the constructed state; otherwise the first error is returned |
| DescriptionProperties.ConstructedDescriptionIsWellFormed | src/Description.php:52-71 | a constructed description has a `baseUrl`, and every operation and rule passed the sanity checks |
| DescriptionProperties.ResponseTypeIsJsonOrXml | src/Description.php:61 | the response type of any operation of a constructed description loosely equals `json` or `xml` |
| DescriptionProperties.SeedDefaultLookup | src/Description.php:73-76 | one seeding step writes a rule's non-null default only where the defaults have no value, and changes no other key |
| DescriptionProperties.FirstDefaultIn | src/Description.php:73-76 | the first declared default of a name is non-null and declared by a rule of that name |
| DescriptionProperties.CheckParametersFillsGaps | src/Description.php:66-77 | after one operation's rules, each key keeps its value if set, else takes the first default declared for it |
| DescriptionProperties.CheckOperationsFillsGaps | src/Description.php:58-78 | the same holds across all operations in order: the earliest declared default fills a gap |
| DescriptionProperties.DefaultsOnlyFillGaps | src/Description.php:73-76 | in a constructed description, service defaults are never overwritten, a gap takes the first declared default, and no other key changes |
| ServiceDescription.Description.BuildOperationUri | src/Description.php:81-119 | for arguments of any kind, the method returns exactly what `BuildUriFor` specifies: not-found, a parameter rejection, a type error, or the URI |
| ServiceDescription.WalkParameterList | src/Description.php:95-111 | the loop over the declared parameters computes `WalkParameters`: every parameter applied in order, the first rejection or type error ending the walk |
| ServiceDescription.PlaceParameter | src/Description.php:98-110 | one pass of the loop validates the value, then substitutes it into the URI, adds it to the query, or ignores it, by location |
| DescriptionProperties.UnknownOperationIsReported | src/Description.php:84-87 | an unknown operation fails with not-found carrying the service name, the operation and the caller's arguments as given, array or not |
| DescriptionProperties.ArgumentsMustBeArray | src/Description.php:90 | for a known operation, only array arguments can give a URI; anything else fails with `array_merge`'s TypeError naming its type, and an array is built as `BuildUri` says |
| DescriptionProperties.CallerArgumentsOverrideDefaults | src/Description.php:90-98 | the merged value of a name is the caller's when the caller gave one, else the default; a missing one reads as null |
| PhpValues.MergeLookup | src/Description.php:90 | `array_merge` looks up a key in the arguments first and falls back to the defaults |
| DescriptionProperties.WalkValidatesAll | src/Description.php:95-111 | a parameter walk that succeeds validated every declared parameter against its merged value |
| DescriptionProperties.UriOnlyAfterValidation | src/Description.php:95-118 | a URI is returned only if every declared parameter passed validation |
| DescriptionProperties.RejectedParameterAbortsWalk | src/Description.php:99 | a parameter whose value is refused makes the whole walk fail |
| DescriptionProperties.ApplyParameterQuery | src/Description.php:101-110 | a query-located parameter sets `query[name]` to its value and leaves every other key as it was; any other parameter leaves the query unchanged |
| DescriptionProperties.WalkQueryContents | src/Description.php:95-111 | after the walk, every name some declared parameter places in the query maps to its merged value, and every other key is as it was before |
| DescriptionProperties.WalkQueryNonEmpty | src/Description.php:101-110 | the collected query is non-empty iff it was non-empty already or some parameter is query-located |
| DescriptionProperties.WalkQueryOrder | src/Description.php:95-111 | the walk assigns query keys in declared order: a new name goes to the end, a name already present keeps its place |
| DescriptionProperties.QueryFollowsDeclaration | src/Description.php:95-116 | the keys of a built URI's query follow the declaration order; when no name is declared twice, they are exactly the query-located names in declared order |
| DescriptionProperties.QueryHoldsDeclaredArguments | src/Description.php:90-116 | when a parameter is query-located, the URI is the walked URI plus `?` plus the encoding of the walked query; that query holds exactly the names of query-located parameters, each mapped to its merged argument value |
| DescriptionProperties.QueryStringIffQueryParameter | src/Description.php:113-116 | `?` and the encoded query are appended exactly when the operation declares a query-located parameter |
| DescriptionProperties.WalkKeepsPrefix | src/Description.php:104 | substitution never alters a prefix free of `{` |
| DescriptionProperties.BuildUriExtendsWalk | src/Description.php:93-118 | a built URI begins with the URI the parameter walk produced |
| DescriptionProperties.UriStartsWithBase | src/Description.php:93-104 | the start URI `StartUri` computes is `rtrim(baseUrl, '/') . '/' . ltrim(uri)`; a built URI starts with `rtrim(baseUrl, '/') . '/'` whenever that holds no `{` |
| ServiceDescription.Placeholder | src/Description.php:104 | a placeholder is non-empty and starts with `{`, and for a name without `{` it holds no other `{` |
| PhpStrings.ReplaceAllSkipsPrefix | src/Description.php:104 | replacing `{name}` leaves a `{`-free prefix untouched |
| PhpStrings.ReplaceAllWithoutBrace | src/Description.php:104 | replacing `{name}` in text with no `{` changes nothing |
| PhpStrings.SubstituteSinglePlaceholder | src/Description.php:104 | a single placeholder between `{`-free text is replaced by the value |
| PhpStrings.ReplaceEveryPlaceholder | src/Description.php:104 | in a template of pieces joined by `{name}`, none of which contains `{name}` itself (they may hold other placeholders), every occurrence of `{name}` is replaced by the value and nothing else changes |
| DescriptionExamples.OnePlaceholderOfTwo | src/Description.php:104 | in `items/{id}/sub/{sub}`, the value of `id` replaces `{id}` and `{sub}` is left for its own parameter |
| PhpStrings.RTrimChar | src/Description.php:93 | `rtrim($s, '/')` is a prefix of `$s`, everything removed is `/`, and the result does not end in `/` |
| PhpStrings.RTrimCharExact | src/Description.php:93 | `rtrim` removes exactly the trailing run of the character and nothing before it |
| PhpStrings.LTrim | src/Description.php:93 | `ltrim($s)` is a suffix of `$s`, everything removed is whitespace, and the result does not start with whitespace |
| FormEncoding.UrlEncode | src/Description.php:115 | `urlencode` output consists only of unreserved characters, `+` and `%`, and every `%` is followed by two upper-case hex digits |
| FormEncoding.UrlDecodeEncode | src/Description.php:115 | decoding the `urlencode` of an ASCII string gives the string back |
| FormEncoding.UrlEncodeUnreserved | src/Description.php:115 | text of letters, digits, `-`, `_` and `.` is encoded as itself |
| FormEncoding.SplitJoin | src/Description.php:115 | splitting a `&`-joined list of `&`-free pieces gives the pieces back |
| FormEncoding.HttpBuildQueryRoundTrip | src/Description.php:115 | parsing `http_build_query` of a flat ASCII query gives back each non-null key with its value as text, in order |
| ServiceDescription.Description.GetResponseType | src/Description.php:121-130 | an unknown operation fails with not-found carrying null parameters; a known one returns its `responseType` unchanged |
| ParameterValidator.TestParameter | src/Description.php:132-171 | the loop over the rule's keys returns exactly `Validate`: required-missing for a null required value, else the first failing constraint |
| ParameterValidator.NullRefusedOnlyWhenRequired | src/Description.php:135-142 | a null value is refused iff `required` is truthy, and then as required-missing |
| ParameterValidator.FirstRejectionIsFirstFailure | src/Description.php:145-170 | each key is checked by `CheckConstraint`, the switch on the key; there is no rejection iff every rule key passes, and a rejection is that of the first failing key, all earlier keys passing |
| ParameterValidator.RangeChecksNeedNumericType | src/Description.php:161-168 | a minimum or maximum rejection only happens when the rule's type is numeric, number or integer |
| ParameterValidator.ListTypeRefusesEveryValue | src/Description.php:175-194 | a list-valued `type` refuses every non-null value |
| ParameterValidator.CheckParameterType | src/Description.php:173-195 | a type admits a value iff it loosely equals one of the nine tags whose table admits the value |
| ParameterValidator.TagSemantics | src/Description.php:175-193 | for a string type, the value is admitted iff the type is a known tag whose table admits it |
| ParameterValidator.IntegerRefusesNumericStrings | src/Description.php:181-188 | `integer` refuses numeric strings, which `number` and `numeric` accept |
| ParameterValidator.TrueTypeAdmitsEverything | src/Description.php:175 | a `type` of boolean true loosely equals every tag, `any` included, so it admits every value |
| PhpValues.Lookup | src/Description.php:98 | a found key sits in the array with that value; no key is found iff no entry has it |
| PhpValues.SetLookup | src/Description.php:108 | assignment makes the key hold the value, changes no other key, and adds an entry only for a new key |
| PhpValues.SetKeys | src/Description.php:108 | assignment keeps the order of the existing keys and appends a new key at the end |
| PhpValues.StringArg | src/Description.php:93 | a string argument is refused exactly for arrays |
| PhpStrings.ParseIntOfIntToString | src/Description.php:165-166 | an int's decimal text parses back to the int |
| OperationNotFound.New | src/OperationNotFoundException.php:13-20 | the getters return the service, operation and parameters given, and the message is `Operation '<op>' not found in service '<service>'` |
| OperationNotFound.OmittedParametersAreEmpty | src/OperationNotFoundException.php:13-35 | without parameters, `getParameters()` returns the empty array |
| OperationNotFound.MessageNamesServiceAndOperation | src/OperationNotFoundException.php:19 | the message can be parsed back into the service and the quote-free operation |
| WebserviceRegistry.Client.constructor | src/Client.php:19-24 | a client holds the service name and the description built for it |
| WebserviceRegistry.NewClient | src/Webservice.php:20 | a client exists iff its description could be built, and it holds that description |
| WebserviceRegistry.UnconfiguredServiceFails | src/Webservice.php:20 | a service with no configuration fails for lack of `baseUrl` |
| WebserviceRegistry.Webservice.constructor | src/Webservice.php:12 | a new registry holds no clients |
| WebserviceRegistry.Webservice.Create | src/Webservice.php:14-24 | a stored client is returned unchanged; otherwise a fresh one holding the description constructed for the name is stored under it, or nothing is stored when building fails; other names are untouched |
| WebserviceRegistry.CreateTwice | src/Webservice.php:17-23 | two calls for the same name return the same instance |
| DescriptionExamples.HttpbinTesting | config/httpbin.php:11-50 | the httpbin configuration constructs, `testing` builds `http://httpbin.org/get?foo=bar&bat=baz`, responds json, and `noSuchOp` is not found |
| DescriptionExamples.NullArgumentsRefused | src/Description.php:90 | `testing` called with null arguments fails with `array_merge(): Argument #2 must be of type array, null given` |
| DescriptionExamples.HttpbinResolves | config/httpbin.php:28-48 | `global:bat` is replaced by the library's `bat` rule |
| DescriptionExamples.ServiceDefaultWins | src/Description.php:73-76 | a service default `bat = baz` is kept over a rule default `other` |
| DescriptionExamples.ParameterDefaultFillsGap | src/Description.php:73-76 | without a service default, the rule default `other` is seeded |
| DescriptionExamples.CallerValueOverridesBoth | src/Description.php:90 | the merged `bat` is `baz` without caller value and `qux` with one |
| DescriptionExamples.RequiredParameterMissing | src/Description.php:135-138 | a required parameter with no default and no caller value fails the walk with required-missing |
| DescriptionExamples.NullQueryLeavesBareQuestionMark | src/Description.php:108-116 | an optional query parameter left out yields a URI ending in a bare `?` |

## Left out

- Laravel `config()` reads are not modelled (src/Description.php:23-27). The definition is passed in, and the `client` section, which is read but unused, is dropped.
- PCRE is not modelled:
  - `pattern` is a caller-supplied predicate (src/Description.php:158), and it is called on arrays too, where PHP 8's `preg_match` raises a `TypeError`;
  - placeholder replacement is literal replace-all (src/Description.php:104), ignoring regex metacharacters in parameter names and `$n`/`\n` back-references in the value;
  - the reference regex is modelled exactly (src/Description.php:36).
- ParameterValidator.CheckConstraint: `enum` uses strict equality, where `in_array` is loose (src/Description.php:154). The model therefore refuses some values PHP accepts: numeric strings equal as numbers (`"01"` against `"1"`, `"10"` against `"1e1"`), an int against its numeric string, `true` against any truthy value, and arrays holding the same pairs in another order.
- ParameterValidator.Less: `minimum`/`maximum` compare only integers and integer-form strings; other comparisons never reject. PHP 8's mixed-type `<`/`>` and floats are not modelled (src/Description.php:165-166).
- Floats and objects are not values of the model. `__toString` objects for `string` and objects for `object` are not modelled (src/Description.php:175-177).
- `isset` on a string offset is not modelled: a string has no keys in the model. This matters at src/Description.php:40. For a reference `x:0` where library entry `x` is a string, PHP's `isset` is true and the reference resolves to the string's first character, which the sanity check then rejects as an invalid parameter configuration. `LibraryRule` returns `None` instead, so the model reports the named parameter as not found.
- PhpValues.Entries: the association lists can hold a key twice, which a PHP array cannot. `Lookup` reads the first occurrence and `Set` overwrites it, so a later duplicate is never seen; a definition or an argument list holding one has no PHP counterpart.
- PHP integer keys are not modelled: every key is a string. PHP turns a numeric-string key such as `"1"` into the integer key `1`, and `array_merge` (src/Description.php:90) renumbers integer keys of its second array instead of letting them override the defaults.
- The TypeError messages name `bool` for a boolean, as PHP 8.0-8.2 do; PHP 8.3 names `true` or `false`.
- FormEncoding.HttpBuildQueryRoundTrip: the round trip is proved for flat ASCII queries only. Non-ASCII text is encoded as UTF-8 bytes, but its decoding is not related back.
- src/Client.php is not part of this model: its argument-shape check and the HTTP request, including the `buildUri` call its `__call` makes. The client keeps only its name and description.
- src/CustomJsonHandler.php, src/CustomXmlHandler.php and src/WebserviceServiceProvider.php are not part of this model (response decoding and framework glue).
- PHP warnings are not modelled, such as the one for the undefined `$parameters` in `getResponseType` (src/Description.php:126).
- PHP 7 semantics are not modelled; the model follows PHP 8 wherever the two differ:
  - `rtrim`, `ltrim` and `preg_replace` on an array raise a `TypeError` (src/Description.php:93, 104); PHP 7 warns and goes on with null or false;
  - `in_array` on a non-array `enum` list raises a `TypeError` (src/Description.php:154); PHP 7 warns and returns null, so the value is refused as not enumerated;
  - loose `==` between an int and a non-numeric string compares them as strings, so `0` does not equal `json`, `uri` or `string` (src/Description.php:61, 68, 101, 174-190); PHP 7 converts the string to `0`, so a `0` response type, location or parameter type passes those checks;
  - `is_numeric` accepts trailing whitespace (src/Description.php:185-188); PHP 7 accepts only leading whitespace.
- Constructing a description throws at the first error. The model's partially filled instance is dropped on failure; no caller can see it.

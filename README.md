# BaseX: QT3 test driver, JSON map converter and builder serializer

This project models three parts of BaseX, an XML database and XQuery processor, in Dafny:

- **The QT3 test-suite driver** (`QT3TS`). It reads the W3C QT3 catalog, decides which test
  sets and test cases are supported, picks each case's environment, and prepares the query
  text. It makes the binding calls on the engine's query object, judges the returned result
  against the expected-result element, and keeps counters and right, wrong and ignored
  transcripts. The XQuery engine, the file system and the serializer are oracles, fields of
  the `Engine` and `Host` datatypes. The driver itself reads a result item only as its string
  and boolean value. Each item also carries an opaque handle for its type and structure, and
  the oracles that serialise or judge a result get that handle and the query's serialisation
  parameters. Everything the driver itself decides is modelled as code:
  - the dependency filter;
  - environment resolution;
  - the `declare variable … external;` prefixes;
  - module pairing;
  - the order of binding calls;
  - every `assert…` method that does not evaluate XQuery;
  - all-of / any-of;
  - the transcript format;
  - the counters.
- **The JSON-to-map converter** (`JsonMapConverter`). This is a class over a stack of XQuery
  values, with one method per parser callback. The model defines which event stream the
  parser reports for a JSON value, and proves that this stream leaves exactly the map
  conversion of that value on the stack. An array's items get the keys 1..n, and an object's
  members are inserted into their map in order.
- **The builder serializer** (`BuilderSerializer`). This is a class with an attribute cache,
  a namespace cache and the builder it feeds, which is modelled as a log of builder calls.
  `xmlns` and `xmlns:p` go to the namespace cache and every other attribute to the attribute
  cache. `finishOpen` and `finishEmpty` pass both caches to the builder in one call and
  clear them.

Files:

| file | module | contents |
|---|---|---|
| `strings.dfy` | `Strings` | `NL`, joining, decimal rendering |
| `qt3_values.dfy` | `QT3Values` | the oracle interfaces: engine, returned result, assertion element |
| `qt3_filter.dfy` | `QT3Filter` | the dependency filter |
| `qt3_env.dfy` | `QT3Env` | environments, query preparation, modules, binding calls |
| `qt3_assert.dfy` | `QT3Assert` | `test` and the assertion methods |
| `qt3_driver.dfy` | `QT3Driver` | `testSet`, `testCase` and the `Driver` class with its counters |
| `json_map.dfy` | `JsonMap` | the JSON event stream, the converter class and its correctness |
| `builder_sink.dfy` | `BuilderSink` | the builder serializer class and its event algebra |

## Model

Source paths:

- `QT3TS.java` stands for `basex-tests/src/main/java/org/basex/tests/w3c/QT3TS.java`;
- `JsonMapConverter.java` stands for `basex-core/src/main/java/org/basex/query/util/json/JsonMapConverter.java`;
- `BuilderSerializer.java` stands for `basex-core/src/main/java/org/basex/io/serial/BuilderSerializer.java`.

The table cells give the full paths.

| member | source | states |
|---|---|---|
| QT3Filter.Skips | basex-tests/src/main/java/org/basex/tests/w3c/QT3TS.java:433-447 | the bracketed predicate of `supported`: one disjunct per dependency type, `and` binding tighter than `or`; characterised type by type by the rule lemmas below |
| QT3Filter.Supported | basex-tests/src/main/java/org/basex/tests/w3c/QT3TS.java:431-449 | a set or case is supported when it has no collation environment and no dependency `Skips` |
| QT3Filter.NormalizationRule | basex-tests/src/main/java/org/basex/tests/w3c/QT3TS.java:441 | a `unicode-normalization-form` dependency skips iff its value is `FULLY-NORMALIZED` |
| QT3Filter.VersionRule | basex-tests/src/main/java/org/basex/tests/w3c/QT3TS.java:443 | an `xml-version` or `xsd-version` dependency skips iff its value is `1.1` or `1.0:4-` |
| QT3Filter.LimitsRule | basex-tests/src/main/java/org/basex/tests/w3c/QT3TS.java:445 | a `limits` dependency skips iff its value is `big_integer` |
| QT3Filter.OtherTypeNeverSkips | basex-tests/src/main/java/org/basex/tests/w3c/QT3TS.java:433-447 | a dependency of any type other than the six named ones never skips, whatever its value or `@satisfied` |
| QT3Filter.NotEqualAlwaysHolds | basex-tests/src/main/java/org/basex/tests/w3c/QT3TS.java:422-445 | the general comparison `@value != (…)` against the five unsupported features holds for every value, so any `@satisfied = 'false'` feature is skipped |
| QT3Filter.FeatureRule | basex-tests/src/main/java/org/basex/tests/w3c/QT3TS.java:431-449 | a `feature` dependency skips the test iff the feature is unsupported and not declared unsatisfied, or it is declared unsatisfied |
| QT3Filter.UnsatisfiedFeatureSkipped | basex-tests/src/main/java/org/basex/tests/w3c/QT3TS.java:431-449 | a feature marked `satisfied="false"` always skips the test |
| QT3Filter.SpecRule | basex-tests/src/main/java/org/basex/tests/w3c/QT3TS.java:431-449 | a `spec` dependency skips the test iff its value contains no `XQ`, two digits and `+`, whatever its `@satisfied` |
| QT3Filter.UntypedNeverSkips | basex-tests/src/main/java/org/basex/tests/w3c/QT3TS.java:431-449 | a dependency with no `@type` never skips |
| QT3Env.FindEnv | basex-tests/src/main/java/org/basex/tests/w3c/QT3TS.java:457-460 | `envs` returns the first environment with the name, and `None` iff no environment has it |
| QT3Env.Resolve | basex-tests/src/main/java/org/basex/tests/w3c/QT3TS.java:250-268 | an inline environment wins; otherwise a reference resolves in the test set first, then in the catalog, and paths resolve against the test set iff the environment was not taken from the catalog |
| QT3Env.ParamDecls | basex-tests/src/main/java/org/basex/tests/w3c/QT3TS.java:286-291 | one entry per parameter, in order: its `declare variable $n external;` declaration, or `""` when `@declared` is present and is not `"false"` |
| QT3Env.PreparedText | basex-tests/src/main/java/org/basex/tests/w3c/QT3TS.java:283-298 | the query text after both prefix loops: the source declarations in reverse order, then the parameter declarations in reverse order, then the body; properties in `PreparedTextContents` |
| QT3Env.SourceDecls | basex-tests/src/main/java/org/basex/tests/w3c/QT3TS.java:293-298 | one external declaration per source, in order |
| QT3Env.PrepareQuery | basex-tests/src/main/java/org/basex/tests/w3c/QT3TS.java:285-299 | the prepared text is the source declarations, then the parameter declarations, each group in reverse order, then the body |
| QT3Env.PrependParams | basex-tests/src/main/java/org/basex/tests/w3c/QT3TS.java:286-291 | the prefixing loop puts the parameter declarations in reverse order before the text |
| QT3Env.PrependSources | basex-tests/src/main/java/org/basex/tests/w3c/QT3TS.java:293-298 | the prefixing loop puts the source declarations in reverse order before the text |
| QT3Env.RevConcatHolds | basex-tests/src/main/java/org/basex/tests/w3c/QT3TS.java:285-299 | every declaration the loop prepends occurs in the result |
| QT3Env.PreparedTextContents | basex-tests/src/main/java/org/basex/tests/w3c/QT3TS.java:285-299 | the prepared query ends with the original text and contains the declaration of every undeclared parameter and every `$`-role source |
| QT3Env.ModulePairs | basex-tests/src/main/java/org/basex/tests/w3c/QT3TS.java:304-313 | the module loop yields one module per complete (uri, file) pair of the items |
| QT3Env.ModuleCalls | basex-tests/src/main/java/org/basex/tests/w3c/QT3TS.java:312 | one `addModule` call per module, in order |
| QT3Env.EnvCallsSetNoTestSetBase | basex-tests/src/main/java/org/basex/tests/w3c/QT3TS.java:317-358 | an environment always makes at least one call (the collection), and its first call never sets a base URI |
| QT3Env.FrontCallsNoBase | basex-tests/src/main/java/org/basex/tests/w3c/QT3TS.java:317-342 | the namespace, parameter, source and resource calls never set a base URI |
| QT3Values.OmitDeclaration | basex-tests/src/main/java/org/basex/tests/w3c/QT3TS.java:391 | the transcript's serialisation parameters are the query's with `omit-xml-declaration=yes` added last |
| QT3Env.AddModules | basex-tests/src/main/java/org/basex/tests/w3c/QT3TS.java:304-313 | the loop adds module i with the uri at item 2i and the file at item 2i+1 resolved against the test-set directory, and stops at a missing item |
| QT3Env.CompleteModules | basex-tests/src/main/java/org/basex/tests/w3c/QT3TS.java:305-306 | when every module has both attributes, the items alternate uri, file |
| QT3Env.MissingFileShiftsPairs | basex-tests/src/main/java/org/basex/tests/w3c/QT3TS.java:305-313 | a module without `@file` shifts the pairing: the next module's uri is read as its file |
| QT3Env.BindEnvironment | basex-tests/src/main/java/org/basex/tests/w3c/QT3TS.java:317-358 | the calls are namespaces, parameters, documents, resources, the collection, the context, the base URI, then decimal formats |
| QT3Env.EnvCalls | basex-tests/src/main/java/org/basex/tests/w3c/QT3TS.java:317-358 | the binding calls for an environment, in the order of the code: namespaces, parameters, sources, resources, collection, context item, base URI, decimal formats; properties in `BindEnvironment`, `ContextItemWins` and `EnvBaseURIWins` |
| QT3Env.BindTail | basex-tests/src/main/java/org/basex/tests/w3c/QT3TS.java:343-357 | the collection, its optional context, the context item, the base URI and the decimal formats come in that order |
| QT3Env.BindNamespaces | basex-tests/src/main/java/org/basex/tests/w3c/QT3TS.java:319-321 | one namespace binding per namespace, in order |
| QT3Env.BindParams | basex-tests/src/main/java/org/basex/tests/w3c/QT3TS.java:323-325 | one variable binding per parameter, in order |
| QT3Env.BindSources | basex-tests/src/main/java/org/basex/tests/w3c/QT3TS.java:327-337 | each source adds its document, then binds it as the context (`.`), as a variable (other roles) or not at all (no role) |
| QT3Env.BindResources | basex-tests/src/main/java/org/basex/tests/w3c/QT3TS.java:339-341 | one resource per entry, with its file resolved the same way as documents |
| QT3Env.BindFormats | basex-tests/src/main/java/org/basex/tests/w3c/QT3TS.java:354-357 | one decimal format per entry |
| QT3Env.FormatCallsNoContext | basex-tests/src/main/java/org/basex/tests/w3c/QT3TS.java:354-357 | decimal-format calls never set a context |
| QT3Env.ContextItemWins | basex-tests/src/main/java/org/basex/tests/w3c/QT3TS.java:327-350 | an explicit context item is the last context-setting call, so it overrides a document or collection context |
| QT3Env.EnvBaseURIWins | basex-tests/src/main/java/org/basex/tests/w3c/QT3TS.java:352 | an environment's base URI is the last base URI set |
| QT3Assert.CloseBrace | basex-tests/src/main/java/org/basex/tests/w3c/QT3TS.java:38 | the lazy group of the EQName pattern ends at the first `}` that has a character after it |
| QT3Assert.AssertError | basex-tests/src/main/java/org/basex/tests/w3c/QT3TS.java:526-541 | no error fails with the code; with code comparison off or code `*` an error passes; otherwise it passes iff the expected QName equals the raised one |
| QT3Assert.EQNameRoundTrip | basex-tests/src/main/java/org/basex/tests/w3c/QT3TS.java:533-539 | `Q{uri}local` is read as the QName (uri, local) |
| QT3Assert.PlainCodeUsesErrorURI | basex-tests/src/main/java/org/basex/tests/w3c/QT3TS.java:533-539 | a code not in EQName form is a local name in the error namespace |
| QT3Assert.BraceAtEndIsLocalName | basex-tests/src/main/java/org/basex/tests/w3c/QT3TS.java:533-539 | `Q{uri}` with nothing after the brace does not match the pattern and is taken as a local name |
| QT3Assert.AssertSerializationError | basex-tests/src/main/java/org/basex/tests/w3c/QT3TS.java:726-747 | passes iff the query raised a matching error or serializing its value raises a matching error |
| QT3Assert.AssertCount | basex-tests/src/main/java/org/basex/tests/w3c/QT3TS.java:597-601 | passes iff the item count equals the expected integer; a failed integer coercion is raised |
| QT3Assert.AssertBoolean | basex-tests/src/main/java/org/basex/tests/w3c/QT3TS.java:795-798 | passes iff the value is the single expected boolean; fails with `true` or `false` |
| QT3Assert.AssertEmpty | basex-tests/src/main/java/org/basex/tests/w3c/QT3TS.java:805-807 | passes iff the value has no items; fails with the empty message |
| QT3Assert.AssertStringValue | basex-tests/src/main/java/org/basex/tests/w3c/QT3TS.java:772-787 | the loop joins the item strings with single spaces; passes iff the (space-normalized, when asked) expected text equals it |
| QT3Assert.FirstMissing | basex-tests/src/main/java/org/basex/tests/w3c/QT3TS.java:650-652 | the first string not in the other set, and `None` iff there is none |
| QT3Assert.CollectSet | basex-tests/src/main/java/org/basex/tests/w3c/QT3TS.java:640-645 | the loop collects the set of the strings |
| QT3Assert.FindMissing | basex-tests/src/main/java/org/basex/tests/w3c/QT3TS.java:650-652 | the loop finds the first string of the iteration order that is missing from the other set |
| QT3Assert.AssertPermutation | basex-tests/src/main/java/org/basex/tests/w3c/QT3TS.java:638-658 | the method computes the permutation verdict over both sets, the size message first, then the missing strings |
| QT3Assert.SubsetOfSameSize | basex-tests/src/main/java/org/basex/tests/w3c/QT3TS.java:647-656 | a subset of the same size is the whole set |
| QT3Assert.PermutationPassIff | basex-tests/src/main/java/org/basex/tests/w3c/QT3TS.java:638-658 | passes iff the sets of expected and returned strings are equal; with equal sizes a failure names a string of the expected set that was not returned |
| QT3Assert.DuplicatesCollapse | basex-tests/src/main/java/org/basex/tests/w3c/QT3TS.java:638-658 | duplicates collapse: `("1","1","2")` passes against `("1","2","2")` |
| QT3Assert.Failures | basex-tests/src/main/java/org/basex/tests/w3c/QT3TS.java:551-554 | the failure messages are empty iff every child passes |
| QT3Assert.FailuresStep | basex-tests/src/main/java/org/basex/tests/w3c/QT3TS.java:551-554 | each child adds its message, if any, at the end |
| QT3Assert.JoinedStep | basex-tests/src/main/java/org/basex/tests/w3c/QT3TS.java:553 | each message is added after `", "`, except when the builder is still empty |
| QT3Assert.JoinedIsJoin | basex-tests/src/main/java/org/basex/tests/w3c/QT3TS.java:550-555 | with non-empty messages the builder holds the messages joined by `", "`, and is non-empty when some child failed |
| QT3Assert.AllOfAsWritten | basex-tests/src/main/java/org/basex/tests/w3c/QT3TS.java:549-556 | `allOf` as written: it passes iff every child passes or fails with the empty message `""` |
| QT3Assert.AllOfVerdict | basex-tests/src/main/java/org/basex/tests/w3c/QT3TS.java:549-556 | all-of as intended: it passes iff every child passes (the corrected form of the Findings row, the one `Verdict` uses) |
| QT3Assert.AnyOfVerdict | basex-tests/src/main/java/org/basex/tests/w3c/QT3TS.java:564-572 | any-of passes iff some child passes |
| QT3Assert.AnyOfPasses | basex-tests/src/main/java/org/basex/tests/w3c/QT3TS.java:567-568 | one passing child makes any-of pass |
| QT3Assert.AnyOfFails | basex-tests/src/main/java/org/basex/tests/w3c/QT3TS.java:569-571 | when no child passes, the message is `any of { … }` around the joined messages |
| QT3Assert.AllOfAgreesWithoutEmptyMessages | basex-tests/src/main/java/org/basex/tests/w3c/QT3TS.java:549-556 | when no child fails with an empty message, the code as written agrees with the corrected verdict |
| QT3Assert.NoEmptyFailures | basex-tests/src/main/java/org/basex/tests/w3c/QT3TS.java:549-556 | no empty failure message gets in unless a child fails with one |
| QT3Assert.AllOfAsWrittenPassesEmptyFailure | basex-tests/src/main/java/org/basex/tests/w3c/QT3TS.java:549-556 | as written, a single child failing with `""` makes all-of pass |
| QT3Assert.Verdict | basex-tests/src/main/java/org/basex/tests/w3c/QT3TS.java:468-518 | `test` as a function: dispatch on the element name, the value-free kinds first, then the rendering when there is no value; all-of is the corrected `AllOfVerdict`; properties in the lemmas below |
| QT3Assert.ValueVerdict | basex-tests/src/main/java/org/basex/tests/w3c/QT3TS.java:481-512 | the value branch of `test`: each kind goes to its assertion, the XQuery kinds to the engine, any other kind fails as unsupported |
| QT3Assert.Test | basex-tests/src/main/java/org/basex/tests/w3c/QT3TS.java:468-518 | the recursive dispatcher computes `Verdict` of the assertion tree, with all-of in its corrected form |
| QT3Assert.TestValue | basex-tests/src/main/java/org/basex/tests/w3c/QT3TS.java:481-512 | the value assertions dispatch by element name |
| QT3Assert.AllOf | basex-tests/src/main/java/org/basex/tests/w3c/QT3TS.java:549-556 | the loop over the children computes the corrected all-of verdict `AllOfVerdict`, which fails when a child fails with `""` where line 555 passes |
| QT3Assert.AnyOf | basex-tests/src/main/java/org/basex/tests/w3c/QT3TS.java:564-572 | the loop over the children computes the any-of verdict |
| QT3Assert.NoValueFailsWithRendering | basex-tests/src/main/java/org/basex/tests/w3c/QT3TS.java:481-511 | without a value, any assertion other than error, all-of and any-of fails with the rendering of the expected element |
| QT3Assert.UnknownKindUnsupported | basex-tests/src/main/java/org/basex/tests/w3c/QT3TS.java:506-508 | an unknown assertion fails with `Test type not supported: ` and its name |
| QT3Assert.ErrorWildcard | basex-tests/src/main/java/org/basex/tests/w3c/QT3TS.java:526-541 | `error code="*"` passes whenever the query raised an error |
| QT3Assert.AllOfPassIff | basex-tests/src/main/java/org/basex/tests/w3c/QT3TS.java:549-556 | all-of passes iff every child's verdict passes |
| QT3Assert.AllOfSingle | basex-tests/src/main/java/org/basex/tests/w3c/QT3TS.java:549-556 | with the corrected all-of, an all-of with one child has that child's verdict |
| QT3Assert.AllOfSingleAsWritten | basex-tests/src/main/java/org/basex/tests/w3c/QT3TS.java:549-556 | as written, an all-of with one child has that child's verdict, except that a failure with `""` becomes a pass |
| QT3Assert.AllOfAsWrittenOne | basex-tests/src/main/java/org/basex/tests/w3c/QT3TS.java:549-556 | `allOf` over one child verdict: the verdict itself, or a pass for `Some("")` |
| QT3Assert.AllOfAsWrittenPassIff | basex-tests/src/main/java/org/basex/tests/w3c/QT3TS.java:549-556 | as written, an all-of passes iff every child passes or fails with `""` |
| QT3Assert.VerdictAgreesAsWritten | basex-tests/src/main/java/org/basex/tests/w3c/QT3TS.java:549-556 | unless some child fails with `""`, the corrected all-of `Verdict` uses equals the code as written |
| QT3Assert.JoinedEmptyIff | basex-tests/src/main/java/org/basex/tests/w3c/QT3TS.java:550-555 | the token builder stays empty iff every added message is empty |
| QT3Assert.FailuresAllEmpty | basex-tests/src/main/java/org/basex/tests/w3c/QT3TS.java:550-555 | every failure message is empty iff every child passes or fails with `""` |
| QT3Assert.AnyOfPassIff | basex-tests/src/main/java/org/basex/tests/w3c/QT3TS.java:564-572 | any-of passes iff some child's verdict passes |
| QT3Assert.AnyOfEmpty | basex-tests/src/main/java/org/basex/tests/w3c/QT3TS.java:564-572 | an empty any-of fails with `any of {  }` |
| QT3Assert.AllOfEmptyMessageCounterexample | basex-tests/src/main/java/org/basex/tests/w3c/QT3TS.java:549-556 | an all-of holding one assert-empty passes as written against a one-item result, although its child fails |
| QT3Assert.NormNL | basex-tests/src/main/java/org/basex/tests/w3c/QT3TS.java:875-877 | the result has no carriage return and is no longer than the input; with `NormNLTokens` and `NormNLAppend` it is fixed on every input |
| QT3Assert.NormNLTokens | basex-tests/src/main/java/org/basex/tests/w3c/QT3TS.java:875-877 | `\r\n`, a lone `\r` and a lone `\n` each become one `NL`; any other character is kept |
| QT3Assert.NormNLAppend | basex-tests/src/main/java/org/basex/tests/w3c/QT3TS.java:875-877 | the left-to-right scan of `replaceAll`: normalising a concatenation normalises the parts, unless the cut splits a `\r\n` |
| QT3Assert.HeadLength | basex-tests/src/main/java/org/basex/tests/w3c/QT3TS.java:875-877 | the first line terminator or character of a text takes one character, or two for `\r\n` |
| QT3Assert.NormNLKeepsPlainText | basex-tests/src/main/java/org/basex/tests/w3c/QT3TS.java:875-877 | text without carriage returns is unchanged |
| QT3Assert.NormNLIdempotent | basex-tests/src/main/java/org/basex/tests/w3c/QT3TS.java:875-877 | normalizing twice equals normalizing once |
| QT3Driver.QueryBody | basex-tests/src/main/java/org/basex/tests/w3c/QT3TS.java:272-280 | without `@file` the query is the inline text |
| QT3Driver.Rendered | basex-tests/src/main/java/org/basex/tests/w3c/QT3TS.java:382-400 | the line is an error line iff there is no value or serialising raised a query error; its text is the Java error, else the query error's `code: message`, else the serialisation under the query's parameters with `omit-xml-declaration=yes`, the serialiser's `code: message` or the value's `toString` |
| QT3Driver.BuildQuery | basex-tests/src/main/java/org/basex/tests/w3c/QT3TS.java:283-358 | the query for a case: the prepared text, and the calls made on it in the code's order: the test-set base URI when the resolution allows it, one `addModule` per module pair, then the environment's binding calls |
| QT3Driver.CaseOutcome | basex-tests/src/main/java/org/basex/tests/w3c/QT3TS.java:250-407 | running a tested case: abandoned when its query file cannot be read, otherwise the corrected verdict and the transcript entry of the result |
| QT3Driver.Recorded | basex-tests/src/main/java/org/basex/tests/w3c/QT3TS.java:401-407 | a passing entry is appended to right and counts as correct, a failing one to wrong, an abandoned case changes nothing; no other counter moves |
| QT3Driver.Driver.AfterCase | basex-tests/src/main/java/org/basex/tests/w3c/QT3TS.java:225-407 | one call of `testCase` on the counters: total and dots advance; a skipped case is ignored (and listed when listing), any other is tested and recorded; correct never exceeds tested |
| QT3Driver.Entry | basex-tests/src/main/java/org/basex/tests/w3c/QT3TS.java:378-407 | the transcript entry starts with the case name and a newline |
| QT3Driver.EntryKinds | basex-tests/src/main/java/org/basex/tests/w3c/QT3TS.java:401-407 | a passing entry ends with an empty line; a failing one ends with `Expect: ` and the verdict, then an empty line |
| QT3Driver.UnreadableQueryAbandoned | basex-tests/src/main/java/org/basex/tests/w3c/QT3TS.java:272-280 | an unreadable query file abandons the case before it runs |
| QT3Driver.TestSetBaseURI | basex-tests/src/main/java/org/basex/tests/w3c/QT3TS.java:301-302 | the query's first call sets the test-set base URI iff the environment reference was not left unresolved in the test set |
| QT3Driver.EnvBaseURIOverrides | basex-tests/src/main/java/org/basex/tests/w3c/QT3TS.java:302-352 | when the environment has a base URI, the last base URI set on the whole query is the environment's, after the test set's and the modules |
| QT3Driver.DotStep | basex-tests/src/main/java/org/basex/tests/w3c/QT3TS.java:228 | a dot is written exactly when the count before the increment is a multiple of 500 |
| QT3Driver.Driver.constructor | basex-tests/src/main/java/org/basex/tests/w3c/QT3TS.java:49-87 | all counters and transcripts start empty |
| QT3Driver.Driver.TestSet | basex-tests/src/main/java/org/basex/tests/w3c/QT3TS.java:193-217 | an unsupported set changes nothing; in a supported one the counters and transcripts become `AfterCases`, each case handled once in document order |
| QT3Driver.Driver.TestCase | basex-tests/src/main/java/org/basex/tests/w3c/QT3TS.java:225-410 | the counters and transcripts become `AfterCase` of the old ones, keeping `Valid`; a tested case is judged by the corrected all-of |
| QT3Driver.Driver.Tick | basex-tests/src/main/java/org/basex/tests/w3c/QT3TS.java:228 | the case is counted and a dot is added exactly when the count before it is a multiple of 500, keeping one dot per started 500 cases |
| QT3Driver.Driver.Ignore | basex-tests/src/main/java/org/basex/tests/w3c/QT3TS.java:230-242 | an ignored case adds one to the ignored count and, when ignored cases are listed, its name and a newline to the list; nothing else changes |
| QT3Driver.Driver.Record | basex-tests/src/main/java/org/basex/tests/w3c/QT3TS.java:401-407 | the counters and transcripts become `Recorded` of the old ones |
| QT3Driver.Driver.RunCase | basex-tests/src/main/java/org/basex/tests/w3c/QT3TS.java:250-407 | running a case resolves its environment, prepares its query, judges the result and builds the entry, as `CaseOutcome` (with the corrected all-of) |
| JsonMap.Insert | basex-core/src/main/java/org/basex/query/util/json/JsonMapConverter.java:72-78 | a key not yet in the map is appended with its value |
| JsonMap.InsertMaps | basex-core/src/main/java/org/basex/query/util/json/JsonMapConverter.java:72-78 | after insertion the key maps to the new value and every other key keeps its entries |
| JsonMap.InsertKeys | basex-core/src/main/java/org/basex/query/util/json/JsonMapConverter.java:72-78 | the keys after insertion are the old keys plus the inserted one |
| JsonMap.InsertDistinct | basex-core/src/main/java/org/basex/query/util/json/JsonMapConverter.java:72-78 | insertion keeps keys distinct |
| JsonMap.ClosePairOn | basex-core/src/main/java/org/basex/query/util/json/JsonMapConverter.java:72-78 | closing a pair pops the value and the key and replaces the map below them |
| JsonMap.OpenItemOn | basex-core/src/main/java/org/basex/query/util/json/JsonMapConverter.java:87-90 | opening an item pushes the array's size plus one as the key |
| JsonMap.RunAppend | basex-core/src/main/java/org/basex/query/util/json/JsonMapConverter.java:56-139 | handling two event streams in turn is handling their concatenation |
| JsonMap.LiteralsPushOne | basex-core/src/main/java/org/basex/query/util/json/JsonMapConverter.java:121-139 | each literal pushes one value: a string, a double, the empty sequence or a boolean that is true iff the token is `true` |
| JsonMap.ArrayKeys | basex-core/src/main/java/org/basex/query/util/json/JsonMapConverter.java:19-31 | an array converts to a map whose i-th entry has the key i+1 and the item's conversion, with distinct keys |
| JsonMap.ObjectKeys | basex-core/src/main/java/org/basex/query/util/json/JsonMapConverter.java:28-29 | an object converts to a map with distinct keys; when its member keys are distinct, the map holds the members in order, each string key mapping to the converted value |
| JsonMap.ObjectExample | basex-core/src/main/java/org/basex/query/util/json/JsonMapConverter.java:28-29 | `{"foo": 42, "bar": null}` converts to the map `{'foo':42, 'bar':()}` |
| JsonMap.InsertAllDistinct | basex-core/src/main/java/org/basex/query/util/json/JsonMapConverter.java:67-78 | inserting the members one after another in `closePair` always leaves distinct keys |
| JsonMap.InsertAllFresh | basex-core/src/main/java/org/basex/query/util/json/JsonMapConverter.java:67-78 | members whose keys are distinct are each appended, so the map keeps them in order |
| JsonMap.EventsOfComposites | basex-core/src/main/java/org/basex/query/util/json/JsonMapConverter.java:62-119 | the events of an array, object or constructor are its opening event, its items' or members' blocks, then its closing event |
| JsonMap.ItemStep | basex-core/src/main/java/org/basex/query/util/json/JsonMapConverter.java:87-95 | an item or argument block adds its value under the next integer key |
| JsonMap.MemberStep | basex-core/src/main/java/org/basex/query/util/json/JsonMapConverter.java:67-78 | a member block inserts its value under its key |
| JsonMap.ItemsPush | basex-core/src/main/java/org/basex/query/util/json/JsonMapConverter.java:82-97 | the first n item blocks build the map of the first n entries |
| JsonMap.MembersPush | basex-core/src/main/java/org/basex/query/util/json/JsonMapConverter.java:62-80 | the first n member blocks insert the first n members in order |
| JsonMap.Bracketed | basex-core/src/main/java/org/basex/query/util/json/JsonMapConverter.java:62-119 | an open event, a body and a close event run in sequence |
| JsonMap.ArrayPush | basex-core/src/main/java/org/basex/query/util/json/JsonMapConverter.java:82-97 | the events of an array push its map conversion |
| JsonMap.ObjectPush | basex-core/src/main/java/org/basex/query/util/json/JsonMapConverter.java:62-80 | the events of an object push its map conversion |
| JsonMap.ConstrPush | basex-core/src/main/java/org/basex/query/util/json/JsonMapConverter.java:99-119 | the events of a constructor push a one-entry map from its name to the map of its arguments |
| JsonMap.EventsPush | basex-core/src/main/java/org/basex/query/util/json/JsonMapConverter.java:56-139 | for every JSON value, its events push exactly its conversion onto any stack |
| JsonMap.PairRoundTrip | basex-core/src/main/java/org/basex/query/util/json/JsonMapConverter.java:67-78 | a pair's events insert the member's key and converted value into the enclosing map |
| JsonMap.ConvertResult | basex-core/src/main/java/org/basex/query/util/json/JsonMapConverter.java:56-60 | the popped result is `None` for the empty sequence and otherwise the value itself |
| JsonMap.ConvertDocument | basex-core/src/main/java/org/basex/query/util/json/JsonMapConverter.java:56-60 | a whole document leaves one value, and the result is its conversion (`None` for `null`) |
| JsonMap.RunPrefix | basex-core/src/main/java/org/basex/query/util/json/JsonMapConverter.java:56-139 | every prefix of a successful event stream succeeds, one event at a time |
| JsonMap.JsonMapConverter.OpenObject | basex-core/src/main/java/org/basex/query/util/json/JsonMapConverter.java:62-65 | pushes an empty map |
| JsonMap.JsonMapConverter.OpenPair | basex-core/src/main/java/org/basex/query/util/json/JsonMapConverter.java:67-70 | pushes the key as a string |
| JsonMap.JsonMapConverter.ClosePair | basex-core/src/main/java/org/basex/query/util/json/JsonMapConverter.java:72-78 | pops value and key and inserts them into the map below |
| JsonMap.JsonMapConverter.CloseObject | basex-core/src/main/java/org/basex/query/util/json/JsonMapConverter.java:80 | leaves the stack as it is |
| JsonMap.JsonMapConverter.OpenArray | basex-core/src/main/java/org/basex/query/util/json/JsonMapConverter.java:82-85 | pushes an empty map |
| JsonMap.JsonMapConverter.OpenItem | basex-core/src/main/java/org/basex/query/util/json/JsonMapConverter.java:87-90 | pushes the next integer key |
| JsonMap.JsonMapConverter.CloseItem | basex-core/src/main/java/org/basex/query/util/json/JsonMapConverter.java:92-95 | inserts the item under its key |
| JsonMap.JsonMapConverter.CloseArray | basex-core/src/main/java/org/basex/query/util/json/JsonMapConverter.java:97 | leaves the stack as it is |
| JsonMap.JsonMapConverter.OpenConstr | basex-core/src/main/java/org/basex/query/util/json/JsonMapConverter.java:99-104 | pushes the outer map, the name and the argument map |
| JsonMap.JsonMapConverter.OpenArg | basex-core/src/main/java/org/basex/query/util/json/JsonMapConverter.java:106-109 | pushes the next integer key |
| JsonMap.JsonMapConverter.CloseArg | basex-core/src/main/java/org/basex/query/util/json/JsonMapConverter.java:111-114 | inserts the argument under its key |
| JsonMap.JsonMapConverter.CloseConstr | basex-core/src/main/java/org/basex/query/util/json/JsonMapConverter.java:116-119 | inserts the argument map under the name |
| JsonMap.JsonMapConverter.NumberLit | basex-core/src/main/java/org/basex/query/util/json/JsonMapConverter.java:121-124 | pushes the number |
| JsonMap.JsonMapConverter.StringLit | basex-core/src/main/java/org/basex/query/util/json/JsonMapConverter.java:126-129 | pushes the string |
| JsonMap.JsonMapConverter.NullLit | basex-core/src/main/java/org/basex/query/util/json/JsonMapConverter.java:131-134 | pushes the empty sequence |
| JsonMap.JsonMapConverter.BooleanLit | basex-core/src/main/java/org/basex/query/util/json/JsonMapConverter.java:136-139 | pushes true iff the token is `true` |
| JsonMap.Apply | basex-core/src/main/java/org/basex/query/util/json/JsonMapConverter.java:62-139 | the effect of one parser callback on the value stack, `None` when the stack lacks what the callback pops; its properties are `EventsPush` and the step lemmas |
| JsonMap.JsonMapConverter.Handle | basex-core/src/main/java/org/basex/query/util/json/JsonMapConverter.java:62-139 | each event changes the stack as its callback does |
| JsonMap.JsonMapConverter.Convert | basex-core/src/main/java/org/basex/query/util/json/JsonMapConverter.java:56-60 | after handling the events, the popped top is the result, `None` for the empty sequence |
| BuilderSink.ClassifyIff | basex-core/src/main/java/org/basex/io/serial/BuilderSerializer.java:68-80 | exactly `xmlns` and `xmlns:p` are namespace declarations, with the prefixes `""` and `p` |
| BuilderSink.PrefixedDeclaration | basex-core/src/main/java/org/basex/io/serial/BuilderSerializer.java:68-80 | `xmlns:p` declares the prefix `p` |
| BuilderSink.XmlnsWithoutColon | basex-core/src/main/java/org/basex/io/serial/BuilderSerializer.java:68-80 | `xmlnsfoo` and the like are ordinary attributes |
| BuilderSink.AddAttribute | basex-core/src/main/java/org/basex/io/serial/BuilderSerializer.java:68-80 | an attribute adds one cache entry and calls nothing on the builder |
| BuilderSink.AttributesPartition | basex-core/src/main/java/org/basex/io/serial/BuilderSerializer.java:68-80 | a run of attributes appends the ordinary ones and the declarations to their caches, both in order, and the builder sees nothing |
| BuilderSink.StartTag | basex-core/src/main/java/org/basex/io/serial/BuilderSerializer.java:44-55 | from empty caches, an element, its attributes and `finishOpen` (or `finishEmpty`) make one `openElem` (or `emptyElem`) call with the element, its ordinary attributes and its declarations in order, and leave both caches empty |
| BuilderSink.Classify | basex-core/src/main/java/org/basex/io/serial/BuilderSerializer.java:68-80 | where an attribute goes; characterised by `ClassifyIff` |
| BuilderSink.Step | basex-core/src/main/java/org/basex/io/serial/BuilderSerializer.java:34-90 | the effect of one callback on the caches and the builder log; its properties are `OneCallPerEvent` and `AttributesPartition` |
| BuilderSink.RunAppend | basex-core/src/main/java/org/basex/io/serial/BuilderSerializer.java:34-90 | handling two event streams in turn is handling their concatenation |
| BuilderSink.OneCallPerEvent | basex-core/src/main/java/org/basex/io/serial/BuilderSerializer.java:34-90 | attributes (and setting the element) call nothing; every other event appends exactly one builder call; only finishing a start tag clears the caches |
| BuilderSink.BuilderSerializer.constructor | basex-core/src/main/java/org/basex/io/serial/BuilderSerializer.java:34-90 | empty caches and no builder calls |
| BuilderSink.BuilderSerializer.StartElement | basex-core/src/main/java/org/basex/io/serial/BuilderSerializer.java:44-55 | records the element that finishOpen or finishEmpty passes on |
| BuilderSink.BuilderSerializer.Text | basex-core/src/main/java/org/basex/io/serial/BuilderSerializer.java:34-36 | one text call |
| BuilderSink.BuilderSerializer.Pi | basex-core/src/main/java/org/basex/io/serial/BuilderSerializer.java:39-41 | one processing-instruction call with name, space, value |
| BuilderSink.BuilderSerializer.FinishOpen | basex-core/src/main/java/org/basex/io/serial/BuilderSerializer.java:44-48 | one open-element call with both caches, which are then cleared |
| BuilderSink.BuilderSerializer.FinishEmpty | basex-core/src/main/java/org/basex/io/serial/BuilderSerializer.java:51-55 | one empty-element call with both caches, which are then cleared |
| BuilderSink.BuilderSerializer.FinishClose | basex-core/src/main/java/org/basex/io/serial/BuilderSerializer.java:58-60 | one close-element call |
| BuilderSink.BuilderSerializer.Comment | basex-core/src/main/java/org/basex/io/serial/BuilderSerializer.java:63-65 | one comment call |
| BuilderSink.BuilderSerializer.Attribute | basex-core/src/main/java/org/basex/io/serial/BuilderSerializer.java:68-80 | a declaration goes to the namespace cache, anything else to the attribute cache |
| BuilderSink.BuilderSerializer.OpenDoc | basex-core/src/main/java/org/basex/io/serial/BuilderSerializer.java:83-86 | one open-document call |
| BuilderSink.BuilderSerializer.CloseDoc | basex-core/src/main/java/org/basex/io/serial/BuilderSerializer.java:87-90 | one close-document call |

## Left out

- XQuery evaluation goes through the `judge` oracle of `Engine`. This covers:
  - the assertions that evaluate XQuery: `assert`, `assert-eq`, `assert-deep-eq`, `assert-type`, `assert-xml` and `serialization-matches`;
  - `asString` and `asBoolean`;
  - the XPath expression of `supported`, which becomes the `Metadata` record.
- `serialize`, `normalize-space`, `removeComments`, the integer coercion of `assert-count`, `toString` of a result, and the iteration order of a `HashSet` are oracles. They are parameters of `Engine` and `Host`.
- `QT3TS.run`, `init`, `parseArgs`, the report writer, the `pc` wrapper, the slow-query timing and the messages printed to standard error are left out. They cover I/O, clocks and console output.
- Reading query files and resolving paths with `file()` are oracles. A resolved path is recorded as the pair (test-set or suite base, file).
- JsonMap.LiteralsPushOne: `Dbl.get` is opaque, so a number keeps its token, and a malformed number token is not modelled.
- The JSON parser is not modelled. The converter's input is the event stream, and `Events` gives the stream a well-formed JSON value produces.
- JsonMap.Insert: the map's behaviour on a duplicate key is not visible in this source. It is modelled as "replace the equal key's value, else append", and only the key-absent case is stated in its contract.
- The builder is a log of calls. The attribute caches are snapshots, so the sharing of the cache objects that are cleared after each call is not modelled.
- `NL` is modelled as `"\n"`; `Prop.NL` is platform-dependent.
- QT3Assert.CloseBrace: the EQName pattern's `.` does not match line terminators. The model ignores this, and an error code containing a newline is out of scope.
- QT3Filter.SpecRule: XPath `\d` is read as an ASCII digit only.
- QT3Assert.ExpectedErrorName: `new QNm(name, uri)` at QT3TS.java:539 gets the whole code, and how `QNm` treats a prefixed code such as `err:XPTY0004` is not visible in these sources. The model takes the whole code as the local name; the same holds for `QT3Assert.PlainCodeUsesErrorURI`.
- QT3Env.BindFormats: decimal formats come from a `HashMap`. Their order is modelled as a list.
- QT3Assert.AssertEmpty: the identity test against `XdmEmpty.EMPTY` is modelled as "has no items".
- QT3Driver.Driver.TestCase: Java `int` overflow of the counters is not modelled. The counters are `nat`.
- QT3Driver.Rendered: a result with neither a value nor an error renders as `""`. In that case Java would throw a `NullPointerException`.
- QT3Driver.Rendered: when serializing the result throws a non-query exception, the model uses `toString` of the value, as the code does. Other throwables from the engine are whatever the `run` oracle returns.
- Names in the builder are strings: the byte arrays of the source are treated as character sequences.
- BuilderSink.BuilderSerializer.StartElement: the current element name is set by the serializer base class. The model gives it its own event.
- QT3Assert.AssertPermutation: the code compares sets, so duplicates collapse. The model follows the code, although the specification of the assertion speaks of a permutation, that is a multiset.
- JsonMap.JsonMapConverter.ClosePair: the handler methods require the stack shape that the parser's event order guarantees. A malformed stream gives a runtime exception in Java and `None` in `Apply`.

- QT3Assert.Verdict: all-of uses the corrected `AllOfVerdict`, not `allOf` as written at QT3TS.java:549-556. An all-of whose failing children all fail with `""` (an `assert-empty` that fails, say) fails in the model where the code passes it. `AllOfAsWritten` models the code, and `VerdictAgreesAsWritten` proves the two agree whenever no child fails with `""`.
- QT3Assert.Test: computes `Verdict`, so it carries the same corrected all-of.
- QT3Assert.AllOf: the loop decides by whether a child failed, not by `tb.isEmpty()` (QT3TS.java:555); see `QT3Assert.Verdict`.
- QT3Assert.AllOfSingle: holds of the corrected all-of only; for the code as written, `AllOfSingleAsWritten` states that a single child failing with `""` gives a pass.
- QT3Driver.CaseOutcome: judges with `Verdict`, so for the case above the entry reports the failure.
- QT3Driver.Driver.RunCase: computes `CaseOutcome`, with the corrected all-of.
- QT3Driver.Driver.TestCase: such a case goes to `wrong` and is not counted correct, where QT3TS.java:402-404 appends it to `right` and counts it.
- QT3Driver.Driver.TestSet: inherits the corrected all-of from `TestCase`.

## Findings

| source | as written | input that shows it | evidently intended | confidence | as-written member | corrected member |
|---|---|---|---|---|---|---|
| basex-tests/src/main/java/org/basex/tests/w3c/QT3TS.java:549-556 | `allOf` uses `tb.isEmpty()` to place the separator and also to decide the verdict. A child that fails with an empty message leaves the builder empty, so the all-of passes. | `all-of` holding one `assert-empty`, against a one-item result: `assert-empty` fails with `""`, and the all-of passes | all-of passes iff every child passes | not executed | QT3Assert.AllOfAsWritten (pass condition QT3Assert.AllOfAsWrittenPassIff; counterexamples QT3Assert.AllOfAsWrittenPassesEmptyFailure, QT3Assert.AllOfEmptyMessageCounterexample) | QT3Assert.AllOfVerdict (used by QT3Assert.Verdict and QT3Assert.AllOf; proved by QT3Assert.AllOfPassIff; agreement bound QT3Assert.VerdictAgreesAsWritten) |

/**
 * Environments of the QT3 driver and how a test case's query is prepared from them:
 * the environment lookup (`envs` and the resolution block of `testCase`), the external
 * declarations prepended to the query text, the module pairs, and the binding calls
 * the driver makes on the engine's query object, in the order it makes them.
 */
module QT3Env {
  import opened Strings
  import opened QT3Values

  datatype Namespace = Namespace(prefix: string, uri: string)
  /** A `param`: its name, its `@select` expression and its `@declared` attribute, when present. */
  datatype Param = Param(name: string, select: string, declared: Option<string>)
  /** A `source`: its `@uri`, its `@file` and its `@role`, when present. */
  datatype Source = Source(uri: string, file: string, role: Option<string>)
  datatype Resource = Resource(uri: string, file: string, encoding: string)
  datatype DecimalFormat = DecimalFormat(name: QName, properties: map<string, string>)

  /** A parsed `environment` element (a `QT3Env`). */
  datatype Env = Env(
    name: string,
    namespaces: seq<Namespace>,
    params: seq<Param>,
    sources: seq<Source>,
    resources: seq<Resource>,
    collectionURI: string,
    collectionSources: seq<string>,
    collectionContext: bool,
    context: Option<Value>,
    baseURI: Option<string>,
    decimalFormats: seq<DecimalFormat>)

  // ---------------------------------------------------------------------------
  // Environment lookup

  /** `envs`: the first environment of the list whose name is `ref`, or `None`. */
  function FindEnv(envs: seq<Env>, ref: string): (r: Option<Env>)
    ensures r.Some? ==> r.value in envs && r.value.name == ref
    ensures r.Some? ==> exists i :: (0 <= i < |envs| && envs[i] == r.value &&
      forall j :: 0 <= j < i ==> envs[j].name != ref)
    ensures r.None? <==> forall i :: 0 <= i < |envs| ==> envs[i].name != ref
  {
    if |envs| == 0 then None
    else if envs[0].name == ref then Some(envs[0])
    else
      var r := FindEnv(envs[1..], ref);
      assert r.Some? ==> exists i :: (0 <= i < |envs| && envs[i] == r.value &&
        forall j :: 0 <= j < i ==> envs[j].name != ref) by {
        if r.Some? {
          var i :| 0 <= i < |envs[1..]| && envs[1..][i] == r.value &&
            forall j :: 0 <= j < i ==> envs[1..][j].name != ref;
          assert envs[i + 1] == r.value;
          assert forall j :: 0 <= j < i + 1 ==> envs[j].name != ref by {
            forall j | 0 <= j < i + 1 ensures envs[j].name != ref {
              if j > 0 { assert envs[j] == envs[1..][j - 1]; }
            }
          }
        }
      }
      assert r.None? ==> forall i :: 0 <= i < |envs| ==> envs[i].name != ref by {
        if r.None? {
          forall i | 0 <= i < |envs| ensures envs[i].name != ref {
            if i > 0 { assert envs[i] == envs[1..][i - 1]; }
          }
        }
      }
      r
  }

  /** The environment a test case runs with, and whether paths resolve against the test set (`base`). */
  datatype Resolution = Resolution(env: Option<Env>, base: bool)

  predicate Names(envs: seq<Env>, ref: string)
  {
    exists i :: 0 <= i < |envs| && envs[i].name == ref
  }

  /**
   * The resolution block of `testCase`: an inline environment with children wins; otherwise a
   * non-empty `@ref` is looked up in the test set's list and then in the catalog's list.
   */
  function Resolve(inline: Option<Env>, ref: string, local: seq<Env>, global: seq<Env>): (r: Resolution)
    ensures inline.Some? ==> r == Resolution(inline, true)
    ensures inline.None? && ref == "" ==> r == Resolution(None, true)
    ensures inline.None? && ref != "" ==> (r.base <==> Names(local, ref))
    ensures inline.None? && ref != "" && r.env.Some? ==> r.env.value.name == ref
    ensures inline.None? && ref != "" && Names(local, ref) ==> r.env.Some? && r.env.value in local
    ensures inline.None? && ref != "" && !Names(local, ref) && r.env.Some? ==> r.env.value in global
    ensures r.env.None? <==> inline.None? && (ref == "" || (!Names(local, ref) && !Names(global, ref)))
  {
    if inline.Some? then Resolution(inline, true)
    else if ref == "" then Resolution(None, true)
    else
      var found := FindEnv(local, ref);
      if found.Some? then Resolution(found, true) else Resolution(FindEnv(global, ref), false)
  }

  // ---------------------------------------------------------------------------
  // Query text

  /** The declaration prepended for a parameter: only when `@declared` is absent or `'false'`. */
  function ParamDecl(p: Param): string
  {
    if p.declared == None || p.declared == Some("false") then "declare variable $" + p.name + " external;" else ""
  }

  /** A role that binds a variable: one starting with `$`. */
  predicate IsVariableRole(role: Option<string>)
  {
    role.Some? && StartsWith(role.value, "$")
  }

  /** The declaration prepended for a source: only when its role binds a variable. */
  function SourceDecl(s: Source): string
  {
    if IsVariableRole(s.role) then "declare variable " + s.role.value + " external;" else ""
  }

  /** The concatenation of the strings in reverse order: what prepending them one by one leaves in front. */
  function RevConcat(ds: seq<string>): string
  {
    if |ds| == 0 then "" else ds[|ds| - 1] + RevConcat(ds[..|ds| - 1])
  }

  function ParamDecls(ps: seq<Param>): (r: seq<string>)
    ensures |r| == |ps| && forall i :: 0 <= i < |ps| ==> r[i] == ParamDecl(ps[i])
  {
    if |ps| == 0 then [] else ParamDecls(ps[..|ps| - 1]) + [ParamDecl(ps[|ps| - 1])]
  }

  function SourceDecls(ss: seq<Source>): (r: seq<string>)
    ensures |r| == |ss| && forall i :: 0 <= i < |ss| ==> r[i] == SourceDecl(ss[i])
  {
    if |ss| == 0 then [] else SourceDecls(ss[..|ss| - 1]) + [SourceDecl(ss[|ss| - 1])]
  }

  /** The query text after preparation: source declarations, then parameter declarations, then the body. */
  function PreparedText(env: Option<Env>, body: string): string
  {
    if env.None? then body
    else RevConcat(SourceDecls(env.value.sources)) + (RevConcat(ParamDecls(env.value.params)) + body)
  }

  /** The query-text block of `testCase` (lines prepending `declare variable ... external;`). */
  method PrepareQuery(env: Option<Env>, body: string) returns (query: string)
    ensures query == PreparedText(env, body)
  {
    query := body;
    if env.Some? {
      query := PrependParams(env.value.params, query);
      query := PrependSources(env.value.sources, query);
    }
  }

  /** The parameter loop: each undeclared parameter's declaration goes in front of the text so far. */
  method PrependParams(params: seq<Param>, body: string) returns (query: string)
    ensures query == RevConcat(ParamDecls(params)) + body
  {
    query := body;
    for i := 0 to |params|
      invariant query == RevConcat(ParamDecls(params[..i])) + body
    {
      var p := params[i];
      ghost var before := query;
      if p.declared == None || p.declared == Some("false") {
        query := ParamDecl(p) + query;
      } else {
        assert "" + query == query;
      }
      assert query == ParamDecl(p) + before;
      ParamDeclsStep(params, i);
      PrependStep(ParamDecls(params[..i]), ParamDecl(p), body);
    }
    assert params[..|params|] == params;
  }

  /** The source loop: each `$`-role's declaration goes in front of the text so far. */
  method PrependSources(sources: seq<Source>, body: string) returns (query: string)
    ensures query == RevConcat(SourceDecls(sources)) + body
  {
    query := body;
    for i := 0 to |sources|
      invariant query == RevConcat(SourceDecls(sources[..i])) + body
    {
      ghost var before := query;
      if IsVariableRole(sources[i].role) {
        query := SourceDecl(sources[i]) + query;
      } else {
        assert "" + query == query;
      }
      assert query == SourceDecl(sources[i]) + before;
      SourceDeclsStep(sources, i);
      PrependStep(SourceDecls(sources[..i]), SourceDecl(sources[i]), body);
    }
    assert sources[..|sources|] == sources;
  }

  lemma ParamDeclsStep(ps: seq<Param>, i: nat)
    requires i < |ps|
    ensures ParamDecls(ps[..i + 1]) == ParamDecls(ps[..i]) + [ParamDecl(ps[i])]
  {
    assert ps[..i + 1][..i] == ps[..i];
  }

  lemma SourceDeclsStep(ss: seq<Source>, i: nat)
    requires i < |ss|
    ensures SourceDecls(ss[..i + 1]) == SourceDecls(ss[..i]) + [SourceDecl(ss[i])]
  {
    assert ss[..i + 1][..i] == ss[..i];
  }

  /** Prepending one more string puts it in front of all the others. */
  lemma PrependStep(ds: seq<string>, d: string, body: string)
    ensures RevConcat(ds + [d]) + body == d + (RevConcat(ds) + body)
  {
    assert (ds + [d])[..|ds|] == ds;
    assert RevConcat(ds + [d]) == d + RevConcat(ds);
  }

  /** `t` occurs in `s` starting at position `k`. */
  predicate OccursAt(t: string, s: string, k: int)
  {
    0 <= k && k + |t| <= |s| && s[k..k + |t|] == t
  }

  predicate Occurs(t: string, s: string)
  {
    exists k :: 0 <= k <= |s| && OccursAt(t, s, k)
  }

  /** An occurrence in `rest` is an occurrence in `front + rest`, shifted by `|front|`. */
  lemma OccursShift(t: string, front: string, rest: string, k: int)
    requires OccursAt(t, rest, k)
    ensures OccursAt(t, front + rest, |front| + k)
  {
    assert (front + rest)[|front| + k..|front| + k + |t|] == rest[k..k + |t|];
  }

  /** An occurrence in `front` is an occurrence in `front + rest`. */
  lemma OccursExtend(t: string, front: string, rest: string, k: int)
    requires OccursAt(t, front, k)
    ensures OccursAt(t, front + rest, k)
  {
    assert (front + rest)[k..k + |t|] == front[k..k + |t|];
  }

  lemma {:induction false} RevConcatHolds(ds: seq<string>, i: nat)
    requires i < |ds|
    ensures Occurs(ds[i], RevConcat(ds))
  {
    var last := ds[|ds| - 1];
    var init := ds[..|ds| - 1];
    var rest := RevConcat(init);
    assert RevConcat(ds) == last + rest;
    if i == |ds| - 1 {
      assert OccursAt(last, last, 0);
      OccursExtend(last, last, rest, 0);
    } else {
      RevConcatHolds(init, i);
      assert init[i] == ds[i];
      var k :| 0 <= k <= |rest| && OccursAt(ds[i], rest, k);
      OccursShift(ds[i], last, rest, k);
    }
  }

  /**
   * The prepared text ends with the original body, and the declaration of every undeclared
   * parameter and of every `$`-role source occurs in it.
   */
  lemma PreparedTextContents(env: Env, body: string)
    ensures EndsWithBody(PreparedText(Some(env), body), body)
    ensures forall i :: 0 <= i < |env.params| ==> Occurs(ParamDecl(env.params[i]), PreparedText(Some(env), body))
    ensures forall i :: 0 <= i < |env.sources| ==> Occurs(SourceDecl(env.sources[i]), PreparedText(Some(env), body))
  {
    var s := RevConcat(SourceDecls(env.sources));
    var p := RevConcat(ParamDecls(env.params));
    var q := PreparedText(Some(env), body);
    assert q == s + (p + body);
    assert q[|q| - |body|..] == body;
    forall i | 0 <= i < |env.params| ensures Occurs(ParamDecl(env.params[i]), q) {
      RevConcatHolds(ParamDecls(env.params), i);
      OccursInMiddle(ParamDecl(env.params[i]), s, p, body);
    }
    forall i | 0 <= i < |env.sources| ensures Occurs(SourceDecl(env.sources[i]), q) {
      RevConcatHolds(SourceDecls(env.sources), i);
      OccursInFront(SourceDecl(env.sources[i]), s, p + body);
    }
  }

  lemma OccursInMiddle(t: string, front: string, mid: string, back: string)
    requires Occurs(t, mid)
    ensures Occurs(t, front + (mid + back))
  {
    var k :| 0 <= k <= |mid| && OccursAt(t, mid, k);
    OccursExtend(t, mid, back, k);
    OccursShift(t, front, mid + back, k);
  }

  lemma OccursInFront(t: string, front: string, back: string)
    requires Occurs(t, front)
    ensures Occurs(t, front + back)
  {
    var k :| 0 <= k <= |front| && OccursAt(t, front, k);
    OccursExtend(t, front, back, k);
  }

  predicate EndsWithBody(s: string, body: string)
  {
    |body| <= |s| && s[|s| - |body|..] == body
  }

  // ---------------------------------------------------------------------------
  // Modules

  /** A `module` element: its `@uri` and `@file`, when present. */
  datatype ModuleDecl = ModuleDecl(uri: Option<string>, file: Option<string>)

  /** A module registered on the query: its URI and the path of its file. */
  datatype Module = Module(uri: string, path: string)

  /** The items of `for $m in *:module return ($m/@uri, $m/@file)`: absent attributes yield nothing. */
  function ModuleItems(ms: seq<ModuleDecl>): seq<string>
  {
    if |ms| == 0 then []
    else
      var m := ms[|ms| - 1];
      ModuleItems(ms[..|ms| - 1])
        + (if m.uri.Some? then [m.uri.value] else [])
        + (if m.file.Some? then [m.file.value] else [])
  }

  /** Consecutive items paired as (URI, file), the file resolved in `baseDir`; an odd last item is dropped. */
  function ModulePairs(items: seq<string>, baseDir: string): (r: seq<Module>)
    ensures |r| == |items| / 2
  {
    seq(|items| / 2, i requires 0 <= i < |items| / 2 => Module(items[2 * i], baseDir + items[2 * i + 1]))
  }

  /** The module loop of `testCase`: pulls items two at a time until one is missing. */
  method AddModules(items: seq<string>, baseDir: string) returns (modules: seq<Module>)
    ensures |modules| == |items| / 2
    ensures forall i :: 0 <= i < |modules| ==> modules[i] == Module(items[2 * i], baseDir + items[2 * i + 1])
    ensures modules == ModulePairs(items, baseDir)
  {
    modules := [];
    var next := 0;
    while true
      invariant next == 2 * |modules| <= |items|
      invariant forall i :: 0 <= i < |modules| ==> modules[i] == Module(items[2 * i], baseDir + items[2 * i + 1])
      decreases |items| - next
    {
      if next == |items| { break; }
      var uri := items[next];
      next := next + 1;
      if next == |items| { break; }
      var file := items[next];
      next := next + 1;
      modules := modules + [Module(uri, baseDir + file)];
    }
  }

  /** Module declarations that carry both attributes yield exactly their (uri, file) pairs. */
  lemma {:induction false} CompleteModules(ms: seq<ModuleDecl>)
    requires forall i :: 0 <= i < |ms| ==> ms[i].uri.Some? && ms[i].file.Some?
    ensures |ModuleItems(ms)| == 2 * |ms|
    ensures forall i :: 0 <= i < |ms| ==>
      ModuleItems(ms)[2 * i] == ms[i].uri.value && ModuleItems(ms)[2 * i + 1] == ms[i].file.value
  {
    if |ms| > 0 {
      var init := ms[..|ms| - 1];
      CompleteModules(init);
      var m := ms[|ms| - 1];
      assert ModuleItems(ms) == ModuleItems(init) + [m.uri.value] + [m.file.value];
    }
  }

  /** A module without `@file` shifts the pairing: its URI is paired with the next module's URI. */
  lemma MissingFileShiftsPairs()
    ensures ModuleItems([ModuleDecl(Some("a"), None), ModuleDecl(Some("b"), Some("f"))]) == ["a", "b", "f"]
  {
    var ms := [ModuleDecl(Some("a"), None), ModuleDecl(Some("b"), Some("f"))];
    assert ms[..1] == [ModuleDecl(Some("a"), None)];
    assert ms[..1][..0] == [];
  }

  // ---------------------------------------------------------------------------
  // Binding calls

  /** A file path as `file(base, f)` resolves it: against the test-set directory or the suite path. */
  datatype Path = Path(againstTestSet: bool, file: string)

  /** A call the driver makes on the engine's query object. */
  datatype Call =
    | SetBaseURI(uri: string)
    | AddModule(mod: Module)
    | BindNamespace(prefix: string, nsURI: string)
    | BindParam(name: string, select: string)
    | AddDocument(docURI: string, path: Path)
    | DocumentAsContext(path: Path)
    | BindDocument(role: string, path: Path)
    | AddResource(resURI: string, path: Path, encoding: string)
    | AddCollection(collURI: string, files: seq<string>)
    | CollectionAsContext(collURI: string)
    | ContextValue(value: Value)
    | SetDecimalFormat(format: DecimalFormat)

  /** The modules registered on the query, one `addModule` call each, in order. */
  function ModuleCalls(ms: seq<Module>): (r: seq<Call>)
    ensures |r| == |ms| && forall i :: 0 <= i < |ms| ==> r[i] == AddModule(ms[i])
  {
    seq(|ms|, i requires 0 <= i < |ms| => AddModule(ms[i]))
  }

  /** The first binding call of an environment never sets a base URI: the collection always precedes it. */
  lemma EnvCallsSetNoTestSetBase(env: Env, base: bool)
    ensures |EnvCalls(env, base)| > 0 && !EnvCalls(env, base)[0].SetBaseURI?
  {
    var front := FrontCalls(env, base);
    FrontCallsNoBase(env, base);
    if |front| > 0 {
      assert EnvCalls(env, base)[0] == front[0];
    } else {
      assert EnvCalls(env, base) == TailCalls(env);
    }
  }

  /** No call up to the resources sets a base URI. */
  lemma FrontCallsNoBase(env: Env, base: bool)
    ensures forall j :: 0 <= j < |FrontCalls(env, base)| ==> !FrontCalls(env, base)[j].SetBaseURI?
  {
    var ns := NamespaceCalls(env.namespaces);
    var ps := ParamCalls(env.params);
    var ss := SourcesCalls(env.sources, base);
    var rs := ResourceCalls(env.resources, base);
    NamespacesNoBase(env.namespaces);
    ParamsNoBase(env.params);
    SourcesNoBase(env.sources, base);
    ResourcesNoBase(env.resources, base);
    NoBaseAppend(ns, ps);
    NoBaseAppend(ns + ps, ss);
    NoBaseAppend(ns + ps + ss, rs);
  }

  predicate NoBase(cs: seq<Call>)
  {
    forall j :: 0 <= j < |cs| ==> !cs[j].SetBaseURI?
  }

  lemma NoBaseAppend(a: seq<Call>, b: seq<Call>)
    requires NoBase(a) && NoBase(b)
    ensures NoBase(a + b)
  {
    forall j | 0 <= j < |a + b| ensures !(a + b)[j].SetBaseURI? {
      if j >= |a| { assert (a + b)[j] == b[j - |a|]; }
    }
  }

  lemma {:induction false} NamespacesNoBase(ns: seq<Namespace>)
    ensures NoBase(NamespaceCalls(ns))
  {
    if |ns| > 0 {
      NamespacesNoBase(ns[..|ns| - 1]);
      NoBaseAppend(NamespaceCalls(ns[..|ns| - 1]), [BindNamespace(ns[|ns| - 1].prefix, ns[|ns| - 1].uri)]);
    }
  }

  lemma {:induction false} ParamsNoBase(ps: seq<Param>)
    ensures NoBase(ParamCalls(ps))
  {
    if |ps| > 0 {
      ParamsNoBase(ps[..|ps| - 1]);
      NoBaseAppend(ParamCalls(ps[..|ps| - 1]), [BindParam(ps[|ps| - 1].name, ps[|ps| - 1].select)]);
    }
  }

  lemma {:induction false} SourcesNoBase(ss: seq<Source>, base: bool)
    ensures NoBase(SourcesCalls(ss, base))
  {
    if |ss| > 0 {
      SourcesNoBase(ss[..|ss| - 1], base);
      NoBaseAppend(SourcesCalls(ss[..|ss| - 1], base), SourceCalls(ss[|ss| - 1], base));
    }
  }

  lemma {:induction false} ResourcesNoBase(rs: seq<Resource>, base: bool)
    ensures NoBase(ResourceCalls(rs, base))
  {
    if |rs| > 0 {
      var r := rs[|rs| - 1];
      ResourcesNoBase(rs[..|rs| - 1], base);
      NoBaseAppend(ResourceCalls(rs[..|rs| - 1], base), [AddResource(r.uri, Path(base, r.file), r.encoding)]);
    }
  }

  predicate IsContextCall(c: Call)
  {
    c.DocumentAsContext? || c.CollectionAsContext? || c.ContextValue?
  }

  function SourceCalls(s: Source, base: bool): seq<Call>
  {
    var path := Path(base, s.file);
    [AddDocument(s.uri, path)] +
      (if s.role.None? then []
       else if s.role.value == "." then [DocumentAsContext(path)]
       else [BindDocument(s.role.value, path)])
  }

  function NamespaceCalls(ns: seq<Namespace>): seq<Call>
  {
    if |ns| == 0 then [] else NamespaceCalls(ns[..|ns| - 1]) + [BindNamespace(ns[|ns| - 1].prefix, ns[|ns| - 1].uri)]
  }

  function ParamCalls(ps: seq<Param>): seq<Call>
  {
    if |ps| == 0 then [] else ParamCalls(ps[..|ps| - 1]) + [BindParam(ps[|ps| - 1].name, ps[|ps| - 1].select)]
  }

  function SourcesCalls(ss: seq<Source>, base: bool): seq<Call>
  {
    if |ss| == 0 then [] else SourcesCalls(ss[..|ss| - 1], base) + SourceCalls(ss[|ss| - 1], base)
  }

  function ResourceCalls(rs: seq<Resource>, base: bool): seq<Call>
  {
    if |rs| == 0 then []
    else
      var r := rs[|rs| - 1];
      ResourceCalls(rs[..|rs| - 1], base) + [AddResource(r.uri, Path(base, r.file), r.encoding)]
  }

  function FormatCalls(fs: seq<DecimalFormat>): seq<Call>
  {
    if |fs| == 0 then [] else FormatCalls(fs[..|fs| - 1]) + [SetDecimalFormat(fs[|fs| - 1])]
  }

  /** The part of the binding sequence that comes after the documents and resources. */
  function TailCalls(env: Env): seq<Call>
  {
    [AddCollection(env.collectionURI, env.collectionSources)]
      + ((if env.collectionContext then [CollectionAsContext(env.collectionURI)] else [])
      + ((if env.context.Some? then [ContextValue(env.context.value)] else [])
      + ((if env.baseURI.Some? then [SetBaseURI(env.baseURI.value)] else [])
      + FormatCalls(env.decimalFormats))))
  }

  /** The binding calls for an environment, in the driver's fixed order. */
  function EnvCalls(env: Env, base: bool): seq<Call>
  {
    FrontCalls(env, base) + TailCalls(env)
  }

  /** The part of the binding sequence up to and including the resources. */
  function FrontCalls(env: Env, base: bool): seq<Call>
  {
    NamespaceCalls(env.namespaces) + ParamCalls(env.params) + SourcesCalls(env.sources, base)
      + ResourceCalls(env.resources, base)
  }

  /** The binding block of `testCase`. */
  method BindEnvironment(env: Env, base: bool) returns (calls: seq<Call>)
    ensures calls == EnvCalls(env, base)
  {
    calls := BindNamespaces(env.namespaces);
    var more := BindParams(env.params);
    calls := calls + more;
    more := BindSources(env.sources, base);
    calls := calls + more;
    more := BindResources(env.resources, base);
    calls := calls + more;
    more := BindTail(env);
    calls := calls + more;
  }

  /** The collection, the explicit context item, the base URI and the decimal formats. */
  method BindTail(env: Env) returns (calls: seq<Call>)
    ensures calls == TailCalls(env)
  {
    calls := [AddCollection(env.collectionURI, env.collectionSources)];
    if env.collectionContext {
      calls := calls + [CollectionAsContext(env.collectionURI)];
    }
    if env.context.Some? {
      calls := calls + [ContextValue(env.context.value)];
    }
    if env.baseURI.Some? {
      calls := calls + [SetBaseURI(env.baseURI.value)];
    }
    var formats := BindFormats(env.decimalFormats);
    calls := calls + formats;
  }

  method BindNamespaces(ns: seq<Namespace>) returns (calls: seq<Call>)
    ensures calls == NamespaceCalls(ns)
  {
    calls := [];
    for i := 0 to |ns|
      invariant calls == NamespaceCalls(ns[..i])
    {
      calls := calls + [BindNamespace(ns[i].prefix, ns[i].uri)];
      assert ns[..i + 1][..i] == ns[..i];
    }
    assert ns[..|ns|] == ns;
  }

  method BindParams(ps: seq<Param>) returns (calls: seq<Call>)
    ensures calls == ParamCalls(ps)
  {
    calls := [];
    for i := 0 to |ps|
      invariant calls == ParamCalls(ps[..i])
    {
      calls := calls + [BindParam(ps[i].name, ps[i].select)];
      assert ps[..i + 1][..i] == ps[..i];
    }
    assert ps[..|ps|] == ps;
  }

  /** Each source registers its document, then binds it as context item (role `.`) or as a variable. */
  method BindSources(ss: seq<Source>, base: bool) returns (calls: seq<Call>)
    ensures calls == SourcesCalls(ss, base)
  {
    calls := [];
    for i := 0 to |ss|
      invariant calls == SourcesCalls(ss[..i], base)
    {
      var path := Path(base, ss[i].file);
      calls := calls + [AddDocument(ss[i].uri, path)];
      var role := ss[i].role;
      if role.Some? {
        if role.value == "." {
          calls := calls + [DocumentAsContext(path)];
        } else {
          calls := calls + [BindDocument(role.value, path)];
        }
      }
      assert ss[..i + 1][..i] == ss[..i];
    }
    assert ss[..|ss|] == ss;
  }

  method BindResources(rs: seq<Resource>, base: bool) returns (calls: seq<Call>)
    ensures calls == ResourceCalls(rs, base)
  {
    calls := [];
    for i := 0 to |rs|
      invariant calls == ResourceCalls(rs[..i], base)
    {
      calls := calls + [AddResource(rs[i].uri, Path(base, rs[i].file), rs[i].encoding)];
      assert rs[..i + 1][..i] == rs[..i];
    }
    assert rs[..|rs|] == rs;
  }

  method BindFormats(fs: seq<DecimalFormat>) returns (calls: seq<Call>)
    ensures calls == FormatCalls(fs)
  {
    calls := [];
    for i := 0 to |fs|
      invariant calls == FormatCalls(fs[..i])
    {
      calls := calls + [SetDecimalFormat(fs[i])];
      assert fs[..i + 1][..i] == fs[..i];
    }
    assert fs[..|fs|] == fs;
  }

  lemma {:induction false} FormatCallsNoContext(fs: seq<DecimalFormat>)
    ensures forall j :: 0 <= j < |FormatCalls(fs)| ==> FormatCalls(fs)[j].SetDecimalFormat?
  {
    if |fs| > 0 { FormatCallsNoContext(fs[..|fs| - 1]); }
  }

  /**
   * An explicit context item overrides any context established by documents or the collection:
   * it is set by the last context-setting call.
   */
  lemma ContextItemWins(env: Env, base: bool)
    requires env.context.Some?
    ensures exists k :: (0 <= k < |EnvCalls(env, base)| && EnvCalls(env, base)[k] == ContextValue(env.context.value) &&
      forall j :: k < j < |EnvCalls(env, base)| ==> !IsContextCall(EnvCalls(env, base)[j]))
  {
    var front := FrontCalls(env, base);
    var coll := [AddCollection(env.collectionURI, env.collectionSources)];
    var cc := if env.collectionContext then [CollectionAsContext(env.collectionURI)] else [];
    var baseCall := if env.baseURI.Some? then [SetBaseURI(env.baseURI.value)] else [];
    var rest := baseCall + FormatCalls(env.decimalFormats);
    FormatCallsNoContext(env.decimalFormats);
    forall j | 0 <= j < |rest| ensures !IsContextCall(rest[j]) {
      if j >= |baseCall| { assert rest[j] == FormatCalls(env.decimalFormats)[j - |baseCall|]; }
    }
    LastOf(IsContextCall, front, coll, cc, [], ContextValue(env.context.value), rest);
    assert EnvCalls(env, base) == front + (coll + (cc + ([] + ([ContextValue(env.context.value)] + rest))));
  }

  /** An environment's own base URI is set after the documents, so it overrides the test set's. */
  lemma EnvBaseURIWins(env: Env, base: bool)
    requires env.baseURI.Some?
    ensures exists k :: (0 <= k < |EnvCalls(env, base)| && EnvCalls(env, base)[k] == SetBaseURI(env.baseURI.value) &&
      forall j :: k < j < |EnvCalls(env, base)| ==> !EnvCalls(env, base)[j].SetBaseURI?)
  {
    var front := FrontCalls(env, base);
    var coll := [AddCollection(env.collectionURI, env.collectionSources)];
    var cc := if env.collectionContext then [CollectionAsContext(env.collectionURI)] else [];
    var ci := if env.context.Some? then [ContextValue(env.context.value)] else [];
    var rest := FormatCalls(env.decimalFormats);
    FormatCallsNoContext(env.decimalFormats);
    LastOf((c: Call) => c.SetBaseURI?, front, coll, cc, ci, SetBaseURI(env.baseURI.value), rest);
    assert EnvCalls(env, base) == front + (coll + (cc + (ci + ([SetBaseURI(env.baseURI.value)] + rest))));
  }

  /** A call followed only by calls without property `p` is the last call with that property. */
  lemma LastOf(p: Call -> bool, front: seq<Call>, a: seq<Call>, b: seq<Call>, d: seq<Call>, c: Call, rest: seq<Call>)
    requires forall j :: 0 <= j < |rest| ==> !p(rest[j])
    ensures var xs := front + (a + (b + (d + ([c] + rest))));
      var k := |front| + |a| + |b| + |d|;
      k < |xs| && xs[k] == c && forall j :: k < j < |xs| ==> !p(xs[j])
  {
    var xs := front + (a + (b + (d + ([c] + rest))));
    var k := |front| + |a| + |b| + |d|;
    forall j | k < j < |xs| ensures !p(xs[j]) {
      assert xs[j] == rest[j - k - 1];
    }
  }
}

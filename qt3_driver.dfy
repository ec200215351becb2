/**
 * The bookkeeping of the QT3 driver (`QT3TS.testSet` and `QT3TS.testCase`): counters of
 * total, tested, correct and ignored test cases, and the transcripts of right, wrong and
 * ignored cases. The engine and the file system are oracles of `Host`.
 */
module QT3Driver {
  import opened Strings
  import opened QT3Values
  import opened QT3Filter
  import opened QT3Env
  import opened QT3Assert

  /**
   * What the driver reads of a `test-case` element: its name, its dependencies, the expected
   * result (the first element child of `result`), the inline environment (an `environment` element with children),
   * `string(*:environment[1]/@ref)`, `string(*:test/@file)`, `string(*:test)` and its modules.
   */
  datatype CaseElement = CaseElement(
    name: string,
    meta: Metadata,
    expected: Assertion,
    inline: Option<Env>,
    envRef: string,
    queryFile: string,
    queryText: string,
    modules: seq<ModuleDecl>)

  /** What the driver reads of a test-set document. */
  datatype SetDocument = SetDocument(
    baseURI: string,
    baseDir: string,
    meta: Metadata,
    envs: seq<Env>,
    cases: seq<CaseElement>)

  /**
   * The query handed to the engine: its text and the calls made on it before it runs, in
   * order: the test-set base URI, the modules, then the environment's bindings.
   */
  datatype Query = Query(text: string, calls: seq<Call>)

  /** Outcome of serialising a result for the transcript. */
  datatype Output = Printed(text: string) | PrintError(code: string, message: string) | PrintFailure

  /**
   * The world outside the driver:
   * - `read`: the text of a query file in a directory, `None` when reading throws an IOException;
   * - `run`: running a prepared query;
   * - `emit`: serialising a result with the given serialisation parameters;
   * - `valueText`: the `toString()` of a result;
   * - `noComments`: `QueryProcessor.removeComments` with the maximal output length.
   */
  datatype Host = Host(
    read: (string, string) -> Option<string>,
    run: Query -> Returned,
    emit: (Value, SerialParams) -> Output,
    valueText: Value -> string,
    noComments: string -> string)

  /** The counters and transcripts of the driver. */
  datatype Tally = Tally(total: nat, tested: nat, correct: nat, ignored: nat, dots: nat,
                         right: string, wrong: string, ignore: string)

  /** The end of `testCase`: a passing entry goes to `right` and counts as correct, a failing one goes to `wrong`. */
  function Recorded(t: Tally, o: Outcome): (r: Tally)
    ensures r.total == t.total && r.tested == t.tested && r.ignored == t.ignored && r.dots == t.dots && r.ignore == t.ignore
    ensures r.correct == t.correct + (if o.Ran? && o.verdict.None? then 1 else 0)
    ensures r.right == t.right + (if o.Ran? && o.verdict.None? then o.entry else "")
    ensures r.wrong == t.wrong + (if o.Ran? && o.verdict.Some? then o.entry else "")
  {
    match o
    case Abandoned => t
    case Ran(verdict, entry) =>
      if verdict.None? then t.(correct := t.correct + 1, right := t.right + entry)
      else t.(wrong := t.wrong + entry)
  }

  /** A tested case either was abandoned (its query file could not be read) or ran and gave a transcript entry. */
  datatype Outcome = Abandoned | Ran(verdict: Option<string>, entry: string)

  /** A case is ignored when it is unsupported or its name does not start with the filter. */
  predicate Skipped(tc: CaseElement, single: string)
  {
    !Supported(tc.meta) || !StartsWith(tc.name, single)
  }

  /** The query text before prefixing: inline, or read from the test-set directory. */
  function QueryBody(host: Host, tc: CaseElement, baseDir: string): (r: Option<string>)
    ensures tc.queryFile == "" ==> r == Some(tc.queryText)
  {
    if tc.queryFile == "" then Some(tc.queryText) else host.read(baseDir, tc.queryFile)
  }

  /** The query `testCase` builds for the resolved environment. */
  function BuildQuery(tc: CaseElement, r: Resolution, body: string, baseURI: string, baseDir: string): Query
  {
    Query(
      PreparedText(r.env, body),
      (if r.base then [SetBaseURI(baseURI)] else [])
        + ModuleCalls(ModulePairs(ModuleItems(tc.modules), baseDir))
        + (if r.env.Some? then EnvCalls(r.env.value, r.base) else []))
  }

  /** The result line of the transcript: whether it reports an error, and its text. */
  function Rendered(host: Host, returned: Returned): (r: (bool, string))
    ensures r.0 <==>
      (returned.value.None? ||
       (returned.error.None? && returned.xqerror.None? && host.emit(returned.value.value, OmitDeclaration(returned.sprop)).PrintError?))
    ensures returned.error.Some? ==> r.1 == returned.error.value
    ensures returned.error.None? && returned.xqerror.Some? ==>
      r.1 == returned.xqerror.value.code + ": " + returned.xqerror.value.message
    ensures returned.error.None? && returned.xqerror.None? && returned.value.Some? ==>
      match host.emit(returned.value.value, OmitDeclaration(returned.sprop))
      case Printed(t) => r.1 == t
      case PrintError(c, m) => r.1 == c + ": " + m
      case PrintFailure => r.1 == host.valueText(returned.value.value)
  {
    var err := returned.value.None?;
    if returned.error.Some? then (err, returned.error.value)
    else if returned.xqerror.Some? then (err, returned.xqerror.value.code + ": " + returned.xqerror.value.message)
    else if returned.value.None? then (err, "")
    else
      match host.emit(returned.value.value, OmitDeclaration(returned.sprop))
      case Printed(t) => (err, t)
      case PrintError(c, m) => (true, c + ": " + m)
      case PrintFailure => (err, host.valueText(returned.value.value))
  }

  /** The transcript entry of a tested case. */
  function Entry(host: Host, name: string, text: string, returned: Returned, verdict: Option<string>): (e: string)
    ensures StartsWith(e, name + NL)
  {
    var (err, res) := Rendered(host, returned);
    var tmp := name + NL + host.noComments(text) + NL + (if err then "Error : " else "Result: ") + host.noComments(res) + NL;
    var e := if verdict.None? then tmp + NL else tmp + "Expect: " + host.noComments(verdict.value) + NL + NL;
    assert e[..|name + NL|] == name + NL;
    e
  }

  /** What running a tested case gives. */
  function CaseOutcome(eng: Engine, errors: bool, host: Host, genvs: seq<Env>, tc: CaseElement, envs: seq<Env>,
                       baseURI: string, baseDir: string): Outcome
  {
    var r := Resolve(tc.inline, tc.envRef, envs, genvs);
    match QueryBody(host, tc, baseDir)
    case None => Abandoned
    case Some(body) =>
      var q := BuildQuery(tc, r, body, baseURI, baseDir);
      var returned := host.run(q);
      var verdict := Verdict(eng, errors, returned, tc.expected);
      Ran(verdict, Entry(host, tc.name, q.text, returned, verdict))
  }

  /** An entry of a passing case ends with an empty line; one of a failing case reports what was expected. */
  lemma EntryKinds(host: Host, name: string, text: string, returned: Returned, verdict: Option<string>)
    ensures verdict.None? ==> EndsWith(Entry(host, name, text, returned, verdict), NL + NL)
    ensures verdict.Some? ==>
      EndsWith(Entry(host, name, text, returned, verdict), "Expect: " + host.noComments(verdict.value) + NL + NL)
  {
    var e := Entry(host, name, text, returned, verdict);
    var (err, res) := Rendered(host, returned);
    var tmp := name + NL + host.noComments(text) + NL + (if err then "Error : " else "Result: ") + host.noComments(res) + NL;
    if verdict.None? {
      assert e == tmp + NL;
      assert e[|e| - 2..] == NL + NL;
    } else {
      var tail := "Expect: " + host.noComments(verdict.value) + NL + NL;
      assert e == tmp + tail;
      assert e[|e| - |tail|..] == tail;
    }
  }

  predicate EndsWith(s: string, suffix: string)
  {
    |suffix| <= |s| && s[|s| - |suffix|..] == suffix
  }

  /** A case whose query file cannot be read is counted as tested and leaves no transcript. */
  lemma UnreadableQueryAbandoned(eng: Engine, errors: bool, host: Host, genvs: seq<Env>, tc: CaseElement, envs: seq<Env>,
                                 baseURI: string, baseDir: string)
    requires tc.queryFile != "" && host.read(baseDir, tc.queryFile).None?
    ensures CaseOutcome(eng, errors, host, genvs, tc, envs, baseURI, baseDir) == Abandoned
  {
  }

  /**
   * The base URI of the test set is set on the query, as its first call, exactly when the
   * catalog list was not consulted.
   */
  lemma TestSetBaseURI(tc: CaseElement, envs: seq<Env>, genvs: seq<Env>, body: string, baseURI: string, baseDir: string)
    ensures var q := BuildQuery(tc, Resolve(tc.inline, tc.envRef, envs, genvs), body, baseURI, baseDir);
      (|q.calls| > 0 && q.calls[0] == SetBaseURI(baseURI)) <==> !(tc.inline.None? && tc.envRef != "" && !Names(envs, tc.envRef))
  {
    var r := Resolve(tc.inline, tc.envRef, envs, genvs);
    var mods := ModuleCalls(ModulePairs(ModuleItems(tc.modules), baseDir));
    if !r.base {
      var rest := mods + (if r.env.Some? then EnvCalls(r.env.value, r.base) else []);
      assert BuildQuery(tc, r, body, baseURI, baseDir).calls == [] + mods + (if r.env.Some? then EnvCalls(r.env.value, r.base) else []);
      assert [] + mods == mods;
      if |rest| > 0 {
        if |mods| > 0 {
          assert rest[0] == mods[0];
        } else {
          assert rest == EnvCalls(r.env.value, r.base);
          EnvCallsSetNoTestSetBase(r.env.value, r.base);
        }
      }
    }
  }

  /**
   * When the environment has its own base URI, the last base URI set on the query is the
   * environment's, whatever the test set's: line 352 overrides line 302.
   */
  lemma EnvBaseURIOverrides(tc: CaseElement, r: Resolution, body: string, baseURI: string, baseDir: string)
    requires r.env.Some? && r.env.value.baseURI.Some?
    ensures var q := BuildQuery(tc, r, body, baseURI, baseDir);
      exists k :: 0 <= k < |q.calls| && q.calls[k] == SetBaseURI(r.env.value.baseURI.value) &&
        forall j :: k < j < |q.calls| ==> !q.calls[j].SetBaseURI?
  {
    var env := r.env.value;
    var pre := (if r.base then [SetBaseURI(baseURI)] else []) + ModuleCalls(ModulePairs(ModuleItems(tc.modules), baseDir));
    var ec := EnvCalls(env, r.base);
    var q := BuildQuery(tc, r, body, baseURI, baseDir);
    assert q.calls == pre + ec;
    EnvBaseURIWins(env, r.base);
    var k :| 0 <= k < |ec| && ec[k] == SetBaseURI(env.baseURI.value) && forall j :: k < j < |ec| ==> !ec[j].SetBaseURI?;
    assert q.calls[|pre| + k] == ec[k];
    forall j | |pre| + k < j < |q.calls| ensures !q.calls[j].SetBaseURI? {
      assert q.calls[j] == ec[j - |pre|];
    }
  }

  /** One progress dot is written per 500 test cases, before the first of them. */
  lemma DotStep(t: nat)
    ensures (t + 500) / 500 == (t + 499) / 500 + (if t % 500 == 0 then 1 else 0)
  {
    var q := t / 500;
    var r := t % 500;
    assert t == 500 * q + r;
    assert t + 500 == 500 * (q + 1) + r;
    if r == 0 {
      assert t + 499 == 500 * q + 499;
    } else {
      assert t + 499 == 500 * (q + 1) + (r - 1);
    }
  }

  /** The driver: the counters and transcripts that `testSet` and `testCase` update. */
  class Driver {
    /** The name prefix a tested case must start with. */
    const single: string
    /** Whether error codes are compared. */
    const errors: bool
    /** Whether ignored cases are listed. */
    const ignoring: bool
    /** The environments of the catalog. */
    const genvs: seq<Env>
    const engine: Engine
    const host: Host

    var total: nat
    var tested: nat
    var correct: nat
    var ignored: nat
    /** The progress dots written so far. */
    var dots: nat
    var right: string
    var wrong: string
    var ignore: string
    var baseURI: string
    var baseDir: string

    /** Every case is tested or ignored, only tested cases are correct, and one dot stands for 500 cases. */
    predicate Valid()
      reads this
    {
      total == tested + ignored && correct <= tested && dots == (total + 499) / 500 && (!ignoring ==> ignore == "")
    }

    function Counters(): Tally
      reads this
    {
      Tally(total, tested, correct, ignored, dots, right, wrong, ignore)
    }

    /** What `testCase` does to the counters and transcripts, for a set with directory `baseDir`. */
    function AfterCase(t: Tally, tc: CaseElement, envs: seq<Env>, baseURI: string, baseDir: string): (r: Tally)
      ensures r.total == t.total + 1 && r.dots == t.dots + (if t.total % 500 == 0 then 1 else 0)
      ensures Skipped(tc, single) <==> r.ignored == t.ignored + 1
      ensures r.tested + r.ignored == t.tested + t.ignored + 1
      ensures t.correct <= r.correct <= t.correct + (r.tested - t.tested)
      ensures !ignoring ==> r.ignore == t.ignore
    {
      var t := t.(total := t.total + 1, dots := t.dots + (if t.total % 500 == 0 then 1 else 0));
      if Skipped(tc, single) then
        t.(ignored := t.ignored + 1, ignore := t.ignore + (if ignoring then tc.name + NL else ""))
      else
        Recorded(t.(tested := t.tested + 1), CaseOutcome(engine, errors, host, genvs, tc, envs, baseURI, baseDir))
    }

    /** The cases of a test set, handled in document order. */
    function AfterCases(t: Tally, cases: seq<CaseElement>, envs: seq<Env>, baseURI: string, baseDir: string): Tally
    {
      if |cases| == 0 then t
      else AfterCase(AfterCases(t, cases[..|cases| - 1], envs, baseURI, baseDir), cases[|cases| - 1], envs, baseURI, baseDir)
    }

    constructor(single: string, errors: bool, ignoring: bool, genvs: seq<Env>, engine: Engine, host: Host)
      ensures Valid()
      ensures this.single == single && this.errors == errors && this.ignoring == ignoring
      ensures this.genvs == genvs && this.engine == engine && this.host == host
      ensures total == 0 && tested == 0 && correct == 0 && ignored == 0 && dots == 0
      ensures right == "" && wrong == "" && ignore == ""
    {
      this.single := single;
      this.errors := errors;
      this.ignoring := ignoring;
      this.genvs := genvs;
      this.engine := engine;
      this.host := host;
      total, tested, correct, ignored, dots := 0, 0, 0, 0, 0;
      right, wrong, ignore := "", "", "";
      baseURI, baseDir := "", "";
    }

    /** `testSet`: an unsupported set changes no counter and no transcript. */
    method TestSet(ts: SetDocument)
      requires Valid()
      modifies this
      ensures Valid()
      ensures baseURI == ts.baseURI && baseDir == ts.baseDir
      ensures !Supported(ts.meta) ==>
        total == old(total) && tested == old(tested) && correct == old(correct) && ignored == old(ignored) &&
        dots == old(dots) && right == old(right) && wrong == old(wrong) && ignore == old(ignore)
      ensures Supported(ts.meta) ==> total == old(total) + |ts.cases|
      ensures Supported(ts.meta) ==>
        Counters() == AfterCases(old(Counters()), ts.cases, ts.envs, ts.baseURI, ts.baseDir)
      ensures old(tested) <= tested <= old(tested) + (total - old(total))
      ensures old(correct) <= correct
    {
      baseURI := ts.baseURI;
      baseDir := ts.baseDir;
      if Supported(ts.meta) {
        for i := 0 to |ts.cases|
          invariant Valid()
          invariant baseURI == ts.baseURI && baseDir == ts.baseDir
          invariant total == old(total) + i
          invariant old(tested) <= tested <= old(tested) + i
          invariant old(correct) <= correct
          invariant Counters() == AfterCases(old(Counters()), ts.cases[..i], ts.envs, ts.baseURI, ts.baseDir)
        {
          assert ts.cases[..i + 1][..i] == ts.cases[..i];
          TestCase(ts.cases[i], ts.envs);
        }
        assert ts.cases[..|ts.cases|] == ts.cases;
      }
    }

    /** The first line of `testCase`: a progress dot before every 500th case, then the case is counted. */
    method Tick()
      requires dots == (total + 499) / 500
      modifies this
      ensures total == old(total) + 1 && dots == (total + 499) / 500
      ensures dots == old(dots) + (if old(total) % 500 == 0 then 1 else 0)
      ensures tested == old(tested) && correct == old(correct) && ignored == old(ignored)
      ensures right == old(right) && wrong == old(wrong) && ignore == old(ignore)
      ensures baseURI == old(baseURI) && baseDir == old(baseDir)
    {
      DotStep(total);
      if total % 500 == 0 {
        dots := dots + 1;
      }
      total := total + 1;
    }

    /** `testCase`: counts the case, then ignores it or runs it and records its transcript entry. */
    method TestCase(tc: CaseElement, envs: seq<Env>)
      requires Valid()
      modifies this
      ensures Valid()
      ensures baseURI == old(baseURI) && baseDir == old(baseDir)
      ensures Counters() == AfterCase(old(Counters()), tc, envs, old(baseURI), old(baseDir))
    {
      ghost var t0 := Counters();
      Tick();
      ghost var t1 := t0.(total := t0.total + 1, dots := t0.dots + (if t0.total % 500 == 0 then 1 else 0));
      assert Counters() == t1;

      if !Supported(tc.meta) || !StartsWith(tc.name, single) {
        Ignore(tc.name);
        return;
      }
      tested := tested + 1;
      assert Counters() == t1.(tested := t1.tested + 1);

      var outcome := RunCase(tc, envs, baseURI, baseDir);
      Record(outcome);
    }

    /** An ignored case: counted, and listed when ignored cases are listed. */
    method Ignore(name: string)
      modifies this
      ensures ignored == old(ignored) + 1 && ignore == old(ignore) + (if ignoring then name + NL else "")
      ensures total == old(total) && tested == old(tested) && correct == old(correct) && dots == old(dots)
      ensures right == old(right) && wrong == old(wrong) && baseURI == old(baseURI) && baseDir == old(baseDir)
    {
      if ignoring {
        ignore := ignore + name + NL;
      }
      ignored := ignored + 1;
    }

    /** The end of `testCase`, on the driver's fields. */
    method Record(outcome: Outcome)
      modifies this
      ensures Counters() == Recorded(old(Counters()), outcome)
      ensures baseURI == old(baseURI) && baseDir == old(baseDir)
    {
      if outcome.Abandoned? {
        return;
      }
      if outcome.verdict.None? {
        right := right + outcome.entry;
        correct := correct + 1;
      } else {
        wrong := wrong + outcome.entry;
      }
    }

    /** The part of `testCase` that prepares, runs and judges the query; an unreadable query file abandons the case. */
    method RunCase(tc: CaseElement, envs: seq<Env>, baseURI: string, baseDir: string) returns (outcome: Outcome)
      ensures outcome == CaseOutcome(engine, errors, host, genvs, tc, envs, baseURI, baseDir)
    {
      var r := Resolve(tc.inline, tc.envRef, envs, genvs);
      var body: string;
      if tc.queryFile == "" {
        body := tc.queryText;
      } else {
        var read := host.read(baseDir, tc.queryFile);
        if read.None? {
          return Abandoned;
        }
        body := read.value;
      }

      var text := PrepareQuery(r.env, body);
      var calls: seq<Call> := [];
      if r.base {
        calls := [SetBaseURI(baseURI)];
      }
      var modules := AddModules(ModuleItems(tc.modules), baseDir);
      calls := calls + ModuleCalls(modules);
      if r.env.Some? {
        var bindings := BindEnvironment(r.env.value, r.base);
        calls := calls + bindings;
      }
      var query := Query(text, calls);
      assert query == BuildQuery(tc, r, body, baseURI, baseDir);
      var returned := host.run(query);

      var exp := Test(engine, errors, returned, tc.expected);
      var entry := Entry(host, tc.name, text, returned, exp);
      outcome := Ran(exp, entry);
    }
  }
}

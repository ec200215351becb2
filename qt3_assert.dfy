/**
 * The assertion evaluator of the QT3 driver (`QT3TS.test` and the `assert...` methods):
 * given what a test query returned and the expected-result element, it yields `None`
 * when the test passes and otherwise a description of the expected result.
 */
module QT3Assert {
  import opened Strings
  import opened QT3Values

  // ---------------------------------------------------------------------------
  // error

  /**
   * The first `}` at or after position `i` that has at least one character after it:
   * where the lazy group of the EQName pattern `^Q\{(.*?)\}(.+)$` ends.
   */
  function CloseBrace(s: string, i: nat): (r: Option<nat>)
    ensures r.Some? ==> i <= r.value && r.value + 1 < |s| && s[r.value] == '}'
    ensures r.Some? ==> forall j :: i <= j < r.value ==> s[j] != '}'
    ensures r.None? ==> forall j :: i <= j < |s| - 1 ==> s[j] != '}'
    decreases |s| - i
  {
    if i + 1 >= |s| then None
    else if s[i] == '}' then Some(i)
    else CloseBrace(s, i + 1)
  }

  /** The QName an `error` assertion expects: an EQName `Q{uri}local`, or a local name in the standard error namespace. */
  function ExpectedErrorName(code: string): QName
  {
    if StartsWith(code, "Q{") then
      match CloseBrace(code, 2)
      case Some(k) => QName(code[2..k], code[k + 1..])
      case None => QName(ErrorURI, code)
    else QName(ErrorURI, code)
  }

  /** `assertError`: fails with the expected code unless an error was raised and its name matches. */
  function AssertError(errors: bool, returned: Returned, expected: Assertion): (msg: Option<string>)
    ensures msg.None? || msg == Some(expected.code)
    ensures returned.xqerror.None? ==> msg == Some(expected.code)
    ensures returned.xqerror.Some? && (!errors || expected.code == "*") ==> msg.None?
    ensures returned.xqerror.Some? && errors && expected.code != "*" ==>
      (msg.None? <==> ExpectedErrorName(expected.code) == returned.xqerror.value.name)
  {
    if returned.xqerror.None? then Some(expected.code)
    else if !errors || expected.code == "*" then None
    else if ExpectedErrorName(expected.code) == returned.xqerror.value.name then None
    else Some(expected.code)
  }

  /** Writing a QName as an EQName and reading it back gives the QName, for URIs without `}`. */
  lemma EQNameRoundTrip(uri: string, local: string)
    requires local != []
    requires forall j :: 0 <= j < |uri| ==> uri[j] != '}'
    ensures ExpectedErrorName("Q{" + uri + "}" + local) == QName(uri, local)
  {
    var code := "Q{" + uri + "}" + local;
    assert StartsWith(code, "Q{") by { assert code[..2] == "Q{"; }
    var r := CloseBrace(code, 2);
    var k := |uri| + 2;
    assert code[k] == '}';
    if r.None? {
      assert false;
    } else {
      assert forall j :: 2 <= j < k ==> code[j] == uri[j - 2];
      assert r.value == k;
      assert code[2..k] == uri;
      assert code[k + 1..] == local;
    }
  }

  /** A code that is not an EQName names an error in the standard error namespace. */
  lemma PlainCodeUsesErrorURI(code: string)
    requires !StartsWith(code, "Q{")
    ensures ExpectedErrorName(code) == QName(ErrorURI, code)
  {
  }

  /** `Q{u}` with nothing after the brace is not an EQName match: it is compared as a local name. */
  lemma BraceAtEndIsLocalName(uri: string)
    requires forall j :: 0 <= j < |uri| ==> uri[j] != '}'
    ensures ExpectedErrorName("Q{" + uri + "}") == QName(ErrorURI, "Q{" + uri + "}")
  {
    var code := "Q{" + uri + "}";
    assert StartsWith(code, "Q{") by { assert code[..2] == "Q{"; }
    assert forall j :: 2 <= j < |code| - 1 ==> code[j] == uri[j - 2];
  }

  // ---------------------------------------------------------------------------
  // assert-serialization-error

  /** The code of an error matches the expected code, or codes are not compared. */
  predicate CodeMatches(errors: bool, code: string, name: QName)
  {
    !errors || code == "*" || name.local == code
  }

  /** `assertSerializationError`, with the serialiser as an oracle that may raise a coded error. */
  function AssertSerializationError(errors: bool, returned: Returned, code: string, serialize: (Value, SerialParams) -> Serialized): (msg: Option<string>)
    ensures msg.None? <==>
      (returned.xqerror.Some? && CodeMatches(errors, code, returned.xqerror.value.name)) ||
      (returned.value.Some? && serialize(returned.value.value, returned.sprop).SerialError? &&
       CodeMatches(errors, code, serialize(returned.value.value, returned.sprop).name))
    ensures returned.value.None? && msg.Some? ==> msg == Some(code)
  {
    if returned.xqerror.Some? && CodeMatches(errors, code, returned.xqerror.value.name) then None
    else if returned.value.None? then Some(code)
    else
      match serialize(returned.value.value, returned.sprop)
      case Serialized(_) => Some(code)
      case SerialError(name, text) =>
        if CodeMatches(errors, code, name) then None else Some(code + " (found: " + text + ")")
      case IOFailure(text) => Some(code + " (found: " + text + ")")
  }

  // ---------------------------------------------------------------------------
  // Assertions on the returned value

  /** `assertCount`: the expected count is the integer value of the element, which may fail to convert. */
  function AssertCount(count: Res<int>, value: Value): (r: Res<Option<string>>)
    ensures count.Raised? ==> r == Raised(count.message)
    ensures count.Ok? ==> r.Ok? && (r.value.None? <==> count.value == |value.items|)
  {
    match count
    case Raised(m) => Raised(m)
    case Ok(n) =>
      if n == |value.items| then Ok(None)
      else Ok(Some(IntToString(n) + " items (" + NatToString(|value.items|) + " found)"))
  }

  /** The value is a single xs:boolean item equal to `b`. */
  predicate IsBoolean(value: Value, b: bool)
  {
    |value.items| == 1 && value.items[0].boolean == Some(b)
  }

  /** `assertBoolean`: fails with the text of the expected boolean. */
  function AssertBoolean(value: Value, expected: bool): (msg: Option<string>)
    ensures msg.None? <==> IsBoolean(value, expected)
    ensures msg.Some? ==> msg.value == (if expected then "true" else "false")
  {
    if IsBoolean(value, expected) then None else Some(if expected then "true" else "false")
  }

  /** `assertEmpty`: fails with the empty description. */
  function AssertEmpty(value: Value): (msg: Option<string>)
    ensures msg.None? <==> value.items == []
    ensures msg.Some? ==> msg.value == ""
  {
    if |value.items| == 0 then None else Some("")
  }

  function ItemStrings(items: seq<Item>): (r: seq<string>)
    ensures |r| == |items| && forall i :: 0 <= i < |items| ==> r[i] == items[i].str
  {
    if |items| == 0 then [] else ItemStrings(items[..|items| - 1]) + [items[|items| - 1].str]
  }

  /** The string compared by `assert-string-value`: the space-joined string values of the items. */
  function StringValueVerdict(normalize: string -> string, expected: Assertion, value: Value): Option<string>
  {
    var exp := if expected.normalizeSpace then normalize(expected.text) else expected.text;
    var joined := Join(ItemStrings(value.items), " ");
    var res := if expected.normalizeSpace then normalize(joined) else joined;
    if exp == res then None else Some(exp)
  }

  /** `assertStringValue`. */
  method AssertStringValue(normalize: string -> string, expected: Assertion, value: Value) returns (msg: Option<string>)
    ensures msg == StringValueVerdict(normalize, expected, value)
    ensures msg.None? <==>
      (if expected.normalizeSpace then normalize(expected.text) == normalize(Join(ItemStrings(value.items), " "))
       else expected.text == Join(ItemStrings(value.items), " "))
  {
    var exp := expected.text;
    if expected.normalizeSpace {
      exp := normalize(exp);
    }
    var items := value.items;
    ghost var strs := ItemStrings(items);
    var tb := "";
    var c := 0;
    for i := 0 to |items|
      invariant c == i
      invariant tb == Join(strs[..i], " ")
    {
      if c != 0 {
        tb := tb + " ";
      }
      c := c + 1;
      tb := tb + items[i].str;
      assert strs[..i + 1][..i] == strs[..i];
    }
    assert strs[..|items|] == strs;
    var res := if expected.normalizeSpace then normalize(tb) else tb;
    msg := if exp == res then None else Some(exp);
  }

  // ---------------------------------------------------------------------------
  // assert-permutation

  function SetOf(xs: seq<string>): set<string>
  {
    set x | x in xs
  }

  /** The first string of the enumeration that is not in `s`. */
  function FirstMissing(xs: seq<string>, s: set<string>): (r: Option<string>)
    ensures r.Some? ==> r.value in xs && r.value !in s
    ensures r.None? <==> forall x :: x in xs ==> x in s
  {
    if |xs| == 0 then None
    else if xs[0] !in s then Some(xs[0])
    else
      var r := FirstMissing(xs[1..], s);
      assert forall x :: x in xs ==> x == xs[0] || x in xs[1..];
      r
  }

  /** The enumeration lists exactly the members of the set. */
  ghost predicate Enumerates(xs: seq<string>, s: set<string>)
  {
    forall x :: x in xs <==> x in s
  }

  /**
   * `assertPermutation` on the expected and returned string values: both are collected
   * into hash sets, compared by size, and then each set is searched, in the hash set's
   * iteration order, for a string missing from the other.
   */
  function PermutationVerdict(expected: seq<string>, returned: seq<string>, order: set<string> -> seq<string>): Option<string>
  {
    var exp := SetOf(expected);
    var res := SetOf(returned);
    if |exp| != |res| then Some(NatToString(|exp|) + " results (found: " + NatToString(|res|) + ")")
    else
      match FirstMissing(order(exp), res)
      case Some(s) => Some(s + " (missing)")
      case None =>
        match FirstMissing(order(res), exp)
        case Some(s) => Some(s + " (missing in expected result)")
        case None => None
  }

  function PermutationResult(eng: Engine, expected: Assertion, value: Value): Res<Option<string>>
  {
    match eng.evaluate(expected.text)
    case Raised(m) => Raised(m)
    case Ok(strs) => Ok(PermutationVerdict(strs, ItemStrings(value.items), eng.order))
  }

  /** Fills a hash set from a list of strings. */
  method CollectSet(xs: seq<string>) returns (s: set<string>)
    ensures s == SetOf(xs)
  {
    s := {};
    for i := 0 to |xs|
      invariant s == SetOf(xs[..i])
    {
      s := s + {xs[i]};
      assert xs[..i + 1] == xs[..i] + [xs[i]];
    }
    assert xs[..|xs|] == xs;
  }

  /** Searches an enumeration for a string missing from `s`. */
  method FindMissing(xs: seq<string>, s: set<string>) returns (r: Option<string>)
    ensures r == FirstMissing(xs, s)
  {
    for i := 0 to |xs|
      invariant FirstMissing(xs, s) == FirstMissing(xs[i..], s)
    {
      if xs[i] !in s {
        return Some(xs[i]);
      }
      assert xs[i..][1..] == xs[i + 1..];
    }
    return None;
  }

  method AssertPermutation(eng: Engine, expected: Assertion, value: Value) returns (r: Res<Option<string>>)
    ensures r == PermutationResult(eng, expected, value)
  {
    var evaluated := eng.evaluate(expected.text);
    if evaluated.Raised? {
      return Raised(evaluated.message);
    }
    var exp := CollectSet(evaluated.value);
    var res := CollectSet(ItemStrings(value.items));
    if |exp| != |res| {
      return Ok(Some(NatToString(|exp|) + " results (found: " + NatToString(|res|) + ")"));
    }
    var missing := FindMissing(eng.order(exp), res);
    if missing.Some? {
      return Ok(Some(missing.value + " (missing)"));
    }
    missing := FindMissing(eng.order(res), exp);
    if missing.Some? {
      return Ok(Some(missing.value + " (missing in expected result)"));
    }
    return Ok(None);
  }

  lemma SubsetOfSameSize(a: set<string>, b: set<string>)
    requires a <= b && |a| == |b|
    ensures a == b
  {
    var extra := b - a;
    assert b == a + extra;
    assert a * extra == {};
    assert |b| == |a| + |extra|;
  }

  /**
   * With iteration orders that enumerate the sets, a permutation passes exactly when the sets
   * of string values are equal; a failing one with equal sizes names a string of the expected
   * set missing from the result, and the "missing in expected result" report is never reached.
   */
  lemma PermutationPassIff(expected: seq<string>, returned: seq<string>, order: set<string> -> seq<string>)
    requires Enumerates(order(SetOf(expected)), SetOf(expected))
    requires Enumerates(order(SetOf(returned)), SetOf(returned))
    ensures PermutationVerdict(expected, returned, order).None? <==> SetOf(expected) == SetOf(returned)
    ensures |SetOf(expected)| == |SetOf(returned)| && SetOf(expected) != SetOf(returned) ==>
      exists s :: s in SetOf(expected) && s !in SetOf(returned) &&
        PermutationVerdict(expected, returned, order) == Some(s + " (missing)")
  {
    var exp := SetOf(expected);
    var res := SetOf(returned);
    if |exp| == |res| {
      var m := FirstMissing(order(exp), res);
      if m.None? {
        assert exp <= res;
        SubsetOfSameSize(exp, res);
        assert FirstMissing(order(res), exp).None?;
      } else {
        assert m.value in exp && m.value !in res;
      }
    }
  }

  /** Duplicates collapse: the string values are compared as sets, not as multisets. */
  lemma DuplicatesCollapse(order: set<string> -> seq<string>)
    requires Enumerates(order({"1", "2"}), {"1", "2"})
    ensures PermutationVerdict(["1", "1", "2"], ["1", "2", "2"], order).None?
  {
    assert SetOf(["1", "1", "2"]) == {"1", "2"};
    assert SetOf(["1", "2", "2"]) == {"1", "2"};
    PermutationPassIff(["1", "1", "2"], ["1", "2", "2"], order);
  }

  // ---------------------------------------------------------------------------
  // all-of and any-of

  /** What `tb.add(tb.isEmpty() ? "" : ", ").add(msg)` leaves in the token builder. */
  function Accumulate(tb: string, msg: string): string
  {
    tb + (if tb == "" then "" else ", ") + msg
  }

  /** The token builder after accumulating the messages in order. */
  function Joined(msgs: seq<string>): string
  {
    if |msgs| == 0 then "" else Accumulate(Joined(msgs[..|msgs| - 1]), msgs[|msgs| - 1])
  }

  /** The failure messages of the children, in child order. */
  function Failures(verdicts: seq<Option<string>>): (r: seq<string>)
    ensures r == [] <==> forall i :: 0 <= i < |verdicts| ==> verdicts[i].None?
  {
    if |verdicts| == 0 then []
    else
      var last := verdicts[|verdicts| - 1];
      var init := Failures(verdicts[..|verdicts| - 1]);
      var r := init + (if last.Some? then [last.value] else []);
      assert r == [] ==> forall i :: 0 <= i < |verdicts| ==> verdicts[i].None? by {
        if r == [] {
          forall i | 0 <= i < |verdicts| ensures verdicts[i].None? {
            if i < |verdicts| - 1 { assert verdicts[..|verdicts| - 1][i] == verdicts[i]; }
          }
        }
      }
      r
  }

  lemma FailuresStep(verdicts: seq<Option<string>>, i: nat)
    requires i < |verdicts|
    ensures Failures(verdicts[..i + 1]) ==
      Failures(verdicts[..i]) + (if verdicts[i].Some? then [verdicts[i].value] else [])
  {
    assert verdicts[..i + 1][..i] == verdicts[..i];
  }

  lemma JoinedStep(msgs: seq<string>, m: string)
    ensures Joined(msgs + [m]) == Accumulate(Joined(msgs), m)
  {
    assert (msgs + [m])[..|msgs|] == msgs;
  }

  /** One failing child adds its message to the token builder. */
  lemma AccumulateStep(verdicts: seq<Option<string>>, i: nat)
    requires i < |verdicts| && verdicts[i].Some?
    ensures Joined(Failures(verdicts[..i + 1])) == Accumulate(Joined(Failures(verdicts[..i])), verdicts[i].value)
    ensures Failures(verdicts[..i + 1]) != []
  {
    FailuresStep(verdicts, i);
    JoinedStep(Failures(verdicts[..i]), verdicts[i].value);
  }

  /**
   * `allOf` as written: the token builder decides the verdict, so failures whose messages are
   * all empty leave it empty and the all-of passes.
   */
  function AllOfAsWritten(verdicts: seq<Option<string>>): (msg: Option<string>)
    ensures msg.None? <==> forall i :: 0 <= i < |verdicts| ==> verdicts[i].None? || verdicts[i] == Some("")
  {
    var tb := Joined(Failures(verdicts));
    JoinedEmptyIff(Failures(verdicts));
    FailuresAllEmpty(verdicts);
    if tb == "" then None else Some(tb)
  }

  /** The token builder stays empty exactly when every accumulated message is empty. */
  lemma {:induction false} JoinedEmptyIff(msgs: seq<string>)
    ensures Joined(msgs) == "" <==> forall i :: 0 <= i < |msgs| ==> msgs[i] == ""
  {
    if |msgs| > 0 {
      var init := msgs[..|msgs| - 1];
      JoinedEmptyIff(init);
      assert forall i :: 0 <= i < |init| ==> init[i] == msgs[i];
    }
  }

  /** Every message is empty. */
  predicate EmptyMessages(msgs: seq<string>)
  {
    forall i :: 0 <= i < |msgs| ==> msgs[i] == ""
  }

  /** Every child passes or fails with an empty message. */
  predicate PassOrEmpty(verdicts: seq<Option<string>>)
  {
    forall i :: 0 <= i < |verdicts| ==> verdicts[i].None? || verdicts[i] == Some("")
  }

  /** Every failure message is empty exactly when every child passes or fails with `""`. */
  lemma {:induction false} FailuresAllEmpty(verdicts: seq<Option<string>>)
    ensures EmptyMessages(Failures(verdicts)) <==> PassOrEmpty(verdicts)
  {
    if |verdicts| > 0 {
      var n := |verdicts| - 1;
      var init := verdicts[..n];
      var last := verdicts[n];
      var ext := if last.Some? then [last.value] else [];
      FailuresAllEmpty(init);
      assert verdicts[..n + 1] == verdicts;
      FailuresStep(verdicts, n);
      assert Failures(verdicts) == Failures(init) + ext;
      assert EmptyMessages(Failures(init) + ext) <==> EmptyMessages(Failures(init)) && EmptyMessages(ext) by {
        var fi := Failures(init);
        assert forall k :: 0 <= k < |fi| ==> (fi + ext)[k] == fi[k];
        assert forall k :: 0 <= k < |ext| ==> (fi + ext)[|fi| + k] == ext[k];
      }
      assert EmptyMessages(ext) <==> last.None? || last == Some("") by {
        if last.Some? { assert ext[0] == last.value; }
      }
      assert PassOrEmpty(verdicts) <==> PassOrEmpty(init) && (last.None? || last == Some("")) by {
        assert forall k :: 0 <= k < n ==> init[k] == verdicts[k];
      }
    }
  }

  /** `allOf` as intended: it fails when some child fails, with the accumulated messages. */
  function AllOfVerdict(verdicts: seq<Option<string>>): (msg: Option<string>)
    ensures msg.None? <==> forall i :: 0 <= i < |verdicts| ==> verdicts[i].None?
  {
    if Failures(verdicts) == [] then None else Some(Joined(Failures(verdicts)))
  }

  /** `anyOf`: passes at the first passing child, otherwise lists every message in braces. */
  function AnyOfVerdict(verdicts: seq<Option<string>>): (msg: Option<string>)
    ensures msg.None? <==> exists i :: 0 <= i < |verdicts| && verdicts[i].None?
  {
    if exists i :: 0 <= i < |verdicts| && verdicts[i].None? then None
    else Some("any of { " + Joined(Failures(verdicts)) + " }")
  }

  lemma AnyOfPasses(verdicts: seq<Option<string>>, i: nat)
    requires i < |verdicts| && verdicts[i].None?
    ensures AnyOfVerdict(verdicts) == None
  {
  }

  /** Every child failed. */
  predicate AllFail(verdicts: seq<Option<string>>)
  {
    forall j :: 0 <= j < |verdicts| ==> verdicts[j].Some?
  }

  lemma AllFailStep(verdicts: seq<Option<string>>, i: nat)
    requires i < |verdicts| && AllFail(verdicts[..i]) && verdicts[i].Some?
    ensures AllFail(verdicts[..i + 1])
  {
    assert forall j :: 0 <= j < i ==> verdicts[..i + 1][j] == verdicts[..i][j];
  }

  lemma AnyOfFails(verdicts: seq<Option<string>>)
    requires AllFail(verdicts)
    ensures AnyOfVerdict(verdicts) == Some("any of { " + Joined(Failures(verdicts)) + " }")
  {
  }

  /** Accumulating non-empty messages is joining them with ", ". */
  lemma {:induction false} JoinedIsJoin(msgs: seq<string>)
    requires forall i :: 0 <= i < |msgs| ==> msgs[i] != ""
    ensures Joined(msgs) == Join(msgs, ", ")
    ensures |msgs| > 0 ==> Joined(msgs) != ""
  {
    if |msgs| > 0 {
      JoinedIsJoin(msgs[..|msgs| - 1]);
    }
  }

  /** When no child fails with an empty message, `allOf` as written agrees with the corrected verdict. */
  lemma AllOfAgreesWithoutEmptyMessages(verdicts: seq<Option<string>>)
    requires forall i :: 0 <= i < |verdicts| ==> verdicts[i] != Some("")
    ensures AllOfAsWritten(verdicts) == AllOfVerdict(verdicts)
  {
    NoEmptyFailures(verdicts);
    JoinedIsJoin(Failures(verdicts));
  }

  lemma {:induction false} NoEmptyFailures(verdicts: seq<Option<string>>)
    requires forall i :: 0 <= i < |verdicts| ==> verdicts[i] != Some("")
    ensures forall i :: 0 <= i < |Failures(verdicts)| ==> Failures(verdicts)[i] != ""
  {
    if |verdicts| > 0 {
      NoEmptyFailures(verdicts[..|verdicts| - 1]);
    }
  }

  /** The discrepancy: a single child failing with "" makes `allOf` as written pass. */
  lemma AllOfAsWrittenPassesEmptyFailure()
    ensures AllOfAsWritten([Some("")]) == None
    ensures AllOfVerdict([Some("")]) == Some("")
  {
    assert [Some("")][..0] == [];
  }

  // ---------------------------------------------------------------------------
  // Dispatcher

  /** The assertion kinds whose verdict needs the engine to evaluate XQuery. */
  predicate IsEngineKind(kind: string)
  {
    kind in {"assert", "assert-deep-eq", "assert-eq", "assert-xml", "serialization-matches", "assert-type"}
  }

  /** The assertion kinds that are checked even when the query returned no value. */
  predicate IsValueFreeKind(kind: string)
  {
    kind in {"error", "assert-serialization-error", "all-of", "any-of"}
  }

  /** A Java exception thrown while checking is caught by `test` and reported. */
  function Caught(r: Res<Option<string>>): Option<string>
  {
    match r
    case Ok(msg) => msg
    case Raised(m) => Some("Exception: " + m)
  }

  /** The branch of `test` for a query that returned a value. */
  function ValueVerdict(eng: Engine, a: Assertion, value: Value, sprop: SerialParams): Res<Option<string>>
  {
    if IsEngineKind(a.kind) then eng.judge(a, value, sprop)
    else if a.kind == "assert-count" then AssertCount(eng.integer(a), value)
    else if a.kind == "assert-empty" then Ok(AssertEmpty(value))
    else if a.kind == "assert-false" then Ok(AssertBoolean(value, false))
    else if a.kind == "assert-permutation" then PermutationResult(eng, a, value)
    else if a.kind == "assert-string-value" then Ok(StringValueVerdict(eng.normalize, a, value))
    else if a.kind == "assert-true" then Ok(AssertBoolean(value, true))
    else Ok(Some("Test type not supported: " + a.kind))
  }

  /** `test`: dispatches on the local name of the expected-result element. */
  function Verdict(eng: Engine, errors: bool, ret: Returned, a: Assertion): Option<string>
    decreases a, 1
  {
    if a.kind == "error" then AssertError(errors, ret, a)
    else if a.kind == "assert-serialization-error" then AssertSerializationError(errors, ret, a.code, eng.serialize)
    else if a.kind == "all-of" then AllOfVerdict(ChildVerdicts(eng, errors, ret, a))
    else if a.kind == "any-of" then AnyOfVerdict(ChildVerdicts(eng, errors, ret, a))
    else if ret.value.None? then Some(a.rendering)
    else Caught(ValueVerdict(eng, a, ret.value.value, ret.sprop))
  }

  /** The verdicts of the element children, in document order. */
  function ChildVerdicts(eng: Engine, errors: bool, ret: Returned, a: Assertion): (r: seq<Option<string>>)
    ensures |r| == |a.children|
    decreases a, 0
  {
    seq(|a.children|, i requires 0 <= i < |a.children| => Verdict(eng, errors, ret, a.children[i]))
  }

  /** `test` as a method: the same dispatch, with `allOf` and `anyOf` as loops. */
  method Test(eng: Engine, errors: bool, ret: Returned, a: Assertion) returns (msg: Option<string>)
    ensures msg == Verdict(eng, errors, ret, a)
    decreases a, 1
  {
    if a.kind == "error" {
      msg := AssertError(errors, ret, a);
    } else if a.kind == "assert-serialization-error" {
      msg := AssertSerializationError(errors, ret, a.code, eng.serialize);
    } else if a.kind == "all-of" {
      msg := AllOf(eng, errors, ret, a);
    } else if a.kind == "any-of" {
      msg := AnyOf(eng, errors, ret, a);
    } else if ret.value.None? {
      msg := Some(a.rendering);
    } else {
      var r := TestValue(eng, a, ret.value.value, ret.sprop);
      msg := Caught(r);
    }
  }

  /** The value branch of `test`, calling the looping assertions. */
  method TestValue(eng: Engine, a: Assertion, value: Value, sprop: SerialParams) returns (r: Res<Option<string>>)
    ensures r == ValueVerdict(eng, a, value, sprop)
  {
    if a.kind == "assert-permutation" {
      r := AssertPermutation(eng, a, value);
    } else if a.kind == "assert-string-value" {
      var msg := AssertStringValue(eng.normalize, a, value);
      r := Ok(msg);
    } else {
      r := ValueVerdict(eng, a, value, sprop);
    }
  }

  /** `allOf`: every child is checked; the failures are accumulated in child order. */
  method AllOf(eng: Engine, errors: bool, ret: Returned, a: Assertion) returns (msg: Option<string>)
    ensures msg == AllOfVerdict(ChildVerdicts(eng, errors, ret, a))
    decreases a, 0
  {
    ghost var verdicts := ChildVerdicts(eng, errors, ret, a);
    var tb := "";
    var failed := false;
    for i := 0 to |a.children|
      invariant tb == Joined(Failures(verdicts[..i]))
      invariant failed <==> Failures(verdicts[..i]) != []
    {
      var m := Test(eng, errors, ret, a.children[i]);
      assert m == verdicts[i];
      if m.Some? {
        AccumulateStep(verdicts, i);
        tb := tb + (if tb == "" then "" else ", ") + m.value;
        failed := true;
      } else {
        FailuresStep(verdicts, i);
        assert Failures(verdicts[..i + 1]) == Failures(verdicts[..i]);
      }
    }
    assert verdicts[..|a.children|] == verdicts;
    msg := if failed then Some(tb) else None;
  }

  /** `anyOf`: stops at the first passing child. */
  method AnyOf(eng: Engine, errors: bool, ret: Returned, a: Assertion) returns (msg: Option<string>)
    ensures msg == AnyOfVerdict(ChildVerdicts(eng, errors, ret, a))
    decreases a, 0
  {
    ghost var verdicts := ChildVerdicts(eng, errors, ret, a);
    var tb := "";
    for i := 0 to |a.children|
      invariant tb == Joined(Failures(verdicts[..i]))
      invariant AllFail(verdicts[..i])
    {
      var m := Test(eng, errors, ret, a.children[i]);
      assert m == verdicts[i];
      if m.None? {
        AnyOfPasses(verdicts, i);
        return None;
      }
      AccumulateStep(verdicts, i);
      AllFailStep(verdicts, i);
      tb := tb + (if tb == "" then "" else ", ") + m.value;
    }
    assert verdicts[..|a.children|] == verdicts;
    AnyOfFails(verdicts);
    msg := Some("any of { " + tb + " }");
  }

  // ---------------------------------------------------------------------------
  // Properties of the dispatcher

  /** Without a value, every kind but the four composite or error kinds fails with the element's rendering. */
  lemma NoValueFailsWithRendering(eng: Engine, errors: bool, ret: Returned, a: Assertion)
    requires ret.value.None? && !IsValueFreeKind(a.kind)
    ensures Verdict(eng, errors, ret, a) == Some(a.rendering)
  {
  }

  /** An unknown kind with a value fails as unsupported. */
  lemma UnknownKindUnsupported(eng: Engine, errors: bool, ret: Returned, a: Assertion)
    requires ret.value.Some? && !IsValueFreeKind(a.kind) && !IsEngineKind(a.kind)
    requires a.kind !in {"assert-count", "assert-empty", "assert-false", "assert-permutation", "assert-string-value", "assert-true"}
    ensures Verdict(eng, errors, ret, a) == Some("Test type not supported: " + a.kind)
  {
  }

  /** With code `*`, any raised error passes an `error` assertion. */
  lemma ErrorWildcard(eng: Engine, errors: bool, ret: Returned, a: Assertion)
    requires a.kind == "error" && a.code == "*" && ret.xqerror.Some?
    ensures Verdict(eng, errors, ret, a).None?
  {
  }

  /** An all-of passes exactly when every child passes; an empty all-of passes. */
  lemma AllOfPassIff(eng: Engine, errors: bool, ret: Returned, a: Assertion)
    requires a.kind == "all-of"
    ensures Verdict(eng, errors, ret, a).None? <==>
      forall i :: 0 <= i < |a.children| ==> Verdict(eng, errors, ret, a.children[i]).None?
  {
    var vs := ChildVerdicts(eng, errors, ret, a);
    assert forall i :: 0 <= i < |a.children| ==> vs[i] == Verdict(eng, errors, ret, a.children[i]);
  }

  /** An all-of of one child is that child. */
  lemma AllOfSingle(eng: Engine, errors: bool, ret: Returned, a: Assertion)
    requires a.kind == "all-of" && |a.children| == 1
    ensures Verdict(eng, errors, ret, a) == Verdict(eng, errors, ret, a.children[0])
  {
    var vs := ChildVerdicts(eng, errors, ret, a);
    var v := Verdict(eng, errors, ret, a.children[0]);
    assert vs == [v];
    assert vs[..0] == [];
    assert Verdict(eng, errors, ret, a) == AllOfVerdict(vs);
    if v.Some? {
      assert Failures(vs) == [v.value];
      assert [v.value][..0] == [];
      assert Joined([v.value]) == v.value;
    }
  }

  /** As written, an all-of passes exactly when every child passes or fails with an empty message. */
  lemma AllOfAsWrittenPassIff(eng: Engine, errors: bool, ret: Returned, a: Assertion)
    requires a.kind == "all-of"
    ensures AllOfAsWritten(ChildVerdicts(eng, errors, ret, a)).None? <==>
      forall i :: 0 <= i < |a.children| ==>
        Verdict(eng, errors, ret, a.children[i]) == None || Verdict(eng, errors, ret, a.children[i]) == Some("")
  {
    var vs := ChildVerdicts(eng, errors, ret, a);
    assert forall i :: 0 <= i < |a.children| ==> vs[i] == Verdict(eng, errors, ret, a.children[i]);
  }

  /**
   * The corrected all-of that `Verdict` uses gives the as-written verdict unless some child
   * fails with an empty message.
   */
  lemma VerdictAgreesAsWritten(eng: Engine, errors: bool, ret: Returned, a: Assertion)
    requires a.kind == "all-of"
    requires forall i :: 0 <= i < |a.children| ==> Verdict(eng, errors, ret, a.children[i]) != Some("")
    ensures Verdict(eng, errors, ret, a) == AllOfAsWritten(ChildVerdicts(eng, errors, ret, a))
  {
    var vs := ChildVerdicts(eng, errors, ret, a);
    assert forall i :: 0 <= i < |vs| ==> vs[i] == Verdict(eng, errors, ret, a.children[i]);
    AllOfAgreesWithoutEmptyMessages(vs);
  }

  /** As written, an all-of of one child is that child, except that a failure with `""` passes. */
  lemma AllOfSingleAsWritten(eng: Engine, errors: bool, ret: Returned, a: Assertion)
    requires a.kind == "all-of" && |a.children| == 1
    ensures var v := Verdict(eng, errors, ret, a.children[0]);
      AllOfAsWritten(ChildVerdicts(eng, errors, ret, a)) == (if v == Some("") then None else v)
  {
    var v := Verdict(eng, errors, ret, a.children[0]);
    assert ChildVerdicts(eng, errors, ret, a) == [v];
    AllOfAsWrittenOne(v);
  }

  lemma AllOfAsWrittenOne(v: Option<string>)
    ensures AllOfAsWritten([v]) == (if v == Some("") then None else v)
  {
    assert [v][..0] == [];
    if v.Some? {
      assert Failures([v]) == [v.value];
      assert [v.value][..0] == [];
      assert Joined([v.value]) == v.value;
    }
  }

  /** An any-of passes exactly when some child passes. */
  lemma AnyOfPassIff(eng: Engine, errors: bool, ret: Returned, a: Assertion)
    requires a.kind == "any-of"
    ensures Verdict(eng, errors, ret, a).None? <==>
      exists i :: 0 <= i < |a.children| && Verdict(eng, errors, ret, a.children[i]).None?
  {
    var vs := ChildVerdicts(eng, errors, ret, a);
    assert forall i :: 0 <= i < |a.children| ==> vs[i] == Verdict(eng, errors, ret, a.children[i]);
  }

  /** An empty any-of fails with `any of {  }`. */
  lemma AnyOfEmpty(eng: Engine, errors: bool, ret: Returned, a: Assertion)
    requires a.kind == "any-of" && a.children == []
    ensures Verdict(eng, errors, ret, a) == Some("any of {  }")
  {
    var vs := ChildVerdicts(eng, errors, ret, a);
    assert vs == [];
    assert Joined(Failures(vs)) == "";
    assert "any-of"[1] != "all-of"[1];
    assert Verdict(eng, errors, ret, a) == AnyOfVerdict(vs);
    assert "any of { " + "" + " }" == "any of {  }";
  }

  /** An all-of holding an `assert-empty` that fails: as written it passes, corrected it fails. */
  lemma AllOfEmptyMessageCounterexample(eng: Engine, errors: bool, ret: Returned, a: Assertion)
    requires a.kind == "all-of" && |a.children| == 1 && a.children[0].kind == "assert-empty"
    requires ret.value.Some? && |ret.value.value.items| == 1
    ensures AllOfAsWritten(ChildVerdicts(eng, errors, ret, a)) == None
    ensures Verdict(eng, errors, ret, a) == Some("")
  {
    var child := a.children[0];
    assert Verdict(eng, errors, ret, child) == Some("");
    var vs := ChildVerdicts(eng, errors, ret, a);
    assert vs == [Some("")];
    AllOfAsWrittenPassesEmptyFailure();
  }

  // ---------------------------------------------------------------------------
  // normNL

  /** `normNL`: each `\r\n`, lone `\r` and lone `\n` becomes the line separator. */
  function NormNL(s: string): (r: string)
    ensures forall i :: 0 <= i < |r| ==> r[i] != '\r'
    ensures |r| <= |s|
  {
    if |s| == 0 then ""
    else if s[0] == '\r' && |s| >= 2 && s[1] == '\n' then NL + NormNL(s[2..])
    else if s[0] == '\r' || s[0] == '\n' then NL + NormNL(s[1..])
    else [s[0]] + NormNL(s[1..])
  }

  /** A text without carriage returns is already normalised. */
  lemma {:induction false} NormNLKeepsPlainText(s: string)
    requires forall i :: 0 <= i < |s| ==> s[i] != '\r'
    ensures NormNL(s) == s
  {
    if |s| > 0 {
      NormNLKeepsPlainText(s[1..]);
    }
  }

  lemma NormNLIdempotent(s: string)
    ensures NormNL(NormNL(s)) == NormNL(s)
  {
    NormNLKeepsPlainText(NormNL(s));
  }

  /** The three line terminators each become one `NL`; any other character is kept. */
  lemma NormNLTokens(c: char)
    ensures NormNL("\r\n") == NL && NormNL("\r") == NL && NormNL("\n") == NL
    ensures c != '\r' && c != '\n' ==> NormNL([c]) == [c]
  {
    assert "\r\n"[2..] == "";
    assert "\r"[1..] == "" && "\n"[1..] == "";
    assert [c][1..] == [];
  }

  /** How many characters the first line terminator or character of `s` takes: two for `\r\n`. */
  function HeadLength(s: string): (n: nat)
    requires |s| > 0
    ensures 1 <= n <= |s|
  {
    if s[0] == '\r' && |s| >= 2 && s[1] == '\n' then 2 else 1
  }

  /** What the first terminator or character of `s` becomes. */
  function HeadOutput(s: string): string
    requires |s| > 0
  {
    if s[0] == '\r' || s[0] == '\n' then NL else [s[0]]
  }

  lemma NormNLUnfold(s: string)
    requires |s| > 0
    ensures NormNL(s) == HeadOutput(s) + NormNL(s[HeadLength(s)..])
  {
  }

  /**
   * `replaceAll` scans left to right: a text normalises piecewise unless a `\r\n` is cut in
   * two. With `NormNLTokens` this fixes `NormNL` on every input.
   */
  lemma {:induction false} NormNLAppend(a: string, b: string)
    requires !(|a| > 0 && a[|a| - 1] == '\r' && |b| > 0 && b[0] == '\n')
    ensures NormNL(a + b) == NormNL(a) + NormNL(b)
  {
    if |a| > 0 {
      var ab := a + b;
      assert ab[0] == a[0];
      assert |a| >= 2 ==> ab[1] == a[1];
      assert |a| == 1 && |b| > 0 ==> ab[1] == b[0];
      var k := HeadLength(a);
      assert HeadLength(ab) == k;
      assert HeadOutput(ab) == HeadOutput(a);
      assert ab[k..] == a[k..] + b;
      NormNLUnfold(a);
      NormNLUnfold(ab);
      NormNLAppend(a[k..], b);
    } else {
      assert a + b == b;
    }
  }
}

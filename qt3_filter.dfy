/**
 * The dependency filter of the QT3 driver: a test case or test set is supported when the
 * XPath expression of `QT3TS.supported` selects nothing in it.
 */
module QT3Filter {
  import opened QT3Values

  /** A `dependency` element: its `@type`, `@value` and `@satisfied` attributes, when present. */
  datatype Dependency = Dependency(kind: Option<string>, value: Option<string>, satisfied: Option<string>)

  /** What the filter reads of a test case or test set. */
  datatype Metadata = Metadata(hasCollation: bool, dependencies: seq<Dependency>)

  /** The unsupported features. */
  const NoSupport: seq<string> :=
    ["schema-location-hint", "schemaAware", "schemaImport", "schemaValidation", "staticTyping"]

  /** XPath general comparison `@a = (list)`: some value of the attribute equals some member. */
  predicate GeneralEq(a: Option<string>, list: seq<string>)
  {
    a.Some? && exists i :: 0 <= i < |list| && a.value == list[i]
  }

  /** XPath general comparison `@a != (list)`: some value of the attribute differs from some member. */
  predicate GeneralNe(a: Option<string>, list: seq<string>)
  {
    a.Some? && exists i :: 0 <= i < |list| && a.value != list[i]
  }

  predicate IsDigit(c: char)
  {
    '0' <= c <= '9'
  }

  /** `s` contains `XQ`, two digits and `+` starting at position `i`. */
  predicate XQAt(s: string, i: int)
  {
    0 <= i && i + 5 <= |s| && s[i] == 'X' && s[i + 1] == 'Q' && IsDigit(s[i + 2]) && IsDigit(s[i + 3]) && s[i + 4] == '+'
  }

  /**
   * `matches(@value, 'XQ\d\d\+')`: the pattern is not anchored, so any substring matches;
   * an absent attribute is matched as the empty string and so does not match.
   */
  predicate MatchesXQ(a: Option<string>)
  {
    a.Some? && exists i :: 0 <= i <= |a.value| && XQAt(a.value, i)
  }

  /** One disjunct of the predicate in `supported` holds of the dependency; `and` binds tighter than `or`. */
  predicate Skips(d: Dependency)
  {
    || (GeneralEq(d.kind, ["feature"]) &&
        (|| (GeneralEq(d.value, NoSupport) && (GeneralEq(d.satisfied, ["true"]) || d.satisfied.None?))
         || (GeneralNe(d.value, NoSupport) && GeneralEq(d.satisfied, ["false"]))))
    || (GeneralEq(d.kind, ["unicode-normalization-form"]) && GeneralEq(d.value, ["FULLY-NORMALIZED"]))
    || (GeneralEq(d.kind, ["xml-version", "xsd-version"]) && GeneralEq(d.value, ["1.1", "1.0:4-"]))
    || (GeneralEq(d.kind, ["limits"]) && GeneralEq(d.value, ["big_integer"]))
    || (GeneralEq(d.kind, ["spec"]) && !MatchesXQ(d.value))
  }

  /** The union `environment/collation | dependency[...]` is empty. */
  predicate Supported(m: Metadata)
  {
    !m.hasCollation && forall i :: 0 <= i < |m.dependencies| ==> !Skips(m.dependencies[i])
  }

  /** `@value != (...)` is true of any present value, because the list holds two distinct names. */
  lemma {:induction false} NotEqualAlwaysHolds(v: string)
    ensures GeneralNe(Some(v), NoSupport)
  {
    if v == NoSupport[0] {
      assert v != NoSupport[1];
    } else {
      assert v != NoSupport[0];
    }
  }

  /**
   * A feature dependency is skipped exactly when it names an unsupported feature that is
   * required (no `@satisfied`, or `'true'`), or when it has `@satisfied='false'` whatever it names.
   */
  lemma FeatureRule(v: string, satisfied: Option<string>)
    ensures Skips(Dependency(Some("feature"), Some(v), satisfied)) <==>
      (v in NoSupport && (satisfied == None || satisfied == Some("true"))) || satisfied == Some("false")
  {
    NotEqualAlwaysHolds(v);
    var d := Dependency(Some("feature"), Some(v), satisfied);
    assert GeneralEq(d.kind, ["feature"]) by { assert d.kind.value == ["feature"][0]; }
    if v in NoSupport {
      var i :| 0 <= i < |NoSupport| && NoSupport[i] == v;
      assert GeneralEq(d.value, NoSupport);
    }
    if satisfied == Some("true") {
      assert GeneralEq(d.satisfied, ["true"]) by { assert d.satisfied.value == ["true"][0]; }
    }
    if satisfied == Some("false") {
      assert GeneralEq(d.satisfied, ["false"]) by { assert d.satisfied.value == ["false"][0]; }
    }
  }

  /** Every feature dependency with `@satisfied='false'` is skipped, whatever feature it names. */
  lemma UnsatisfiedFeatureSkipped(v: string)
    ensures Skips(Dependency(Some("feature"), Some(v), Some("false")))
  {
    FeatureRule(v, Some("false"));
  }

  /** A spec dependency is skipped exactly when its value has no substring `XQ<digit><digit>+`, whatever its `@satisfied`. */
  lemma SpecRule(value: Option<string>, satisfied: Option<string>)
    ensures Skips(Dependency(Some("spec"), value, satisfied)) <==>
      (value == None || forall i :: 0 <= i <= |value.value| ==> !XQAt(value.value, i))
  {
    var d := Dependency(Some("spec"), value, satisfied);
    assert GeneralEq(d.kind, ["spec"]) by { assert d.kind.value == ["spec"][0]; }
    assert !GeneralEq(d.kind, ["feature"]);
  }

  /** A `unicode-normalization-form` dependency is skipped exactly when it names `FULLY-NORMALIZED`. */
  lemma NormalizationRule(value: Option<string>, satisfied: Option<string>)
    ensures Skips(Dependency(Some("unicode-normalization-form"), value, satisfied)) <==> value == Some("FULLY-NORMALIZED")
  {
    var d := Dependency(Some("unicode-normalization-form"), value, satisfied);
    assert GeneralEq(d.kind, ["unicode-normalization-form"]) by { assert d.kind.value == ["unicode-normalization-form"][0]; }
    assert value == Some("FULLY-NORMALIZED") ==> GeneralEq(d.value, ["FULLY-NORMALIZED"]) by {
      if value == Some("FULLY-NORMALIZED") { assert d.value.value == ["FULLY-NORMALIZED"][0]; }
    }
    assert !GeneralEq(d.kind, ["feature"]) && !GeneralEq(d.kind, ["limits"]) && !GeneralEq(d.kind, ["spec"]);
    assert !GeneralEq(d.kind, ["xml-version", "xsd-version"]);
  }

  /** An `xml-version` or `xsd-version` dependency is skipped exactly when it names `1.1` or `1.0:4-`. */
  lemma VersionRule(kind: string, value: Option<string>, satisfied: Option<string>)
    requires kind == "xml-version" || kind == "xsd-version"
    ensures Skips(Dependency(Some(kind), value, satisfied)) <==> value == Some("1.1") || value == Some("1.0:4-")
  {
    var d := Dependency(Some(kind), value, satisfied);
    assert GeneralEq(d.kind, ["xml-version", "xsd-version"]) by {
      if kind == "xml-version" { assert kind == ["xml-version", "xsd-version"][0]; }
      else { assert kind == ["xml-version", "xsd-version"][1]; }
    }
    if value == Some("1.1") {
      assert value.value == ["1.1", "1.0:4-"][0];
    } else if value == Some("1.0:4-") {
      assert value.value == ["1.1", "1.0:4-"][1];
    }
    assert !GeneralEq(d.kind, ["feature"]) && !GeneralEq(d.kind, ["limits"]) && !GeneralEq(d.kind, ["spec"]);
    assert !GeneralEq(d.kind, ["unicode-normalization-form"]);
  }

  /** A `limits` dependency is skipped exactly when it names `big_integer`. */
  lemma LimitsRule(value: Option<string>, satisfied: Option<string>)
    ensures Skips(Dependency(Some("limits"), value, satisfied)) <==> value == Some("big_integer")
  {
    var d := Dependency(Some("limits"), value, satisfied);
    assert GeneralEq(d.kind, ["limits"]) by { assert d.kind.value == ["limits"][0]; }
    assert value == Some("big_integer") ==> GeneralEq(d.value, ["big_integer"]) by {
      if value == Some("big_integer") { assert d.value.value == ["big_integer"][0]; }
    }
    assert !GeneralEq(d.kind, ["feature"]) && !GeneralEq(d.kind, ["spec"]);
    assert !GeneralEq(d.kind, ["unicode-normalization-form"]) && !GeneralEq(d.kind, ["xml-version", "xsd-version"]);
  }

  /** A dependency of any other type never causes skipping, whatever its value and `@satisfied`. */
  lemma OtherTypeNeverSkips(kind: string, value: Option<string>, satisfied: Option<string>)
    requires kind != "feature" && kind != "unicode-normalization-form" && kind != "xml-version"
    requires kind != "xsd-version" && kind != "limits" && kind != "spec"
    ensures !Skips(Dependency(Some(kind), value, satisfied))
  {
  }

  /** A dependency without `@type` never causes skipping: each disjunct compares `@type`. */
  lemma UntypedNeverSkips(value: Option<string>, satisfied: Option<string>)
    ensures !Skips(Dependency(None, value, satisfied))
  {
  }
}

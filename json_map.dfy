/**
 * The JSON-to-map converter: the JSON parser reports a stream of events, and each handler
 * pushes to or pops from a stack of XQuery values. Objects and arrays become maps; an array's
 * items get the integer keys 1 to n.
 */
module JsonMap {

  datatype Option<T> = None | Some(value: T)

  /**
   * An XQuery value on the converter's stack: a string, a double (kept as its token, since
   * number parsing is not modelled), a boolean, an integer, the empty sequence, or a map
   * with its entries in insertion order.
   */
  datatype Value =
    | Str(s: string)
    | Dbl(token: string)
    | Bln(b: bool)
    | Int(n: int)
    | EmptySeq
    | MapV(entries: seq<(Value, Value)>)

  /** Values that are single atomic items and so may be map keys. */
  predicate IsAtomic(v: Value)
  {
    v.Str? || v.Dbl? || v.Bln? || v.Int?
  }

  /** `map.insert(key, val)`: replaces the value of an equal key, or adds a new entry at the end. */
  function Insert(entries: seq<(Value, Value)>, key: Value, val: Value): (r: seq<(Value, Value)>)
    ensures (forall i :: 0 <= i < |entries| ==> entries[i].0 != key) ==> r == entries + [(key, val)]
    ensures |r| == |entries| || |r| == |entries| + 1
  {
    if |entries| == 0 then [(key, val)]
    else if entries[0].0 == key then [(key, val)] + entries[1..]
    else [entries[0]] + Insert(entries[1..], key, val)
  }

  /** The keys of a map are pairwise distinct. */
  predicate DistinctKeys(entries: seq<(Value, Value)>)
  {
    forall i, j :: 0 <= i < j < |entries| ==> entries[i].0 != entries[j].0
  }

  /** A key maps to a value in the entries. */
  predicate Maps(entries: seq<(Value, Value)>, key: Value, val: Value)
  {
    exists i :: 0 <= i < |entries| && entries[i] == (key, val)
  }

  predicate HasKey(entries: seq<(Value, Value)>, key: Value)
  {
    exists i :: 0 <= i < |entries| && entries[i].0 == key
  }

  lemma MapsShift(e: (Value, Value), rest: seq<(Value, Value)>, k: Value, v: Value)
    ensures Maps([e] + rest, k, v) <==> e == (k, v) || Maps(rest, k, v)
  {
    var s := [e] + rest;
    if e == (k, v) {
      assert s[0] == (k, v);
    }
    if Maps(s, k, v) {
      var i :| 0 <= i < |s| && s[i] == (k, v);
      if i > 0 { assert rest[i - 1] == (k, v); }
    }
    if Maps(rest, k, v) {
      var i :| 0 <= i < |rest| && rest[i] == (k, v);
      assert s[i + 1] == (k, v);
    }
  }

  lemma HasKeyShift(e: (Value, Value), rest: seq<(Value, Value)>, k: Value)
    ensures HasKey([e] + rest, k) <==> e.0 == k || HasKey(rest, k)
  {
    var s := [e] + rest;
    if e.0 == k {
      assert s[0].0 == k;
    }
    if HasKey(s, k) {
      var i :| 0 <= i < |s| && s[i].0 == k;
      if i > 0 { assert rest[i - 1].0 == k; }
    }
    if HasKey(rest, k) {
      var i :| 0 <= i < |rest| && rest[i].0 == k;
      assert s[i + 1].0 == k;
    }
  }

  /** After inserting, the key maps to the new value and every other key keeps what it mapped to. */
  lemma {:induction false} InsertMaps(entries: seq<(Value, Value)>, key: Value, val: Value, k: Value, v: Value)
    ensures Maps(Insert(entries, key, val), key, val)
    ensures k != key ==> (Maps(Insert(entries, key, val), k, v) <==> Maps(entries, k, v))
  {
    if |entries| == 0 {
      assert Insert(entries, key, val)[0] == (key, val);
    } else if entries[0].0 == key {
      MapsShift((key, val), entries[1..], key, val);
      MapsShift((key, val), entries[1..], k, v);
      assert entries == [entries[0]] + entries[1..];
      MapsShift(entries[0], entries[1..], k, v);
    } else {
      InsertMaps(entries[1..], key, val, k, v);
      MapsShift(entries[0], Insert(entries[1..], key, val), key, val);
      MapsShift(entries[0], Insert(entries[1..], key, val), k, v);
      assert entries == [entries[0]] + entries[1..];
      MapsShift(entries[0], entries[1..], k, v);
    }
  }

  /** The keys after inserting are the old keys and the inserted one. */
  lemma {:induction false} InsertKeys(entries: seq<(Value, Value)>, key: Value, val: Value, k: Value)
    ensures HasKey(Insert(entries, key, val), k) <==> k == key || HasKey(entries, k)
  {
    if |entries| == 0 {
      assert Insert(entries, key, val)[0] == (key, val);
    } else if entries[0].0 == key {
      HasKeyShift((key, val), entries[1..], k);
      assert entries == [entries[0]] + entries[1..];
      HasKeyShift(entries[0], entries[1..], k);
    } else {
      InsertKeys(entries[1..], key, val, k);
      HasKeyShift(entries[0], Insert(entries[1..], key, val), k);
      assert entries == [entries[0]] + entries[1..];
      HasKeyShift(entries[0], entries[1..], k);
    }
  }

  /** Inserting keeps the keys of a map distinct. */
  lemma {:induction false} InsertDistinct(entries: seq<(Value, Value)>, key: Value, val: Value)
    requires DistinctKeys(entries)
    ensures DistinctKeys(Insert(entries, key, val))
  {
    if |entries| > 0 && entries[0].0 != key {
      var tail := entries[1..];
      assert DistinctKeys(tail) by {
        forall i, j | 0 <= i < j < |tail| ensures tail[i].0 != tail[j].0 {
          assert tail[i] == entries[i + 1] && tail[j] == entries[j + 1];
        }
      }
      InsertDistinct(tail, key, val);
      var rt := Insert(tail, key, val);
      InsertKeys(tail, key, val, entries[0].0);
      assert !HasKey(tail, entries[0].0);
      var r := Insert(entries, key, val);
      assert r == [entries[0]] + rt;
      forall i, j | 0 <= i < j < |r| ensures r[i].0 != r[j].0 {
        if i == 0 {
          assert r[j] == rt[j - 1];
        } else {
          assert r[i] == rt[i - 1] && r[j] == rt[j - 1];
        }
      }
    } else if |entries| > 0 {
      var r := Insert(entries, key, val);
      forall i, j | 0 <= i < j < |r| ensures r[i].0 != r[j].0 {
        assert r[i].0 == entries[i].0 && r[j].0 == entries[j].0;
      }
    }
  }

  /** The events a JSON parser reports to its handler. */
  datatype Event =
    | OpenObject
    | OpenPair(key: string)
    | ClosePair
    | CloseObject
    | OpenArray
    | OpenItem
    | CloseItem
    | CloseArray
    | OpenConstr(name: string)
    | OpenArg
    | CloseArg
    | CloseConstr
    | NumberLit(token: string)
    | StringLit(text: string)
    | NullLit
    | BooleanLit(token: string)

  /**
   * `closePair` on a stack: pops the value, the key (an item) and the map beneath, and pushes the
   * map with the entry inserted. `None` stands for the runtime exception Java throws on a stack
   * too short or holding values of the wrong kind.
   */
  function ClosePairOn(st: seq<Value>): (r: Option<seq<Value>>)
    ensures r.Some? ==> |st| >= 3 && |r.value| == |st| - 2 && r.value[..|st| - 3] == st[..|st| - 3]
  {
    if |st| < 3 then None
    else
      var val := st[|st| - 1];
      var key := st[|st| - 2];
      var target := st[|st| - 3];
      if !IsAtomic(key) || !target.MapV? then None
      else Some(st[..|st| - 3] + [MapV(Insert(target.entries, key, val))])
  }

  /** `openItem` on a stack: pushes the size of the map on top plus one. */
  function OpenItemOn(st: seq<Value>): (r: Option<seq<Value>>)
    ensures r.Some? ==> |st| >= 1 && st[|st| - 1].MapV? && r.value == st + [Int(|st[|st| - 1].entries| + 1)]
  {
    if |st| == 0 || !st[|st| - 1].MapV? then None
    else Some(st + [Int(|st[|st| - 1].entries| + 1)])
  }

  /** The effect of one handler call on the stack. */
  function Apply(st: seq<Value>, e: Event): Option<seq<Value>>
  {
    match e
    case OpenObject => Some(st + [MapV([])])
    case OpenPair(k) => Some(st + [Str(k)])
    case ClosePair => ClosePairOn(st)
    case CloseObject => Some(st)
    case OpenArray => Some(st + [MapV([])])
    case OpenItem => OpenItemOn(st)
    case CloseItem => ClosePairOn(st)
    case CloseArray => Some(st)
    case OpenConstr(n) => Some(st + [MapV([]), Str(n), MapV([])])
    case OpenArg => OpenItemOn(st)
    case CloseArg => ClosePairOn(st)
    case CloseConstr => ClosePairOn(st)
    case NumberLit(t) => Some(st + [Dbl(t)])
    case StringLit(s) => Some(st + [Str(s)])
    case NullLit => Some(st + [EmptySeq])
    case BooleanLit(t) => Some(st + [Bln(t == "true")])
  }

  /** Running the handlers over an event stream, or `None` when one of them throws. */
  function Run(st: seq<Value>, es: seq<Event>): Option<seq<Value>>
    decreases |es|
  {
    if |es| == 0 then Some(st)
    else
      match Apply(st, es[0])
      case None => None
      case Some(st1) => Run(st1, es[1..])
  }

  lemma {:induction false} RunAppend(st: seq<Value>, a: seq<Event>, b: seq<Event>)
    ensures Run(st, a + b) == (match Run(st, a) case None => None case Some(s) => Run(s, b))
    decreases |a|
  {
    if |a| == 0 {
      assert a + b == b;
    } else {
      assert (a + b)[0] == a[0];
      assert (a + b)[1..] == a[1..] + b;
      match Apply(st, a[0])
      case None =>
      case Some(st1) => RunAppend(st1, a[1..], b);
    }
  }

  /** Each literal pushes exactly one value, as the mapping of the converter prescribes. */
  lemma LiteralsPushOne(st: seq<Value>, t: string)
    ensures Apply(st, StringLit(t)) == Some(st + [Str(t)])
    ensures Apply(st, NumberLit(t)) == Some(st + [Dbl(t)])
    ensures Apply(st, NullLit) == Some(st + [EmptySeq])
    ensures Apply(st, BooleanLit(t)) == Some(st + [Bln(t == "true")])
    ensures Apply(st, BooleanLit("true")) == Some(st + [Bln(true)])
  {
  }

  // ---------------------------------------------------------------------------
  // JSON documents and the values they convert to

  /** A JSON value as the parser sees it; constructors are the `new Name(args)` form of liberal JSON. */
  datatype Json =
    | JString(s: string)
    | JNumber(token: string)
    | JBool(b: bool)
    | JNull
    | JArray(items: seq<Json>)
    | JObject(members: seq<Member>)
    | JConstr(name: string, args: seq<Json>)

  datatype Member = Member(key: string, value: Json)

  function Flatten(ess: seq<seq<Event>>): seq<Event>
  {
    if |ess| == 0 then [] else Flatten(ess[..|ess| - 1]) + ess[|ess| - 1]
  }

  /** The events the parser reports for a JSON value. */
  function Events(j: Json): seq<Event>
    decreases j
  {
    match j
    case JString(s) => [StringLit(s)]
    case JNumber(t) => [NumberLit(t)]
    case JBool(b) => [BooleanLit(if b then "true" else "false")]
    case JNull => [NullLit]
    case JArray(items) =>
      [OpenArray] + Flatten(seq(|items|, i requires 0 <= i < |items| => [OpenItem] + Events(items[i]) + [CloseItem])) + [CloseArray]
    case JObject(ms) =>
      [OpenObject] + Flatten(seq(|ms|, i requires 0 <= i < |ms| =>
        assert ms[i] in ms; [OpenPair(ms[i].key)] + Events(ms[i].value) + [ClosePair])) + [CloseObject]
    case JConstr(n, args) =>
      [OpenConstr(n)] + Flatten(seq(|args|, i requires 0 <= i < |args| => [OpenArg] + Events(args[i]) + [CloseArg])) + [CloseConstr]
  }

  /** Inserting the pairs, in order, into the empty map. */
  function InsertAll(pairs: seq<(Value, Value)>): seq<(Value, Value)>
  {
    if |pairs| == 0 then [] else Insert(InsertAll(pairs[..|pairs| - 1]), pairs[|pairs| - 1].0, pairs[|pairs| - 1].1)
  }

  /** The XQuery value of a JSON value: strings, doubles, booleans, `()`, and maps for arrays and objects. */
  function Convert(j: Json): Value
    decreases j
  {
    match j
    case JString(s) => Str(s)
    case JNumber(t) => Dbl(t)
    case JBool(b) => Bln(b)
    case JNull => EmptySeq
    case JArray(items) => MapV(ArrayEntries(items, seq(|items|, i requires 0 <= i < |items| => Convert(items[i]))))
    case JObject(ms) =>
      MapV(InsertAll(seq(|ms|, i requires 0 <= i < |ms| => assert ms[i] in ms; (Str(ms[i].key), Convert(ms[i].value)))))
    case JConstr(n, args) =>
      MapV([(Str(n), MapV(ArrayEntries(args, seq(|args|, i requires 0 <= i < |args| => Convert(args[i])))))])
  }

  /** The entries of an array's map: item `i` (from 0) under the integer key `i + 1`. */
  function ArrayEntries(items: seq<Json>, values: seq<Value>): (r: seq<(Value, Value)>)
    requires |values| == |items|
    ensures |r| == |items|
  {
    seq(|items|, i requires 0 <= i < |items| => (Int(i + 1), values[i]))
  }

  /** An array of n items becomes a map whose keys are exactly 1..n, in item order. */
  lemma ArrayKeys(items: seq<Json>)
    ensures Convert(JArray(items)).MapV?
    ensures |Convert(JArray(items)).entries| == |items|
    ensures forall i :: 0 <= i < |items| ==> Convert(JArray(items)).entries[i] == (Int(i + 1), Convert(items[i]))
    ensures DistinctKeys(Convert(JArray(items)).entries)
  {
  }

  /** Inserting pairs one after another always gives a map with distinct keys. */
  lemma {:induction false} InsertAllDistinct(pairs: seq<(Value, Value)>)
    ensures DistinctKeys(InsertAll(pairs))
  {
    if |pairs| > 0 {
      InsertAllDistinct(pairs[..|pairs| - 1]);
      InsertDistinct(InsertAll(pairs[..|pairs| - 1]), pairs[|pairs| - 1].0, pairs[|pairs| - 1].1);
    }
  }

  /** Pairs whose keys are already distinct are inserted in order, each appended at the end. */
  lemma {:induction false} InsertAllFresh(pairs: seq<(Value, Value)>)
    requires DistinctKeys(pairs)
    ensures InsertAll(pairs) == pairs
  {
    if |pairs| > 0 {
      var init := pairs[..|pairs| - 1];
      var last := pairs[|pairs| - 1];
      assert DistinctKeys(init) by {
        forall i, j | 0 <= i < j < |init| ensures init[i].0 != init[j].0 {
          assert init[i] == pairs[i] && init[j] == pairs[j];
        }
      }
      InsertAllFresh(init);
      assert forall i :: 0 <= i < |init| ==> init[i].0 != last.0 by {
        forall i | 0 <= i < |init| ensures init[i].0 != last.0 {
          assert init[i] == pairs[i];
        }
      }
      assert init + [last] == pairs;
    }
  }

  /**
   * An object becomes a map with distinct keys; when its member keys are distinct, the map
   * holds its members in order, each key a string mapping to the converted value.
   */
  lemma ObjectKeys(ms: seq<Member>)
    ensures Convert(JObject(ms)).MapV?
    ensures DistinctKeys(Convert(JObject(ms)).entries)
    ensures (forall i, j :: 0 <= i < j < |ms| ==> ms[i].key != ms[j].key) ==> Convert(JObject(ms)).entries == Pairs(ms)
  {
    assert Convert(JObject(ms)).entries == InsertAll(Pairs(ms));
    InsertAllDistinct(Pairs(ms));
    if forall i, j :: 0 <= i < j < |ms| ==> ms[i].key != ms[j].key {
      var ps := Pairs(ms);
      assert DistinctKeys(ps) by {
        forall i, j | 0 <= i < j < |ps| ensures ps[i].0 != ps[j].0 {
          assert ps[i].0 == Str(ms[i].key) && ps[j].0 == Str(ms[j].key);
        }
      }
      InsertAllFresh(ps);
    }
  }

  /** The example of the class documentation: `{"foo": 42, "bar": null}` becomes `{'foo':42, 'bar':()}`. */
  lemma ObjectExample()
    ensures Convert(JObject([Member("foo", JNumber("42")), Member("bar", JNull)])).entries
      == [(Str("foo"), Dbl("42")), (Str("bar"), EmptySeq)]
  {
    var ms := [Member("foo", JNumber("42")), Member("bar", JNull)];
    ObjectKeys(ms);
    assert Pairs(ms) == [(Str("foo"), Dbl("42")), (Str("bar"), EmptySeq)];
  }

  // ---------------------------------------------------------------------------
  // The compositional lemma

  /** The converted values of a list of JSON values. */
  function Values(js: seq<Json>): (r: seq<Value>)
    ensures |r| == |js|
  {
    seq(|js|, i requires 0 <= i < |js| => Convert(js[i]))
  }

  /** The entries of the map an array of these items converts to. */
  function Entries(items: seq<Json>): (r: seq<(Value, Value)>)
    ensures |r| == |items|
  {
    ArrayEntries(items, Values(items))
  }

  /** The event blocks of the items of an array, or of the arguments of a constructor. */
  function ItemBlocks(items: seq<Json>, arg: bool): (r: seq<seq<Event>>)
    ensures |r| == |items|
  {
    seq(|items|, i requires 0 <= i < |items| =>
      [if arg then OpenArg else OpenItem] + Events(items[i]) + [if arg then CloseArg else CloseItem])
  }

  /** The pairs of an object's members, and their event blocks. */
  function Pairs(ms: seq<Member>): (r: seq<(Value, Value)>)
    ensures |r| == |ms|
  {
    seq(|ms|, i requires 0 <= i < |ms| => (Str(ms[i].key), Convert(ms[i].value)))
  }

  function MemberBlocks(ms: seq<Member>): (r: seq<seq<Event>>)
    ensures |r| == |ms|
  {
    seq(|ms|, i requires 0 <= i < |ms| => [OpenPair(ms[i].key)] + Events(ms[i].value) + [ClosePair])
  }

  lemma EventsOfComposites(j: Json)
    ensures j.JArray? ==> Events(j) == [OpenArray] + Flatten(ItemBlocks(j.items, false)) + [CloseArray]
    ensures j.JArray? ==> Convert(j) == MapV(Entries(j.items))
    ensures j.JObject? ==> Events(j) == [OpenObject] + Flatten(MemberBlocks(j.members)) + [CloseObject]
    ensures j.JObject? ==> Convert(j) == MapV(InsertAll(Pairs(j.members)))
    ensures j.JConstr? ==> Events(j) == [OpenConstr(j.name)] + Flatten(ItemBlocks(j.args, true)) + [CloseConstr]
    ensures j.JConstr? ==> Convert(j) == MapV([(Str(j.name), MapV(Entries(j.args)))])
  {
  }

  /** One item block: the key `size + 1`, the item's value, and the insertion of the pair. */
  lemma ItemStep(st: seq<Value>, ents: seq<(Value, Value)>, arg: bool, item: Json, v: Value)
    requires forall i :: 0 <= i < |ents| ==> ents[i].0 != Int(|ents| + 1)
    requires Run(st + [MapV(ents), Int(|ents| + 1)], Events(item)) == Some(st + [MapV(ents), Int(|ents| + 1), v])
    ensures Run(st + [MapV(ents)], [if arg then OpenArg else OpenItem] + Events(item) + [if arg then CloseArg else CloseItem])
      == Some(st + [MapV(ents + [(Int(|ents| + 1), v)])])
  {
    var open := if arg then OpenArg else OpenItem;
    var close := if arg then CloseArg else CloseItem;
    var s0 := st + [MapV(ents)];
    var s1 := st + [MapV(ents), Int(|ents| + 1)];
    var s2 := st + [MapV(ents), Int(|ents| + 1), v];
    assert [open] + Events(item) + [close] == [open] + (Events(item) + [close]);
    RunAppend(s0, [open], Events(item) + [close]);
    assert [open][1..] == [];
    assert s0 + [Int(|ents| + 1)] == s1;
    assert Run(s0, [open]) == Some(s1);
    RunAppend(s1, Events(item), [close]);
    assert s2[..|s2| - 3] == st;
    assert [close][1..] == [];
    assert Run(s2, [close]) == ClosePairOn(s2);
  }

  /** One member block: the key, the member's value, and the insertion of the pair. */
  lemma MemberStep(st: seq<Value>, ents: seq<(Value, Value)>, m: Member, v: Value)
    requires Run(st + [MapV(ents), Str(m.key)], Events(m.value)) == Some(st + [MapV(ents), Str(m.key), v])
    ensures Run(st + [MapV(ents)], [OpenPair(m.key)] + Events(m.value) + [ClosePair])
      == Some(st + [MapV(Insert(ents, Str(m.key), v))])
  {
    var s0 := st + [MapV(ents)];
    var s1 := st + [MapV(ents), Str(m.key)];
    var s2 := st + [MapV(ents), Str(m.key), v];
    assert [OpenPair(m.key)] + Events(m.value) + [ClosePair] == [OpenPair(m.key)] + (Events(m.value) + [ClosePair]);
    RunAppend(s0, [OpenPair(m.key)], Events(m.value) + [ClosePair]);
    assert [OpenPair(m.key)][1..] == [];
    assert s0 + [Str(m.key)] == s1;
    RunAppend(s1, Events(m.value), [ClosePair]);
    assert s2[..|s2| - 3] == st;
    assert [ClosePair][1..] == [];
  }

  /** The items of an array (or the arguments of a constructor) fold into the map beneath them. */
  lemma {:induction false} ItemsPush(st: seq<Value>, items: seq<Json>, arg: bool, n: nat)
    requires n <= |items|
    requires forall k, s :: 0 <= k < |items| ==> Run(s, Events(items[k])) == Some(s + [Convert(items[k])])
    ensures Run(st + [MapV([])], Flatten(ItemBlocks(items, arg)[..n])) == Some(st + [MapV(Entries(items)[..n])])
  {
    var blocks := ItemBlocks(items, arg);
    var ents := Entries(items);
    if n == 0 {
      assert blocks[..0] == [];
      assert ents[..0] == [];
    } else {
      var m := n - 1;
      ItemsPush(st, items, arg, m);
      FlattenStep(blocks, n);
      RunAppend(st + [MapV([])], Flatten(blocks[..m]), blocks[m]);
      EntriesPrefix(items, m);
      var pre := ents[..m];
      var v := Convert(items[m]);
      var s1 := st + [MapV(pre), Int(|pre| + 1)];
      assert Run(s1, Events(items[m])) == Some(s1 + [v]);
      assert s1 + [v] == st + [MapV(pre), Int(|pre| + 1), v];
      ItemStep(st, pre, arg, items[m], v);
    }
  }

  lemma FlattenStep(blocks: seq<seq<Event>>, n: nat)
    requires 0 < n <= |blocks|
    ensures Flatten(blocks[..n]) == Flatten(blocks[..n - 1]) + blocks[n - 1]
  {
    assert blocks[..n][..n - 1] == blocks[..n - 1];
  }

  /** The first m entries of an array's map do not use the key m + 1, which the next item gets. */
  lemma EntriesPrefix(items: seq<Json>, m: nat)
    requires m < |items|
    ensures |Entries(items)[..m]| == m
    ensures forall i :: 0 <= i < m ==> Entries(items)[..m][i].0 != Int(m + 1)
    ensures Entries(items)[..m] + [(Int(m + 1), Convert(items[m]))] == Entries(items)[..m + 1]
  {
    var ents := Entries(items);
    assert forall i :: 0 <= i < m ==> ents[..m][i].0 == Int(i + 1);
    assert ents[m] == (Int(m + 1), Convert(items[m]));
  }

  /** The members of an object insert their pairs, in order, into the map beneath them. */
  lemma {:induction false} MembersPush(st: seq<Value>, ms: seq<Member>, n: nat)
    requires n <= |ms|
    requires forall k, s :: 0 <= k < |ms| ==> Run(s, Events(ms[k].value)) == Some(s + [Convert(ms[k].value)])
    ensures Run(st + [MapV([])], Flatten(MemberBlocks(ms)[..n])) == Some(st + [MapV(InsertAll(Pairs(ms)[..n]))])
  {
    var blocks := MemberBlocks(ms);
    var pairs := Pairs(ms);
    if n == 0 {
      assert blocks[..0] == [];
      assert pairs[..0] == [];
    } else {
      var m := n - 1;
      MembersPush(st, ms, m);
      assert blocks[..n][..m] == blocks[..m];
      assert Flatten(blocks[..n]) == Flatten(blocks[..m]) + blocks[m];
      RunAppend(st + [MapV([])], Flatten(blocks[..m]), blocks[m]);
      var pre := InsertAll(pairs[..m]);
      var s1 := st + [MapV(pre), Str(ms[m].key)];
      assert Run(s1, Events(ms[m].value)) == Some(s1 + [Convert(ms[m].value)]);
      assert s1 + [Convert(ms[m].value)] == st + [MapV(pre), Str(ms[m].key), Convert(ms[m].value)];
      MemberStep(st, pre, ms[m], Convert(ms[m].value));
      assert pairs[..n][..m] == pairs[..m];
      assert InsertAll(pairs[..n]) == Insert(pre, Str(ms[m].key), Convert(ms[m].value));
    }
  }

  /** Running `[open] + body + [close]` where the openers push `pushed` and the body folds into its top. */
  lemma Bracketed(st: seq<Value>, open: Event, body: seq<Event>, close: Event, mid: seq<Value>, after: seq<Value>)
    requires Run(st, [open]) == Some(mid)
    requires Run(mid, body) == Some(after)
    ensures Run(st, [open] + body + [close]) == Run(after, [close])
  {
    assert [open] + body + [close] == [open] + (body + [close]);
    RunAppend(st, [open], body + [close]);
    RunAppend(mid, body, [close]);
  }

  /** The events of an array push the map of its items, given that each item pushes its value. */
  lemma ArrayPush(st: seq<Value>, items: seq<Json>)
    requires forall k, s :: 0 <= k < |items| ==> Run(s, Events(items[k])) == Some(s + [Convert(items[k])])
    ensures Run(st, Events(JArray(items))) == Some(st + [Convert(JArray(items))])
  {
    EventsOfComposites(JArray(items));
    var blocks := ItemBlocks(items, false);
    ItemsPush(st, items, false, |items|);
    assert blocks[..|items|] == blocks;
    assert Entries(items)[..|items|] == Entries(items);
    assert [OpenArray][1..] == [];
    Bracketed(st, OpenArray, Flatten(blocks), CloseArray, st + [MapV([])], st + [MapV(Entries(items))]);
    assert [CloseArray][1..] == [];
  }

  /** The events of an object push the map of its members, given that each member value pushes its value. */
  lemma ObjectPush(st: seq<Value>, ms: seq<Member>)
    requires forall k, s :: 0 <= k < |ms| ==> Run(s, Events(ms[k].value)) == Some(s + [Convert(ms[k].value)])
    ensures Run(st, Events(JObject(ms))) == Some(st + [Convert(JObject(ms))])
  {
    EventsOfComposites(JObject(ms));
    var blocks := MemberBlocks(ms);
    MembersPush(st, ms, |ms|);
    assert blocks[..|ms|] == blocks;
    assert Pairs(ms)[..|ms|] == Pairs(ms);
    assert [OpenObject][1..] == [];
    Bracketed(st, OpenObject, Flatten(blocks), CloseObject, st + [MapV([])], st + [MapV(InsertAll(Pairs(ms)))]);
    assert [CloseObject][1..] == [];
  }

  /** The events of a constructor push a one-entry map from its name to the array of its arguments. */
  lemma ConstrPush(st: seq<Value>, n: string, args: seq<Json>)
    requires forall k, s :: 0 <= k < |args| ==> Run(s, Events(args[k])) == Some(s + [Convert(args[k])])
    ensures Run(st, Events(JConstr(n, args))) == Some(st + [Convert(JConstr(n, args))])
  {
    EventsOfComposites(JConstr(n, args));
    var blocks := ItemBlocks(args, true);
    var base := st + [MapV([]), Str(n)];
    ItemsPush(base, args, true, |args|);
    assert blocks[..|args|] == blocks;
    assert Entries(args)[..|args|] == Entries(args);
    assert [OpenConstr(n)][1..] == [];
    assert base + [MapV([])] == st + [MapV([]), Str(n), MapV([])];
    Bracketed(st, OpenConstr(n), Flatten(blocks), CloseConstr, base + [MapV([])], base + [MapV(Entries(args))]);
    var s2 := base + [MapV(Entries(args))];
    assert s2[..|s2| - 3] == st;
    assert [CloseConstr][1..] == [];
    assert ClosePairOn(s2) == Some(st + [MapV([(Str(n), MapV(Entries(args)))])]);
  }

  /** The events of any JSON value push exactly its converted value onto whatever stack is there. */
  lemma {:induction false} EventsPush(st: seq<Value>, j: Json)
    ensures Run(st, Events(j)) == Some(st + [Convert(j)])
    decreases j
  {
    match j
    case JString(s) =>
    case JNumber(t) =>
    case JBool(b) =>
    case JNull =>
    case JArray(items) =>
      forall k, s | 0 <= k < |items| ensures Run(s, Events(items[k])) == Some(s + [Convert(items[k])]) {
        EventsPush(s, items[k]);
      }
      ArrayPush(st, items);
    case JObject(ms) =>
      forall k, s | 0 <= k < |ms| ensures Run(s, Events(ms[k].value)) == Some(s + [Convert(ms[k].value)]) {
        assert ms[k] in ms;
        EventsPush(s, ms[k].value);
      }
      ObjectPush(st, ms);
    case JConstr(n, args) =>
      forall k, s | 0 <= k < |args| ensures Run(s, Events(args[k])) == Some(s + [Convert(args[k])]) {
        EventsPush(s, args[k]);
      }
      ConstrPush(st, n, args);
  }

  /**
   * `openPair(k)`, the events of one value, then `closePair`: the stack is back at its height
   * and the map beneath holds the value under the key.
   */
  lemma PairRoundTrip(st: seq<Value>, entries: seq<(Value, Value)>, k: string, j: Json)
    ensures Run(st + [MapV(entries)], [OpenPair(k)] + Events(j) + [ClosePair])
      == Some(st + [MapV(Insert(entries, Str(k), Convert(j)))])
  {
    EventsPush(st + [MapV(entries), Str(k)], j);
    assert st + [MapV(entries), Str(k)] + [Convert(j)] == st + [MapV(entries), Str(k), Convert(j)];
    MemberStep(st, entries, Member(k, j), Convert(j));
  }

  /** What `convert` returns for an event stream: `None` for JSON `null`, otherwise the top value. */
  function ConvertResult(es: seq<Event>): (r: Option<Value>)
    requires Run([], es).Some? && |Run([], es).value| > 0
    ensures r.Some? ==> r.value != EmptySeq
  {
    var st := Run([], es).value;
    if st[|st| - 1] == EmptySeq then None else Some(st[|st| - 1])
  }

  /** Converting the events of a JSON document gives its converted value, and nothing for `null`. */
  lemma ConvertDocument(j: Json)
    ensures Run([], Events(j)).Some? && |Run([], Events(j)).value| == 1
    ensures ConvertResult(Events(j)) == (if j.JNull? then None else Some(Convert(j)))
  {
    EventsPush([], j);
  }

  lemma {:induction false} RunPrefix(st: seq<Value>, es: seq<Event>, i: nat)
    requires i < |es| && Run(st, es).Some?
    ensures Run(st, es[..i]).Some?
    ensures Apply(Run(st, es[..i]).value, es[i]).Some?
    ensures Run(st, es[..i + 1]) == Apply(Run(st, es[..i]).value, es[i])
  {
    RunAppend(st, es[..i], es[i..]);
    assert es[..i] + es[i..] == es;
    RunAppend(st, es[..i], [es[i]]);
    assert es[..i + 1] == es[..i] + [es[i]];
    var s := Run(st, es[..i]).value;
    assert es[i..] == [es[i]] + es[i + 1..];
    RunAppend(s, [es[i]], es[i + 1..]);
    assert [es[i]][1..] == [];
  }

  // ---------------------------------------------------------------------------
  // The converter

  /** The converter: its handlers update the value stack. */
  class JsonMapConverter {
    var stack: seq<Value>

    constructor()
      ensures stack == []
    {
      stack := [];
    }

    method OpenObject()
      modifies this
      ensures stack == old(stack) + [MapV([])]
    {
      stack := stack + [MapV([])];
    }

    method OpenPair(key: string)
      modifies this
      ensures stack == old(stack) + [Str(key)]
    {
      stack := stack + [Str(key)];
    }

    /** Pops the value, the key and the map, and pushes the map with the pair inserted. */
    method ClosePair()
      requires ClosePairOn(stack).Some?
      modifies this
      ensures Some(stack) == ClosePairOn(old(stack))
      ensures |stack| == |old(stack)| - 2
    {
      var n := |stack|;
      var val := stack[n - 1];
      var key := stack[n - 2];
      var target := stack[n - 3];
      stack := stack[..n - 3] + [MapV(Insert(target.entries, key, val))];
    }

    method CloseObject()
      ensures stack == old(stack)
    {
    }

    method OpenArray()
      modifies this
      ensures stack == old(stack) + [MapV([])]
    {
      stack := stack + [MapV([])];
    }

    /** Pushes the next array key: the size of the map on top plus one. */
    method OpenItem()
      requires OpenItemOn(stack).Some?
      modifies this
      ensures Some(stack) == OpenItemOn(old(stack))
    {
      var top := stack[|stack| - 1];
      stack := stack + [Int(|top.entries| + 1)];
    }

    method CloseItem()
      requires ClosePairOn(stack).Some?
      modifies this
      ensures Some(stack) == ClosePairOn(old(stack))
    {
      ClosePair();
    }

    method CloseArray()
      ensures stack == old(stack)
    {
    }

    /** A constructor opens a map holding one pair whose value is the array of arguments. */
    method OpenConstr(name: string)
      modifies this
      ensures stack == old(stack) + [MapV([]), Str(name), MapV([])]
    {
      OpenObject();
      OpenPair(name);
      OpenArray();
    }

    method OpenArg()
      requires OpenItemOn(stack).Some?
      modifies this
      ensures Some(stack) == OpenItemOn(old(stack))
    {
      OpenItem();
    }

    method CloseArg()
      requires ClosePairOn(stack).Some?
      modifies this
      ensures Some(stack) == ClosePairOn(old(stack))
    {
      CloseItem();
    }

    method CloseConstr()
      requires ClosePairOn(stack).Some?
      modifies this
      ensures Some(stack) == ClosePairOn(old(stack))
    {
      CloseArray();
      ClosePair();
      CloseObject();
    }

    method NumberLit(token: string)
      modifies this
      ensures stack == old(stack) + [Dbl(token)]
    {
      stack := stack + [Dbl(token)];
    }

    method StringLit(text: string)
      modifies this
      ensures stack == old(stack) + [Str(text)]
    {
      stack := stack + [Str(text)];
    }

    method NullLit()
      modifies this
      ensures stack == old(stack) + [EmptySeq]
    {
      stack := stack + [EmptySeq];
    }

    method BooleanLit(token: string)
      modifies this
      ensures stack == old(stack) + [Bln(token == "true")]
    {
      stack := stack + [Bln(token == "true")];
    }

    /** The parser's call of the handler for one event. */
    method Handle(e: Event)
      requires Apply(stack, e).Some?
      modifies this
      ensures Some(stack) == Apply(old(stack), e)
    {
      match e
      case OpenObject => OpenObject();
      case OpenPair(k) => OpenPair(k);
      case ClosePair => ClosePair();
      case CloseObject => CloseObject();
      case OpenArray => OpenArray();
      case OpenItem => OpenItem();
      case CloseItem => CloseItem();
      case CloseArray => CloseArray();
      case OpenConstr(n) => OpenConstr(n);
      case OpenArg => OpenArg();
      case CloseArg => CloseArg();
      case CloseConstr => CloseConstr();
      case NumberLit(t) => NumberLit(t);
      case StringLit(s) => StringLit(s);
      case NullLit => NullLit();
      case BooleanLit(t) => BooleanLit(t);
    }

    /**
     * `convert`: clears the stack, lets the parser report the events, and returns nothing when
     * the top is the empty sequence, otherwise pops and returns the top.
     */
    method Convert(events: seq<Event>) returns (item: Option<Value>)
      requires Run([], events).Some? && |Run([], events).value| > 0
      modifies this
      ensures item == ConvertResult(events)
      ensures item.None? ==> stack == Run([], events).value
      ensures item.Some? ==> stack + [item.value] == Run([], events).value
    {
      stack := [];
      for i := 0 to |events|
        invariant Run([], events[..i]) == Some(stack)
      {
        RunPrefix([], events, i);
        Handle(events[i]);
      }
      assert events[..|events|] == events;
      var top := stack[|stack| - 1];
      if top == EmptySeq {
        item := None;
      } else {
        stack := stack[..|stack| - 1];
        item := Some(top);
      }
    }
  }
}

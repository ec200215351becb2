/**
 * The serializer that pipes events into a database builder: attributes are collected in an
 * attribute cache or a namespace cache until the element's start tag is finished, and every
 * other event is forwarded at once. The builder is a log of the calls it receives.
 */
module BuilderSink {

  /** An attribute or namespace declaration as the cache holds it: name (or prefix) and value. */
  datatype Att = Att(name: string, value: string)

  /** A call the serializer makes on the builder. */
  datatype BuilderCall =
    | Text(value: string)
    | Pi(content: string)
    | OpenElem(elem: string, atts: seq<Att>, nsp: seq<Att>)
    | EmptyElem(elem: string, atts: seq<Att>, nsp: seq<Att>)
    | CloseElem
    | Comment(value: string)
    | OpenDoc(name: string)
    | CloseDoc

  predicate StartsWith(s: string, prefix: string)
  {
    |prefix| <= |s| && s[..|prefix|] == prefix
  }

  /** Where an attribute goes: a namespace with a prefix, or the ordinary attribute cache. */
  datatype Target = Namespace(prefix: string) | Ordinary

  /** The rule of `attribute`: `xmlns` declares the default namespace, `xmlns:p` the prefix `p`. */
  function Classify(name: string): Target
  {
    if StartsWith(name, "xmlns") then
      if |name| == 5 then Namespace("")
      else if name[5] == ':' then Namespace(name[6..])
      else Ordinary
    else Ordinary
  }

  /** Exactly the names `xmlns` and `xmlns:p` are namespace declarations, with prefixes "" and `p`. */
  lemma ClassifyIff(name: string)
    ensures Classify(name).Namespace? <==> name == "xmlns" || StartsWith(name, "xmlns:")
    ensures name == "xmlns" ==> Classify(name) == Namespace("")
    ensures StartsWith(name, "xmlns:") ==> Classify(name) == Namespace(name[6..])
  {
    if StartsWith(name, "xmlns") && |name| == 5 {
      assert name == name[..5];
    }
    if StartsWith(name, "xmlns:") {
      assert name[..5] == name[..6][..5];
    }
    if StartsWith(name, "xmlns") && |name| > 5 && name[5] == ':' {
      assert name[..6] == name[..5] + [name[5]];
    }
  }

  /** The prefix of `xmlns:p` is `p`. */
  lemma PrefixedDeclaration(p: string)
    ensures Classify("xmlns:" + p) == Namespace(p)
  {
    var name := "xmlns:" + p;
    assert name[..6] == "xmlns:";
    ClassifyIff(name);
    assert name[6..] == p;
  }

  /** A name that starts with `xmlns` but has no colon after it, such as `xmlnsfoo`, is an ordinary attribute. */
  lemma XmlnsWithoutColon(rest: string)
    requires rest != [] && rest[0] != ':'
    ensures Classify("xmlns" + rest) == Ordinary
  {
    var name := "xmlns" + rest;
    assert name[..5] == "xmlns";
    assert name[5] == rest[0];
  }

  /** The serializer's caches, the current element name set by the serializer base class, and the builder log. */
  datatype State = State(atts: seq<Att>, nsp: seq<Att>, elem: string, log: seq<BuilderCall>)

  /** The events the serializer reacts to. */
  datatype Event =
    | StartElement(name: string)
    | Attribute(name: string, value: string)
    | FinishOpen
    | FinishEmpty
    | FinishClose
    | TextEvent(value: string)
    | PiEvent(name: string, value: string)
    | CommentEvent(value: string)
    | OpenDocEvent(name: string)
    | CloseDocEvent

  /** `attribute`: the declaration goes to the namespace cache, anything else to the attribute cache. */
  function AddAttribute(s: State, name: string, value: string): (r: State)
    ensures r.log == s.log && r.elem == s.elem
    ensures |r.atts| + |r.nsp| == |s.atts| + |s.nsp| + 1
  {
    match Classify(name)
    case Namespace(p) => s.(nsp := s.nsp + [Att(p, value)])
    case Ordinary => s.(atts := s.atts + [Att(name, value)])
  }

  /** The effect of one event. */
  function Step(s: State, e: Event): State
  {
    match e
    case StartElement(n) => s.(elem := n)
    case Attribute(n, v) => AddAttribute(s, n, v)
    case FinishOpen => State([], [], s.elem, s.log + [OpenElem(s.elem, s.atts, s.nsp)])
    case FinishEmpty => State([], [], s.elem, s.log + [EmptyElem(s.elem, s.atts, s.nsp)])
    case FinishClose => s.(log := s.log + [CloseElem])
    case TextEvent(v) => s.(log := s.log + [Text(v)])
    case PiEvent(n, v) => s.(log := s.log + [Pi(n + " " + v)])
    case CommentEvent(v) => s.(log := s.log + [Comment(v)])
    case OpenDocEvent(n) => s.(log := s.log + [OpenDoc(n)])
    case CloseDocEvent => s.(log := s.log + [CloseDoc])
  }

  function Run(s: State, es: seq<Event>): State
  {
    if |es| == 0 then s else Step(Run(s, es[..|es| - 1]), es[|es| - 1])
  }

  /** The ordinary attributes of a list, in order. */
  function OrdinaryOnes(attrs: seq<Att>): seq<Att>
  {
    if |attrs| == 0 then []
    else
      var a := attrs[|attrs| - 1];
      OrdinaryOnes(attrs[..|attrs| - 1]) + (if Classify(a.name).Ordinary? then [a] else [])
  }

  /** The namespace declarations of a list, as (prefix, URI), in order. */
  function Declarations(attrs: seq<Att>): seq<Att>
  {
    if |attrs| == 0 then []
    else
      var a := attrs[|attrs| - 1];
      Declarations(attrs[..|attrs| - 1]) + (match Classify(a.name) case Namespace(p) => [Att(p, a.value)] case Ordinary => [])
  }

  function AttributeEvents(attrs: seq<Att>): (r: seq<Event>)
    ensures |r| == |attrs|
  {
    seq(|attrs|, i requires 0 <= i < |attrs| => Attribute(attrs[i].name, attrs[i].value))
  }

  /**
   * A run of attribute events partitions the attributes: the ordinary ones are appended to
   * the attribute cache and the declarations to the namespace cache, both in order, and
   * nothing reaches the builder.
   */
  lemma {:induction false} AttributesPartition(s: State, attrs: seq<Att>)
    ensures Run(s, AttributeEvents(attrs)) == s.(atts := s.atts + OrdinaryOnes(attrs), nsp := s.nsp + Declarations(attrs))
    ensures |OrdinaryOnes(attrs)| + |Declarations(attrs)| == |attrs|
  {
    if |attrs| == 0 {
      assert AttributeEvents(attrs) == [];
    } else {
      var init := attrs[..|attrs| - 1];
      var a := attrs[|attrs| - 1];
      AttributesPartition(s, init);
      var es := AttributeEvents(attrs);
      assert es[..|es| - 1] == AttributeEvents(init);
      assert es[|es| - 1] == Attribute(a.name, a.value);
      assert init + [a] == attrs;
      PartitionStep(s, init, a);
    }
  }

  /** One more attribute extends the partition by that attribute. */
  lemma PartitionStep(s: State, init: seq<Att>, a: Att)
    ensures AddAttribute(s.(atts := s.atts + OrdinaryOnes(init), nsp := s.nsp + Declarations(init)), a.name, a.value) ==
      s.(atts := s.atts + OrdinaryOnes(init + [a]), nsp := s.nsp + Declarations(init + [a]))
  {
    var r := s.(atts := s.atts + OrdinaryOnes(init), nsp := s.nsp + Declarations(init));
    var attrs := init + [a];
    assert attrs[..|attrs| - 1] == init;
    assert attrs[|attrs| - 1] == a;
    if Classify(a.name).Ordinary? {
      assert OrdinaryOnes(attrs) == OrdinaryOnes(init) + [a];
      assert Declarations(attrs) == Declarations(init);
      assert AddAttribute(r, a.name, a.value) == r.(atts := r.atts + [a]);
      assert r.atts + [a] == s.atts + OrdinaryOnes(attrs);
    } else {
      var p := Classify(a.name).prefix;
      assert OrdinaryOnes(attrs) == OrdinaryOnes(init);
      assert Declarations(attrs) == Declarations(init) + [Att(p, a.value)];
      assert AddAttribute(r, a.name, a.value) == r.(nsp := r.nsp + [Att(p, a.value)]);
      assert r.nsp + [Att(p, a.value)] == s.nsp + Declarations(attrs);
    }
  }

  lemma {:induction false} RunAppend(s: State, a: seq<Event>, b: seq<Event>)
    ensures Run(s, a + b) == Run(Run(s, a), b)
    decreases |b|
  {
    if |b| == 0 {
      assert a + b == a;
    } else {
      assert (a + b)[..|a + b| - 1] == a + b[..|b| - 1];
      RunAppend(s, a, b[..|b| - 1]);
    }
  }

  /**
   * A whole start tag: from empty caches, the element, its attributes and `finishOpen` (or
   * `finishEmpty`) make one builder call with the element, its ordinary attributes and its
   * declarations, in order, and leave both caches empty.
   */
  lemma StartTag(s: State, name: string, attrs: seq<Att>, empty: bool)
    requires s.atts == [] && s.nsp == []
    ensures var finish := if empty then FinishEmpty else FinishOpen;
      var call := if empty then EmptyElem(name, OrdinaryOnes(attrs), Declarations(attrs))
                  else OpenElem(name, OrdinaryOnes(attrs), Declarations(attrs));
      Run(s, [StartElement(name)] + AttributeEvents(attrs) + [finish]) == State([], [], name, s.log + [call])
  {
    var finish := if empty then FinishEmpty else FinishOpen;
    var open := [StartElement(name)];
    var atts := AttributeEvents(attrs);
    assert open[..0] == [];
    assert Run(s, open[..0]) == s && open[|open| - 1] == StartElement(name);
    var s1 := Run(s, open);
    assert s1 == s.(elem := name);
    RunAppend(s, open, atts);
    AttributesPartition(s1, attrs);
    var s2 := Run(s1, atts);
    assert s2 == s1.(atts := OrdinaryOnes(attrs), nsp := Declarations(attrs));
    RunAppend(s, open + atts, [finish]);
    assert [finish][..0] == [];
    assert Run(s2, [finish][..0]) == s2 && [finish][0] == finish;
    assert Run(s2, [finish]) == Step(s2, finish);
  }

  /** Only `attribute` changes the caches without calling the builder; every other event calls it exactly once. */
  lemma OneCallPerEvent(s: State, e: Event)
    ensures e.StartElement? || e.Attribute? ==> Step(s, e).log == s.log
    ensures !(e.StartElement? || e.Attribute?) ==> |Step(s, e).log| == |s.log| + 1 && Step(s, e).log[..|s.log|] == s.log
    ensures !(e.StartElement? || e.Attribute? || e.FinishOpen? || e.FinishEmpty?) ==>
      Step(s, e).atts == s.atts && Step(s, e).nsp == s.nsp
    ensures e.FinishOpen? || e.FinishEmpty? ==> Step(s, e).atts == [] && Step(s, e).nsp == []
  {
  }

  /** The serializer with its two caches and the builder it feeds. */
  class BuilderSerializer {
    var atts: seq<Att>
    var nsp: seq<Att>
    /** The element whose start tag is being written; the serializer base class sets it. */
    var elem: string
    /** The calls made on the builder so far. */
    var log: seq<BuilderCall>

    function Current(): State
      reads this
    {
      State(atts, nsp, elem, log)
    }

    constructor()
      ensures Current() == State([], [], "", [])
    {
      atts, nsp, elem, log := [], [], "", [];
    }

    /** The assignment of the current element name by the serializer base class. */
    method StartElement(name: string)
      modifies this
      ensures Current() == Step(old(Current()), Event.StartElement(name))
    {
      elem := name;
    }

    method Text(value: string)
      modifies this
      ensures Current() == Step(old(Current()), TextEvent(value))
    {
      log := log + [BuilderCall.Text(value)];
    }

    method Pi(name: string, value: string)
      modifies this
      ensures Current() == Step(old(Current()), PiEvent(name, value))
    {
      log := log + [BuilderCall.Pi(name + " " + value)];
    }

    method FinishOpen()
      modifies this
      ensures Current() == Step(old(Current()), Event.FinishOpen)
    {
      log := log + [OpenElem(elem, atts, nsp)];
      atts := [];
      nsp := [];
    }

    method FinishEmpty()
      modifies this
      ensures Current() == Step(old(Current()), Event.FinishEmpty)
    {
      log := log + [EmptyElem(elem, atts, nsp)];
      atts := [];
      nsp := [];
    }

    method FinishClose()
      modifies this
      ensures Current() == Step(old(Current()), Event.FinishClose)
    {
      log := log + [CloseElem];
    }

    method Comment(value: string)
      modifies this
      ensures Current() == Step(old(Current()), CommentEvent(value))
    {
      log := log + [BuilderCall.Comment(value)];
    }

    method Attribute(name: string, value: string)
      modifies this
      ensures Current() == Step(old(Current()), Event.Attribute(name, value))
    {
      if StartsWith(name, "xmlns") {
        if |name| == 5 {
          nsp := nsp + [Att("", value)];
        } else if name[5] == ':' {
          nsp := nsp + [Att(name[6..], value)];
        } else {
          atts := atts + [Att(name, value)];
        }
      } else {
        atts := atts + [Att(name, value)];
      }
    }

    method OpenDoc(name: string)
      modifies this
      ensures Current() == Step(old(Current()), OpenDocEvent(name))
    {
      log := log + [BuilderCall.OpenDoc(name)];
    }

    method CloseDoc()
      modifies this
      ensures Current() == Step(old(Current()), CloseDocEvent)
    {
      log := log + [BuilderCall.CloseDoc];
    }
  }
}

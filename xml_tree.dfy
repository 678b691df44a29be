/** The parsed configuration document as the generators see it: elements
    with a tag, an attribute map and children in document order. Parsing
    itself is not modelled. */
module XmlTree {
  import opened Wrappers

  datatype Element = Element(tag: string, attrib: map<string, string>, children: seq<Element>)

  /** element.get(key): the attribute's value, or None when it is absent. */
  function Get(e: Element, key: string): (r: Option<string>)
    ensures r.Some? <==> key in e.attrib
    ensures r.Some? ==> r.value == e.attrib[key]
  {
    if key in e.attrib then Some(e.attrib[key]) else None
  }

  /** An attribute read with element.get: None when it is absent. Such a
      None is stored and compared like any other key or value. */
  type Key = Option<string>

  /** A Python dict filled by insertion, as its (key, value) pairs in
      insertion order. */
  type Dict = seq<(Key, Key)>

  function Keys<V>(d: seq<(Key, V)>): (ks: seq<Key>)
    ensures |ks| == |d|
    ensures forall i :: 0 <= i < |d| ==> ks[i] == d[i].0
  {
    seq(|d|, i requires 0 <= i < |d| => d[i].0)
  }

  function Values<K, V>(d: seq<(K, V)>): (vs: seq<V>)
    ensures |vs| == |d|
    ensures forall i :: 0 <= i < |d| ==> vs[i] == d[i].1
  {
    seq(|d|, i requires 0 <= i < |d| => d[i].1)
  }

  /** One attribute of each element, read with element.get, in order. */
  function Attributes(es: seq<Element>, key: string): (vs: seq<Key>)
    ensures |vs| == |es|
    ensures forall i :: 0 <= i < |es| ==> vs[i] == Get(es[i], key)
  {
    seq(|es|, i requires 0 <= i < |es| => Get(es[i], key))
  }

  lemma AttributesSnoc(es: seq<Element>, key: string)
    requires es != []
    ensures Attributes(es, key) == Attributes(es[..|es| - 1], key) + [Get(es[|es| - 1], key)]
  {
    assert forall i :: 0 <= i < |es| - 1 ==> es[..|es| - 1][i] == es[i];
  }

  /** element.iter(tag): the element itself and all its descendants in
      document order (pre-order), keeping those with the tag. */
  function Iter(e: Element, tag: string): (r: seq<Element>)
    ensures forall x :: x in r ==> x.tag == tag
    ensures e.tag == tag ==> r != [] && r[0] == e
    decreases e, 1
  {
    (if e.tag == tag then [e] else []) + IterAll(e.children, tag)
  }

  /** The iterations over a run of siblings, concatenated. */
  function IterAll(es: seq<Element>, tag: string): (r: seq<Element>)
    ensures forall x :: x in r ==> x.tag == tag
    decreases es, 0
  {
    if es == [] then []
    else Iter(es[0], tag) + IterAll(es[1..], tag)
  }

  /** element.find(tag): the first direct child with the tag. */
  function Find(e: Element, tag: string): Option<Element> {
    FirstTagged(e.children, tag)
  }

  function FirstTagged(cs: seq<Element>, tag: string): Option<Element>
    decreases |cs|
  {
    if cs == [] then None
    else if cs[0].tag == tag then Some(cs[0])
    else FirstTagged(cs[1..], tag)
  }

  /** The first child with the tag: it is at some position no earlier child
      with the tag precedes, and there is none exactly when no child has
      the tag. */
  lemma {:induction false} FirstTaggedMeans(cs: seq<Element>, tag: string)
    ensures var r := FirstTagged(cs, tag);
      && (r.Some? ==> exists k :: (0 <= k < |cs| && cs[k] == r.value && r.value.tag == tag
            && forall j :: 0 <= j < k ==> cs[j].tag != tag))
      && (r.None? <==> forall c :: c in cs ==> c.tag != tag)
    decreases |cs|
  {
    if cs != [] {
      FirstTaggedMeans(cs[1..], tag);
      var r := FirstTagged(cs[1..], tag);
      if cs[0].tag != tag && r.Some? {
        var k :| 0 <= k < |cs[1..]| && cs[1..][k] == r.value && r.value.tag == tag
          && forall j :: 0 <= j < k ==> cs[1..][j].tag != tag;
        assert cs[k + 1] == r.value;
      }
      assert forall c :: c in cs <==> c == cs[0] || c in cs[1..];
    }
  }

  /** find picks the earliest child with the tag, and finds nothing exactly
      when no child carries it. */
  lemma FindMeans(e: Element, tag: string)
    ensures var r := Find(e, tag);
      && (r.Some? ==> exists k :: (0 <= k < |e.children| && e.children[k] == r.value && r.value.tag == tag
            && forall j :: 0 <= j < k ==> e.children[j].tag != tag))
      && (r.None? <==> forall c :: c in e.children ==> c.tag != tag)
  {
    FirstTaggedMeans(e.children, tag);
  }

  /** Every child carrying the tag is among the elements iter yields. */
  lemma {:induction false} IterAllContainsTagged(es: seq<Element>, tag: string, c: Element)
    requires c in es && c.tag == tag
    ensures c in IterAll(es, tag)
    decreases |es|
  {
    if es[0] == c {
      assert Iter(c, tag)[0] == c;
    } else {
      IterAllContainsTagged(es[1..], tag, c);
    }
  }

  /** What find returns, iter also yields. */
  lemma FindInIter(e: Element, tag: string)
    requires Find(e, tag).Some?
    ensures Find(e, tag).value in Iter(e, tag)
  {
    FindMeans(e, tag);
    IterAllContainsTagged(e.children, tag, Find(e, tag).value);
  }
}

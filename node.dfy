/** bng::xml::Node: a named XML element with an attribute map and children kept in name order. */
module Xml {
  import opened Strings
  import opened Wrappers
  import opened OrderedMaps
  import opened Attributes
  import opened AttributeProxies

  /**
   * An element. The children are the contents of the std::multiset ordered by name, listed in
   * iteration order; the parent back-pointer is not part of the value.
   */
  datatype Node = Node(name: string, attributes: AttributeMap, children: seq<Node>)

  /** Iteration order of std::multiset<NodePtr, LessName>: names never decrease. */
  predicate SortedByName(cs: seq<Node>)
  {
    forall i, j :: 0 <= i < j < |cs| ==> !Less(cs[j].name, cs[i].name)
  }

  /** Every node of the tree keeps its attributes in key order and its children in name order. */
  predicate Wf(n: Node)
    decreases n
  {
    Ordered(n.attributes) && SortedByName(n.children) && forall c :: c in n.children ==> Wf(c)
  }

  /** The constructor and create(): the given name, no attributes, no children. */
  function Create(name: string): (n: Node)
    ensures n.name == name && |n.attributes| == 0 && |n.children| == 0 && Wf(n)
  {
    Node(name, [], [])
  }

  /** attr(name): a proxy over this node's attributes. */
  function Attr(n: Node, name: string): (p: AttributeProxy)
    ensures p.name == name && (IsSet(p) <==> Contains(n.attributes, name)) && Tracks(p, n.attributes)
  {
    Find(n.attributes, name)
  }

  /** attr(name) = v: sets one attribute and leaves the rest of the node as it was. */
  function SetAttr(n: Node, name: string, v: Attribute): (r: Node)
    ensures r.name == n.name && r.children == n.children
    ensures Lookup(r.attributes, name) == Some(v)
    ensures forall q :: q != name ==> Lookup(r.attributes, q) == Lookup(n.attributes, q)
    ensures Wf(n) ==> Wf(r)
  {
    n.(attributes := Assign(Attr(n, name), n.attributes, v))
  }

  /** multiset::insert with LessName: the new child goes after every child whose name is not greater. */
  function InsertByName(cs: seq<Node>, c: Node): (r: seq<Node>)
    ensures |r| == |cs| + 1 && multiset(r) == multiset(cs) + multiset{c}
    decreases |cs|
  {
    if |cs| == 0 then [c]
    else if Less(c.name, cs[0].name) then [c] + cs
    else
      assert cs == [cs[0]] + cs[1..];
      [cs[0]] + InsertByName(cs[1..], c)
  }

  /** addChild (through childs() +=): one more child, placed by name. */
  function AddChild(n: Node, c: Node): (r: Node)
    ensures r.name == n.name && r.attributes == n.attributes
    ensures |r.children| == |n.children| + 1 && multiset(r.children) == multiset(n.children) + multiset{c}
  {
    n.(children := InsertByName(n.children, c))
  }

  /** The children with a given name, in iteration order (childs(name), an equal_range). */
  function Named(cs: seq<Node>, name: string): (r: seq<Node>)
    ensures |r| <= |cs|
  {
    if |cs| == 0 then []
    else (if cs[0].name == name then [cs[0]] else []) + Named(cs[1..], name)
  }

  /** Named keeps exactly the children that carry the name. */
  lemma {:induction false} NamedMembers(cs: seq<Node>, name: string)
    ensures forall x :: x in Named(cs, name) <==> x in cs && x.name == name
  {
    if |cs| > 0 {
      NamedMembers(cs[1..], name);
      assert cs == [cs[0]] + cs[1..];
    }
  }

  function ChildsNamed(n: Node, name: string): (r: seq<Node>)
    ensures forall x :: x in r <==> x in n.children && x.name == name
  {
    NamedMembers(n.children, name);
    Named(n.children, name)
  }

  /** count() of childs(name). */
  function NamedCount(n: Node, name: string): (k: nat)
    ensures k <= |n.children|
    ensures k == 0 <==> forall c :: c in n.children ==> c.name != name
  {
    var r := ChildsNamed(n, name);
    assert |r| > 0 ==> r[0] in r;
    |r|
  }

  /** exist() of childs(name): some child has that name. */
  predicate NamedExist(n: Node, name: string)
    ensures NamedExist(n, name) <==> exists c :: c in n.children && c.name == name
  {
    NamedCount(n, name) > 0
  }

  lemma {:induction false} InsertByNameSorted(cs: seq<Node>, c: Node)
    requires SortedByName(cs)
    ensures SortedByName(InsertByName(cs, c))
    decreases |cs|
  {
    if |cs| > 0 {
      if Less(c.name, cs[0].name) {
        forall j | 0 <= j < |cs|
          ensures !Less(cs[j].name, c.name)
        {
          if Less(cs[j].name, c.name) {
            LessTransitive(cs[j].name, c.name, cs[0].name);
            if j == 0 {
              LessIrreflexive(cs[0].name);
            }
            assert false;
          }
        }
        ConsSorted(c, cs);
      } else {
        InsertByNameSorted(cs[1..], c);
        forall i | 0 <= i < |cs[1..]|
          ensures !Less(cs[1..][i].name, cs[0].name)
        {
          assert cs[1..][i] == cs[i + 1];
        }
        InsertNotBelow(cs[1..], c, cs[0].name);
        ConsSorted(cs[0], InsertByName(cs[1..], c));
      }
    }
  }

  /** A child whose name is not above any name of a sorted list can lead it. */
  lemma ConsSorted(c: Node, cs: seq<Node>)
    requires SortedByName(cs) && forall j :: 0 <= j < |cs| ==> !Less(cs[j].name, c.name)
    ensures SortedByName([c] + cs)
  {
    var r := [c] + cs;
    forall i, j | 0 <= i < j < |r|
      ensures !Less(r[j].name, r[i].name)
    {
      assert r[j] == cs[j - 1];
      if i > 0 {
        assert r[i] == cs[i - 1];
      }
    }
  }

  /** A name below c's and below every child's is below every name after the insertion. */
  lemma {:induction false} InsertNotBelow(cs: seq<Node>, c: Node, x: string)
    requires !Less(c.name, x) && forall i :: 0 <= i < |cs| ==> !Less(cs[i].name, x)
    ensures forall j :: 0 <= j < |InsertByName(cs, c)| ==> !Less(InsertByName(cs, c)[j].name, x)
    decreases |cs|
  {
    var r := InsertByName(cs, c);
    if |cs| == 0 {
    } else if Less(c.name, cs[0].name) {
      assert r == [c] + cs;
      forall j | 0 < j < |r|
        ensures !Less(r[j].name, x)
      {
        assert r[j] == cs[j - 1];
      }
    } else {
      InsertNotBelow(cs[1..], c, x);
      var t := InsertByName(cs[1..], c);
      assert r == [cs[0]] + t;
      forall j | 0 < j < |r|
        ensures !Less(r[j].name, x)
      {
        assert r[j] == t[j - 1];
      }
    }
  }


  /** Adding a well-formed child keeps the tree well-formed. */
  lemma AddChildWf(n: Node, c: Node)
    requires Wf(n) && Wf(c)
    ensures Wf(AddChild(n, c))
  {
    InsertByNameSorted(n.children, c);
    forall x | x in AddChild(n, c).children
      ensures Wf(x)
    {
      assert x in multiset(AddChild(n, c).children);
    }
  }

  /** No child of a sorted list has a name below the first child's. */
  lemma {:induction false} NamedBelowFirst(cs: seq<Node>, name: string)
    requires SortedByName(cs) && |cs| > 0 && Less(name, cs[0].name)
    ensures Named(cs, name) == []
  {
    if Named(cs, name) != [] {
      NamedMembers(cs, name);
      var x := Named(cs, name)[0];
      assert x in Named(cs, name);
      var m :| 0 <= m < |cs| && cs[m] == x;
      if m == 0 {
        LessIrreflexive(name);
      } else {
        LessTotal(cs[0].name, name);
        LessAsymmetric(name, cs[0].name);
        LessIrreflexive(name);
      }
    }
  }

  /**
   * Children with the same name keep their insertion order: childs(name) after addChild(c)
   * is the old childs(name) followed by c when c carries that name, and unchanged otherwise.
   */
  lemma {:induction false} NamedAfterInsert(cs: seq<Node>, c: Node, name: string)
    requires SortedByName(cs)
    ensures Named(InsertByName(cs, c), name) == Named(cs, name) + (if c.name == name then [c] else [])
    decreases |cs|
  {
    var tail: seq<Node> := if c.name == name then [c] else [];
    if |cs| == 0 {
    } else if Less(c.name, cs[0].name) {
      assert Named([c] + cs, name) == tail + Named(cs, name) by {
        assert ([c] + cs)[0] == c && ([c] + cs)[1..] == cs;
      }
      if c.name == name {
        NamedBelowFirst(cs, name);
        Unwrapped(tail);
      } else {
        Unwrapped(Named(cs, name));
      }
    } else {
      var t := InsertByName(cs[1..], c);
      SortedTail(cs);
      NamedAfterInsert(cs[1..], c, name);
      var r := InsertByName(cs, c);
      var head: seq<Node> := if cs[0].name == name then [cs[0]] else [];
      assert Named(r, name) == head + Named(t, name) by {
        assert r == [cs[0]] + t && r[0] == cs[0] && r[1..] == t;
      }
      assert Named(cs, name) == head + Named(cs[1..], name);
      Joined(head, Named(cs[1..], name), tail);
    }
  }

  lemma SortedTail(cs: seq<Node>)
    requires SortedByName(cs) && |cs| > 0
    ensures SortedByName(cs[1..])
  {
    forall i, j | 0 <= i < j < |cs[1..]|
      ensures !Less(cs[1..][j].name, cs[1..][i].name)
    {
      assert cs[1..][j] == cs[j + 1] && cs[1..][i] == cs[i + 1];
    }
  }


  lemma NamedAfterAddChild(n: Node, c: Node, name: string)
    requires SortedByName(n.children)
    ensures ChildsNamed(AddChild(n, c), name) == ChildsNamed(n, name) + (if c.name == name then [c] else [])
    ensures NamedCount(AddChild(n, c), name) == NamedCount(n, name) + (if c.name == name then 1 else 0)
  {
    NamedAfterInsert(n.children, c, name);
  }

  // ---------------------------------------------------------------- writing

  /** makeIndentation: two spaces per level; a level below one gives nothing. */
  function Indentation(k: int): (s: string)
    ensures |s| == if k <= 0 then 0 else 2 * k
    ensures forall i :: 0 <= i < |s| ==> s[i] == ' '
    decreases k
  {
    if k <= 0 then "" else Indentation(k - 1) + "  "
  }

  /** " key=value" for one attribute. */
  function AttributeText(e: (string, Attribute)): string
  {
    " " + e.0 + "=" + ToString(e.1)
  }

  /** The attributes of an opening tag, in the map's (ascending key) order. */
  function AttributesText(attrs: AttributeMap): string
    decreases |attrs|
  {
    if |attrs| == 0 then "" else AttributesText(attrs[..|attrs| - 1]) + AttributeText(attrs[|attrs| - 1])
  }

  function OpeningTag(n: Node, k: int): string
  {
    Indentation(k) + "<" + n.name + AttributesText(n.attributes) + (if |n.children| == 0 then "/>" else ">")
  }

  function ClosingTag(n: Node, k: int): string
  {
    Indentation(k) + "</" + n.name + ">"
  }

  /** What write(stream, k) puts on the stream. */
  function Written(n: Node, k: int): string
    decreases n, 1
  {
    OpeningTag(n, k) + (if |n.children| == 0 then "" else ChildrenText(n, k + 1, 0) + "\n" + ClosingTag(n, k))
  }

  /** Children i.. of a parent, each on a new line at level k. */
  function ChildrenText(parent: Node, k: int, i: nat): string
    requires i <= |parent.children|
    decreases parent, 0, |parent.children| - i
  {
    if i == |parent.children| then ""
    else "\n" + Written(parent.children[i], k) + ChildrenText(parent, k, i + 1)
  }

  /** makeIndentation: appends two spaces once per level. */
  method MakeIndentation(k: int) returns (ret: string)
    ensures ret == Indentation(k)
  {
    ret := "";
    if k <= 0 {
      return;
    }
    var i := 0;
    while i < k
      invariant 0 <= i <= k
      invariant ret == Indentation(i)
    {
      ret := ret + "  ";
      i := i + 1;
    }
  }

  method MakeAttributesText(attrs: AttributeMap) returns (ret: string)
    ensures ret == AttributesText(attrs)
  {
    ret := "";
    var i := 0;
    while i < |attrs|
      invariant 0 <= i <= |attrs|
      invariant ret == AttributesText(attrs[..i])
    {
      assert attrs[..i + 1][..i] == attrs[..i];
      ret := ret + " " + attrs[i].0 + "=" + ToString(attrs[i].1);
      i := i + 1;
    }
    assert attrs[..i] == attrs;
  }

  /** makeOpeningTag: indentation, "<name", the attributes, then "/>" for a leaf or ">" otherwise. */
  method MakeOpeningTag(n: Node, k: int) returns (ret: string)
    ensures ret == OpeningTag(n, k)
  {
    var indent := MakeIndentation(k);
    var attrs := MakeAttributesText(n.attributes);
    ret := indent + "<" + n.name + attrs;
    if |n.children| == 0 {
      ret := ret + "/>";
    } else {
      ret := ret + ">";
    }
  }

  method MakeClosingTag(n: Node, k: int) returns (ret: string)
    ensures ret == ClosingTag(n, k)
  {
    ret := MakeIndentation(k);
    ret := ret + "</" + n.name + ">";
  }

  /** write: the opening tag, then each child on its own line one level deeper, then the closing tag. */
  method Write(n: Node, k: int) returns (out: string)
    ensures out == Written(n, k)
    decreases n, 1
  {
    out := MakeOpeningTag(n, k);
    if |n.children| > 0 {
      var kids := WriteChildren(n, k + 1);
      var closing := MakeClosingTag(n, k);
      out := out + (kids + "\n" + closing);
    }
  }

  /** The BOOST_FOREACH of write: every child after a line break. */
  method WriteChildren(n: Node, k: int) returns (kids: string)
    ensures kids == ChildrenText(n, k, 0)
    decreases n, 0
  {
    kids := "";
    var i := 0;
    while i < |n.children|
      invariant 0 <= i <= |n.children|
      invariant kids + ChildrenText(n, k, i) == ChildrenText(n, k, 0)
    {
      var child := Write(n.children[i], k);
      ChildrenTextStep(n, k, i, kids, child);
      kids := kids + "\n" + child;
      i := i + 1;
    }
  }

  lemma ChildrenTextStep(n: Node, k: int, i: nat, kids: string, child: string)
    requires i < |n.children| && child == Written(n.children[i], k)
    ensures kids + ChildrenText(n, k, i) == (kids + "\n" + child) + ChildrenText(n, k, i + 1)
  {
  }

  // ---------------------------------------------------------------- line structure

  /** Names, attribute keys and attribute texts contain no line break, throughout the tree. */
  predicate OneLineText(n: Node)
    decreases n
  {
    '\n' !in n.name &&
    (forall e :: e in n.attributes ==> '\n' !in e.0 && '\n' !in ToString(e.1)) &&
    forall c :: c in n.children ==> OneLineText(c)
  }

  /** Lines a node occupies: one for a leaf, its tags' two plus its children's otherwise. */
  function Lines(n: Node): nat
    decreases n, 1
  {
    if |n.children| == 0 then 1 else 2 + ChildrenLines(n, 0)
  }

  function ChildrenLines(parent: Node, i: nat): nat
    requires i <= |parent.children|
    decreases parent, 0, |parent.children| - i
  {
    if i == |parent.children| then 0 else Lines(parent.children[i]) + ChildrenLines(parent, i + 1)
  }

  lemma {:induction false} AttributesTextOneLine(attrs: AttributeMap)
    requires forall e :: e in attrs ==> '\n' !in e.0 && '\n' !in ToString(e.1)
    ensures '\n' !in AttributesText(attrs)
    decreases |attrs|
  {
    if |attrs| > 0 {
      var init := attrs[..|attrs| - 1];
      assert forall e :: e in init ==> e in attrs;
      AttributesTextOneLine(init);
      assert attrs[|attrs| - 1] in attrs;
    }
  }

  lemma OpeningTagOneLine(n: Node, k: int)
    requires OneLineText(n)
    ensures '\n' !in OpeningTag(n, k) && '\n' !in ClosingTag(n, k)
  {
    AttributesTextOneLine(n.attributes);
  }

  /** Every tag sits on a line of its own: write emits one line break fewer than the lines the tree takes. */
  lemma {:induction false} WrittenLines(n: Node, k: int)
    requires OneLineText(n)
    ensures Count('\n', Written(n, k)) == Lines(n) - 1
    decreases n, 1
  {
    OpeningTagOneLine(n, k);
    CountAbsent('\n', OpeningTag(n, k));
    if |n.children| > 0 {
      var o, ct, cl := OpeningTag(n, k), ChildrenText(n, k + 1, 0), ClosingTag(n, k);
      ChildrenTextLines(n, k + 1, 0);
      CountAbsent('\n', cl);
      assert Written(n, k) == o + (ct + "\n" + cl);
      CountAppend('\n', o, ct + "\n" + cl);
      CountAppend('\n', ct + "\n", cl);
      CountAppend('\n', ct, "\n");
    } else {
      assert Written(n, k) == OpeningTag(n, k);
    }
  }

  lemma {:induction false} ChildrenTextLines(parent: Node, k: int, i: nat)
    requires i <= |parent.children|
    requires OneLineText(parent)
    ensures Count('\n', ChildrenText(parent, k, i)) == ChildrenLines(parent, i)
    decreases parent, 0, |parent.children| - i
  {
    if i < |parent.children| {
      var c := parent.children[i];
      WrittenLines(c, k);
      ChildrenTextLines(parent, k, i + 1);
      CountAppend('\n', "\n" + Written(c, k), ChildrenText(parent, k, i + 1));
      CountAppend('\n', "\n", Written(c, k));
    }
  }
}

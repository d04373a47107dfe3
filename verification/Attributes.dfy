/** The attributes of an element, element.c, as a doubly linked list of nodes on the heap. */
module Attributes {
  import opened Options
  import opened Bytes
  import opened Utf8
  import opened Names
  import XmlTree
  import P = Parser

  datatype ReturnCode = SUCCESS | INVALID_CHARACTER_ERR | WRONG_DOCUMENT_ERR | INUSE_ATTRIBUTE_ERR

  /** The name of an attribute node and its value, which may be null */
  datatype Entry = Entry(name: CString, value: Option<CString>)

  // ---- An insertion-ordered map ----

  /** The index of the entry with the name, or |es| */
  function IndexOf(es: seq<Entry>, name: CString): nat {
    if es == [] || es[0].name == name then 0 else 1 + IndexOf(es[1..], name)
  }

  /** The value for a name: none if there is no such entry or its value is null. */
  function Get(es: seq<Entry>, name: CString): Option<CString> {
    var i := IndexOf(es, name);
    if i < |es| then es[i].value else None
  }

  function Put(es: seq<Entry>, name: CString, value: Option<CString>): seq<Entry> {
    var i := IndexOf(es, name);
    if i < |es| then es[i := Entry(name, value)] else es + [Entry(name, value)]
  }

  predicate DistinctNames(es: seq<Entry>) {
    forall i, j :: 0 <= i < j < |es| ==> es[i].name != es[j].name
  }

  function NamesOf(es: seq<Entry>): (r: seq<CString>)
    ensures |r| == |es| && forall i :: 0 <= i < |es| ==> r[i] == es[i].name
  {
    seq(|es|, i requires 0 <= i < |es| => es[i].name)
  }

  lemma {:induction false} IndexOfFirst(es: seq<Entry>, name: CString)
    ensures var i := IndexOf(es, name);
      && i <= |es|
      && (i < |es| ==> es[i].name == name)
      && forall k :: 0 <= k < i ==> es[k].name != name
  {
    if es != [] && es[0].name != name {
      IndexOfFirst(es[1..], name);
    }
  }

  lemma IndexOfIs(es: seq<Entry>, name: CString, i: nat)
    requires i <= |es| && (i < |es| ==> es[i].name == name)
    requires forall k :: 0 <= k < i ==> es[k].name != name
    ensures IndexOf(es, name) == i
  {
    IndexOfFirst(es, name);
  }

  /** Reading after writing: the new value for the name that was set, and the old one for all others. */
  lemma GetAfterPut(es: seq<Entry>, name: CString, value: Option<CString>, other: CString)
    ensures Get(Put(es, name, value), other) == if other == name then value else Get(es, other)
  {
    var es' := Put(es, name, value);
    IndexOfFirst(es, name);
    IndexOfFirst(es, other);
    if other == name || IndexOf(es, other) < |es| {
      IndexOfIs(es', other, IndexOf(es, other));
    } else {
      IndexOfIs(es', other, |es'|);
    }
  }

  /** Names stay distinct and in the order in which they were first set. */
  lemma PutKeepsOrder(es: seq<Entry>, name: CString, value: Option<CString>)
    requires DistinctNames(es)
    ensures DistinctNames(Put(es, name, value))
    ensures NamesOf(Put(es, name, value)) == if name in NamesOf(es) then NamesOf(es) else NamesOf(es) + [name]
  {
    IndexOfFirst(es, name);
    if IndexOf(es, name) < |es| {
      assert NamesOf(es)[IndexOf(es, name)] == name;
    }
  }

  /** The last of several values that are set for a name is the one that is read, and setting a value twice is
      the same as setting it once. */
  lemma PutTwice(es: seq<Entry>, name: CString, first: Option<CString>, second: Option<CString>)
    ensures Put(Put(es, name, first), name, second) == Put(es, name, second)
  {
    IndexOfFirst(es, name);
    IndexOfIs(Put(es, name, first), name, IndexOf(es, name));
  }

  // ---- The nodes ----

  class AttrNode {
    var name: CString
    var value: Option<CString>
    var prevSibling: AttrNode?
    var nextSibling: AttrNode?
    const ownerDocument: nat
    var ownerElement: Element?

    /** `ixmlDocument_createAttributeEx` */
    constructor (ownerDocument: nat, name: CString)
      ensures this.name == name && value == None && this.ownerDocument == ownerDocument
      ensures prevSibling == null && nextSibling == null && ownerElement == null
    {
      this.name, value, this.ownerDocument := name, None, ownerDocument;
      prevSibling, nextSibling, ownerElement := null, null, null;
    }
  }

  /** `attrs` is linked in both directions from `first` on, and no node stands in it twice. */
  ghost predicate IsLinked(first: AttrNode?, attrs: seq<AttrNode>)
    reads attrs
  {
    && first == (if attrs == [] then null else attrs[0])
    && (forall i, j :: 0 <= i < j < |attrs| ==> attrs[i] != attrs[j])
    && (forall i {:trigger attrs[i].nextSibling} :: 0 <= i < |attrs| ==>
          attrs[i].nextSibling == if i + 1 < |attrs| then attrs[i + 1] else null)
    && (forall i {:trigger attrs[i].prevSibling} :: 0 <= i < |attrs| ==>
          attrs[i].prevSibling == if i > 0 then attrs[i - 1] else null)
  }

  lemma LinkedAlone(node: AttrNode)
    requires node.prevSibling == null && node.nextSibling == null
    ensures IsLinked(node, [node])
  {
  }

  ghost function EntriesOf(attrs: seq<AttrNode>): (r: seq<Entry>)
    reads attrs
    ensures |r| == |attrs| && forall i :: 0 <= i < |attrs| ==> r[i] == Entry(attrs[i].name, attrs[i].value)
  {
    seq(|attrs|, i requires 0 <= i < |attrs| reads attrs => Entry(attrs[i].name, attrs[i].value))
  }

  /** `Parser_isValidXmlName`: `*pstr` is a signed `char`. */
  function CharValue(b: Byte): int {
    if b <= 0x7F then b else b - 256
  }

  class Element {
    const tables: Tables
    const ownerDocument: nat
    var firstAttr: AttrNode?

    ghost var attrs: seq<AttrNode>

    ghost predicate Valid()
      reads this, attrs
    {
      && IsLinked(firstAttr, attrs) && DistinctNames(EntriesOf(attrs))
      && forall i :: 0 <= i < |attrs| ==> attrs[i].ownerElement == this
    }

    ghost function Entries(): seq<Entry>
      reads this, attrs
    {
      EntriesOf(attrs)
    }

    constructor (tables: Tables, ownerDocument: nat)
      ensures Valid() && attrs == [] && Entries() == []
      ensures this.tables == tables && this.ownerDocument == ownerDocument
    {
      this.tables, this.ownerDocument := tables, ownerDocument;
      firstAttr, attrs := null, [];
    }

    /** The search loop of all the functions of element.c that take a name: the node with the name, if there is
        one */
    method FindNode(name: CString) returns (node: AttrNode?, ghost k: nat)
      requires Valid()
      ensures k == IndexOf(Entries(), name) <= |attrs|
      ensures node == if k < |attrs| then attrs[k] else null
    {
      hide IndexOf;
      node, k := firstAttr, 0;
      while node != null && node.name != name
        invariant k <= |attrs| && node == (if k < |attrs| then attrs[k] else null)
        invariant forall i :: 0 <= i < k ==> Entries()[i].name != name
        decreases |attrs| - k
      {
        assert attrs[k].nextSibling == if k + 1 < |attrs| then attrs[k + 1] else null;
        node := node.nextSibling;
        k := k + 1;
      }
      IndexOfIs(Entries(), name, k);
    }

    /** `ixmlElement_getAttribute` */
    method GetAttribute(name: CString) returns (value: Option<CString>)
      requires Valid()
      ensures value == Get(Entries(), name)
    {
      var node, k := FindNode(name);
      value := if node != null then node.value else None;
    }

    /** `ixmlElement_removeAttribute`: the node stays, and its value becomes null. */
    method RemoveAttribute(name: CString)
      requires Valid()
      modifies attrs
      ensures Valid() && attrs == old(attrs)
      ensures Entries() == if name in NamesOf(old(Entries())) then Put(old(Entries()), name, None) else old(Entries())
    {
      var node, k := FindNode(name);
      IndexOfFirst(Entries(), name);
      if node != null {
        assert NamesOf(Entries())[k] == name;
        StoreValue(node, k, None);
      }
    }

    /** The value of a node is replaced. */
    method StoreValue(node: AttrNode, ghost k: nat, value: Option<CString>)
      requires Valid() && k < |attrs| && node == attrs[k] && k == IndexOf(Entries(), node.name)
      modifies node`value
      ensures Valid() && Entries() == Put(old(Entries()), node.name, value)
    {
      node.value := value;
      assert Entries() == old(Entries())[k := Entry(node.name, value)];
    }

    /** `ixmlElement_setAttribute` */
    method SetAttribute(name: CString, value: CString) returns (rc: ReturnCode)
      requires Valid()
      modifies this, attrs
      ensures Valid()
      ensures rc == if IsAcceptedName(tables, name) then SUCCESS else INVALID_CHARACTER_ERR
      ensures Entries() == if rc == SUCCESS then Put(old(Entries()), name, Some(value)) else old(Entries())
      ensures |old(attrs)| <= |attrs| && attrs[..|old(attrs)|] == old(attrs)
    {
      var valid := IsValidXmlName(tables, name);
      if !valid {
        return INVALID_CHARACTER_ERR;
      }
      var node, k := FindNode(name);
      if node == null {
        ghost var replaced := AddNew(name, value);
      } else {
        IndexOfFirst(Entries(), name);
        StoreValue(node, k, Some(value));
      }
      rc := SUCCESS;
    }

    /** `Parser_processAttributeName`: a second attribute of the same name is refused. */
    method ProcessAttributeName(name: CString, value: CString) returns (ok: bool, ghost replaced: AttrNode?)
      requires Valid()
      modifies this, attrs
      ensures Valid() && (ok <==> name !in NamesOf(old(Entries())))
      ensures !ok ==> attrs == old(attrs) && Entries() == old(Entries())
      ensures ok ==> replaced == null && |attrs| == |old(attrs)| + 1 && attrs[..|old(attrs)|] == old(attrs)
      ensures ok ==> fresh(attrs[|old(attrs)|]) && Entries() == old(Entries()) + [Entry(name, Some(value))]
    {
      var duplicate, k := FindNode(name);
      IndexOfFirst(Entries(), name);
      if duplicate != null {
        assert NamesOf(Entries())[k] == name;
        return false, null;
      }
      replaced := AddNew(name, value);
      ok := true;
    }

    /** An attribute is created with its value, and put into the list. */
    method AddNew(name: CString, value: CString) returns (ghost replaced: AttrNode?)
      requires Valid() && IndexOf(Entries(), name) == |attrs|
      modifies this, attrs
      ensures Valid() && Entries() == old(Entries()) + [Entry(name, Some(value))] && replaced == null
      ensures |attrs| == |old(attrs)| + 1 && attrs[..|old(attrs)|] == old(attrs) && fresh(attrs[|old(attrs)|])
    {
      hide IndexOf, IsLinked;
      var newAttr := new AttrNode(ownerDocument, name);
      newAttr.value := Some(value);
      var rc, found := SetAttributeNode(newAttr);
      replaced := found;
    }

    /** `ixmlElement_setAttributeNode` with an attribute that is not linked to others yet. An attribute with a new
        name goes to the end of the list. One with the name of an attribute that is there takes its place, but is
        linked neither to the attributes behind that one nor back to the ones before: the list stays linked in both
        directions only if the first attribute is replaced, and loses nothing only if the last one is. */
    method SetAttributeNode(newAttr: AttrNode) returns (rc: ReturnCode, replaced: AttrNode?)
      requires Valid()
      requires newAttr.ownerElement == null ==> newAttr.prevSibling == null && newAttr.nextSibling == null
      modifies this, attrs, newAttr
      ensures rc == if newAttr.ownerDocument != ownerDocument then WRONG_DOCUMENT_ERR
                    else if old(newAttr.ownerElement) != null then INUSE_ATTRIBUTE_ERR else SUCCESS
      ensures rc != SUCCESS ==> Valid() && attrs == old(attrs) && Entries() == old(Entries())
      ensures rc == SUCCESS ==>
        var es, e := old(Entries()), Entry(newAttr.name, newAttr.value);
        var k := IndexOf(es, e.name);
        && newAttr.name == old(newAttr.name) && newAttr.value == old(newAttr.value)
        && if k == |es| then Valid() && replaced == null && attrs == old(attrs) + [newAttr] && Entries() == es + [e]
           else
             && k < |es| && replaced == old(attrs)[k]
             && attrs == old(attrs)[..k] + [newAttr] && IsForward(firstAttr, attrs) && Entries() == es[..k] + [e]
             && (Valid() <==> k == 0)
             && (Entries() == Put(es, e.name, e.value) <==> k + 1 == |es|)
    {
      hide IndexOf;
      replaced := null;
      if newAttr.ownerDocument != ownerDocument {
        return WRONG_DOCUMENT_ERR, null;
      }
      if newAttr.ownerElement != null {
        return INUSE_ATTRIBUTE_ERR, null;
      }
      assert newAttr !in attrs;
      newAttr.ownerElement := this;
      var node, k := FindNode(newAttr.name);
      IndexOfFirst(Entries(), newAttr.name);
      if node != null {
        Replace(node, k, newAttr);
        replaced := node;
      } else {
        Append(newAttr);
      }
      rc := SUCCESS;
    }

    method Append(node: AttrNode)
      requires Valid() && node !in attrs && node.ownerElement == this
      requires node.prevSibling == null && node.nextSibling == null
      requires forall i :: 0 <= i < |attrs| ==> attrs[i].name != node.name
      modifies this`firstAttr, this`attrs, attrs, node
      ensures Valid() && attrs == old(attrs) + [node]
      ensures Entries() == old(Entries()) + [Entry(node.name, node.value)]
      ensures node.name == old(node.name) && node.value == old(node.value)
    {
      hide IsLinked;
      var last := LastNode();
      if last != null {
        LinkLast(attrs, last, node);
      } else {
        firstAttr := node;
        LinkedAlone(node);
        assert attrs + [node] == [node];
      }
      attrs := attrs + [node];
      assert Entries() == old(Entries()) + [Entry(node.name, node.value)];
    }

    /** The walk to the end of the list */
    method LastNode() returns (prev: AttrNode?)
      requires IsLinked(firstAttr, attrs)
      ensures prev == if attrs == [] then null else attrs[|attrs| - 1]
      ensures firstAttr == if attrs == [] then null else attrs[0]
    {
      prev := firstAttr;
      if prev != null {
        var next := prev.nextSibling;
        ghost var k := 0;
        while next != null
          invariant k < |attrs| && prev == attrs[k] && next == (if k + 1 < |attrs| then attrs[k + 1] else null)
          decreases |attrs| - k
        {
          prev := next;
          next := prev.nextSibling;
          k := k + 1;
        }
      }
    }

    method LinkLast(ghost attrs: seq<AttrNode>, last: AttrNode, node: AttrNode)
      requires IsLinked(firstAttr, attrs) && node !in attrs && attrs != [] && last == attrs[|attrs| - 1]
      requires node.prevSibling == null && node.nextSibling == null
      modifies last`nextSibling, node`prevSibling
      ensures IsLinked(firstAttr, attrs + [node])
    {
      last.nextSibling := node;
      node.prevSibling := last;
    }

    method Replace(node: AttrNode, ghost k: nat, newAttr: AttrNode)
      requires Valid() && k < |attrs| && attrs[k] == node && newAttr.name == node.name
      requires newAttr !in attrs && newAttr.nextSibling == null == newAttr.prevSibling && newAttr.ownerElement == this
      modifies this`firstAttr, this`attrs, attrs
      ensures attrs == old(attrs)[..k] + [newAttr] && IsForward(firstAttr, attrs)
      ensures Entries() == old(Entries())[..k] + [Entry(newAttr.name, newAttr.value)]
      ensures Valid() <==> k == 0
    {
      assert attrs[k].prevSibling == if k > 0 then attrs[k - 1] else null;
      assert attrs[k].nextSibling == if k + 1 < |attrs| then attrs[k + 1] else null;
      var preSib, nextSib := node.prevSibling, node.nextSibling;
      if preSib != null {
        preSib.nextSibling := newAttr;
      }
      if nextSib != null {
        nextSib.prevSibling := newAttr;
      }
      if firstAttr == node {
        firstAttr := newAttr;
      }
      attrs := attrs[..k] + [newAttr];
      assert attrs[k].prevSibling == null;
    }
  }

  /** The nodes that a walk along `nextSibling` from `first` visits */
  ghost predicate IsForward(first: AttrNode?, attrs: seq<AttrNode>)
    reads attrs
  {
    && first == (if attrs == [] then null else attrs[0])
    && forall i {:trigger attrs[i].nextSibling} :: 0 <= i < |attrs| ==>
         attrs[i].nextSibling == if i + 1 < |attrs| then attrs[i + 1] else null
  }

  // ---- The attributes that the parser collects ----

  /** The attributes of an open element of the parser as entries of a list */
  function FrameEntries(attrs: seq<XmlTree.Attr>): (r: seq<Entry>)
    ensures |r| == |attrs| && forall i :: 0 <= i < |attrs| ==> r[i] == Entry(attrs[i].name, Some(attrs[i].value))
  {
    seq(|attrs|, i requires 0 <= i < |attrs| => Entry(attrs[i].name, Some(attrs[i].value)))
  }

  /** `Element.ProcessAttributeName` does to the list what the parser function does to the innermost open element: both
      refuse the same names, and otherwise the same entry goes to the end. */
  lemma ParserAgrees(d: P.State, name: CString, value: CString)
    requires d.open != []
    ensures var es, next := FrameEntries(P.Last(d.open).attrs), P.AddAttribute(d, name, value);
      && (next.Some? <==> name !in NamesOf(es))
      && (next.Some? ==>
            next.value.open != []
            && FrameEntries(P.Last(next.value.open).attrs) == es + [Entry(name, Some(value))])
  {
    var attrs := P.Last(d.open).attrs;
    var es := FrameEntries(attrs);
    if i :| 0 <= i < |attrs| && attrs[i].name == name {
      assert NamesOf(es)[i] == name;
    }
    if name in NamesOf(es) {
      var i :| 0 <= i < |es| && NamesOf(es)[i] == name;
      assert attrs[i].name == name;
    }
  }

  // ---- Names ----

  /** What `Parser_isValidXmlName` accepts: it looks at the octets behind the first one only if that is a letter. */
  predicate IsAcceptedName(t: Tables, name: CString) {
    name == [] || !t.IsLetter(CharValue(name[0])) || forall i :: 1 <= i < |name| ==> t.IsNameChar(CharValue(name[i]))
  }

  method IsValidXmlName(t: Tables, name: CString) returns (valid: bool)
    ensures valid <==> IsAcceptedName(t, name)
  {
    if name != [] && t.IsLetter(CharValue(name[0])) {
      var i := 1;
      while i < |name|
        invariant 1 <= i <= |name|
        invariant forall k :: 1 <= k < i ==> t.IsNameChar(CharValue(name[k]))
      {
        if !t.IsNameChar(CharValue(name[i])) {
          return false;
        }
        i := i + 1;
      }
    }
    valid := true;
  }

  predicate IsAscii(s: CString) {
    forall k :: 0 <= k < |s| ==> s[k] <= 0x7F
  }

  predicate AllNameChars(t: Tables, s: CString) {
    forall k :: 0 <= k < |s| ==> t.IsNameChar(s[k])
  }

  /** A string of ASCII octets is a run of name characters if and only if each octet is one. */
  lemma {:induction false} AsciiNameLength(t: Tables, s: CString)
    requires IsAscii(s)
    ensures NameLength(t, s) == |s| <==> AllNameChars(t, s)
    ensures AllNameChars(t, s) ==> IsXmlText(s)
  {
    if s != [] {
      assert t.Valid();
      AsciiDecodes(s);
      AsciiNameLength(t, s[1..]);
      assert AllNameChars(t, s) <==> t.IsNameChar(s[0]) && AllNameChars(t, s[1..]);
      assert IntToUtf8(s[0]) == s[..1];
    }
  }

  /** When the check is right: for ASCII strings, if they begin with a letter. Octets above 127 are negative `char`s,
      which are in no table: a string that begins with one always passes, so it has to be a name; one with such an
      octet further on, behind an ASCII letter, never passes, so it must not be a name. */
  predicate IsCheckedRight(t: Tables, name: CString) {
    name != []
    && if name[0] > 0x7F then IsName(t, name)
       else t.IsLetter(name[0]) && (IsAscii(name) || !IsName(t, name))
  }

  /** `Parser_isValidXmlName` agrees with what a name is, in the sense of the tokenizer, exactly for those strings. */
  lemma NameCheckIsExact(t: Tables, name: CString)
    ensures (IsAcceptedName(t, name) <==> IsName(t, name)) <==> IsCheckedRight(t, name)
  {
    hide IsXmlText, NameLength, Utf8ToInt;
    NegativeIsNoChar(t);
    if name != [] && name[0] <= 0x7F {
      AsciiDecodes(name);
      if IsAscii(name) {
        AsciiNameLength(t, name);
        assert t.IsLetter(name[0]) ==>
          (AllNameChars(t, name) <==> forall i :: 1 <= i < |name| ==> t.IsNameChar(CharValue(name[i])));
      } else {
        var k :| 0 <= k < |name| && name[k] > 0x7F;
        assert !t.IsNameChar(CharValue(name[k]));
      }
    }
  }

  lemma NegativeIsNoChar(t: Tables)
    ensures forall b: Byte :: b > 0x7F ==> !t.IsNameChar(CharValue(b)) && !t.IsLetter(CharValue(b))
  {
    assert t.Valid();
    forall b: Byte | b > 0x7F
      ensures !t.IsNameChar(CharValue(b)) && !t.IsLetter(CharValue(b))
    {
      assert t.IsNameChar(CharValue(b)) ==> IsXmlChar(CharValue(b));
    }
  }

  /** Accepted although it is no name: "1". */
  lemma DigitIsAccepted(t: Tables)
    requires !t.IsLetter(0x31)
    ensures IsAcceptedName(t, [0x31]) && !IsName(t, [0x31])
  {
    AsciiDecodes([0x31]);
  }

  /** Refused although it is a name: "a" with U+00E9 behind it. */
  lemma AccentIsRefused(t: Tables)
    requires t.IsLetter(0x61) && t.IsLetter(0xE9)
    ensures IsName(t, [0x61, 0xC3, 0xA9]) && !IsAcceptedName(t, [0x61, 0xC3, 0xA9])
  {
    var name: CString := [0x61, 0xC3, 0xA9];
    NegativeIsNoChar(t);
    assert name[1..] == [0xC3, 0xA9] && name[1..][2..] == [];
    assert Utf8ToInt(name[1..]) == Decoded(0xE9, 2);
    assert IntToUtf8(0xE9) == [0xC3, 0xA9] == name[1..][..2];
    assert IntToUtf8(0x61) == name[..1];
    assert NameLength(t, name[1..]) == 2;
    assert !t.IsNameChar(CharValue(name[1]));
  }
}

/** The printer of ixml.c, appending step by step to a buffer. */
module Printer {
  import opened Bytes
  import opened Escape
  import opened XmlTree
  import opened MemBuf

  /** The switch of `copy_with_escape`. */
  method EscapeTo(m: Buffer, b: Byte)
    requires m.Valid()
    modifies m, m.buf
    ensures m.Valid() && (m.buf == old(m.buf) || fresh(m.buf))
    ensures m.Contents() == old(m.Contents()) + EscapeByte(b)
  {
    if b == LESSTHAN {
      m.AppendStr(LT_ENTITY);
    } else if b == GREATERTHAN {
      m.AppendStr(GT_ENTITY);
    } else if b == AMPERSAND {
      m.AppendStr(AMP_ENTITY);
    } else if b == SINGLEQUOTE {
      m.AppendStr(APOS_ENTITY);
    } else if b == QUOTE {
      m.AppendStr(QUOT_ENTITY);
    } else {
      m.Append(b);
    }
  }

  /** `copy_with_escape` */
  method CopyWithEscape(m: Buffer, p: CString)
    requires m.Valid()
    modifies m, m.buf
    ensures m.Valid() && (m.buf == old(m.buf) || fresh(m.buf))
    ensures m.Contents() == old(m.Contents()) + EscapeText(p)
  {
    hide EscapeText, EscapeByte;
    EscapeNothing();
    ghost var c0 := m.Contents();
    assert c0 + [] == c0;
    assert p[..0] == [];
    for i := 0 to |p|
      invariant m.Valid() && (m.buf == old(m.buf) || fresh(m.buf))
      invariant m.Contents() == c0 + EscapeText(p[..i])
    {
      EscapeNext(c0, p, i);
      EscapeTo(m, p[i]);
    }
    assert p[..|p|] == p;
  }

  lemma EscapeNothing()
    ensures EscapeText([]) == []
  {
  }

  lemma EscapeNext(c: seq<Octet>, p: CString, i: nat)
    requires i < |p|
    ensures c + EscapeText(p[..i]) + EscapeByte(p[i]) == c + EscapeText(p[..i + 1])
  {
    hide EscapeText, EscapeByte;
    EscapeSnoc(p[..i], p[i]);
    assert p[..i + 1] == p[..i] + [p[i]];
  }

  lemma EscapeSnoc(s: CString, b: Byte)
    ensures EscapeText(s + [b]) == EscapeText(s) + EscapeByte(b)
  {
    EscapeConcat(s, [b]);
    assert [b][1..] == [];
    EscapeNothing();
    assert EscapeText([b]) == EscapeByte(b) + EscapeText([]);
  }

  function AttrText(a: Attr): CString {
    a.name + EQUALS_QUOTE + EscapeText(a.value) + QUOTE_STRING
  }

  method PrintAttrTo(m: Buffer, a: Attr)
    requires m.Valid()
    modifies m, m.buf
    ensures m.Valid() && (m.buf == old(m.buf) || fresh(m.buf))
    ensures m.Contents() == old(m.Contents()) + AttrText(a)
  {
    hide EscapeText;
    m.AppendStr(a.name);
    m.AppendStr(EQUALS_QUOTE);
    CopyWithEscape(m, a.value);
    m.AppendStr(QUOTE_STRING);
    Join4(old(m.Contents()), a.name, EQUALS_QUOTE, EscapeText(a.value), QUOTE_STRING);
  }

  lemma Join4(a: seq<Octet>, b: CString, c: CString, d: CString, e: CString)
    ensures a + b + c + d + e == a + (b + c + d + e)
  {
    assert a + b + c == a + (b + c);
    assert a + (b + c) + d == a + (b + c + d);
    assert a + (b + c + d) + e == a + (b + c + d + e);
  }

  lemma PrintAttrsUnfold(attrs: seq<Attr>)
    requires attrs != []
    ensures PrintAttrs(attrs)
         == AttrText(attrs[0]) + (if |attrs| > 1 then SPACE_STRING + PrintAttrs(attrs[1..]) else [])
  {
    hide EscapeText;
  }

  /** `ixmlPrintDomTreeRecursive` on an attribute node and its siblings. */
  method PrintAttrsTo(m: Buffer, attrs: seq<Attr>)
    requires m.Valid() && attrs != []
    modifies m, m.buf
    ensures m.Valid() && (m.buf == old(m.buf) || fresh(m.buf))
    ensures m.Contents() == old(m.Contents()) + PrintAttrs(attrs)
    decreases |attrs|
  {
    hide PrintAttrs, AttrText;
    PrintAttrsUnfold(attrs);
    ghost var c0, head := m.Contents(), AttrText(attrs[0]);
    PrintAttrTo(m, attrs[0]);
    if |attrs| > 1 {
      m.AppendStr(SPACE_STRING);
      PrintAttrsTo(m, attrs[1..]);
      Join3(c0, head, SPACE_STRING, PrintAttrs(attrs[1..]));
    } else {
      assert head + [] == head;
    }
  }

  lemma Join3(a: seq<Octet>, b: CString, c: CString, d: CString)
    ensures a + b + c + d == a + (b + (c + d))
  {
    assert b + c + d == b + (c + d);
  }

  /** The start tag of an element without its ">". */
  method PrintStartTagTo(m: Buffer, name: CString, attrs: seq<Attr>)
    requires m.Valid()
    modifies m, m.buf
    ensures m.Valid() && (m.buf == old(m.buf) || fresh(m.buf))
    ensures m.Contents() == old(m.Contents()) + PrintStartTag(name, attrs)
  {
    hide PrintAttrs;
    ghost var c0 := m.Contents();
    m.AppendStr(LESS);
    m.AppendStr(name);
    assert c0 + LESS + name == c0 + (LESS + name);
    if attrs != [] {
      m.AppendStr(SPACE_STRING);
      PrintAttrsTo(m, attrs);
      Join3(c0, LESS + name, SPACE_STRING, PrintAttrs(attrs));
    } else {
      assert LESS + name + [] == LESS + name;
    }
  }

  /** `ixmlPrintNode` on a document whose only child is `root` */
  method PrintNode(root: Node) returns (m: Buffer)
    ensures fresh(m) && m.Valid() && m.Contents() == PrintDocument(root)
  {
    m := new Buffer();
    PrintNodesTo(m, [root]);
    assert [] + PrintDocument(root) == PrintDocument(root);
  }

  /** `ixmlPrintDomTreeRecursive` on a node and its siblings. */
  method PrintNodesTo(m: Buffer, nodes: seq<Node>)
    requires m.Valid()
    modifies m, m.buf
    ensures m.Valid() && (m.buf == old(m.buf) || fresh(m.buf))
    ensures m.Contents() == old(m.Contents()) + PrintNodes(nodes)
    decreases nodes, 1
  {
    ghost var c0 := m.Contents();
    if nodes == [] {
      assert c0 + [] == c0;
      return;
    }
    match nodes[0]
    case Text(text) =>
      CopyWithEscape(m, text);
    case CData(text) =>
      m.AppendStr(CDATA_BEGIN);
      m.AppendStr(text);
      m.AppendStr(CDATA_END);
      Join3(c0, CDATA_BEGIN, text, CDATA_END);
      assert CDATA_BEGIN + (text + CDATA_END) == CDATA_BEGIN + text + CDATA_END;
    case Element(_, _, _) =>
      PrintElementTo(m, nodes);
  }

  /** The element case of `ixmlPrintDomTreeRecursive`. */
  method PrintElementTo(m: Buffer, nodes: seq<Node>)
    requires m.Valid() && nodes != [] && nodes[0].Element?
    modifies m, m.buf
    ensures m.Valid() && (m.buf == old(m.buf) || fresh(m.buf))
    ensures m.Contents() == old(m.Contents()) + PrintNodes(nodes)
    decreases nodes, 0
  {
    hide PrintNodes, PrintStartTag, StartTagEnd, EndTagEnd;
    ghost var c0 := m.Contents();
    var n, siblings := nodes[0], nodes[1..];
    PrintOpenTo(m, n.name, n.attrs, n.children);
    PrintNodesTo(m, n.children);
    PrintEndTagTo(m, n.name, siblings);
    PrintNodesTo(m, siblings);
    assert nodes == [Element(n.name, n.attrs, n.children)] + siblings;
    PrintElement(n.name, n.attrs, n.children, siblings);
    Join7(c0, PrintStartTag(n.name, n.attrs), StartTagEnd(n.children), PrintNodes(n.children), LESS_SLASH, n.name,
          EndTagEnd(siblings), PrintNodes(siblings));
  }

  method PrintOpenTo(m: Buffer, name: CString, attrs: seq<Attr>, children: seq<Node>)
    requires m.Valid()
    modifies m, m.buf
    ensures m.Valid() && (m.buf == old(m.buf) || fresh(m.buf))
    ensures m.Contents() == old(m.Contents()) + PrintStartTag(name, attrs) + StartTagEnd(children)
  {
    hide PrintStartTag;
    PrintStartTagTo(m, name, attrs);
    if children != [] && children[0].Element? {
      m.AppendStr(GREATER_NEWLINE);
    } else {
      m.AppendStr(GREATER);
    }
  }

  method PrintEndTagTo(m: Buffer, name: CString, siblings: seq<Node>)
    requires m.Valid()
    modifies m, m.buf
    ensures m.Valid() && (m.buf == old(m.buf) || fresh(m.buf))
    ensures m.Contents() == old(m.Contents()) + LESS_SLASH + name + EndTagEnd(siblings)
  {
    m.AppendStr(LESS_SLASH);
    m.AppendStr(name);
    if siblings != [] && siblings[0].Text? {
      m.AppendStr(GREATER);
    } else {
      m.AppendStr(GREATER_NEWLINE);
    }
  }

  lemma Join7(a: seq<Octet>, b: CString, c: CString, d: CString, e: CString, f: CString, g: CString, h: CString)
    ensures a + b + c + d + e + f + g + h == a + (b + c + d + e + f + g + h)
  {
    Join4(a, b, c, d, e);
    Join3(a, b + c + d + e, f, g);
    assert b + c + d + e + (f + g) == b + c + d + e + f + g;
    assert a + (b + c + d + e + f + g) + h == a + (b + c + d + e + f + g + h);
  }
}

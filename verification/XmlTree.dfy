/** Document trees and what ixml.c prints for them. */
module XmlTree {
  import opened Bytes
  import opened Escape

  datatype Attr = Attr(name: CString, value: CString)

  datatype Node =
    | Text(text: CString)
    | CData(text: CString)
    | Element(name: CString, attrs: seq<Attr>, children: seq<Node>)

  const SPACE_STRING: CString := [0x20] // " "
  const EQUALS_QUOTE: CString := [0x3D, 0x22] // "=\""
  const QUOTE_STRING: CString := [0x22] // "\""
  const LESS: CString := [0x3C] // "<"
  const GREATER: CString := [0x3E] // ">"
  const GREATER_NEWLINE: CString := [0x3E, 0x0D, 0x0A] // ">\r\n"
  const LESS_SLASH: CString := [0x3C, 0x2F] // "</"
  const CDATA_BEGIN: CString := [0x3C, 0x21, 0x5B, 0x43, 0x44, 0x41, 0x54, 0x41, 0x5B] // "<![CDATA["
  const CDATA_END: CString := [0x5D, 0x5D, 0x3E] // "]]>"

  /** The attribute case of `ixmlPrintDomTreeRecursive`: an attribute and the ones after it. */
  function PrintAttrs(attrs: seq<Attr>): CString {
    if attrs == [] then []
    else
      attrs[0].name + EQUALS_QUOTE + EscapeText(attrs[0].value) + QUOTE_STRING
      + (if |attrs| > 1 then SPACE_STRING + PrintAttrs(attrs[1..]) else [])
  }

  /** What follows the attributes of a start tag: a new line before a first child that is an element. */
  function StartTagEnd(children: seq<Node>): CString {
    if children != [] && children[0].Element? then GREATER_NEWLINE else GREATER
  }

  /** What follows the name of an end tag: no new line before a sibling that is a text. */
  function EndTagEnd(siblings: seq<Node>): CString {
    if siblings != [] && siblings[0].Text? then GREATER else GREATER_NEWLINE
  }

  function PrintStartTag(name: CString, attrs: seq<Attr>): CString {
    LESS + name + (if attrs == [] then [] else SPACE_STRING + PrintAttrs(attrs))
  }

  /** `ixmlPrintDomTreeRecursive` on a node and its siblings: it does not visit the siblings that
      follow a text or a CDATA section. */
  function PrintNodes(nodes: seq<Node>): CString
    decreases nodes
  {
    if nodes == [] then []
    else
      match nodes[0]
      case Text(text) => EscapeText(text)
      case CData(text) => CDATA_BEGIN + text + CDATA_END
      case Element(name, attrs, children) =>
        PrintStartTag(name, attrs) + StartTagEnd(children)
        + PrintNodes(children) + LESS_SLASH + name + EndTagEnd(nodes[1..]) + PrintNodes(nodes[1..])
  }

  /** `ixmlPrintNode` on a document whose only child is `root` (or on `root` itself). */
  function PrintDocument(root: Node): CString {
    PrintNodes([root])
  }

  /** The element case, whatever siblings follow. */
  lemma PrintElement(name: CString, attrs: seq<Attr>, children: seq<Node>, tl: seq<Node>)
    ensures PrintNodes([Element(name, attrs, children)] + tl)
         == PrintStartTag(name, attrs) + StartTagEnd(children) + PrintNodes(children) + LESS_SLASH + name
            + EndTagEnd(tl) + PrintNodes(tl)
  {
    hide PrintStartTag;
    var n := Element(name, attrs, children);
    assert ([n] + tl)[0] == n && ([n] + tl)[1..] == tl;
  }
}

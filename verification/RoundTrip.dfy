/** What parsing gives back of a printed tree: its canonical form, which is the tree itself exactly
    when the tree is data-shaped. */
module RoundTrip {
  import opened Options
  import opened Bytes
  import opened Utf8
  import opened Escape
  import opened Names
  import opened XmlTree
  import opened Parser
  import opened ParserStates
  import opened Spelling
  import opened XmlSyntax
  import opened XmlSpelling
  import T = XmlTokens

  /** A letter and name characters, each in its shortest encoding, without a prefix */
  ghost predicate IsTagName(t: Tables, name: CString) {
    (exists chars :: Spells(t, chars, name)) && ':' as int !in name
  }

  ghost predicate AreAttributes(t: Tables, attrs: seq<Attr>) {
    && (forall i :: 0 <= i < |attrs| ==> IsTagName(t, attrs[i].name) && IsXmlText(attrs[i].value))
    && (forall i, j :: 0 <= i < j < |attrs| ==> attrs[i].name != attrs[j].name)
  }

  /** Trees over valid names, distinct attribute names and minimally encoded XML characters; the
      shape of the tree is free. */
  ghost predicate AreNodes(t: Tables, nodes: seq<Node>) {
    forall i :: 0 <= i < |nodes| ==>
      match nodes[i]
      case Text(text) => IsXmlText(text)
      case CData(text) => IsSectionText(text)
      case Element(name, attrs, children) => IsTagName(t, name) && AreAttributes(t, attrs) && AreNodes(t, children)
  }

  /** What survives printing and parsing: nothing behind a text or a CDATA section, and no text that
      is empty or all white space. */
  function Canonical(nodes: seq<Node>): seq<Node>
    decreases nodes
  {
    if nodes == [] then []
    else
      match nodes[0]
      case Text(text) => if IsBlank(text) then [] else [nodes[0]]
      case CData(_) => [nodes[0]]
      case Element(name, attrs, children) =>
        [Element(name, attrs, Canonical(children))] + Canonical(nodes[1..])
  }

  /** Each element holds elements, and after them at most one text that is not all white space (or one
      CDATA section). */
  predicate IsDataShaped(nodes: seq<Node>)
    decreases nodes
  {
    forall i :: 0 <= i < |nodes| ==>
      match nodes[i]
      case Text(text) => i == |nodes| - 1 && !IsBlank(text)
      case CData(_) => i == |nodes| - 1
      case Element(_, _, children) => IsDataShaped(children)
  }

  lemma {:induction false} CanonicalIsIdentity(nodes: seq<Node>)
    ensures Canonical(nodes) == nodes <==> IsDataShaped(nodes)
    decreases nodes
  {
    if nodes != [] {
      var n, tl := nodes[0], nodes[1..];
      CanonicalIsIdentity(tl);
      assert nodes == [n] + tl;
      if n.Element? {
        CanonicalIsIdentity(n.children);
        var c := Element(n.name, n.attrs, Canonical(n.children));
        assert Canonical(nodes) == [c] + Canonical(tl);
        assert Canonical(nodes) == nodes ==> c == n && Canonical(tl) == tl by {
          assert Canonical(nodes)[0] == c && Canonical(nodes)[1..] == Canonical(tl);
        }
        assert forall i :: 0 <= i < |tl| ==> tl[i] == nodes[i + 1];
        if IsDataShaped(nodes) {
          assert IsDataShaped(tl);
        }
        if IsDataShaped(n.children) && IsDataShaped(tl) {
          assert forall i :: 1 <= i < |nodes| ==> nodes[i] == tl[i - 1];
          assert IsDataShaped(nodes);
        }
      }
    }
  }

  // ---- The spelling that the printer chooses ----

  /** One character as `copy_with_escape` writes it */
  function PieceFor(enc: CString): Piece {
    if enc == ['<' as int] then Named(LT, EntityText(LT))
    else if enc == ['>' as int] then Named(GT, EntityText(GT))
    else if enc == ['&' as int] then Named(AMP, EntityText(AMP))
    else if enc == ['\'' as int] then Named(APOS, EntityText(APOS))
    else if enc == ['"' as int] then Named(QUOT, EntityText(QUOT))
    else Plain(enc)
  }

  function PiecesFor(s: CString): seq<Piece>
    requires IsXmlText(s)
    decreases |s|
  {
    if s == [] then []
    else
      var d := Utf8ToInt(s);
      [PieceFor(s[..d.len])] + PiecesFor(s[d.len..])
  }

  lemma PieceIsRight(c: int, enc: CString)
    requires IsXmlChar(c) && enc == IntToUtf8(c)
    ensures IsPiece(PieceFor(enc)) && CharOf(PieceFor(enc)) == c && Raw(PieceFor(enc)) == EscapeText(enc)
  {
    EncodingIsSequence(c);
    ConstantsAgree();
    if |enc| == 1 {
      assert EscapeText(enc[1..]) == [] && EscapeText(enc) == EscapeByte(enc[0]);
      assert enc == [enc[0]];
    } else {
      EncodingIsHigh(c);
      EscapeHighOctets(enc);
    }
  }

  lemma PiecesUnfold(p: Piece, tl: seq<Piece>)
    requires IsPiece(p) && ArePieces(tl)
    ensures ArePieces([p] + tl) && RawText([p] + tl) == Raw(p) + RawText(tl)
    ensures TextOf([p] + tl) == IntToUtf8(CharOf(p)) + TextOf(tl)
  {
    hide IsPiece, CharOf, Raw, IntToUtf8;
    var ps := [p] + tl;
    assert ps[0] == p && ps[1..] == tl;
  }

  /** The pieces are written as the escaped text, and stand for the text. */
  lemma {:induction false} PiecesAreRight(s: CString)
    requires IsXmlText(s)
    ensures ArePieces(PiecesFor(s)) && RawText(PiecesFor(s)) == EscapeText(s) && TextOf(PiecesFor(s)) == s
    decreases |s|
  {
    hide IsPiece, CharOf, Raw, IntToUtf8, Utf8ToInt, PieceFor, EscapeText;
    if s == [] {
      CopyNothing([]);
    } else {
      var d := Utf8ToInt(s);
      var enc, tl := s[..d.len], s[d.len..];
      assert s == enc + tl;
      PieceIsRight(d.ch, enc);
      PiecesAreRight(tl);
      PiecesUnfold(PieceFor(enc), PiecesFor(tl));
      EscapeConcat(enc, tl);
    }
  }

  const NONE := Gap([], [])

  /** A name is written as it is. */
  function NameFor(name: CString): seq<Piece> {
    if IsXmlText(name) then PiecesFor(name) else []
  }

  lemma NamePiece(t: Tables, c: int, enc: CString)
    requires t.IsNameChar(c) && IsXmlChar(c) && enc == IntToUtf8(c)
    ensures PieceFor(enc) == Plain(enc) && IsNamePiece(t, PieceFor(enc)) && CharOf(PieceFor(enc)) == c
  {
    hide Bits;
    assert t.Valid();
    PieceIsRight(c, enc);
    assert |enc| == 1 ==> enc == [c];
  }

  lemma {:induction false} NamePieces(t: Tables, s: CString)
    requires IsXmlText(s) && NameLength(t, s) == |s|
    ensures RawText(PiecesFor(s)) == s
    ensures var ps := PiecesFor(s);
      && (forall k :: 0 <= k < |ps| ==> ps[k].Plain? && IsNamePiece(t, ps[k]))
      && (s != [] ==> ps != [] && IsSpelled(ps[0]) && CharOf(ps[0]) == Utf8ToInt(s).ch)
    decreases |s|
  {
    hide Utf8ToInt, IntToUtf8, Bits, IsNamePiece, PieceFor;
    if s != [] {
      var d := Utf8ToInt(s);
      var enc, tl := s[..d.len], s[d.len..];
      NameLengthBound(t, s);
      NamePiece(t, d.ch, enc);
      NameLengthBound(t, tl);
      NamePieces(t, tl);
      NamePieceParts(t, PieceFor(enc));
      var ps := PiecesFor(s);
      assert ps[0] == PieceFor(enc) && ps[1..] == PiecesFor(tl);
    }
  }

  lemma NamePieceParts(t: Tables, p: Piece)
    requires IsNamePiece(t, p)
    ensures IsPiece(p) && IsSpelled(p)
  {
  }

  lemma NameIsRight(t: Tables, name: CString)
    requires IsTagName(t, name)
    ensures var ps := NameFor(name); IsNameSpelling(t, ps) && ArePieces(ps) && RawText(ps) == name && TextOf(ps) == name
  {
    hide Utf8ToInt, IntToUtf8, Bits, IsNamePiece, PieceFor, PiecesFor, TextOf, RawText, NameLength, IsXmlText, CharOf;
    NamesAreSpelled(t, name);
    PiecesAreRight(name);
    NamePieces(t, name);
  }

  function AttrFor(a: Attr): AttrSpelling
    requires IsXmlText(a.value)
  {
    AttrSpelling(Gap([' ' as int], []), NameFor(a.name), NONE, NONE, '"' as int, PiecesFor(a.value))
  }

  function AttrsFor(attrs: seq<Attr>): seq<AttrSpelling>
    requires forall i :: 0 <= i < |attrs| ==> IsXmlText(attrs[i].value)
  {
    seq(|attrs|, i requires 0 <= i < |attrs| => AttrFor(attrs[i]))
  }

  lemma AttrIsRight(t: Tables, a: Attr)
    requires IsTagName(t, a.name) && IsXmlText(a.value)
    ensures IsAttr(t, AttrFor(a)) && ArePieces(AttrFor(a).name) && ArePieces(AttrFor(a).value) && AttrOf(AttrFor(a)) == a
    ensures AttrText(AttrFor(a)) == SPACE_STRING + a.name + EQUALS_QUOTE + EscapeText(a.value) + QUOTE_STRING
    ensures GapText(AttrFor(a).gap) != []
  {
    hide IsTagName, PiecesFor, ArePieces, TextOf, EscapeText, IsXmlText, RawText, NameFor, IsNameSpelling;
    NameIsRight(t, a.name);
    PiecesAreRight(a.value);
    EscapedHasNoMarkup(a.value);
    assert GapText(NONE) == [] && GapText(Gap([' ' as int], [])) == SPACE_STRING;
    assert SPACE_STRING + a.name + [] + Octets("=") + [] + ['"' as int] == SPACE_STRING + a.name + EQUALS_QUOTE;
  }

  lemma {:induction false} AttrsArePrinted(t: Tables, attrs: seq<Attr>)
    requires forall i :: 0 <= i < |attrs| ==> IsTagName(t, attrs[i].name) && IsXmlText(attrs[i].value)
    ensures AttrsText(AttrsFor(attrs)) == if attrs == [] then [] else SPACE_STRING + PrintAttrs(attrs)
    decreases |attrs|
  {
    hide IsTagName, AttrFor, EscapeText, IsXmlText, AttrText;
    if attrs != [] {
      var a, tl := attrs[0], attrs[1..];
      AttrIsRight(t, a);
      AttrsArePrinted(t, tl);
      assert AttrsFor(attrs)[1..] == AttrsFor(tl);
      var e, more := EscapeText(a.value), AttrsText(AttrsFor(tl));
      PrintAttrsUnfold(a, tl);
      Grouped(a.name, e, more);
    }
  }

  lemma PrintAttrsUnfold(a: Attr, tl: seq<Attr>)
    ensures PrintAttrs([a] + tl)
         == a.name + EQUALS_QUOTE + EscapeText(a.value) + QUOTE_STRING
            + (if tl == [] then [] else SPACE_STRING + PrintAttrs(tl))
  {
    hide EscapeText;
    assert ([a] + tl)[0] == a && ([a] + tl)[1..] == tl;
  }

  lemma Grouped(name: CString, e: CString, more: CString)
    ensures SPACE_STRING + name + EQUALS_QUOTE + e + QUOTE_STRING + more
         == SPACE_STRING + (name + EQUALS_QUOTE + e + QUOTE_STRING + more)
  {
  }

  lemma AttrsAreRight(t: Tables, attrs: seq<Attr>)
    requires AreAttributes(t, attrs)
    ensures AreAttrs(t, AttrsFor(attrs))
    ensures forall k :: 0 <= k < |attrs| ==> ArePieces(AttrsFor(attrs)[k].name) && ArePieces(AttrsFor(attrs)[k].value)
    ensures AttrsOf(AttrsFor(attrs)) == attrs
  {
    hide IsTagName, IsXmlText, IsAttr, TextOf, GapText, PiecesFor, ArePieces, NameFor, AttrFor;
    forall k | 0 <= k < |attrs|
      ensures IsAttr(t, AttrsFor(attrs)[k]) && GapText(AttrsFor(attrs)[k].gap) != []
      ensures ArePieces(AttrsFor(attrs)[k].name) && ArePieces(AttrsFor(attrs)[k].value)
      ensures AttrOf(AttrsFor(attrs)[k]) == attrs[k]
    {
      AttrIsRight(t, attrs[k]);
    }
  }

  /** The new line that the printer puts between tags */
  const NEWLINE := Chars([Plain(['\r' as int]), Plain(['\n' as int])])

  function Newline(wanted: bool): seq<Item> {
    if wanted then [NEWLINE] else []
  }

  ghost function ItemsFor(t: Tables, nodes: seq<Node>): seq<Item>
    requires AreNodes(t, nodes)
    decreases nodes
  {
    if nodes == [] then []
    else
      var tl := nodes[1..];
      match nodes[0]
      case Text(text) => if text == [] then [] else [Chars(PiecesFor(text))]
      case CData(text) => [Section(text, Octets("]]>"))]
      case Element(name, attrs, children) =>
        [ElementFor(t, nodes[0])] + Newline(!(tl != [] && tl[0].Text?)) + ItemsFor(t, tl)
  }

  ghost function ElementFor(t: Tables, n: Node): Item
    requires AreNodes(t, [n]) && n.Element?
    decreases n
  {
    assert [n][0] == n;
    Elem(NameFor(n.name), AttrsFor(n.attrs), NONE,
         Full(true, Newline(n.children != [] && n.children[0].Element?) + ItemsFor(t, n.children), NameFor(n.name), NONE,
              NONE))
  }

  lemma ConsItems(t: Tables, item: Item, tl: seq<Item>)
    requires IsItem(t, item) && AreItems(t, tl) && (item.Chars? && tl != [] ==> !tl[0].Chars?)
    ensures AreItems(t, [item] + tl) && ItemsText([item] + tl) == ItemText(item) + ItemsText(tl)
    ensures Meaning(t, [item] + tl) == ItemMeaning(t, item) + Meaning(t, tl)
  {
    hide IsItem, ItemText, ItemMeaning;
    var items := [item] + tl;
    assert items[0] == item && items[1..] == tl;
    assert forall k :: 1 <= k < |items| ==> items[k] == tl[k - 1];
  }

  function NewlineText(wanted: bool): CString {
    if wanted then ['\r' as int, '\n' as int] else []
  }

  lemma AreBreaks(cr: Piece, lf: Piece)
    requires cr == Plain(['\r' as int]) && lf == Plain(['\n' as int])
    ensures IsPiece(cr) && IsPiece(lf)
  {
  }

  lemma RawCons(p: Piece, tl: seq<Piece>)
    ensures RawText([p] + tl) == Raw(p) + RawText(tl)
  {
    assert ([p] + tl)[0] == p && ([p] + tl)[1..] == tl;
  }

  lemma NewlineIsItem(t: Tables)
    ensures IsItem(t, NEWLINE) && ItemMeaning(t, NEWLINE) == [] && ItemText(NEWLINE) == NewlineText(true)
  {
    hide IsPiece;
    var cr, lf := Plain(['\r' as int]), Plain(['\n' as int]);
    AreBreaks(cr, lf);
    RawCons(cr, [lf]);
    RawCons(lf, []);
    assert [cr] + [lf] == [cr, lf] && [lf] + [] == [lf];
    assert RawText([cr, lf]) == NewlineText(true);
  }

  lemma NewlineItems(t: Tables, wanted: bool, tl: seq<Item>)
    requires AreItems(t, tl) && (wanted && tl != [] ==> !tl[0].Chars?)
    ensures AreItems(t, Newline(wanted) + tl) && ItemsText(Newline(wanted) + tl) == NewlineText(wanted) + ItemsText(tl)
    ensures Meaning(t, Newline(wanted) + tl) == Meaning(t, tl)
  {
    hide IsItem, ItemText, ItemMeaning, AreItems, ItemsText, Meaning;
    if wanted {
      NewlineIsItem(t);
      ConsItems(t, NEWLINE, tl);
      assert [] + Meaning(t, tl) == Meaning(t, tl);
    } else {
      assert [] + tl == tl && [] + ItemsText(tl) == ItemsText(tl);
    }
  }

  /** The items for the nodes are written as the printer prints the nodes, and stand for the canonical form of them. */
  ghost predicate ArePrinted(t: Tables, nodes: seq<Node>)
    requires AreNodes(t, nodes)
  {
    var items := ItemsFor(t, nodes);
    && AreItems(t, items) && ItemsText(items) == PrintNodes(nodes) && Meaning(t, items) == Canonical(nodes)
    && (items != [] && items[0].Chars? ==> nodes != [] && nodes[0].Text?)
  }

  lemma TextIsPrinted(t: Tables, text: CString, tl: seq<Node>)
    requires AreNodes(t, [Text(text)] + tl)
    ensures ArePrinted(t, [Text(text)] + tl)
  {
    hide IsXmlText, PiecesFor, EscapeText, TextOf, ArePieces, IsBlank, AreItems, ItemsText, Meaning;
    var nodes := [Text(text)] + tl;
    assert nodes[0] == Text(text);
    NoItems(t);
    PiecesAreRight(text);
    EscapedHasNoMarkup(text);
    BlankEscaped(text);
    if text == [] {
      NothingEscaped();
      assert ItemsFor(t, nodes) == [] && IsBlank([]) by { NoBlank(); }
    } else {
      var item := Chars(PiecesFor(text));
      CharsAreRight(PiecesFor(text));
      ConsItems(t, item, []);
      assert [item] + [] == [item] && ItemText(item) + [] == ItemText(item);
    }
  }

  lemma NothingEscaped()
    ensures EscapeText([]) == []
  {
  }

  lemma BlankEscaped(text: CString)
    ensures IsBlank(EscapeText(text)) <==> IsBlank(text)
  {
    hide EscapeText;
    EscapeAllSpace(text);
    T.BlankIsSpace(text);
    T.BlankIsSpace(EscapeText(text));
  }

  lemma CharsAreRight(ps: seq<Piece>)
    requires ArePieces(ps) && RawText(ps) != [] && HasNoMarkup(RawText(ps))
    ensures AreChars(ps)
  {
    hide ArePieces;
    var raw := RawText(ps);
    forall k | 0 <= k < |raw|
      ensures !Occurs(raw, Octets("]]>"), k)
    {
      if k + 3 <= |raw| {
        assert raw[k..k + 3][2] == raw[k + 2];
      }
    }
  }

  lemma CDataIsPrinted(t: Tables, text: CString, tl: seq<Node>)
    requires AreNodes(t, [CData(text)] + tl)
    ensures ArePrinted(t, [CData(text)] + tl)
  {
    hide IsSectionText, AreItems, ItemsText, Meaning;
    var nodes := [CData(text)] + tl;
    assert nodes[0] == CData(text);
    assert Octets("<![CDATA[") == CDATA_BEGIN && Octets("]]>") == CDATA_END;
    var item := Section(text, Octets("]]>"));
    NoItems(t);
    ConsItems(t, item, []);
    assert [item] + [] == [item] && ItemText(item) + [] == ItemText(item);
  }

  lemma TagText(name: CString, ps: seq<Piece>, attrs: seq<Attr>)
    requires forall i :: 0 <= i < |attrs| ==> IsXmlText(attrs[i].value)
    requires AttrsText(AttrsFor(attrs)) == if attrs == [] then [] else SPACE_STRING + PrintAttrs(attrs)
    requires RawText(ps) == name
    ensures StartText(ps, AttrsFor(attrs), NONE) == PrintStartTag(name, attrs)
    ensures EndText(ps, NONE, NONE) == LESS_SLASH + name + GREATER && Octets(">") == GREATER
  {
    hide PrintAttrs, AttrsText, AttrsFor, GapText, RawText;
    T.TagsAgree();
    NoGapIsGap();
    EmptyEnds(LESS + name, AttrsText(AttrsFor(attrs)));
    EmptyEnds(LESS_SLASH, name);
  }

  lemma EmptyEnds(a: CString, b: CString)
    ensures a + b + [] == a + b && a + [] + b == a + b && a + [] + b + [] == a + b
  {
  }

  lemma ElementCut(a: CString, nl: CString, x: CString, e: CString)
    ensures a + GREATER + (nl + x) + (LESS_SLASH + e + GREATER) == a + (GREATER + nl) + x + LESS_SLASH + e + GREATER
  {
    var b := a + (GREATER + nl) + x;
    assert a + GREATER + (nl + x) == b;
    assert b + (LESS_SLASH + e + GREATER) == b + LESS_SLASH + e + GREATER;
  }

  /** An element whose children are printed right */
  lemma ElementIsRight(t: Tables, n: Node)
    requires n.Element? && AreNodes(t, [n]) && AreNodes(t, n.children) && ArePrinted(t, n.children)
    ensures IsItem(t, ElementFor(t, n))
    ensures ItemMeaning(t, ElementFor(t, n)) == [Element(n.name, n.attrs, Canonical(n.children))]
    ensures ItemText(ElementFor(t, n))
         == PrintStartTag(n.name, n.attrs) + StartTagEnd(n.children) + PrintNodes(n.children) + LESS_SLASH + n.name
            + GREATER
  {
    hide IsTagName, AreAttrs, AttrsOf, AttrsFor, AttrsText, PrintAttrs, AreItems, ItemsText, Meaning, PrintNodes, Canonical,
         ItemsFor, StartText, EndText, PrintStartTag, IsXmlText, Newline, NameFor, IsNameSpelling, TextOf, RawText, ArePieces;
    assert [n][0] == n;
    NameIsRight(t, n.name);
    AttrsAreRight(t, n.attrs);
    AttrsArePrinted(t, n.attrs);
    var wanted := n.children != [] && n.children[0].Element?;
    NewlineItems(t, wanted, ItemsFor(t, n.children));
    TagText(n.name, NameFor(n.name), n.attrs);
    ElementCut(PrintStartTag(n.name, n.attrs), NewlineText(wanted), PrintNodes(n.children), n.name);
    assert StartTagEnd(n.children) == GREATER + NewlineText(wanted);
    NoGapIsGap();
  }

  lemma NoGapIsGap()
    ensures IsTagGap(NONE) && IsGap(NONE) && GapText(NONE) == []
  {
  }

  lemma ElementIsPrinted(t: Tables, n: Node, tl: seq<Node>)
    requires n.Element? && AreNodes(t, [n] + tl) && AreNodes(t, [n]) && AreNodes(t, n.children) && AreNodes(t, tl)
    requires ArePrinted(t, n.children) && ArePrinted(t, tl)
    ensures ArePrinted(t, [n] + tl)
  {
    hide IsTagName, AreAttributes, IsItem, ItemText, ItemMeaning, AreItems, ItemsText, Meaning, PrintNodes, PrintStartTag,
         ElementFor, Newline, AreNodes;
    var nodes := [n] + tl;
    assert nodes[0] == n && nodes[1..] == tl;
    var wanted := !(tl != [] && tl[0].Text?);
    ElementIsRight(t, n);
    NewlineItems(t, wanted, ItemsFor(t, tl));
    var items := Newline(wanted) + ItemsFor(t, tl);
    IsElement(t, n);
    ConsItems(t, ElementFor(t, n), items);
    assert [ElementFor(t, n)] + Newline(wanted) + ItemsFor(t, tl) == [ElementFor(t, n)] + items;
    PrintElement(n.name, n.attrs, n.children, tl);
    EndTagCut(ItemText(ElementFor(t, n)), tl, PrintNodes(tl),
              PrintStartTag(n.name, n.attrs) + StartTagEnd(n.children) + PrintNodes(n.children) + LESS_SLASH + n.name);
  }

  lemma IsElement(t: Tables, n: Node)
    requires AreNodes(t, [n]) && n.Element?
    ensures ElementFor(t, n).Elem?
  {
    hide ItemsFor, AreNodes;
  }

  lemma EndTagCut(e: CString, tl: seq<Node>, more: CString, front: CString)
    requires e == front + GREATER
    ensures e + (NewlineText(!(tl != [] && tl[0].Text?)) + more) == front + EndTagEnd(tl) + more
  {
    var nl := NewlineText(!(tl != [] && tl[0].Text?));
    assert EndTagEnd(tl) == GREATER + nl;
    assert front + GREATER + (nl + more) == front + (GREATER + nl) + more;
  }

  /** The printer writes one of the spellings of the canonical form. */
  lemma {:induction false} NodesArePrinted(t: Tables, nodes: seq<Node>)
    requires AreNodes(t, nodes)
    ensures ArePrinted(t, nodes)
    decreases nodes
  {
    hide ArePrinted;
    if nodes == [] {
      NothingIsPrinted(t);
    } else {
      var n, tl := nodes[0], nodes[1..];
      assert nodes == [n] + tl;
      assert AreNodes(t, [n]) && AreNodes(t, tl);
      match n
      case Text(text) => TextIsPrinted(t, text, tl);
      case CData(text) => CDataIsPrinted(t, text, tl);
      case Element(_, _, children) =>
        NodesArePrinted(t, children);
        NodesArePrinted(t, tl);
        ElementIsPrinted(t, n, tl);
    }
  }

  lemma NothingIsPrinted(t: Tables)
    ensures AreNodes(t, []) && ArePrinted(t, [])
  {
  }

  /** What `ixmlPrintNode` prints is a spelling of the canonical form of the tree. */
  lemma PrintedIsSpelled(t: Tables, root: Node)
    requires root.Element? && AreNodes(t, [root])
    ensures SpellsNodes(t, PrintDocument(root), Canonical([root]))
  {
    hide IsItem, ItemText, ItemMeaning, PrintNodes, PrintStartTag, ElementFor, AreAttributes, IsTagName, ArePrinted,
         DocumentText, Canonical, AreNodes;
    RootFacts(t, root);
    NodesArePrinted(t, root.children);
    ElementIsRight(t, root);
    IsElement(t, root);
    var end := Gap(['\r' as int, '\n' as int], []);
    var d := Document([], None, [], None, [], NONE, Root(ElementFor(t, root), end));
    PrintElement(root.name, root.attrs, root.children, []);
    assert PrintNodes([]) == [] by { NothingPrinted(); }
    DocumentPrinted(d);
    EndTagCut(ItemText(d.core.item), [], [],
              PrintStartTag(root.name, root.attrs) + StartTagEnd(root.children) + PrintNodes(root.children) + LESS_SLASH
              + root.name);
    assert ItemText(d.core.item) + (NewlineText(true) + []) == DocumentText(d);
    NoGapIsGap();
    assert IsDocument(t, d);
  }

  lemma RootFacts(t: Tables, root: Node)
    requires root.Element? && AreNodes(t, [root])
    ensures AreNodes(t, root.children)
    ensures [root] == [Element(root.name, root.attrs, root.children)] + []
    ensures Canonical([root]) == [Element(root.name, root.attrs, Canonical(root.children))]
  {
    assert [root][0] == root && [root][1..] == [];
  }

  lemma DocumentPrinted(d: Document)
    requires d.core.Root?
    requires d == Document([], None, [], None, [], NONE, Root(d.core.item, Gap(['\r' as int, '\n' as int], [])))
    ensures DocumentText(d) == ItemText(d.core.item) + NewlineText(true)
  {
    hide ItemText;
    assert GapText(d.core.end) == NewlineText(true) && GapText(NONE) == [] && MiscText([]) == [] && MarksText([]) == [];
    var x := ItemText(d.core.item) + NewlineText(true);
    assert [] + [] + [] + [] + [] + [] + x == x;
  }

  lemma NothingPrinted()
    ensures PrintNodes([]) == []
  {
  }

  // ---- Main results ----

  /** Parsing what `ixmlPrintNode` prints for any document tree over valid names and characters succeeds,
      and gives the canonical form of the tree. */
  lemma ParsePrinted(t: Tables, root: Node)
    requires root.Element? && AreNodes(t, [root])
    ensures var r := ParseDocument(t, PrintDocument(root));
      r.Some? && r.value.roots == Canonical([root]) && r.value.tags == Walk(Canonical([root]))
  {
    hide SpellsNodes, PrintDocument, Canonical, ParseDocument;
    PrintedIsSpelled(t, root);
    ParseSpelled(t, PrintDocument(root), Canonical([root]));
  }

  /** Printing and parsing gives back the same tree exactly when the tree is data-shaped. */
  lemma RoundTrip(t: Tables, root: Node)
    requires root.Element? && AreNodes(t, [root])
    ensures var r := ParseDocument(t, PrintDocument(root));
      r.Some? && (r.value.roots == [root] <==> IsDataShaped([root]))
  {
    ParsePrinted(t, root);
    CanonicalIsIdentity([root]);
  }

  /** What one pass loses stays lost, and nothing else: the canonical form of a tree round-trips. */
  lemma {:induction false} CanonicalIsDataShaped(nodes: seq<Node>)
    ensures IsDataShaped(Canonical(nodes))
    ensures Canonical(Canonical(nodes)) == Canonical(nodes)
    decreases nodes
  {
    if nodes != [] {
      var n, tl := nodes[0], nodes[1..];
      if n.Element? {
        CanonicalIsDataShaped(n.children);
        CanonicalIsDataShaped(tl);
        var c := Canonical(nodes);
        assert forall i :: 1 <= i < |c| ==> c[i] == Canonical(tl)[i - 1];
      }
      CanonicalIsIdentity(Canonical(nodes));
    }
  }
}

/** The parser builds from every spelling of a document the nodes that the text stands for. */
module XmlSpelling {
  import opened Options
  import opened Bytes
  import opened Utf8
  import opened Escape
  import opened Names
  import opened XmlTree
  import opened Parser
  import opened Spelling
  import opened XmlSyntax
  import opened ParserStates
  import opened XmlTokens
  import opened XmlTags

  // ---- Elements ----

  /** No attribute of the list has a name that is there already. */
  predicate AddsNew(t: Tables, there: seq<Attr>, attrs: seq<AttrSpelling>) {
    && (forall k :: 0 <= k < |attrs| ==> IsAttr(t, attrs[k]))
    && (forall j, k :: 0 <= j < k < |attrs| ==> TextOf(attrs[j].name) != TextOf(attrs[k].name))
    && forall i, k :: 0 <= i < |there| && 0 <= k < |attrs| ==> there[i].name != TextOf(attrs[k].name)
  }

  lemma AddsNewTail(t: Tables, there: seq<Attr>, a: AttrSpelling, tl: seq<AttrSpelling>, value: CString)
    requires AddsNew(t, there, [a] + tl)
    ensures IsAttr(t, a) && ArePieces(a.value) && ArePieces(a.name)
    ensures AddsNew(t, there + [Attr(TextOf(a.name), value)], tl) && AddsNew(t, [], tl)
    ensures forall i :: 0 <= i < |there| ==> there[i].name != TextOf(a.name)
  {
    hide IsAttr, TextOf, ArePieces;
    var attrs := [a] + tl;
    assert attrs[0] == a && forall k :: 0 <= k < |tl| ==> tl[k] == attrs[k + 1];
    NameIsSpelled(t, a);
    AllPieces(t, tl);
  }

  lemma AttrsOfUnfold(a: AttrSpelling, tl: seq<AttrSpelling>)
    requires ArePieces(a.name) && ArePieces(a.value)
    requires forall k :: 0 <= k < |tl| ==> ArePieces(tl[k].name) && ArePieces(tl[k].value)
    ensures forall k :: 0 <= k < |[a] + tl| ==> ArePieces(([a] + tl)[k].name) && ArePieces(([a] + tl)[k].value)
    ensures AttrsOf([a] + tl) == [AttrOf(a)] + AttrsOf(tl)
  {
    hide ArePieces, AttrOf;
  }

  lemma AllPieces(t: Tables, attrs: seq<AttrSpelling>)
    requires forall k :: 0 <= k < |attrs| ==> IsAttr(t, attrs[k])
    ensures forall k :: 0 <= k < |attrs| ==> ArePieces(attrs[k].name) && ArePieces(attrs[k].value)
  {
  }

  /** The state when the attributes of the innermost open element have been read */
  function WithAttrs(d: State, attrs: seq<Attr>): State
    requires d.open != []
  {
    var f := Last(d.open);
    WithTop(d, f.(attrs := f.attrs + attrs))
  }

  lemma WithAttrsTwice(d: State, a: Attr, tl: seq<Attr>, c: Cursor)
    requires d.open != []
    ensures WithAttrs(WithAttrs(d, [a]).(cursor := c), tl) == WithAttrs(d, [a] + tl).(cursor := c)
  {
    var f := Last(d.open);
    assert f.attrs + [a] + tl == f.attrs + ([a] + tl);
    assert DropLast(WithAttrs(d, [a]).open) == DropLast(d.open);
  }

  lemma ParseOneAttr(t: Tables, d: State, a: AttrSpelling, tl: seq<AttrSpelling>, end: Gap, closing: Closing, rest: CString)
    requires d.open != [] && d.stack != [] && AddsNew(t, Last(d.open).attrs, [a] + tl) && IsTagGap(end)
    requires Follows(t, false, closing, rest)
    requires d.cursor.rest == TagTail([a] + tl, end, closing, rest) && d.cursor.mode == ATTRIBUTE
    ensures ArePieces(a.name) && ArePieces(a.value)
    ensures ParseLoop(t, d) == ParseLoop(t, WithAttrs(d, [AttrOf(a)]).(
      cursor := if tl == [] then TagEnd(d.cursor, end, closing, rest)
                else d.cursor.(rest := TagTail(tl, end, closing, rest))))
  {
    hide ParseLoop, GetNextNode, TagTail, IsAttr, ArePieces, TextOf, IsTagGap, Follows;
    AddsNewTail(t, Last(d.open).attrs, a, tl, []);
    AttributeNext(t, d.cursor, a, tl, end, closing, rest);
    var c := if tl == [] then TagEnd(d.cursor, end, closing, rest) else d.cursor.(rest := TagTail(tl, end, closing, rest));
    var n := AttrOf(a);
    LoopStep(t, d, c, AttributeNode(n.name, n.value), WithAttrs(d, [n]).(cursor := c));
  }

  lemma {:induction false} ParseAttrs(t: Tables, d: State, attrs: seq<AttrSpelling>, end: Gap, closing: Closing,
                                      rest: CString)
    requires d.open != [] && d.stack != [] && AddsNew(t, Last(d.open).attrs, attrs) && attrs != [] && IsTagGap(end)
    requires Follows(t, false, closing, rest)
    requires d.cursor.rest == TagTail(attrs, end, closing, rest) && d.cursor.mode == ATTRIBUTE
    ensures forall k :: 0 <= k < |attrs| ==> ArePieces(attrs[k].name) && ArePieces(attrs[k].value)
    ensures ParseLoop(t, d)
         == ParseLoop(t, WithAttrs(d, AttrsOf(attrs)).(cursor := TagEnd(d.cursor, end, closing, rest)))
    decreases |attrs|
  {
    hide ParseLoop, TagTail, IsAttr, ArePieces, TextOf, AddsNew, AttrsOf, WithAttrs, IsTagGap, Follows, TagEnd;
    var a, tl := attrs[0], attrs[1..];
    assert attrs == [a] + tl;
    ParseOneAttr(t, d, a, tl, end, closing, rest);
    var n := AttrOf(a);
    AddsNewTail(t, Last(d.open).attrs, a, tl, n.value);
    AddsNewAre(t, tl);
    AttrsOfUnfold(a, tl);
    if tl == [] {
      assert AttrsOf(tl) == [] by { NoAttrs(); }
      assert [n] + [] == [n];
    } else {
      var c := d.cursor.(rest := TagTail(tl, end, closing, rest));
      var d1 := WithAttrs(d, [n]).(cursor := c);
      AttrsNow(d, [n]);
      ParseAttrs(t, d1, tl, end, closing, rest);
      WithAttrsTwice(d, n, AttrsOf(tl), c);
      SameEnd(d.cursor, c, end, closing, rest);
    }
  }

  lemma SameEnd(c: Cursor, c1: Cursor, end: Gap, closing: Closing, rest: CString)
    requires c1 == c.(rest := c1.rest)
    ensures TagEnd(c1, end, closing, rest) == TagEnd(c, end, closing, rest)
  {
  }

  lemma AddsNewAre(t: Tables, attrs: seq<AttrSpelling>)
    requires AddsNew(t, [], attrs)
    ensures forall k :: 0 <= k < |attrs| ==> ArePieces(attrs[k].name) && ArePieces(attrs[k].value)
  {
    AllPieces(t, attrs);
  }

  lemma NoAttrs()
    ensures AttrsOf([]) == []
  {
  }

  lemma AttrsNow(d: State, attrs: seq<Attr>)
    requires d.open != []
    ensures WithAttrs(d, attrs).open != [] && WithAttrs(d, attrs).stack == d.stack
    ensures Last(WithAttrs(d, attrs).open).attrs == Last(d.open).attrs + attrs
  {
  }

  lemma AddsToNone(t: Tables, attrs: seq<AttrSpelling>)
    requires AreAttrs(t, attrs)
    ensures AddsNew(t, [], attrs) && forall k :: 0 <= k < |attrs| ==> IsAttr(t, attrs[k])
  {
    hide IsAttr, TextOf;
  }

  /** A start tag opens its element with all its attributes. */
  lemma ParseStartTag(t: Tables, d: State, name: seq<Piece>, attrs: seq<AttrSpelling>, end: Gap, closing: Closing,
                      rest: CString)
    requires (d.hasTop ==> d.stack != []) && d.cursor.mode != CONTENT
    requires IsNameSpelling(t, name) && AreAttrs(t, attrs) && IsTagGap(end) && Follows(t, attrs == [], closing, rest)
    requires LeadsTo(d.cursor.rest, STARTTAG + (RawText(name) + TagTail(attrs, end, closing, rest)))
    ensures forall k :: 0 <= k < |attrs| ==> ArePieces(attrs[k].name) && ArePieces(attrs[k].value)
    ensures var n := TextOf(name);
      ParseLoop(t, d)
      == ParseLoop(t, Opened(d, n, AttrsOf(attrs), rest).(cursor := TagCursor(n, attrs == [], end, closing, rest)))
  {
    hide ParseLoop, GetNextNode, IsNameSpelling, AreAttrs, TagTail, LeadsTo, IsTagGap, IsAttr, AddsNew, AttrsOf, TextOf,
         RawText, ArePieces, Follows;
    NameIsPieces(t, name);
    StartTagRead(t, d.cursor, d.stack == [], name, attrs, end, closing, rest);
    AddsToNone(t, attrs);
    AllPieces(t, attrs);
    var n := TextOf(name);
    var c := if attrs == [] then TagCursor(n, true, end, closing, rest)
             else Cursor(TagTail(attrs, end, closing, rest), ATTRIBUTE, Some(n));
    var d1 := OpenElement(d.(cursor := c), n).value;
    LoopStep(t, d, c, StartTag(n), d1);
    if attrs == [] {
      assert AttrsOf(attrs) == [] by { NoAttrs(); }
    } else {
      assert Last(d1.open).attrs == [];
      ParseAttrs(t, d1, attrs, end, closing, rest);
      assert [] + AttrsOf(attrs) == AttrsOf(attrs);
      assert DropLast(d1.open) == d.open;
    }
  }

  // ---- Content ----

  /** White space in front of a tag is dropped, and ends the content state. */
  lemma ContentAtTag(t: Tables, d: State, w: CString, s: CString)
    requires AllSpace(w) && IsTagStart(s)
    requires d.cursor.rest == w + s && d.cursor.mode == CONTENT
    ensures ParseLoop(t, d) == ParseLoop(t, d.(cursor := d.cursor.(rest := s, mode := ELEMENT)))
  {
    var c1 := d.cursor.(rest := s, mode := ELEMENT);
    assert GetNextNode(t, d.cursor, d.stack == []) == Got(c1, Nothing) by {
      PlainStart(w, s);
      DiffersAt(s, CDSTART, 1);
      DiffersAt(s, BEGIN_COMMENT, 1);
      DiffersAt(s, BEGIN_PI, 1);
    }
    LoopStep(t, d, c1, Nothing, d.(cursor := c1));
  }

  /** `Parser_processContent` on a text */
  lemma TextRead(t: Tables, c: Cursor, top: bool, n: nat, text: CString)
    requires c.rest != [] && c.mode == CONTENT && SkipSpace(c.rest) != [] && SkipSpace(c.rest)[0] != LESSTHAN
    requires TextLength(c.rest) == n <= |c.rest| && !StartsWith(c.rest[n..], CDEND)
    requires CopyToken(c.rest, n) == Some(text)
    ensures GetNextNode(t, c, top) == Got(c.(rest := c.rest[n..]), TextNode(text))
  {
    hide SkipSpace, TextLength, StartsWith, CopyToken;
  }

  /** Character data without "<" and "]]>" ends at the next "<". */
  lemma {:induction false} CharsEnd(v: CString, s: CString)
    requires forall k :: 0 <= k < |v| ==> v[k] != LESSTHAN && !Occurs(v, CDEND, k)
    requires s != [] && s[0] == LESSTHAN
    ensures TextLength(v + s) == |v| && !StartsWith(s, CDEND)
    decreases |v|
  {
    DiffersAt(s, CDEND, 0);
    if v == [] {
      assert v + s == s;
    } else {
      var b := v + s;
      assert b[1..] == v[1..] + s;
      forall k | 0 <= k < |v| - 1
        ensures !Occurs(v[1..], CDEND, k)
      {
        if k + 4 <= |v| {
          assert v[1..][k..k + 3] == v[k + 1..k + 1 + 3];
        }
        assert !Occurs(v, CDEND, k + 1);
      }
      CharsEnd(v[1..], s);
      if |v| < 3 {
        DiffersAt(b, CDEND, |v|);
      } else {
        assert b[..3] == v[0..0 + 3];
        assert !Occurs(v, CDEND, 0);
      }
    }
  }

  lemma {:induction false} SkipsToChars(v: CString, s: CString)
    requires !AllSpace(v) && forall k :: 0 <= k < |v| ==> v[k] != LESSTHAN
    ensures SkipSpace(v + s) != [] && SkipSpace(v + s)[0] != LESSTHAN
  {
    if IsSpace(v[0]) {
      assert (v + s)[1..] == v[1..] + s;
      SkipsToChars(v[1..], s);
    }
  }

  /** Character data that is not all white space becomes a text node. */
  lemma ParseChars(t: Tables, d: State, pieces: seq<Piece>, s: CString)
    requires d.open != [] && AreChars(pieces) && !IsBlank(RawText(pieces)) && s != [] && s[0] == LESSTHAN
    requires d.cursor.rest == RawText(pieces) + s && d.cursor.mode == CONTENT
    ensures ParseLoop(t, d) == ParseLoop(t, AfterSome(d, [Text(TextOf(pieces))], s))
  {
    hide AllSpace, SkipSpace, TextLength, CopyLoop, StartsWith, GetNextNode, ParseLoop, ArePieces, TextOf;
    var v, text := RawText(pieces), TextOf(pieces);
    DelimitersAgree();
    BlankIsSpace(v);
    NotBlank(v);
    CharsEnd(v, s);
    SkipsToChars(v, s);
    PiecesAreCopied(pieces, s);
    assert (v + s)[|v|..] == s;
    TextRead(t, d.cursor, d.stack == [], |v|, text);
    var c := d.cursor.(rest := s);
    AfterLeaf(d, Text(text), s);
    LoopStep(t, d, c, TextNode(text), WithChildren(d, [Text(text)]).(cursor := c));
  }

  lemma NotBlank(v: CString)
    requires !IsBlank(v)
    ensures v != []
  {
  }

  lemma {:induction false} SectionEnds(v: CString, stop: CString, rest: CString)
    requires (v == [] || IsSectionText(v)) && IsSectionEnd(stop)
    ensures CDataLength(v + (stop + rest)) == |v|
    decreases |v|
  {
    DelimitersAgree();
    var b := v + (stop + rest);
    if v == [] {
      assert b[..3] == stop;
      assert b[0] == stop[0];
    } else {
      assert b[1..] == v[1..] + (stop + rest);
      TailIsSection(v);
      SectionEnds(v[1..], stop, rest);
      NoEndBefore(v, stop, rest);
    }
  }

  lemma NoEndBefore(v: CString, stop: CString, rest: CString)
    requires IsSectionText(v) && IsSectionEnd(stop)
    ensures !StartsWith(v + (stop + rest), CDEND)
  {
    DelimitersAgree();
    var b := v + (stop + rest);
    assert !Occurs(v, CDEND, 0);
    if |v| >= 3 {
      assert b[..3] == v[0..0 + 3];
    } else if stop == CDEND {
      DiffersAt(b, CDEND, 2);
    } else {
      assert b[|v|] == stop[0];
      DiffersAt(b, CDEND, |v|);
    }
  }

  lemma TailIsSection(v: CString)
    requires IsSectionText(v)
    ensures v[1..] == [] || IsSectionText(v[1..])
  {
    DelimitersAgree();
    forall k | 0 <= k < |v| - 1
      ensures !Occurs(v[1..], CDEND, k)
    {
      if k + 4 <= |v| {
        assert v[1..][k..k + 3] == v[k + 1..k + 1 + 3];
      }
      assert !Occurs(v, CDEND, k + 1);
    }
  }

  /** A CDATA section becomes a CDATA node, and white space in front of it is dropped. */
  lemma ParseSection(t: Tables, d: State, w: CString, text: CString, stop: CString, s: CString)
    requires d.open != [] && IsBlank(w) && IsSectionText(text) && IsSectionEnd(stop) && d.cursor.mode == CONTENT
    requires d.cursor.rest == w + (Octets("<![CDATA[") + text + stop + s)
    ensures ParseLoop(t, d) == ParseLoop(t, AfterSome(d, [CData(text)], s))
  {
    hide CDataLength, ParseLoop, IsSectionText, SkipSpace;
    DelimitersAgree();
    var b, p := CDSTART + text + stop + s, text + (stop + s);
    assert b == CDSTART + p;
    assert b[..|CDSTART|] == CDSTART && b[|CDSTART|..] == p;
    AfterSpace(w, b);
    SectionEnds(text, stop, s);
    NotEmptySection(text);
    assert p[..|text|] == text && p[|text| + |CDEND|..] == s;
    var c := d.cursor.(rest := s);
    assert GetNextNode(t, d.cursor, d.stack == []) == Got(c, CDataNode(text));
    AfterLeaf(d, CData(text), s);
    LoopStep(t, d, c, CDataNode(text), WithChildren(d, [CData(text)]).(cursor := c));
  }

  lemma NotEmptySection(text: CString)
    requires IsSectionText(text)
    ensures text != []
  {
  }

  /** A comment or an instruction leaves no node, and white space in front of it is dropped. */
  lemma AsideRead(t: Tables, c: Cursor, top: bool, w: CString, misc: CString, s: CString)
    requires IsBlank(w) && IsMisc(misc) && c.mode == CONTENT && c.rest == w + (misc + s)
    ensures GetNextNode(t, c, top) == Got(c.(rest := s), Nothing)
  {
    hide SkipSpace, SkipComment, SkipPI, IsRemark, IsInstruction, StartsWith;
    var p := misc + s;
    AsideStarts(misc, s);
    AfterSpace(w, p);
    if IsRemark(misc) {
      RemarkIsSkipped(misc, s);
    } else {
      InstructionStarts(misc, s);
      InstructionIsSkipped(misc, s);
    }
  }

  lemma AsideStarts(misc: CString, s: CString)
    requires IsMisc(misc)
    ensures misc + s != [] && (misc + s)[0] == LESSTHAN && !StartsWith(misc + s, CDSTART)
  {
    hide EndsWithFirst, IsDeclaration;
    DelimitersAgree();
    if IsRemark(misc) {
      assert misc[0..4][0] == misc[0] && misc[0..4][2] == misc[2];
      DiffersAt(misc + s, CDSTART, 2);
    } else {
      assert misc[0..2][0] == misc[0] && misc[0..2][1] == misc[1];
      DiffersAt(misc + s, CDSTART, 1);
    }
  }

  lemma ParseAside(t: Tables, d: State, w: CString, misc: CString, s: CString)
    requires IsBlank(w) && IsMisc(misc) && d.cursor.mode == CONTENT && d.cursor.rest == w + (misc + s)
    ensures ParseLoop(t, d) == ParseLoop(t, d.(cursor := d.cursor.(rest := s)))
  {
    hide ParseLoop, GetNextNode, IsMisc;
    AsideRead(t, d.cursor, d.stack == [], w, misc, s);
    LoopStep(t, d, d.cursor.(rest := s), Nothing, d.(cursor := d.cursor.(rest := s)));
  }

  /** How the start tag of an element ends, and what stands behind it */
  function ClosingOf(e: Item): Closing
    requires e.Elem?
  {
    match e.body
    case Empty => EmptyMark
    case Full(marked, _, _, _, _) => if marked then Mark else Missing
  }

  function BehindStart(e: Item, rest: CString): CString
    requires e.Elem?
  {
    match e.body
    case Empty => rest
    case Full(_, items, name2, gap1, gap2) => ItemsText(items) + EndTail(name2, gap1, gap2, rest)
  }

  lemma EndCut(name: seq<Piece>, gap1: Gap, gap2: Gap, rest: CString)
    ensures EndText(name, gap1, gap2) + rest == EndTail(name, gap1, gap2, rest)
  {
    hide GapText, RawText;
    TagsAgree();
    var n, g1, g2 := RawText(name), GapText(gap1), GapText(gap2);
    assert g2 + TAGEND + rest == g2 + (TAGEND + rest);
    assert g1 + n + g2 + TAGEND + rest == g1 + (n + (g2 + TAGEND + rest));
    assert ENDTAG + g1 + n + g2 + TAGEND + rest == ENDTAG + (g1 + n + g2 + TAGEND + rest);
  }

  lemma StartCut(n: CString, a: CString, g: CString, c: CString, x: CString, e: CString, rest: CString)
    ensures STARTTAG + n + a + g + c + x + e + rest == STARTTAG + (n + (a + (g + (c + (x + (e + rest))))))
  {
    var r := x + (e + rest);
    assert c + x + e + rest == c + r;
    assert g + c + x + e + rest == g + (c + r);
    assert a + g + c + x + e + rest == a + (g + (c + r));
    assert n + a + g + c + x + e + rest == n + (a + (g + (c + r)));
    assert STARTTAG + n + a + g + c + x + e + rest == STARTTAG + (n + a + g + c + x + e + rest);
  }

  /** An element cut at the places where the parser stops */
  lemma ElementCut(e: Item, rest: CString)
    requires e.Elem?
    ensures ItemText(e) + rest
         == STARTTAG + (RawText(e.name) + TagTail(e.attrs, e.end, ClosingOf(e), BehindStart(e, rest)))
  {
    hide AttrsText, GapText, RawText, ItemsText, EndText, EndTail;
    TagsAgree();
    var n, a, g, c := RawText(e.name), AttrsText(e.attrs), GapText(e.end), CloseText(ClosingOf(e));
    match e.body
    case Empty =>
      StartCut(n, a, g, c, [], [], rest);
      assert STARTTAG + n + a + g + c + [] + [] == STARTTAG + n + a + g + c && [] + ([] + rest) == rest;
    case Full(_, items, name2, gap1, gap2) =>
      StartCut(n, a, g, c, ItemsText(items), EndText(name2, gap1, gap2), rest);
      EndCut(name2, gap1, gap2, rest);
  }

  lemma ElementParts(t: Tables, e: Item)
    requires IsItem(t, e) && e.Elem?
    ensures IsNameSpelling(t, e.name) && AreAttrs(t, e.attrs) && IsTagGap(e.end) && ArePieces(e.name)
    ensures forall k :: 0 <= k < |e.attrs| ==> ArePieces(e.attrs[k].name) && ArePieces(e.attrs[k].value)
    ensures e.body.Full? ==>
      && (e.body.marked || CanBeMissing(e.attrs, e.body.items)) && AreItems(t, e.body.items)
      && IsNameSpelling(t, e.body.name2) && ArePieces(e.body.name2) && TextOf(e.body.name2) == TextOf(e.name)
      && IsTagGap(e.body.gap1) && IsGap(e.body.gap2)
      && ItemMeaning(t, e) == [Element(TextOf(e.name), AttrsOf(e.attrs), Meaning(t, e.body.items))]
    ensures e.body.Empty? ==> ItemMeaning(t, e) == [Element(TextOf(e.name), AttrsOf(e.attrs), [])]
  {
    hide IsTagGap, IsGap, AreItems, Meaning, AttrsOf, TextOf, IsAttr;
    AddsToNone(t, e.attrs);
    AllPieces(t, e.attrs);
  }

  /** The text of an element begins with "<" and its name. */
  lemma ElementStarts(t: Tables, e: Item, rest: CString)
    requires IsItem(t, e) && e.Elem?
    ensures var s := ItemText(e) + rest;
      IsTagStart(s) && IsStop(s) && s[0] == LESSTHAN && GetNextToken(t, s).text == STARTTAG
  {
    hide ItemText, IsItem, TagTail, RawText, IsNameSpelling, GetNextToken;
    ElementParts(t, e);
    ElementCut(e, rest);
    StartTagToken(t, e.name, TagTail(e.attrs, e.end, ClosingOf(e), BehindStart(e, rest)));
  }

  lemma Regroup(a: CString, b: CString, c: CString)
    ensures a + b + c == a + (b + c) && [] + b + c == b + c
  {
  }

  lemma RegroupFour(a: CString, b: CString, c: CString, d: CString)
    ensures a + b + c + d == a + (b + (c + d))
  {
  }

  /** Behind a start tag without ">" */
  lemma MissingIsFollowed(t: Tables, e: Item, rest: CString)
    requires IsItem(t, e) && e.Elem? && e.body.Full? && !e.body.marked
    ensures var s := BehindStart(e, rest);
      IsStop(s) && s[0] == LESSTHAN
      && (GetNextToken(t, s).text == ENDTAG || (e.attrs == [] && GetNextToken(t, s).text == STARTTAG))
  {
    hide IsItem, ItemText, ItemsText, GetNextToken, IsStop, EndTail, AreAttrs, AreItems, RawText, GapText, TagTail, Meaning,
         ItemMeaning, IsNameSpelling, IsTagGap, IsGap, ArePieces;
    ElementParts(t, e);
    var items, end := e.body.items, EndTail(e.body.name2, e.body.gap1, e.body.gap2, rest);
    if items == [] {
      EndTailStarts(t, e.body.name2, e.body.gap1, e.body.gap2, rest);
      NoItems(t);
      assert [] + end == end;
    } else {
      FirstOf(t, items);
      ElementStarts(t, items[0], ItemsText(items[1..]) + end);
      Regroup(ItemText(items[0]), ItemsText(items[1..]), end);
    }
  }

  /** What stands behind a start tag is what may stand there. */
  lemma StartIsFollowed(t: Tables, e: Item, rest: CString)
    requires IsItem(t, e) && e.Elem?
    ensures Follows(t, e.attrs == [], ClosingOf(e), BehindStart(e, rest))
  {
    hide IsItem, BehindStart, GetNextToken, IsStop;
    if e.body.Full? && !e.body.marked {
      MissingIsFollowed(t, e, rest);
    }
  }

  /** An end tag of the innermost element, when its content has been read */
  lemma ParseEnd(t: Tables, d: State, name: seq<Piece>, gap1: Gap, gap2: Gap, rest: CString, d': State)
    requires IsNameSpelling(t, name) && IsTagGap(gap1) && IsGap(gap2) && d.cursor.mode != CONTENT
    requires LeadsTo(d.cursor.rest, EndTail(name, gap1, gap2, rest))
    requires CloseElement(d.(cursor := d.cursor.(rest := rest)), TextOf(name)) == Some(d')
    ensures ParseLoop(t, d) == ParseLoop(t, d')
  {
    hide ParseLoop, IsNameSpelling, IsTagGap, IsGap, GapText, CloseElement, GetNextNode, LeadsTo, TextOf, EndTail, ArePieces;
    NameIsPieces(t, name);
    EndTagRead(t, d.cursor, d.stack == [], name, gap1, gap2, rest);
    LoopStep(t, d, d.cursor.(rest := rest), EndTag(TextOf(name)), d');
  }

  /** The items of an element, in front of its end tag */
  ghost predicate ReadsItems(t: Tables, d: State, w: CString, items: seq<Item>, rest: CString) {
    && d.open != [] && d.stack != [] && d.hasTop && AreItems(t, items) && IsTagStart(rest) && IsBlank(w)
    && (w != [] && items != [] ==> !items[0].Chars?)
    && d.cursor.rest == w + ItemsText(items) + rest && d.cursor.mode == CONTENT
  }

  lemma FirstOf(t: Tables, items: seq<Item>)
    requires items != [] && AreItems(t, items)
    ensures IsItem(t, items[0]) && AreItems(t, items[1..])
    ensures ItemsText(items) == ItemText(items[0]) + ItemsText(items[1..])
    ensures Meaning(t, items) == ItemMeaning(t, items[0]) + Meaning(t, items[1..])
    ensures items[0].Chars? && |items| > 1 ==> !items[1].Chars?
  {
    hide IsItem, ItemText, ItemMeaning;
    TailIsItems(t, items);
  }

  /** What follows a stretch of character data begins with "<". */
  lemma NextIsTag(t: Tables, items: seq<Item>, rest: CString)
    requires AreItems(t, items) && IsTagStart(rest) && (items != [] ==> !items[0].Chars?)
    ensures var s := ItemsText(items) + rest; s != [] && s[0] == LESSTHAN
  {
    hide IsMisc, IsSectionText, AreAttrs, IsNameSpelling, AreItems, ItemsText;
    if items == [] {
      NoItems(t);
      assert [] + rest == rest;
    } else {
      ItemStarts(t, items);
    }
  }

  lemma ItemStarts(t: Tables, items: seq<Item>)
    requires items != [] && AreItems(t, items) && !items[0].Chars?
    ensures ItemsText(items) != [] && ItemsText(items)[0] == LESSTHAN
  {
    hide AreAttrs, IsNameSpelling, EndsWithFirst, IsDeclaration, GetNextToken;
    var item := items[0];
    assert IsItem(t, item);
    match item
    case Aside(misc) =>
      AsideStarts(misc, []);
      assert misc + [] == misc;
    case Elem(_, _, _, _) =>
      ElementStarts(t, item, []);
      assert ItemText(item) + [] == ItemText(item);
    case _ =>
  }

  lemma StopLeads(x: CString)
    requires IsStop(x)
    ensures SkipMisc(x) == Skip(true, x) && LeadsTo(x, x)
  {
    hide SkipMisc;
    NoSpaceToSkip(x);
  }

  lemma GapLeads(g: Gap, x: CString)
    requires IsTagGap(g) && IsStop(x)
    ensures LeadsTo(GapText(g) + x, x)
  {
    hide SkipMisc, SkipSpace, IsTagGap, GapText;
    TagGapIsSkipped(g, x);
    StopIsNoSpace(x);
    NotEmptied(GapText(g) + x, x);
  }

  /** An element in content, where the parser expects a tag, is read, with everything in it, as the element that it
      spells. */
  lemma {:induction false} ParseElement(t: Tables, d: State, e: Item, rest: CString)
    requires d.open != [] && d.stack != [] && d.hasTop && IsItem(t, e) && e.Elem? && d.cursor.mode != CONTENT
    requires LeadsTo(d.cursor.rest, ItemText(e) + rest)
    ensures ParseLoop(t, d) == ParseLoop(t, AfterSome(d, ItemMeaning(t, e), rest))
    decreases e, 1
  {
    hide ParseLoop, IsNameSpelling, AreAttrs, TagTail, IsTagGap, IsGap, CloseElement, AttrsOf, AfterSome, Opened, ArePieces,
         IsItem, AreItems, Meaning, ItemMeaning, ItemText, ItemsText, AfterNodes, EndTail, LeadsTo, Follows, TextOf, RawText,
         GetNextNode, BehindStart;
    ElementParts(t, e);
    ElementCut(e, rest);
    StartIsFollowed(t, e, rest);
    var r1, closing := BehindStart(e, rest), ClosingOf(e);
    ParseStartTag(t, d, e.name, e.attrs, e.end, closing, r1);
    var n, attrs := TextOf(e.name), AttrsOf(e.attrs);
    var c := TagCursor(n, e.attrs == [], e.end, closing, r1);
    var o := Opened(d, n, attrs, r1).(cursor := c);
    var d4 := AfterSome(d, ItemMeaning(t, e), rest);
    OpenedIs(d, n, attrs, r1, c);
    if e.body.Empty? {
      BehindEmpty(e, rest);
      EmptyEndRead(t, c, o.stack == [], n, rest);
      CloseEmpty(d, n, attrs, c.mode, rest);
      LoopStep(t, o, c.(rest := rest), EndTag(n), d4);
    } else {
      var z := ParseContent(t, o, e, rest);
      CloseSame(d, n, attrs, r1, c, Meaning(t, e.body.items), EndOf(e, rest), rest, z);
      ParseEnd(t, z, e.body.name2, e.body.gap1, e.body.gap2, rest, d4);
    }
  }

  lemma BehindEmpty(e: Item, rest: CString)
    requires e.Elem? && e.body.Empty?
    ensures BehindStart(e, rest) == rest && ClosingOf(e) == EmptyMark
  {
  }

  lemma OpenedIs(d: State, name: CString, attrs: seq<Attr>, rest: CString, c: Cursor)
    ensures var o := Opened(d, name, attrs, rest).(cursor := c); o.open != [] && o.stack != [] && o.hasTop
    ensures Opened(d, name, attrs, rest).cursor.lastElem == Some(name)
  {
  }

  /** The state `z` is that behind the content of an element, as far as the end tag is concerned. */
  predicate IsBehind(z: State, o: State, nodes: seq<Node>, end: CString)
    requires o.open != []
  {
    var a := AfterNodes(o, nodes, end);
    z == a.(cursor := z.cursor) && z.cursor.lastElem == a.cursor.lastElem
    && z.cursor.mode != CONTENT && LeadsTo(z.cursor.rest, end)
  }

  lemma CloseSame(d: State, name: CString, attrs: seq<Attr>, start: CString, c: Cursor, nodes: seq<Node>, end: CString,
                  rest: CString, z: State)
    requires d.open != [] && d.hasTop && c.lastElem == Some(name)
    requires var o := Opened(d, name, attrs, start).(cursor := c); o.open != [] && IsBehind(z, o, nodes, end)
    ensures CloseElement(z.(cursor := z.cursor.(rest := rest)), name)
         == Some(AfterSome(d, [Element(name, attrs, nodes)], rest))
  {
    hide CloseElement, AfterSome, LeadsTo, Walk, LastName;
    CloseFull(d, name, attrs, start, nodes, end, rest);
    var a := AfterNodes(Opened(d, name, attrs, start), nodes, end);
    assert a == AfterNodes(Opened(d, name, attrs, start).(cursor := c), nodes, end);
    CloseAnyMode(a.(cursor := a.cursor.(rest := rest)), name, z.cursor.mode);
  }

  /** The end tag of an element, and what follows it */
  function EndOf(e: Item, rest: CString): CString
    requires e.Elem? && e.body.Full?
  {
    EndTail(e.body.name2, e.body.gap1, e.body.gap2, rest)
  }

  lemma EndLeads(t: Tables, e: Item, rest: CString)
    requires e.Elem? && e.body.Full?
    ensures var end := EndOf(e, rest); IsTagStart(end) && IsStop(end) && LeadsTo(end, end)
  {
    hide EndTail, GetNextToken, IsStop, LeadsTo;
    EndTailStarts(t, e.body.name2, e.body.gap1, e.body.gap2, rest);
    StopLeads(EndOf(e, rest));
  }

  lemma NodesAreBehind(o: State, nodes: seq<Node>, end: CString)
    requires o.open != [] && LeadsTo(end, end)
    ensures IsBehind(AfterNodes(o, nodes, end), o, nodes, end)
  {
    hide LeadsTo, AfterNodes;
    AfterNodesCursor(o, nodes, end);
  }

  /** Behind a ">" the content can be read. */
  lemma ContentReady(t: Tables, o: State, e: Item, rest: CString)
    requires o.open != [] && o.stack != [] && o.hasTop && IsItem(t, e) && e.Elem? && e.body.Full? && e.body.marked
    requires o.cursor.rest == BehindStart(e, rest) && o.cursor.mode == CONTENT
    ensures ReadsItems(t, o, [], e.body.items, EndOf(e, rest))
  {
    hide IsItem, AreItems, ItemsText, EndTail, IsTagStart, LeadsTo, IsStop, IsNameSpelling, AreAttrs, TextOf, Meaning,
         ItemMeaning, IsTagGap, IsGap, ArePieces, IsBlank;
    ElementParts(t, e);
    EndLeads(t, e, rest);
    NoBlank();
    Regroup([], ItemsText(e.body.items), EndOf(e, rest));
  }

  /** A start tag without ">" right before its end tag */
  lemma NothingBetween(t: Tables, o: State, e: Item, rest: CString)
    requires o.open != [] && IsItem(t, e) && e.Elem? && e.body.Full? && e.body.items == []
    requires o.cursor.rest == GapText(e.end) + BehindStart(e, rest) && o.cursor.mode == ATTRIBUTE
    ensures IsBehind(o, o, [], EndOf(e, rest))
  {
    hide IsItem, EndTail, IsTagStart, LeadsTo, IsStop, GapText;
    ElementParts(t, e);
    EndLeads(t, e, rest);
    NoItems(t);
    assert [] + EndOf(e, rest) == EndOf(e, rest);
    GapLeads(e.end, EndOf(e, rest));
    AfterNothing(o, EndOf(e, rest));
  }

  /** A start tag without ">" right before another one */
  lemma TagAhead(t: Tables, o: State, e: Item, rest: CString)
    requires IsItem(t, e) && e.Elem? && e.body.Full? && e.body.items != [] && e.body.items[0].Elem?
    requires o.cursor.rest == GapText(e.end) + BehindStart(e, rest)
    ensures var items := e.body.items;
      && AreItems(t, items) && IsItem(t, items[0]) && AreItems(t, items[1..])
      && LeadsTo(o.cursor.rest, ItemText(items[0]) + (ItemsText(items[1..]) + EndOf(e, rest)))
  {
    hide IsItem, AreItems, ItemsText, ItemText, EndTail, IsTagStart, LeadsTo, IsStop, GapText, ItemMeaning, Meaning,
         GetNextToken, IsNameSpelling, IsTagGap, IsGap, ArePieces, AreAttrs;
    ElementParts(t, e);
    var items, end := e.body.items, EndOf(e, rest);
    FirstOf(t, items);
    var next := ItemsText(items[1..]) + end;
    Regroup(ItemText(items[0]), ItemsText(items[1..]), end);
    ElementStarts(t, items[0], next);
    GapLeads(e.end, ItemText(items[0]) + next);
  }

  lemma TagInTag(t: Tables, o: State, e: Item, rest: CString)
    requires o.open != [] && o.stack != [] && o.hasTop && IsItem(t, e) && e.Elem? && e.body.Full? && e.body.items != []
    requires AreItems(t, e.body.items) && IsItem(t, e.body.items[0]) && AreItems(t, e.body.items[1..])
    ensures var items, end := e.body.items, EndOf(e, rest);
      var next := ItemsText(items[1..]) + end;
      var d1 := AfterSome(o, ItemMeaning(t, items[0]), next);
      && ReadsItems(t, d1, [], items[1..], end)
      && AfterNodes(d1, Meaning(t, items[1..]), end) == AfterNodes(o, Meaning(t, items), end)
  {
    hide IsItem, AreItems, ItemsText, ItemText, EndOf, IsTagStart, LeadsTo, IsStop, ItemMeaning, Meaning, AfterSome, AfterNodes;
    EndLeads(t, e, rest);
    var items, end := e.body.items, EndOf(e, rest);
    FirstOf(t, items);
    var next := ItemsText(items[1..]) + end;
    AfterSomeKeeps(o, ItemMeaning(t, items[0]), next);
    Regroup([], ItemsText(items[1..]), end);
    NoBlank();
    AfterMore(o, ItemMeaning(t, items[0]), Meaning(t, items[1..]), next, end);
  }

  /** The content of an element, behind its start tag */
  lemma {:induction false} ParseContent(t: Tables, o: State, e: Item, rest: CString) returns (z: State)
    requires o.open != [] && o.stack != [] && o.hasTop && IsItem(t, e) && e.Elem? && e.body.Full?
    requires ArePieces(e.name)
    requires o.cursor == TagCursor(TextOf(e.name), e.attrs == [], e.end, ClosingOf(e), BehindStart(e, rest))
    ensures AreItems(t, e.body.items)
    ensures ParseLoop(t, o) == ParseLoop(t, z)
    ensures IsBehind(z, o, Meaning(t, e.body.items), EndOf(e, rest))
    decreases e, 0
  {
    hide ParseLoop, IsNameSpelling, ArePieces, IsItem, AreItems, Meaning, ItemMeaning, ItemText, ItemsText, AfterNodes,
         EndOf, LeadsTo, TextOf, AfterSome, BehindStart, GapText, ReadsItems, IsBehind;
    ElementParts(t, e);
    EndLeads(t, e, rest);
    var items, end := e.body.items, EndOf(e, rest);
    z := AfterNodes(o, Meaning(t, items), end);
    NodesAreBehind(o, Meaning(t, items), end);
    if e.body.marked {
      ContentReady(t, o, e, rest);
      ParseItems(t, o, [], items, end);
    } else if items == [] {
      z := o;
      NoItems(t);
      NothingBetween(t, o, e, rest);
    } else {
      TagAhead(t, o, e, rest);
      TagInTag(t, o, e, rest);
      var next := ItemsText(items[1..]) + end;
      ParseElement(t, o, items[0], next);
      ParseItems(t, AfterSome(o, ItemMeaning(t, items[0]), next), [], items[1..], end);
    }
  }

  /** Character data, a CDATA section or a comment in front of what follows it */
  lemma ParseLeaf(t: Tables, d: State, w: CString, item: Item, next: CString)
    requires d.open != [] && IsItem(t, item) && !item.Elem? && d.cursor.mode == CONTENT && IsBlank(w)
    requires item.Chars? ==> w == [] && !IsBlank(RawText(item.pieces)) && next != [] && next[0] == LESSTHAN
    requires d.cursor.rest == w + (ItemText(item) + next)
    ensures ParseLoop(t, d) == ParseLoop(t, AfterSome(d, ItemMeaning(t, item), next))
  {
    hide ParseLoop, AfterSome, AreChars, IsSectionText, IsMisc, IsBlank, TextOf;
    match item
    case Chars(pieces) =>
      assert d.cursor.rest == RawText(pieces) + next;
      ParseChars(t, d, pieces, next);
    case Section(text, stop) => ParseSection(t, d, w, text, stop, next);
    case Aside(misc) =>
      ParseAside(t, d, w, misc, next);
      AfterNone(d, next);
  }

  /** An element in content, behind white space */
  lemma ParseTag(t: Tables, d: State, w: CString, e: Item, next: CString)
    requires d.open != [] && IsItem(t, e) && e.Elem? && d.cursor.mode == CONTENT && IsBlank(w)
    requires d.cursor.rest == w + (ItemText(e) + next)
    ensures var d1 := d.(cursor := d.cursor.(rest := ItemText(e) + next, mode := ELEMENT));
      && ParseLoop(t, d) == ParseLoop(t, d1) && LeadsTo(d1.cursor.rest, ItemText(e) + next)
      && AfterSome(d1, ItemMeaning(t, e), next) == AfterSome(d, ItemMeaning(t, e), next)
  {
    hide ParseLoop, ItemMeaning, IsBlank, IsItem, ItemText, GetNextToken, IsStop, LeadsTo;
    BlankIsSpace(w);
    ElementStarts(t, e, next);
    StopLeads(ItemText(e) + next);
    ContentAtTag(t, d, w, ItemText(e) + next);
  }

  lemma EmptyIsElement(t: Tables, name: seq<Piece>, attrs: seq<AttrSpelling>, end: Gap)
    requires IsNameSpelling(t, name) && AreAttrs(t, attrs) && IsTagGap(end)
    ensures ArePieces(name) && forall k :: 0 <= k < |attrs| ==> ArePieces(attrs[k].name) && ArePieces(attrs[k].value)
    ensures var e := Elem(name, attrs, end, Empty);
      && IsItem(t, e) && ItemMeaning(t, e) == [Element(TextOf(name), AttrsOf(attrs), [])]
      && ItemText(e) == Octets("<") + RawText(name) + AttrsText(attrs) + GapText(end) + Octets("/>")
  {
    hide IsNameSpelling, AreAttrs, IsTagGap, AttrsText, GapText, AttrsOf, RawText, TextOf, ArePieces;
    ElementParts(t, Elem(name, attrs, end, Empty));
  }

  /** An empty-element tag is read from any state inside an element: as an element with its attributes and no children,
      which is closed again. */
  lemma EmptyTagIsRead(t: Tables, d: State, w: CString, name: seq<Piece>, attrs: seq<AttrSpelling>, end: Gap, rest: CString)
    requires d.open != [] && d.stack != [] && d.hasTop && IsBlank(w) && (d.cursor.mode == CONTENT || w == [])
    requires IsNameSpelling(t, name) && AreAttrs(t, attrs) && IsTagGap(end)
    requires d.cursor.rest == w + (Octets("<") + RawText(name) + AttrsText(attrs) + GapText(end) + Octets("/>") + rest)
    ensures ArePieces(name) && forall k :: 0 <= k < |attrs| ==> ArePieces(attrs[k].name) && ArePieces(attrs[k].value)
    ensures ParseLoop(t, d) == ParseLoop(t, AfterSome(d, [Element(TextOf(name), AttrsOf(attrs), [])], rest))
  {
    hide ParseLoop, IsNameSpelling, AreAttrs, IsTagGap, AttrsText, GapText, AttrsOf, IsBlank, LeadsTo, IsStop, RawText, TextOf,
         GetNextToken, IsItem, ItemText, ItemMeaning, ArePieces, AfterSome;
    var e := Elem(name, attrs, end, Empty);
    EmptyIsElement(t, name, attrs, end);
    var s := ItemText(e) + rest;
    if d.cursor.mode == CONTENT {
      ParseTag(t, d, w, e, rest);
      ParseElement(t, d.(cursor := d.cursor.(rest := s, mode := ELEMENT)), e, rest);
    } else {
      assert [] + s == s;
      ElementStarts(t, e, rest);
      StopLeads(s);
      ParseElement(t, d, e, rest);
    }
  }

  lemma NoItems(t: Tables)
    ensures ItemsText([]) == [] && AreItems(t, []) && Meaning(t, []) == []
  {
  }

  lemma BlankChars(t: Tables, item: Item)
    requires IsItem(t, item) && item.Chars? && IsBlank(RawText(item.pieces))
    ensures ItemText(item) == RawText(item.pieces) && ItemMeaning(t, item) == []
  {
  }

  /** White space before an item that is no character data is read together with it. */
  lemma BlankStep(t: Tables, d: State, w: CString, items: seq<Item>, rest: CString)
    requires ReadsItems(t, d, w, items, rest) && items != []
    requires items[0].Chars? && IsBlank(RawText(items[0].pieces))
    ensures ReadsItems(t, d, RawText(items[0].pieces), items[1..], rest)
    ensures Meaning(t, items) == Meaning(t, items[1..])
  {
    hide IsItem, AreItems, Meaning, ItemMeaning, ItemText, ItemsText, IsBlank, IsTagStart;
    var item, tl := items[0], items[1..];
    FirstOf(t, items);
    BlankChars(t, item);
    var text := ItemText(item);
    assert [] + (text + ItemsText(tl)) + rest == text + ItemsText(tl) + rest;
    assert [] + Meaning(t, tl) == Meaning(t, tl);
  }

  lemma ItemsCut(w: CString, text: CString, more: CString, rest: CString)
    ensures w + (text + more) + rest == w + (text + (more + rest)) && [] + more + rest == more + rest
  {
  }

  /** The first item has been read. */
  lemma ItemStep(t: Tables, d: State, w: CString, items: seq<Item>, rest: CString)
    requires ReadsItems(t, d, w, items, rest) && items != []
    ensures IsItem(t, items[0]) && AreItems(t, items[1..])
    ensures var nodes, next := ItemMeaning(t, items[0]), ItemsText(items[1..]) + rest;
      var d1 := AfterSome(d, nodes, next);
      && d.cursor.rest == w + (ItemText(items[0]) + next)
      && ReadsItems(t, d1, [], items[1..], rest)
      && AfterNodes(d1, Meaning(t, items[1..]), rest) == AfterNodes(d, Meaning(t, items), rest)
  {
    hide IsItem, AreItems, Meaning, ItemMeaning, ItemText, ItemsText, AfterNodes, AfterSome, IsBlank, IsTagStart;
    var item, tl := items[0], items[1..];
    FirstOf(t, items);
    ItemsCut(w, ItemText(item), ItemsText(tl), rest);
    AfterSomeKeeps(d, ItemMeaning(t, item), ItemsText(tl) + rest);
    NoBlank();
    AfterMore(d, ItemMeaning(t, item), Meaning(t, tl), ItemsText(tl) + rest, rest);
  }

  lemma ParseNoItems(t: Tables, d: State, w: CString, rest: CString)
    requires ReadsItems(t, d, w, [], rest)
    ensures ParseLoop(t, d) == ParseLoop(t, AfterNodes(d, Meaning(t, []), rest))
  {
    hide ParseLoop, AfterNodes, IsTagStart, IsBlank;
    NoItems(t);
    assert w + [] + rest == w + rest;
    BlankIsSpace(w);
    ContentAtTag(t, d, w, rest);
    AfterNothing(d, rest);
  }

  /** An item that is no element, and not dropped */
  lemma ParseFirstLeaf(t: Tables, d: State, w: CString, items: seq<Item>, rest: CString)
    requires ReadsItems(t, d, w, items, rest) && items != [] && IsItem(t, items[0]) && !items[0].Elem?
    requires items[0].Chars? ==> !IsBlank(RawText(items[0].pieces))
    requires d.cursor.rest == w + (ItemText(items[0]) + (ItemsText(items[1..]) + rest))
    ensures ParseLoop(t, d) == ParseLoop(t, AfterSome(d, ItemMeaning(t, items[0]), ItemsText(items[1..]) + rest))
  {
    hide ParseLoop, IsItem, AreItems, ItemMeaning, ItemText, ItemsText, AfterSome, IsBlank, IsTagStart;
    FirstOf(t, items);
    if items[0].Chars? {
      NextIsTag(t, items[1..], rest);
    }
    ParseLeaf(t, d, w, items[0], ItemsText(items[1..]) + rest);
  }

  /** The content of an element, in whatever spelling, is read as the nodes that it stands for. */
  lemma {:induction false} ParseItems(t: Tables, d: State, w: CString, items: seq<Item>, rest: CString)
    requires ReadsItems(t, d, w, items, rest)
    ensures ParseLoop(t, d) == ParseLoop(t, AfterNodes(d, Meaning(t, items), rest))
    decreases items, 0
  {
    hide ParseLoop, IsItem, AreItems, Meaning, ItemMeaning, ItemText, ItemsText, AfterNodes, AfterSome, IsBlank,
         IsTagStart, LeadsTo;
    if items == [] {
      ParseNoItems(t, d, w, rest);
    } else if items[0].Chars? && IsBlank(RawText(items[0].pieces)) {
      BlankStep(t, d, w, items, rest);
      ParseItems(t, d, RawText(items[0].pieces), items[1..], rest);
    } else {
      ItemStep(t, d, w, items, rest);
      var next := ItemsText(items[1..]) + rest;
      if items[0].Elem? {
        ParseTag(t, d, w, items[0], next);
        var c := d.cursor.(rest := ItemText(items[0]) + next, mode := ELEMENT);
        ParseElement(t, d.(cursor := c), items[0], next);
      } else {
        ParseFirstLeaf(t, d, w, items, rest);
      }
      ParseItems(t, AfterSome(d, ItemMeaning(t, items[0]), next), [], items[1..], rest);
    }
  }

  lemma NoBlank()
    ensures IsBlank([])
  {
  }

  // ---- In front of the root ----

  lemma {:induction false} PlainOctetsSkipped(v: CString, num: int, rest: CString)
    requires forall k :: 0 <= k < |v| ==> v[k] !in {LESSTHAN, GREATERTHAN, QUOTE}
    requires num > 0
    ensures SkipDocType(v + rest, num) == SkipDocType(rest, num)
    decreases |v|
  {
    if v == [] {
      assert v + rest == rest;
    } else {
      assert (v + rest)[1..] == v[1..] + rest;
      PlainOctetsSkipped(v[1..], num, rest);
    }
  }

  lemma QuotedSkipped(text: CString, num: int, rest: CString)
    requires QUOTE !in text && num > 0
    ensures SkipDocType([QUOTE] + text + [QUOTE] + rest, num) == SkipDocType(rest, num)
  {
    hide Find;
    var s := [QUOTE] + text + [QUOTE] + rest;
    assert s[1..] == text + ([QUOTE] + rest);
    ValueEnds(text, QUOTE, rest);
    assert s[1..][|text| + 1..] == rest;
  }

  lemma BracketsStep(s: CString, num: int)
    requires num > 0
    ensures SkipDocType([LESSTHAN] + s, num) == SkipDocType(s, num + 1)
    ensures SkipDocType([GREATERTHAN] + s, num) == SkipDocType(s, num - 1)
    ensures SkipDocType(s, 0) == Skip(true, s)
  {
    assert ([LESSTHAN] + s)[1..] == s && ([GREATERTHAN] + s)[1..] == s;
  }

  lemma PartsUnfold(part: TypePart, tl: seq<TypePart>)
    ensures PartsText([part] + tl)
         == (match part
             case Octet(b) => [b]
             case Quoted(text) => [QUOTE] + text + [QUOTE]
             case Nested(inner) => [LESSTHAN] + PartsText(inner) + [GREATERTHAN]) + PartsText(tl)
  {
    TagsAgree();
    assert ([part] + tl)[0] == part && ([part] + tl)[1..] == tl;
  }

  /** The loop over brackets and quotes goes through the inside of a document type declaration. */
  lemma {:induction false} PartsAreSkipped(parts: seq<TypePart>, num: int, rest: CString)
    requires AreParts(parts) && num > 0
    ensures SkipDocType(PartsText(parts) + rest, num) == SkipDocType(rest, num)
    decreases parts
  {
    hide SkipDocType, PartsText;
    if parts == [] {
      NoParts();
      assert [] + rest == rest;
    } else {
      var part, tl := parts[0], parts[1..];
      assert parts == [part] + tl;
      PartsUnfold(part, tl);
      var more := PartsText(tl) + rest;
      PartsAreSkipped(tl, num, rest);
      match part
      case Octet(b) =>
        assert [b] + PartsText(tl) + rest == [b] + more;
        PlainOctetsSkipped([b], num, more);
      case Quoted(text) =>
        assert [QUOTE] + text + [QUOTE] + PartsText(tl) + rest == [QUOTE] + text + [QUOTE] + more;
        QuotedSkipped(text, num, more);
      case Nested(inner) =>
        assert [LESSTHAN] + PartsText(inner) + [GREATERTHAN] + PartsText(tl) + rest
            == [LESSTHAN] + (PartsText(inner) + ([GREATERTHAN] + more));
        BracketsStep(PartsText(inner) + ([GREATERTHAN] + more), num);
        PartsAreSkipped(inner, num + 1, [GREATERTHAN] + more);
        BracketsStep(more, num + 1);
    }
  }

  lemma NoParts()
    ensures PartsText([]) == []
  {
  }

  function TypeText(parts: seq<TypePart>): CString {
    Octets("<!DOCTYPE") + PartsText(parts) + Octets(">")
  }

  lemma TypeStarts(s: CString)
    requires StartsWith(s, BEGIN_DOCTYPE)
    ensures IsStop(s) && !StartsWith(s, XMLDECL)
  {
    hide SkipSpace, Find, SkipComment, SkipString;
    assert s[0] == s[..9][0] && s[1] == s[..9][1] && s[2] == s[..9][2];
    DiffersAt(s, BEGIN_COMMENT, 2);
    DiffersAt(s, BEGIN_PI, 1);
    DiffersAt(s, XMLDECL, 1);
    DiffersAt(s, XMLDECL2, 1);
    NoSpaceToSkip(s);
  }

  lemma TypeCut(parts: seq<TypePart>, rest: CString)
    ensures var s, tl := TypeText(parts) + rest, PartsText(parts) + ([GREATERTHAN] + rest);
      StartsWith(s, BEGIN_DOCTYPE) && s[1..] == BEGIN_DOCTYPE[1..] + tl
  {
    hide PartsText;
    DelimitersAgree();
    TagsAgree();
    assert TypeText(parts) + rest == BEGIN_DOCTYPE + (PartsText(parts) + ([GREATERTHAN] + rest));
  }

  /** A document type declaration is no comment, and is skipped as a whole. */
  lemma DocTypeIsSkipped(parts: seq<TypePart>, rest: CString)
    requires AreParts(parts)
    ensures var s := TypeText(parts) + rest;
      && IsStop(s) && StartsWith(s, BEGIN_DOCTYPE) && !StartsWith(s, XMLDECL)
      && SkipDocType(s[1..], 1) == Skip(true, rest)
  {
    hide SkipDocType, PartsText, IsStop, TypeText;
    var tl := PartsText(parts) + ([GREATERTHAN] + rest);
    TypeCut(parts, rest);
    TypeStarts(TypeText(parts) + rest);
    PlainOctetsSkipped(BEGIN_DOCTYPE[1..], 1, tl);
    PartsAreSkipped(parts, 1, [GREATERTHAN] + rest);
    BracketsStep(rest, 1);
  }

  lemma DeclarationIsSkipped(decl: Spaced, next: CString)
    requires IsXmlDeclaration(decl.misc) && IsBlank(decl.space) && (next == [] || !IsSpace(next[0]))
    ensures var s := decl.misc + decl.space + next;
      && StartsWith(s, XMLDECL) && SkipString(s, END_PI).ok && SkipSpace(SkipString(s, END_PI).rest) == next
      && s[0] == LESSTHAN
  {
    hide Find, SkipSpace, EndsWithFirst;
    DelimitersAgree();
    var s, rest := decl.misc + decl.space + next, decl.space + next;
    assert s == decl.misc + rest;
    assert s[..6] == decl.misc[0..6];
    assert s[0] == s[..6][0];
    EndsLong(decl.misc, END_PI);
    FindsEnd(decl.misc, END_PI, rest);
    assert s[|decl.misc| - 2..][2..] == rest;
    AfterSpace(decl.space, next);
  }

  lemma EndsLong(s: CString, key: CString)
    requires EndsWithFirst(s, key)
    ensures |key| <= |s|
  {
  }

  /** No XML declaration begins where comments, instructions and then something else stand. */
  lemma NoDeclarationAhead(ms: seq<Spaced>, next: CString)
    requires AreMisc(ms) && !StartsWith(next, XMLDECL)
    ensures !StartsWith(MiscText(ms) + next, XMLDECL)
  {
    hide EndsWithFirst, IsDeclaration;
    if ms == [] {
      assert MiscText(ms) + next == next;
    } else {
      DelimitersAgree();
      var m := ms[0].misc;
      assert IsMisc(m);
      var rest := ms[0].space + MiscText(ms[1..]) + next;
      assert MiscText(ms) + next == m + rest;
      if IsRemark(m) {
        assert (m + rest)[1] == m[0..4][1];
        DiffersAt(m + rest, XMLDECL, 1);
      } else {
        NoDeclaration(m, rest);
        NoCaseEither(m + rest, XMLDECL);
      }
    }
  }

  lemma NoCaseEither(s: CString, key: CString)
    requires !StartsWithNoCase(s, key)
    ensures !StartsWith(s, key)
  {
  }

  /** Whatever stands in front of the root is skipped, in part by `Parser_skipProlog` and in part by the tokenizer. */
  lemma TypeAndGap(parts: Option<seq<TypePart>>, gap: Gap, x: CString)
    requires IsStop(x) && !StartsWith(x, BEGIN_DOCTYPE) && !StartsWith(x, XMLDECL) && IsGap(gap)
    requires if parts.Some? then AreParts(parts.value) else gap == Gap([], [])
    ensures var s := (if parts.Some? then TypeText(parts.value) else []) + (GapText(gap) + x);
      && IsStop(s) && !StartsWith(s, XMLDECL)
      && var doctype := if StartsWith(s, BEGIN_DOCTYPE) then SkipDocType(s[1..], 1) else Skip(true, s);
         && doctype.ok && SkipMisc(doctype.rest).ok && LeadsTo(SkipMisc(doctype.rest).rest, x)
  {
    hide SkipDocType, SkipMisc, IsGap, TypeText, AreParts, GapText;
    StopLeads(x);
    if parts.Some? {
      var t3 := GapText(gap) + x;
      DocTypeIsSkipped(parts.value, t3);
      BehindType(gap, x);
    } else {
      assert GapText(gap) == [] by { NoGap(); }
      assert [] + ([] + x) == x;
    }
  }

  lemma NoGap()
    ensures GapText(Gap([], [])) == []
  {
  }

  lemma BehindType(gap: Gap, x: CString)
    requires IsStop(x) && IsGap(gap)
    ensures var s := SkipMisc(GapText(gap) + x); s.ok && LeadsTo(s.rest, x)
  {
    hide SkipMisc, SkipSpace, IsStop, AreMisc;
    var s, m := GapText(gap) + x, MiscText(gap.misc) + x;
    GapIsSkipped(gap, x);
    StopIsNoSpace(x);
    StopLeads(x);
    if gap.space == [] {
      assert s == m;
      MiscsAreSkipped(gap.misc, x);
    } else {
      BlankIsSpace(gap.space);
      assert s[0] == gap.space[0];
      NoMisc(s);
      MiscStart(gap.misc, x);
      NoSpaceToSkip(m);
    }
  }

  lemma SkipNothing()
    ensures SkipMisc([]) == Skip(true, []) && SkipSpace([]) == []
  {
  }

  /** `Parser_skipProlog` accepts what stands in front of the document type declaration. */
  lemma PrologIsSkipped(space: CString, decl: Option<Spaced>, misc: seq<Spaced>, next: CString, doctype: Skip)
    requires IsBlank(space) && AreMisc(misc) && (next == [] || IsStop(next)) && !StartsWith(next, XMLDECL)
    requires decl.Some? ==> IsXmlDeclaration(decl.value.misc) && IsBlank(decl.value.space)
    requires doctype == if StartsWith(next, BEGIN_DOCTYPE) then SkipDocType(next[1..], 1) else Skip(true, next)
    requires doctype.ok && SkipMisc(doctype.rest).ok
    ensures var s := space + ((if decl.Some? then decl.value.misc + decl.value.space else []) + (MiscText(misc) + next));
      SkipProlog(s) == SkipMisc(doctype.rest)
  {
    hide SkipDocType, SkipMisc, SkipSpace, SkipString, AreMisc, IsStop, IsXmlDeclaration, IsBlank, StartsWith;
    var t1 := MiscText(misc) + next;
    SkipNothing();
    if next != [] {
      StopIsNoSpace(next);
      StopLeads(next);
    }
    MiscStart(misc, next);
    MiscsAreSkipped(misc, next);
    if decl.Some? {
      assert decl.value.misc + decl.value.space + t1 == (decl.value.misc + decl.value.space) + t1;
      DeclarationIsSkipped(decl.value, t1);
      AfterSpace(space, decl.value.misc + decl.value.space + t1);
    } else {
      assert [] + t1 == t1;
      NoDeclarationAhead(misc, next);
      AfterSpace(space, t1);
    }
  }

  // ---- Behind the root ----

  /** Behind the root there is only white space. */
  lemma ParseEndOfText(t: Tables, d: State)
    requires d.stack == [] && AllSpace(d.cursor.rest) && d.cursor.mode == CONTENT
    ensures ParseLoop(t, d) == Some(d.(cursor := d.cursor.(rest := [])))
  {
    var s := d.cursor.rest;
    var d1 := d.(cursor := d.cursor.(rest := []));
    assert ParseLoop(t, d1) == Some(d1);
    if s != [] {
      SkipSpacePrefix(s, []);
      assert s + [] == s;
      LoopStep(t, d, d1.cursor, Nothing, d1);
    } else {
      assert d1 == d;
    }
  }

  lemma {:induction false} ParseTrailer(t: Tables, d: State, w: CString, ms: seq<Spaced>)
    requires d.stack == [] && d.cursor.mode == CONTENT && IsBlank(w) && AreMisc(ms)
    requires d.cursor.rest == w + MiscText(ms)
    ensures ParseLoop(t, d) == Some(d.(cursor := d.cursor.(rest := [])))
    decreases |ms|
  {
    hide ParseLoop, IsMisc, IsBlank;
    if ms == [] {
      assert d.cursor.rest == w;
      BlankIsSpace(w);
      ParseEndOfText(t, d);
    } else {
      var m, more := ms[0], ms[0].space + MiscText(ms[1..]);
      assert MiscText(ms) == m.misc + more;
      ParseAside(t, d, w, m.misc, more);
      ParseTrailer(t, d.(cursor := d.cursor.(rest := more)), m.space, ms[1..]);
    }
  }

  /** The state when the root has been read */
  function AfterRoot(n: Node, rest: CString, last: Option<CString>): State {
    State(Cursor(rest, CONTENT, last), [], [], [n], true, Walk([n]))
  }

  /** A root in any spelling */
  lemma ParseRoot(t: Tables, s: CString, e: Item, rest: CString)
    requires IsItem(t, e) && e.Elem? && LeadsTo(s, ItemText(e) + rest)
    ensures |ItemMeaning(t, e)| == 1
    ensures exists last :: ParseLoop(t, InitialState(s)) == ParseLoop(t, AfterRoot(ItemMeaning(t, e)[0], rest, last))
  {
    hide ParseLoop, IsNameSpelling, AreAttrs, TagTail, IsTagGap, IsGap, CloseElement, AttrsOf, Opened, ArePieces, IsItem,
         AreItems, Meaning, ItemMeaning, ItemText, ItemsText, AfterNodes, EndTail, LeadsTo, Follows, TextOf, RawText,
         GetNextNode, BehindStart, Walk;
    ElementParts(t, e);
    ElementCut(e, rest);
    StartIsFollowed(t, e, rest);
    var d, r1, closing := InitialState(s), BehindStart(e, rest), ClosingOf(e);
    ParseStartTag(t, d, e.name, e.attrs, e.end, closing, r1);
    var n, attrs := TextOf(e.name), AttrsOf(e.attrs);
    var c := TagCursor(n, e.attrs == [], e.end, closing, r1);
    var o := Opened(d, n, attrs, r1).(cursor := c);
    OpenedIs(d, n, attrs, r1, c);
    if e.body.Empty? {
      BehindEmpty(e, rest);
      EmptyEndRead(t, c, o.stack == [], n, rest);
      CloseEmptyRoot(n, attrs, s, c.mode, rest);
      LoopStep(t, o, c.(rest := rest), EndTag(n), AfterRoot(ItemMeaning(t, e)[0], rest, Some(n)));
    } else {
      var z := ParseContent(t, o, e, rest);
      CloseSameRoot(n, attrs, s, r1, c, Meaning(t, e.body.items), EndOf(e, rest), rest, z);
      ParseEnd(t, z, e.body.name2, e.body.gap1, e.body.gap2, rest,
               AfterRoot(ItemMeaning(t, e)[0], rest, z.cursor.lastElem));
    }
  }

  lemma CloseSameRoot(name: CString, attrs: seq<Attr>, s: CString, start: CString, c: Cursor, nodes: seq<Node>,
                      end: CString, rest: CString, z: State)
    requires c.lastElem == Some(name)
    requires var o := Opened(InitialState(s), name, attrs, start).(cursor := c); o.open != [] && IsBehind(z, o, nodes, end)
    ensures CloseElement(z.(cursor := z.cursor.(rest := rest)), name)
         == Some(AfterRoot(Element(name, attrs, nodes), rest, z.cursor.lastElem))
  {
    hide CloseElement, LeadsTo, Walk, LastName;
    CloseRoot(name, attrs, s, start, nodes, end, rest);
    var a := AfterNodes(Opened(InitialState(s), name, attrs, start), nodes, end);
    assert a == AfterNodes(Opened(InitialState(s), name, attrs, start).(cursor := c), nodes, end);
    CloseAnyMode(a.(cursor := a.cursor.(rest := rest)), name, z.cursor.mode);
  }

  /** What stands between the document type declaration and `x` */
  function Lead(marks: seq<Gap>, gap: Gap, x: CString): CString {
    MarksText(marks) + (GapText(gap) + x)
  }

  /** What stands behind the first of the gaps */
  function LeadTail(marks: seq<Gap>, gap: Gap, x: CString): CString {
    if marks == [] then x else [GREATERTHAN] + Lead(marks[1..], gap, x)
  }

  lemma LeadCut(marks: seq<Gap>, gap: Gap, x: CString)
    ensures Lead(marks, gap, x) == GapText((marks + [gap])[0]) + LeadTail(marks, gap, x)
  {
    hide GapText;
    TagsAgree();
    if marks == [] {
      assert [] + (GapText(gap) + x) == GapText(gap) + x;
    } else {
      var g, m, r := GapText(marks[0]), MarksText(marks[1..]), GapText(gap) + x;
      assert g + [GREATERTHAN] + m + r == g + ([GREATERTHAN] + (m + r));
    }
  }

  /** A ">" where a root could begin is passed over. */
  lemma MarkIsPassed(t: Tables, s: CString, r: CString)
    requires LeadsTo(s, [GREATERTHAN] + r)
    ensures ParseLoop(t, InitialState(s)) == ParseLoop(t, InitialState(r))
  {
    hide ParseLoop, SkipSpace, SkipMisc, GetNextToken;
    SymbolRead(t, SkipSpace(s), GREATERTHAN, r);
    SkipSpaceLength(s);
    LoopStep(t, InitialState(s), InitialState(r).cursor, Nothing, InitialState(r));
  }

  lemma {:induction false} MarksArePassed(t: Tables, s: CString, marks: seq<Gap>, gap: Gap, x: CString)
    requires LeadsTo(s, LeadTail(marks, gap, x)) && AreGaps(marks) && marks != []
    ensures ParseLoop(t, InitialState(s)) == ParseLoop(t, InitialState(GapText(gap) + x))
    decreases |marks|
  {
    hide ParseLoop, LeadsTo, IsGap, IsStop, GapText;
    var tl := marks[1..];
    var more := Lead(tl, gap, x);
    MarkIsPassed(t, s, more);
    if tl == [] {
      NoMarks(gap, x);
    } else {
      LeadCut(tl, gap, x);
      LeadStops(tl, gap, x);
      AnyGapLeads(tl[0], LeadTail(tl, gap, x));
      MarksArePassed(t, more, tl, gap, x);
    }
  }

  lemma NoMarks(gap: Gap, x: CString)
    ensures Lead([], gap, x) == GapText(gap) + x && LeadTail([], gap, x) == x
  {
    hide GapText;
    Regroup([], GapText(gap), x);
  }

  lemma LeadStops(marks: seq<Gap>, gap: Gap, x: CString)
    requires marks != [] || IsStop(x)
    ensures IsStop(LeadTail(marks, gap, x))
  {
    hide IsStop;
    if marks != [] {
      EqualsIsStop(GREATERTHAN, Lead(marks[1..], gap, x));
    }
  }

  lemma AnyGapLeads(g: Gap, x: CString)
    requires IsGap(g) && IsStop(x)
    ensures LeadsTo(GapText(g) + x, x)
  {
    hide SkipMisc, SkipSpace, IsGap, GapText;
    GapIsSkipped(g, x);
    StopIsNoSpace(x);
    NotEmptied(GapText(g) + x, x);
  }

  lemma DocumentCut(d: Document)
    ensures var next := (if d.doctype.Some? then TypeText(d.doctype.value) else []) + Lead(d.marks, d.gap, CoreText(d.core));
      DocumentText(d)
      == d.space + ((if d.decl.Some? then d.decl.value.misc + d.decl.value.space else []) + (MiscText(d.misc) + next))
  {
    hide CoreText, MiscText, GapText, PartsText, MarksText;
    var decl := if d.decl.Some? then d.decl.value.misc + d.decl.value.space else [];
    var typ := if d.doctype.Some? then TypeText(d.doctype.value) else [];
    Nested(d.space, decl, MiscText(d.misc), typ, MarksText(d.marks), GapText(d.gap), CoreText(d.core));
  }

  lemma Nested(a: CString, b: CString, c: CString, d: CString, e: CString, f: CString, g: CString)
    ensures a + b + c + d + e + f + g == a + (b + (c + (d + (e + (f + g)))))
  {
    assert e + f + g == e + (f + g);
    assert d + e + f + g == d + (e + f + g);
    assert c + d + e + f + g == c + (d + e + f + g);
    assert b + c + d + e + f + g == b + (c + d + e + f + g);
    assert a + b + c + d + e + f + g == a + (b + c + d + e + f + g);
  }

  lemma GapUnfold(g: Gap)
    ensures GapText(g) == g.space + MiscText(g.misc)
  {
  }

  lemma NoTypeAhead(marks: seq<Gap>, gap: Gap, x: CString)
    requires marks != [] || IsTagStart(x)
    ensures var y := LeadTail(marks, gap, x); !StartsWith(y, BEGIN_DOCTYPE) && !StartsWith(y, XMLDECL)
  {
    hide Lead;
    var y, k := LeadTail(marks, gap, x), if marks == [] then 1 else 0;
    DiffersAt(y, BEGIN_DOCTYPE, k);
    DiffersAt(y, XMLDECL, k);
  }

  /** Whatever is in front of the root, or of the first ">", is skipped. */
  lemma ProloguePassed(d: Document, x: CString)
    requires IsBlank(d.space) && AreMisc(d.misc) && AreGaps(d.marks) && IsGap(d.gap) && x == CoreText(d.core)
    requires d.decl.Some? ==> IsXmlDeclaration(d.decl.value.misc) && IsBlank(d.decl.value.space)
    requires if d.doctype.Some? then AreParts(d.doctype.value) else (d.marks + [d.gap])[0] == Gap([], [])
    requires d.marks != [] || (IsTagStart(x) && IsStop(x))
    ensures var r := SkipProlog(DocumentText(d)); r.ok && LeadsTo(r.rest, LeadTail(d.marks, d.gap, x))
  {
    hide SkipProlog, DocumentText, AreParts, AreMisc, IsBlank, IsGap, CoreText, MiscText, IsTagStart, GapText, SkipDocType, SkipMisc,
         IsXmlDeclaration, LeadsTo, IsStop, StartsWith, Lead, LeadTail, TypeText;
    var y, g := LeadTail(d.marks, d.gap, x), (d.marks + [d.gap])[0];
    var next := (if d.doctype.Some? then TypeText(d.doctype.value) else []) + (GapText(g) + y);
    DocumentCut(d);
    LeadCut(d.marks, d.gap, x);
    LeadStops(d.marks, d.gap, x);
    NoTypeAhead(d.marks, d.gap, x);
    TypeAndGap(d.doctype, g, y);
    var doctype := if StartsWith(next, BEGIN_DOCTYPE) then SkipDocType(next[1..], 1) else Skip(true, next);
    PrologIsSkipped(d.space, d.decl, d.misc, next, doctype);
  }

  // ---- Without a root ----

  /** Nothing but what is skipped: the tokenizer gets to the end of the text. */
  predicate Fades(s: CString) {
    SkipMisc(SkipSpace(s)).rest == []
  }

  lemma ParseFades(t: Tables, s: CString)
    requires Fades(s)
    ensures ParseLoop(t, InitialState(s)) == Some(InitialState([]))
  {
    hide SkipMisc, SkipSpace;
    var d := InitialState([]);
    assert ParseLoop(t, d) == Some(d);
    if s != [] {
      TokenFades(t, SkipSpace(s));
      LoopStep(t, InitialState(s), d.cursor, Nothing, d);
    }
  }

  lemma TokenFades(t: Tables, s: CString)
    requires SkipMisc(s).rest == []
    ensures GetNextToken(t, s).text == [] && GetNextToken(t, s).rest == []
  {
    hide SkipMisc;
  }

  lemma FoundOccurs(s: CString, key: CString)
    ensures Find(s, key) <= |s| && (Find(s, key) < |s| ==> Occurs(s, key, Find(s, key)))
  {
    hide Find;
    FindBound(s, key);
    var i := Find(s, key);
    if i < |s| {
      assert s[i..][..|key|] == s[i..i + |key|];
    }
  }

  lemma OpenFades(open: CString)
    requires open == [] || IsOpenInstruction(open)
    ensures SkipMisc(open).rest == [] && (SkipMisc(open).ok <==> open == []) && (open == [] || !IsSpace(open[0]))
  {
    hide Find, StartsWithNoCase, IsDeclaration;
    SkipNothing();
    if open != [] {
      DelimitersAgree();
      assert open[0] == open[0..2][0] && open[1] == open[0..2][1];
      DiffersAt(open, BEGIN_COMMENT, 1);
      if IsXmlDecl(open) {
        InAnyCase(open);
        assert false;
      }
      FoundOccurs(open, END_PI);
    }
  }

  lemma InAnyCase(s: CString)
    requires IsXmlDecl(s)
    ensures IsDeclaration(s)
  {
    DelimitersAgree();
    if StartsWithNoCase(s, XMLDECL) {
      NoCaseIs(s, XMLDECL);
    } else {
      NoCaseIs(s, XMLDECL2);
    }
  }

  lemma GapFades(g: Gap, open: CString)
    requires IsGap(g) && (open == [] || IsOpenInstruction(open))
    ensures Fades(GapText(g) + open)
  {
    hide SkipMisc, SkipSpace, AreMisc, IsBlank, IsOpenInstruction;
    var m := MiscText(g.misc) + open;
    OpenFades(open);
    Regroup(g.space, MiscText(g.misc), open);
    MiscStart(g.misc, open);
    AfterSpace(g.space, m);
    MiscsAreSkipped(g.misc, open);
  }

  lemma TypeFades(g: Gap, open: CString)
    requires IsGap(g) && (open == [] || (IsOpenInstruction(open) && g.space != []))
    ensures var r := SkipMisc(GapText(g) + open); r.ok && Fades(r.rest)
  {
    hide SkipMisc, SkipSpace, AreMisc, IsBlank, IsOpenInstruction;
    var m := MiscText(g.misc) + open;
    OpenFades(open);
    SkipNothing();
    Regroup(g.space, MiscText(g.misc), open);
    MiscStart(g.misc, open);
    MiscsAreSkipped(g.misc, open);
    if g.space == [] {
      assert [] + m == m;
    } else {
      BlankIsSpace(g.space);
      assert (g.space + m)[0] == g.space[0];
      NoMisc(g.space + m);
      AfterSpace(g.space, m);
      AfterSpace([], m);
      assert [] + m == m;
    }
  }

  /** A prolog, and nothing behind it */
  lemma PrologueFades(t: Tables, d: Document)
    requires IsDocument(t, d) && d.core.NoRoot? && d.marks == []
    ensures var r := SkipProlog(DocumentText(d)); r.ok && Fades(r.rest)
  {
    hide SkipProlog, DocumentText, AreParts, AreMisc, IsBlank, IsGap, MiscText, GapText, SkipDocType, SkipMisc, IsItem,
         IsXmlDeclaration, IsStop, StartsWith, TypeText, IsOpenInstruction, SkipSpace;
    var s := GapText(d.gap) + d.core.open;
    var next := (if d.doctype.Some? then TypeText(d.doctype.value) else []) + s;
    DocumentCut(d);
    NoMarks(d.gap, d.core.open);
    SkipNothing();
    if d.doctype.Some? {
      DocTypeIsSkipped(d.doctype.value, s);
      TypeFades(d.gap, d.core.open);
    } else {
      NoGap();
      assert next == [];
      NothingStarts();
    }
    PrologIsSkipped(d.space, d.decl, d.misc, next, if d.doctype.Some? then Skip(true, s) else Skip(true, next));
  }

  lemma NothingStarts()
    ensures !StartsWith([], BEGIN_DOCTYPE) && !StartsWith([], XMLDECL)
  {
  }

  lemma ParseRootless(t: Tables, d: Document)
    requires IsDocument(t, d) && d.core.NoRoot?
    ensures ParseDocument(t, DocumentText(d)) == Some(InitialState([]))
  {
    hide ParseLoop, SkipProlog, DocumentText, AreParts, AreMisc, IsBlank, IsGap, GapText, IsXmlDeclaration, LeadTail,
         IsOpenInstruction, IsItem, Fades, IsTagStart, LeadsTo;
    if d.marks == [] {
      PrologueFades(t, d);
      ParseFades(t, SkipProlog(DocumentText(d)).rest);
    } else {
      ProloguePassed(d, d.core.open);
      MarksArePassed(t, SkipProlog(DocumentText(d)).rest, d.marks, d.gap, d.core.open);
      GapFades(d.gap, d.core.open);
      ParseFades(t, GapText(d.gap) + d.core.open);
    }
  }

  // ---- Documents ----

  /** Where the root begins */
  lemma RootAhead(t: Tables, d: Document) returns (s: CString)
    requires IsDocument(t, d) && d.core.Root?
    ensures ParseDocument(t, DocumentText(d)) == ParseLoop(t, InitialState(s)) && LeadsTo(s, CoreText(d.core))
  {
    hide ParseLoop, SkipProlog, DocumentText, AreParts, AreMisc, IsBlank, IsGap, GapText, IsXmlDeclaration, LeadTail, ItemText,
         IsItem, IsTagStart, LeadsTo, IsStop, GetNextToken;
    var x := CoreText(d.core);
    ElementStarts(t, d.core.item, GapText(d.core.end));
    ProloguePassed(d, x);
    if d.marks == [] {
      s := SkipProlog(DocumentText(d)).rest;
      NoMarks(d.gap, x);
    } else {
      s := GapText(d.gap) + x;
      MarksArePassed(t, SkipProlog(DocumentText(d)).rest, d.marks, d.gap, x);
      AnyGapLeads(d.gap, x);
    }
  }

  lemma RootMeaning(t: Tables, core: Core)
    requires IsCore(t, core) && core.Root?
    ensures IsItem(t, core.item) && core.item.Elem? && CoreMeaning(t, core) == ItemMeaning(t, core.item) && IsGap(core.end)
    ensures CoreText(core) == ItemText(core.item) + GapText(core.end)
  {
    hide IsItem, ItemMeaning, ItemText, IsGap;
  }

  /** Whatever spelling of a document the parser is given, it accepts it, and builds exactly the nodes that the text stands
      for, with their tags in document order. */
  lemma ParseSpelled(t: Tables, text: CString, nodes: seq<Node>)
    requires SpellsNodes(t, text, nodes)
    ensures var r := ParseDocument(t, text);
      r.Some? && r.value.roots == nodes && r.value.tags == Walk(nodes)
  {
    hide ParseLoop, IsItem, ItemText, ItemMeaning, DocumentText, Walk, GapText, LeadsTo, ParseDocument, IsCore, CoreMeaning,
         CoreText;
    var d: Document :| IsDocument(t, d) && text == DocumentText(d) && nodes == CoreMeaning(t, d.core);
    if d.core.NoRoot? {
      ParseRootless(t, d);
      NoNodes(t, d.core);
    } else {
      RootMeaning(t, d.core);
      var end := d.core.end;
      var s := RootAhead(t, d);
      ParseRoot(t, s, d.core.item, GapText(end));
      var n := ItemMeaning(t, d.core.item)[0];
      var last :| ParseLoop(t, InitialState(s)) == ParseLoop(t, AfterRoot(n, GapText(end), last));
      GapUnfold(end);
      ParseTrailer(t, AfterRoot(n, GapText(end), last), end.space, end.misc);
      assert nodes == [n];
    }
  }

  lemma NoNodes(t: Tables, core: Core)
    requires IsCore(t, core) && core.NoRoot?
    ensures CoreMeaning(t, core) == [] && Walk([]) == []
  {
  }

  // ---- Texts that are no XML, and texts that are refused ----

  const NO_GAP := Gap([], [])

  lemma NoGapAtAll()
    ensures GapText(NO_GAP) == [] && IsTagGap(NO_GAP) && IsGap(NO_GAP) && AttrsText([]) == [] && IsBlank([]) && AreMisc([])
    ensures MiscText([]) == [] && MarksText([]) == [] && AreGaps([])
  {
  }

  function EmptyTag(name: seq<Piece>): Item {
    Elem(name, [], NO_GAP, Empty)
  }

  lemma EmptyTagText(t: Tables, name: seq<Piece>)
    requires IsNameSpelling(t, name) && ArePieces(name)
    ensures IsItem(t, EmptyTag(name)) && ItemText(EmptyTag(name)) == Octets("<") + RawText(name) + Octets("/>")
    ensures ItemMeaning(t, EmptyTag(name)) == [Element(TextOf(name), [], [])]
  {
    hide IsNameSpelling, RawText, TextOf, ArePieces;
    NoGapAtAll();
    NoAttrs();
    assert Octets("<") + RawText(name) + [] + [] == Octets("<") + RawText(name);
  }

  lemma OneItem(t: Tables, item: Item)
    requires IsItem(t, item)
    ensures AreItems(t, [item]) && ItemsText([item]) == ItemText(item) && Meaning(t, [item]) == ItemMeaning(t, item)
  {
    hide IsItem, ItemText, ItemMeaning;
    assert [item][1..] == [];
    NoItems(t);
  }

  function UnclosedTag(name: seq<Piece>, inner: seq<Piece>): Item {
    Elem(name, [], NO_GAP, Full(false, [EmptyTag(inner)], name, NO_GAP, NO_GAP))
  }

  lemma UnclosedTagText(t: Tables, name: seq<Piece>, inner: seq<Piece>)
    requires IsNameSpelling(t, name) && IsNameSpelling(t, inner) && ArePieces(name) && ArePieces(inner)
    ensures var e := UnclosedTag(name, inner);
      && IsItem(t, e)
      && ItemText(e) == Octets("<") + RawText(name) + (Octets("<") + RawText(inner) + Octets("/>"))
                        + (Octets("</") + RawText(name) + Octets(">"))
      && ItemMeaning(t, e) == [Element(TextOf(name), [], [Element(TextOf(inner), [], [])])]
  {
    hide IsNameSpelling, RawText, TextOf, ArePieces, ItemsText, AreItems, Meaning;
    NoGapAtAll();
    NoAttrs();
    EmptyTagText(t, inner);
    OneItem(t, EmptyTag(inner));
    assert Octets("<") + RawText(name) + [] + [] + [] == Octets("<") + RawText(name);
    assert Octets("</") + [] + RawText(name) + [] + Octets(">") == Octets("</") + RawText(name) + Octets(">");
  }

  /** An element alone is a document. */
  lemma ElementIsDocument(t: Tables, e: Item)
    requires IsItem(t, e) && e.Elem?
    ensures SpellsNodes(t, ItemText(e), ItemMeaning(t, e))
  {
    hide IsItem, ItemText, ItemMeaning, GapText, MiscText, MarksText, AreMisc, AreGaps, IsGap, IsBlank;
    var d := Document([], None, [], None, [], NO_GAP, Root(e, NO_GAP));
    NoGapAtAll();
    AllEmpty(ItemText(e));
    assert ([] + [NO_GAP])[0] == NO_GAP;
    assert IsDocument(t, d);
    assert DocumentText(d) == ItemText(e);
  }

  lemma AllEmpty(x: CString)
    ensures [] + [] + [] + [] + [] + [] + (x + []) == x
  {
  }

  /** A start tag without its ">" is accepted in front of another tag, although XML does not allow it. */
  lemma UnclosedTagIsRead(t: Tables, name: seq<Piece>, inner: seq<Piece>)
    requires IsNameSpelling(t, name) && IsNameSpelling(t, inner)
    ensures ArePieces(name) && ArePieces(inner)
    ensures var text := Octets("<") + RawText(name) + (Octets("<") + RawText(inner) + Octets("/>"))
                        + (Octets("</") + RawText(name) + Octets(">"));
      && ParseDocument(t, text).Some?
      && ParseDocument(t, text).value.roots == [Element(TextOf(name), [], [Element(TextOf(inner), [], [])])]
  {
    hide IsNameSpelling, RawText, TextOf, ArePieces, IsItem, ItemText, ItemMeaning, ParseDocument, SpellsNodes;
    NameIsPieces(t, name);
    NameIsPieces(t, inner);
    var e := UnclosedTag(name, inner);
    UnclosedTagText(t, name, inner);
    ElementIsDocument(t, e);
    ParseSpelled(t, ItemText(e), ItemMeaning(t, e));
  }

  /** The empty comment is refused, because of the "-" in front of its end, although XML allows it. */
  lemma EmptyCommentIsRefused(t: Tables, rest: CString)
    ensures ParseDocument(t, Octets("<!---->") + rest) == None
  {
    hide Find, ParseLoop, SkipSpace;
    DelimitersAgree();
    var c := Octets("<!---->");
    var s := c + rest;
    NoEarlierEnd(c);
    FindsEnd(c, END_COMMENT, rest);
    assert s[..4] == BEGIN_COMMENT;
    NoSpaceToSkip(s);
    DiffersAt(s, XMLDECL, 1);
    assert SkipComment(s) == Skip(false, s);
  }

  lemma NoEarlierEnd(c: CString)
    requires c == Octets("<!---->")
    ensures EndsWithFirst(c, Octets("-->"))
  {
    assert Octets("-->") == END_COMMENT;
    assert c[4..7] == END_COMMENT;
    forall k | 0 <= k < 4
      ensures !Occurs(c, END_COMMENT, k)
    {
      assert c[k..k + 3][0] == c[k] && c[k..k + 3][2] == c[k + 2];
    }
  }
}

/** The parser accepts nothing but the spellings of documents, so that together with module XmlSpelling the language that
    it accepts is known exactly. */
module XmlAccepted {
  import opened Options
  import opened Bytes
  import opened Utf8
  import opened Escape
  import opened Names
  import opened XmlTree
  import opened Parser
  import opened Spelling
  import opened XmlSyntax
  import opened ParserStates
  import opened XmlTokens
  import opened XmlTags
  import opened XmlSpelling
  import opened XmlOrigins

  // ---- Content ----

  /** A state inside an element, from which the rest of the text is accepted */
  predicate InContent(t: Tables, d: State) {
    d.open != [] && d.stack != [] && d.hasTop && d.cursor.mode == CONTENT && ParseLoop(t, d).Some?
  }

  /** Behind the white space there is a "<" that begins no CDATA section, comment or instruction. */
  predicate TagIsNext(s: CString) {
    var p := SkipSpace(s);
    p != [] && p[0] == LESSTHAN && !StartsWith(p, CDSTART) && !StartsWith(p, BEGIN_COMMENT) && !StartsWith(p, BEGIN_PI)
  }

  /** No text is accepted that ends inside an element. */
  lemma GoesOn(t: Tables, d: State)
    requires ParseLoop(t, d).Some? && d.stack != []
    ensures d.cursor.rest != []
  {
    hide ProcessContent, GetNextToken;
  }

  lemma ContentNode(t: Tables, d: State)
    requires InContent(t, d)
    ensures d.cursor.rest != [] && ProcessContent(d.cursor).Got? && SkipSpace(d.cursor.rest) != []
    ensures GetNextNode(t, d.cursor, d.stack == []) == ProcessContent(d.cursor)
    ensures var n := ProcessContent(d.cursor); OnEvent(d.(cursor := n.cursor), n.event).Some?
    ensures Step(t, d).Some? && ParseLoop(t, d) == ParseLoop(t, Step(t, d).value)
  {
    hide ParseLoop, SkipSpace;
    GoesOn(t, d);
    LoopGoesOn(t, d);
    if SkipSpace(d.cursor.rest) == [] {
      GoesOn(t, Step(t, d).value);
      assert false;
    }
  }

  // ---- Leaves ----

  lemma {:induction false} SectionTextOf(s: CString)
    ensures CDataLength(s) <= |s|
    ensures forall k :: 0 <= k < CDataLength(s) ==> s[k] < 0x80 && IsChar(s[k]) && !StartsWith(s[k..], CDEND)
    ensures CDataLength(s) < |s| ==>
      s[CDataLength(s)] >= 0x80 || !IsChar(s[CDataLength(s)]) || StartsWith(s[CDataLength(s)..], CDEND)
  {
    hide StartsWith;
    assert s[0..] == s;
    if !(s == [] || s[0] > 0x7F || !IsXmlChar(s[0]) || StartsWith(s, CDEND)) {
      SectionTextOf(s[1..]);
      var n := CDataLength(s[1..]);
      assert forall k :: 0 <= k <= |s[1..]| ==> s[1..][k..] == s[k + 1..];
      forall k | 1 <= k <= n
        ensures s[k] < 0x80 && IsChar(s[k]) && !StartsWith(s[k..], CDEND)
      {
        assert s[1..][k - 1..] == s[k..];
      }
    }
  }

  /** A CDATA section that is accepted is one. */
  lemma SectionOf(p: CString, c: Cursor) returns (text: CString, stop: CString, next: CString)
    requires StartsWith(p, CDSTART) && ProcessCData(p, c).Got?
    ensures IsSectionText(text) && IsSectionEnd(stop) && p == Octets("<![CDATA[") + text + stop + next
  {
    hide CDataLength;
    DelimitersAgree();
    var q := p[|CDSTART|..];
    var n := CDataLength(q);
    SectionTextOf(q);
    text, stop, next := q[..n], q[n..n + 3], q[n + 3..];
    assert p == CDSTART + q && q == text + stop + next;
    assert CDSTART + (text + stop + next) == CDSTART + text + stop + next;
    assert q[n..][..3] == stop;
    forall k | 0 <= k < n
      ensures !Occurs(text, CDEND, k)
    {
      OccursInFront(q, n, CDEND, k);
    }
  }

  lemma {:induction false} CharsEndOf(s: CString)
    ensures TextLength(s) <= |s|
    ensures forall k :: 0 <= k < TextLength(s) ==> s[k] != LESSTHAN && !StartsWith(s[k..], CDEND)
    ensures TextLength(s) < |s| ==> s[TextLength(s)] == LESSTHAN || StartsWith(s[TextLength(s)..], CDEND)
  {
    hide StartsWith;
    assert s[0..] == s;
    if !(s == [] || s[0] == LESSTHAN || StartsWith(s, CDEND)) {
      CharsEndOf(s[1..]);
      var n := TextLength(s[1..]);
      assert forall k :: 0 <= k <= |s[1..]| ==> s[1..][k..] == s[k + 1..];
      forall k | 1 <= k <= n
        ensures s[k] != LESSTHAN && !StartsWith(s[k..], CDEND)
      {
        assert s[1..][k - 1..] == s[k..];
      }
    }
  }

  lemma AllBlank(v: CString, next: CString)
    requires IsBlank(v) && (next == [] || next[0] == LESSTHAN)
    ensures SkipSpace(v + next) == next
  {
    AfterSpace(v, next);
  }

  /** Character data that is accepted */
  lemma CharsOf(s: CString) returns (pieces: seq<Piece>, next: CString)
    requires s != [] && SkipSpace(s) != [] && SkipSpace(s)[0] != LESSTHAN
    requires TextLength(s) <= |s| && !StartsWith(s[TextLength(s)..], CDEND) && CopyToken(s, TextLength(s)).Some?
    ensures AreChars(pieces) && !IsBlank(RawText(pieces)) && s == RawText(pieces) + next
    ensures next == s[TextLength(s)..] && (next == [] || next[0] == LESSTHAN) && |next| < |s|
  {
    hide TextLength, SkipSpace, CopyLoop, ArePieces, RawText, TextOf, StartsWith;
    DelimitersAgree();
    CharsEndOf(s);
    var n := TextLength(s);
    pieces := TextIsSpelled(s, n);
    next := s[n..];
    assert s == s[..n] + s[n..];
    forall k | 0 <= k < n
      ensures !Occurs(s[..n], CDEND, k)
    {
      OccursInFront(s, n, CDEND, k);
    }
    if IsBlank(s[..n]) {
      AllBlank(s[..n], next);
      assert false;
    }
    NoRawText();
  }

  lemma NoRawText()
    ensures RawText([]) == []
  {
  }

  /** What is in front of `next` in content, where it is no tag */
  ghost predicate IsLeafAhead(t: Tables, s: CString, w: CString, item: Item, next: CString) {
    && IsBlank(w) && IsItem(t, item) && !item.Elem? && s == w + (ItemText(item) + next) && |next| < |s|
    && (item.Chars? ==> w == [] && !IsBlank(RawText(item.pieces)) && next != [] && next[0] == LESSTHAN)
  }

  lemma MarkedLeafOf(t: Tables, c: Cursor) returns (w: CString, item: Item, next: CString)
    requires var p := SkipSpace(c.rest);
      p != [] && p[0] == LESSTHAN && (StartsWith(p, CDSTART) || StartsWith(p, BEGIN_COMMENT) || StartsWith(p, BEGIN_PI))
    requires ProcessContent(c).Got?
    ensures IsLeafAhead(t, c.rest, w, item, next) && !item.Chars?
  {
    hide SkipSpace, StartsWith, ProcessCData, SkipComment, SkipPI, IsRemark, IsInstruction, IsSectionText;
    var p := SkipSpace(c.rest);
    w := SpaceOf(c.rest);
    SkipSpaceLength(c.rest);
    if StartsWith(p, CDSTART) {
      var text, stop;
      text, stop, next := SectionOf(p, c);
      item := Section(text, stop);
    } else if StartsWith(p, BEGIN_COMMENT) {
      var m := RemarkOf(p);
      item, next := Aside(m), SkipComment(p).rest;
    } else {
      var m := SkippedPI(p);
      item, next := Aside(m), p[|m|..];
    }
  }

  lemma SkippedPI(p: CString) returns (m: CString)
    requires StartsWith(p, BEGIN_PI) && SkipPI(p).ok
    ensures IsInstruction(m) && 2 < |m| <= |p| && p == m + p[|m|..]
  {
    hide Find, IsXmlDecl, IsInstruction;
    m := InstructionOf(p);
  }

  lemma CharsAhead(t: Tables, d: State) returns (item: Item, next: CString)
    requires InContent(t, d) && SkipSpace(d.cursor.rest) != [] && SkipSpace(d.cursor.rest)[0] != LESSTHAN
    ensures IsLeafAhead(t, d.cursor.rest, [], item, next)
  {
    hide ParseLoop, SkipSpace, StartsWith, GetNextNode, ProcessContent, AreChars, IsBlank, RawText, TextLength, CopyLoop;
    ContentNode(t, d);
    TextNodeOf(d.cursor);
    var pieces;
    pieces, next := CharsOf(d.cursor.rest);
    item := Chars(pieces);
    NoBlank();
    assert [] + (RawText(pieces) + next) == d.cursor.rest;
    TextKeeps(t, d, next);
    GoesOn(t, Step(t, d).value);
  }

  lemma TextKeeps(t: Tables, d: State, next: CString)
    requires d.open != [] && Step(t, d).Some?
    requires var n := GetNextNode(t, d.cursor, d.stack == []); n.Got? && n.cursor.rest == next && n.event.TextNode?
    ensures Step(t, d).value.cursor.rest == next && Step(t, d).value.stack == d.stack
  {
    hide GetNextNode;
  }

  /** Whatever is accepted in content and is no tag, is character data, a CDATA section, a comment or an instruction. */
  lemma LeafOf(t: Tables, d: State) returns (w: CString, item: Item, next: CString)
    requires InContent(t, d) && !TagIsNext(d.cursor.rest)
    ensures IsLeafAhead(t, d.cursor.rest, w, item, next)
  {
    hide ParseLoop, SkipSpace, StartsWith, GetNextNode, ProcessContent, IsLeafAhead;
    ContentNode(t, d);
    if SkipSpace(d.cursor.rest)[0] == LESSTHAN {
      w, item, next := MarkedLeafOf(t, d.cursor);
    } else {
      w := [];
      item, next := CharsAhead(t, d);
    }
  }

  lemma TextNodeOf(c: Cursor)
    requires SkipSpace(c.rest) != [] && SkipSpace(c.rest)[0] != LESSTHAN && ProcessContent(c).Got?
    ensures var s, n := c.rest, TextLength(c.rest);
      && n <= |s| && !StartsWith(s[n..], CDEND) && CopyToken(s, n).Some?
      && ProcessContent(c) == Got(c.(rest := s[n..]), TextNode(CopyToken(s, n).value))
  {
    hide SkipSpace, TextLength, StartsWith, CopyLoop;
    TextLengthBound(c.rest);
  }

  // ---- Tags in content ----

  /** Where a tag stands that the tokenizer can read */
  predicate IsTagAt(t: Tables, p: CString) {
    && IsStop(p) && IsTagStart(p)
    && (GetNextToken(t, p).text == STARTTAG || GetNextToken(t, p).text == ENDTAG)
  }

  /** A "<" where a token is expected begins a tag. */
  lemma TagOf(t: Tables, p: CString)
    requires p != [] && p[0] == LESSTHAN && GetNextToken(t, p).text != []
    requires !StartsWith(p, BEGIN_COMMENT) && !StartsWith(p, BEGIN_PI)
    ensures IsTagAt(t, p)
  {
    hide GetNextToken, SkipMisc, IsNameSpelling, TextOf, IsTagGap, Utf8ToInt, GapText, StartsWith;
    var g, ps := TokenOf(t, p);
    var k := GetNextToken(t, p);
    TokenAtOnce(t, p);
    assert k.start == p;
    if !IsMarkup(k.text[0]) {
      NameStart(t, ps, k.rest);
      assert false;
    }
  }

  lemma TokenAtOnce(t: Tables, p: CString)
    requires p != [] && !IsSpace(p[0]) && GetNextToken(t, p).text != []
    requires !StartsWith(p, BEGIN_COMMENT) && !StartsWith(p, BEGIN_PI)
    ensures GetNextToken(t, p).start == p
  {
    hide SkipMisc, TokenLength, CopyLoop, StartsWith;
    TokenParts(t, p);
    SkipMiscCases(p);
    NoSpaceToSkip(p);
    if IsXmlDecl(p) {
      assert false;
    }
  }

  lemma NodeIsToken(t: Tables, c: Cursor, top: bool)
    requires c.rest != [] && c.mode != CONTENT && GetNextNode(t, c, top).Got?
    ensures var k := GetNextToken(t, SkipSpace(c.rest)); k.text != [] || (top && k.rest == [])
  {
    hide GetNextToken, SkipSpace, ProcessETag, ProcessSTag, ProcessAttribute;
  }

  /** A tag in content, behind white space */
  lemma TagIsAhead(t: Tables, d: State) returns (w: CString, p: CString)
    requires InContent(t, d) && TagIsNext(d.cursor.rest)
    ensures IsBlank(w) && d.cursor.rest == w + p && IsTagAt(t, p)
    ensures var d1 := d.(cursor := d.cursor.(rest := p, mode := ELEMENT)); ParseLoop(t, d) == ParseLoop(t, d1)
  {
    hide ParseLoop, SkipSpace, StartsWith, GetNextNode, IsTagAt, GetNextToken;
    ContentNode(t, d);
    w := SpaceOf(d.cursor.rest);
    p := SkipSpace(d.cursor.rest);
    var d1 := d.(cursor := d.cursor.(rest := p, mode := ELEMENT));
    TagNode(d.cursor);
    LoopStep(t, d, d1.cursor, Nothing, d1);
    LoopGoesOn(t, d1);
    NodeIsToken(t, d1.cursor, false);
    NoSpaceToSkip(p);
    TagOf(t, p);
  }

  lemma TagNode(c: Cursor)
    requires TagIsNext(c.rest)
    ensures ProcessContent(c) == Got(c.(rest := SkipSpace(c.rest), mode := ELEMENT), Nothing)
  {
    hide SkipSpace, StartsWith;
  }

  // ---- Items ----

  /** White space in front of markup is character data, too. */
  function BlankItems(w: CString): seq<Item> {
    if w == [] then [] else [Chars(seq(|w|, k requires 0 <= k < |w| => Plain([w[k]])))]
  }

  lemma {:induction false} RawOfPlain(ps: seq<Piece>, w: CString)
    requires |ps| == |w| && forall k :: 0 <= k < |w| ==> ps[k] == Plain([w[k]])
    ensures RawText(ps) == w
    decreases |w|
  {
    if w != [] {
      RawOfPlain(ps[1..], w[1..]);
      assert w == [w[0]] + w[1..];
    }
  }

  lemma BlankPieces(w: CString) returns (ps: seq<Piece>)
    requires IsBlank(w)
    ensures ArePieces(ps) && RawText(ps) == w && (w != [] ==> BlankItems(w) == [Chars(ps)])
  {
    hide IsSequence, Bits;
    ps := seq(|w|, k requires 0 <= k < |w| => Plain([w[k]]));
    RawOfPlain(ps, w);
    forall k | 0 <= k < |w|
      ensures IsPiece(ps[k])
    {
      assert w[k] in {0x20, 0x9, 0xD, 0xA};
      AsciiBits(w[k]);
    }
  }

  lemma BlankIsChars(ps: seq<Piece>, w: CString)
    requires IsBlank(w) && w != [] && ArePieces(ps) && RawText(ps) == w
    ensures AreChars(ps)
  {
    hide ArePieces, RawText;
    DelimitersAgree();
    NoRawText();
    forall k | 0 <= k < |w|
      ensures w[k] != LESSTHAN && !Occurs(w, CDEND, k)
    {
      if k + 3 <= |w| {
        assert w[k..k + 3][0] == w[k];
      }
    }
  }

  lemma BlankIsItems(t: Tables, w: CString)
    requires IsBlank(w)
    ensures AreItems(t, BlankItems(w)) && ItemsText(BlankItems(w)) == w && (w != [] ==> |BlankItems(w)| == 1)
    ensures w != [] ==> IsItem(t, BlankItems(w)[0]) && ItemText(BlankItems(w)[0]) == w
  {
    hide AreChars, RawText, BlankItems, AreItems, ItemsText, Meaning;
    if w == [] {
      NoItems(t);
      NoBlankItems();
    } else {
      var ps := BlankPieces(w);
      BlankIsChars(ps, w);
      OneItem(t, Chars(ps));
    }
  }

  lemma NoBlankItems()
    ensures BlankItems([]) == []
  {
  }

  lemma AsciiBits(b: Byte)
    requires b < 0x80
    ensures IsSequence([b]) && Bits([b]) == b
  {
  }

  lemma PutItem(t: Tables, item: Item, items: seq<Item>)
    requires IsItem(t, item) && AreItems(t, items) && !(item.Chars? && items != [] && items[0].Chars?)
    ensures AreItems(t, [item] + items) && ItemsText([item] + items) == ItemText(item) + ItemsText(items)
  {
    hide IsItem, ItemText;
    assert ([item] + items)[0] == item && ([item] + items)[1..] == items;
  }

  lemma PutBlank(t: Tables, w: CString, items: seq<Item>) returns (more: seq<Item>)
    requires IsBlank(w) && AreItems(t, items) && (w != [] && items != [] ==> !items[0].Chars?)
    ensures AreItems(t, more) && ItemsText(more) == w + ItemsText(items)
  {
    hide IsItem, ItemText, AreItems, ItemsText;
    BlankIsItems(t, w);
    if w == [] {
      more := items;
    } else {
      PutItem(t, BlankItems(w)[0], items);
      more := [BlankItems(w)[0]] + items;
    }
  }

  /** Text that begins with character data does not begin with "<". */
  lemma CharsFirst(t: Tables, items: seq<Item>)
    requires AreItems(t, items) && items != [] && items[0].Chars?
    ensures ItemsText(items) != [] && ItemsText(items)[0] != LESSTHAN
  {
    hide IsSectionText, IsMisc, AreAttrs, AreItems, AreChars;
    FirstOf(t, items);
    CharsStart(items[0].pieces);
  }

  lemma CharsStart(pieces: seq<Piece>)
    requires AreChars(pieces)
    ensures RawText(pieces) != [] && RawText(pieces)[0] != LESSTHAN
  {
    hide Raw, IsPiece, CharOf;
    assert IsPiece(pieces[0]);
    PieceIsRead(pieces[0], []);
  }

  /** White space, an item and more items, in front of `p` */
  lemma PutTogether(t: Tables, s: CString, w: CString, item: Item, next: CString, items: seq<Item>, p: CString)
    returns (all: seq<Item>)
    requires IsBlank(w) && IsItem(t, item) && AreItems(t, items)
    requires s == w + (ItemText(item) + next) && next == ItemsText(items) + p
    requires item.Chars? ==> w == [] && next != [] && next[0] == LESSTHAN
    ensures AreItems(t, all) && s == ItemsText(all) + p
  {
    hide IsItem, ItemText, AreItems, ItemsText;
    if items != [] && items[0].Chars? {
      CharsFirst(t, items);
    }
    PutItem(t, item, items);
    all := PutBlank(t, w, [item] + items);
    Regroup(ItemText(item), ItemsText(items), p);
    Regroup(w, ItemText(item) + ItemsText(items), p);
  }

  // ---- Elements ----

  /** What stands between the start tag of an element and what follows it */
  datatype Rest = Rest(items: seq<Item>, name2: seq<Piece>, gap1: Gap, gap2: Gap, next: CString)

  /** Content and an end tag, which are the rest of an element with this name and these attributes */
  ghost predicate IsRest(t: Tables, s: CString, name: CString, attrs: seq<AttrSpelling>, marked: bool, r: Rest) {
    && (marked || CanBeMissing(attrs, r.items)) && AreItems(t, r.items)
    && IsNameSpelling(t, r.name2) && ArePieces(r.name2) && TextOf(r.name2) == name && IsTagGap(r.gap1) && IsGap(r.gap2)
    && s == ItemsText(r.items) + EndTail(r.name2, r.gap1, r.gap2, r.next) && |r.next| < |s|
  }

  /** An end tag behind content closes the element whose name is the last on the stack. */
  lemma RestOf(t: Tables, z: State, s: CString, name: CString, attrs: seq<AttrSpelling>, marked: bool, items: seq<Item>,
               p: CString)
    returns (r: Rest)
    requires ParseLoop(t, z).Some? && z.cursor.mode != CONTENT && LeadsTo(z.cursor.rest, p)
    requires IsTagAt(t, p) && GetNextToken(t, p).text == ENDTAG
    requires z.stack != [] && Last(z.stack) == name != [] && !IsMarkup(name[0])
    requires AreItems(t, items) && s == ItemsText(items) + p && (marked || CanBeMissing(attrs, items))
    ensures IsRest(t, s, name, attrs, marked, r) && r.items == items
  {
    hide ParseLoop, LeadsTo, AreItems, IsNameSpelling, ArePieces, TextOf, IsTagGap, IsGap, ItemsText, EndTail, GetNextToken,
         CanBeMissing, IsStop;
    var name2, gap1, gap2, next := EndTagOf(t, z, p);
    r := Rest(items, name2, gap1, gap2, next);
  }

  /** The state behind the content of an element */
  lemma BehindItems(t: Tables, d: State, items: seq<Item>, p: CString)
    requires InContent(t, d) && AreItems(t, items) && IsTagAt(t, p) && d.cursor.rest == ItemsText(items) + p
    ensures var z := AfterNodes(d, Meaning(t, items), p);
      && ParseLoop(t, z).Some? && z.cursor.mode != CONTENT && LeadsTo(z.cursor.rest, p) && z.stack == d.stack
  {
    hide ParseLoop, LeadsTo, AreItems, ItemsText, GetNextToken, Meaning, AfterNodes, IsStop;
    NoBlank();
    Regroup([], ItemsText(items), p);
    ParseItems(t, d, [], items, p);
    AfterNodesCursor(d, Meaning(t, items), p);
    AfterNodesStack(d, Meaning(t, items), p);
    StopLeads(p);
  }

  lemma AfterNodesStack(d: State, nodes: seq<Node>, rest: CString)
    requires d.open != []
    ensures AfterNodes(d, nodes, rest).stack == d.stack
  {
  }

  /** The content of an element up to its end tag */
  lemma {:induction false} ContentOf(t: Tables, d: State) returns (items: seq<Item>, p: CString)
    requires InContent(t, d)
    ensures AreItems(t, items) && d.cursor.rest == ItemsText(items) + p && IsTagAt(t, p) && GetNextToken(t, p).text == ENDTAG
    decreases |d.cursor.rest|, 2
  {
    hide ParseLoop, LeadsTo, AreItems, ItemsText, ItemText, ItemMeaning, IsItem, GetNextToken, IsStop, IsTagStart, TagIsNext,
         AfterSome;
    var s := d.cursor.rest;
    if !TagIsNext(s) {
      var w, item, next := LeafOf(t, d);
      ParseLeaf(t, d, w, item, next);
      var d1 := AfterSome(d, ItemMeaning(t, item), next);
      AfterSomeKeeps(d, ItemMeaning(t, item), next);
      var tl;
      tl, p := ContentOf(t, d1);
      items := PutTogether(t, s, w, item, next, tl, p);
    } else {
      var w, q := TagIsAhead(t, d);
      if GetNextToken(t, q).text == ENDTAG {
        p := q;
        NoItems(t);
        items := PutBlank(t, w, []);
        assert w + [] == w;
      } else {
        var d1 := d.(cursor := d.cursor.(rest := q, mode := ELEMENT));
        StopLeads(q);
        var e, next := ElementOf(t, d1, q);
        ParseElement(t, d1, e, next);
        var d2 := AfterSome(d1, ItemMeaning(t, e), next);
        AfterSomeKeeps(d1, ItemMeaning(t, e), next);
        var tl;
        tl, p := ContentOf(t, d2);
        items := PutTogether(t, s, w, e, next, tl, p);
      }
    }
  }

  /** The rest of an element behind its start tag */
  lemma {:induction false} BodyOf(t: Tables, o: State, name: CString, attrs: seq<AttrSpelling>, end: Gap, closing: Closing,
                                  s: CString)
    returns (r: Rest)
    requires ParseLoop(t, o).Some? && o.open != [] && o.stack != [] && o.hasTop && Last(o.stack) == name
    requires name != [] && !IsMarkup(name[0]) && IsTagGap(end) && Follows(t, attrs == [], closing, s) && !closing.EmptyMark?
    requires o.cursor == TagCursor(name, attrs == [], end, closing, s)
    ensures IsRest(t, s, name, attrs, closing.Mark?, r)
    decreases |s|, 3
  {
    hide ParseLoop, LeadsTo, AreItems, ItemsText, ItemText, ItemMeaning, Meaning, IsItem, GetNextToken, IsStop, IsTagStart,
         IsTagGap, GapText, IsRest, AfterNodes, AfterSome;
    if closing.Mark? {
      var items, p := ContentOf(t, o);
      BehindItems(t, o, items, p);
      r := RestOf(t, AfterNodes(o, Meaning(t, items), p), s, name, attrs, true, items, p);
    } else {
      FollowsAtOnce(t, s);
      GapLeads(end, s);
      if GetNextToken(t, s).text == ENDTAG {
        NoItems(t);
        assert [] + s == s;
        r := RestOf(t, o, s, name, attrs, false, [], s);
      } else {
        var e, next := ElementOf(t, o, s);
        ParseElement(t, o, e, next);
        var d := AfterSome(o, ItemMeaning(t, e), next);
        AfterSomeKeeps(o, ItemMeaning(t, e), next);
        var tl, p := ContentOf(t, d);
        BehindItems(t, d, tl, p);
        PutItem(t, e, tl);
        Regroup(ItemText(e), ItemsText(tl), p);
        r := RestOf(t, AfterNodes(d, Meaning(t, tl), p), s, name, attrs, false, [e] + tl, p);
      }
    }
  }

  lemma FollowsAtOnce(t: Tables, s: CString)
    requires IsStop(s) && (GetNextToken(t, s).text == ENDTAG || GetNextToken(t, s).text == STARTTAG)
    ensures IsTagAt(t, s)
  {
    hide GetNextToken, SkipMisc, IsNameSpelling, TextOf, IsTagGap, Utf8ToInt, GapText, IsStop;
    var _, _ := TokenOf(t, s);
    StopIsStart(t, s);
  }

  /** The element that begins with a start tag */
  lemma {:induction false} ElementOf(t: Tables, d: State, p: CString) returns (e: Item, rest: CString)
    requires ParseLoop(t, d).Some? && d.cursor.mode != CONTENT && LeadsTo(d.cursor.rest, p)
    requires IsTagAt(t, p) && GetNextToken(t, p).text == STARTTAG
    ensures IsItem(t, e) && e.Elem? && p == ItemText(e) + rest && |rest| < |p|
    decreases |p|, 1
  {
    hide ParseLoop, LeadsTo, ItemText, IsItem, GetNextToken, IsStop, IsTagStart, IsTagGap, IsRest, IsNameSpelling, AreAttrs,
         ArePieces, TextOf, TagTail, RawText, Follows, AttrsOf;
    var name, attrs, end, closing, r1 := StartTagOf(t, d, p);
    ParseStartTag(t, d, name, attrs, end, closing, r1);
    NameIsPieces(t, name);
    NameText(t, name);
    if closing.EmptyMark? {
      e, rest := Elem(name, attrs, end, Empty), r1;
      ElementCut(e, rest);
      EmptyIsItem(t, e);
    } else {
      var o := Opened(d, TextOf(name), AttrsOf(attrs), r1).(
        cursor := TagCursor(TextOf(name), attrs == [], end, closing, r1));
      var r := BodyOf(t, o, TextOf(name), attrs, end, closing, r1);
      e, rest := Elem(name, attrs, end, Full(closing.Mark?, r.items, r.name2, r.gap1, r.gap2)), r.next;
      FullIsItem(t, e, r1, r);
      ElementCut(e, rest);
    }
  }

  lemma EmptyIsItem(t: Tables, e: Item)
    requires e.Elem? && e.body.Empty? && IsNameSpelling(t, e.name) && AreAttrs(t, e.attrs) && IsTagGap(e.end)
    ensures IsItem(t, e)
  {
    hide IsNameSpelling, AreAttrs, IsTagGap;
  }

  lemma FullIsItem(t: Tables, e: Item, s: CString, r: Rest)
    requires e.Elem? && e.body.Full? && IsNameSpelling(t, e.name) && ArePieces(e.name) && AreAttrs(t, e.attrs)
    requires IsTagGap(e.end) && IsRest(t, s, TextOf(e.name), e.attrs, e.body.marked, r)
    requires e.body == Full(e.body.marked, r.items, r.name2, r.gap1, r.gap2)
    ensures IsItem(t, e) && BehindStart(e, r.next) == s && |r.next| < |s|
  {
    hide IsNameSpelling, AreAttrs, IsTagGap, IsGap, AreItems, ArePieces, TextOf, ItemsText, EndTail, CanBeMissing;
  }

  // ---- In front of the root ----

  lemma OccursIff(s: CString, key: CString, k: nat)
    requires k <= |s|
    ensures Occurs(s, key, k) <==> StartsWith(s[k..], key)
  {
    if k + |key| <= |s| {
      assert s[k..k + |key|] == s[k..][..|key|];
    }
  }

  lemma NeverFound(s: CString, key: CString)
    requires Find(s, key) == |s|
    ensures forall k :: 0 <= k < |s| ==> !Occurs(s, key, k)
  {
    hide Find, StartsWith, Occurs;
    FindBound(s, key);
    forall k | 0 <= k < |s|
      ensures !Occurs(s, key, k)
    {
      OccursIff(s, key, k);
    }
  }

  /** An instruction that is not closed */
  lemma OpenInstructionOf(s: CString)
    requires StartsWith(s, BEGIN_PI) && !IsXmlDecl(s) && Find(s, END_PI) == |s|
    ensures IsOpenInstruction(s)
  {
    hide Find, IsDeclaration, IsXmlDecl, Occurs;
    DelimitersAgree();
    NeverFound(s, END_PI);
    OccursIff(s, BEGIN_PI, 0);
    assert s[0..] == s;
    if IsDeclaration(s) {
      WholeIs(s);
      DeclarationInAnyCase(s, s);
      assert false;
    }
  }

  lemma WholeIs(s: CString)
    ensures s == s[..|s|]
  {
  }

  lemma SkipPISteps(s: CString)
    requires StartsWith(s, BEGIN_PI) && !IsXmlDecl(s) && !StartsWith(s, BEGIN_COMMENT)
    ensures if Find(s, END_PI) == |s| then SkipMisc(s) == Skip(false, [])
            else SkipString(s, END_PI).ok && SkipMisc(s) == SkipMisc(SkipSpace(SkipString(s, END_PI).rest))
  {
    hide Find, SkipMisc, StartsWith, IsXmlDecl;
    SkipMiscCases(s);
    SkipNothing();
  }

  lemma RemarkNotOpen(s: CString)
    requires StartsWith(s, BEGIN_COMMENT) && SkipMisc(s) == Skip(false, [])
    ensures SkipComment(s).ok && SkipMisc(s) == SkipMisc(SkipSpace(SkipComment(s).rest))
  {
    hide Find, SkipMisc;
    SkipMiscCases(s);
    assert s[0] == s[..4][0];
    NoSpaceToSkip(s);
  }

  /** The tokenizer gets to the end of the text and fails only at an instruction that is not closed. */
  lemma {:induction false} OpenOf(s: CString) returns (ms: seq<Spaced>, open: CString)
    requires SkipMisc(s) == Skip(false, []) && (s == [] || !IsSpace(s[0]))
    ensures AreMisc(ms) && s == MiscText(ms) + open && IsOpenInstruction(open)
    decreases |s|, 0
  {
    hide SkipMisc, SkipSpace, StartsWith, IsXmlDecl, Find, SkipComment, SkipString, IsOpenInstruction, IsInstruction, IsRemark;
    SkipMiscCases(s);
    NoSpaceIn(s);
    SkipNothing();
    if StartsWith(s, BEGIN_COMMENT) {
      RemarkNotOpen(s);
      var m := RemarkOf(s);
      ms, open := OpenBehind(s, m, SkipComment(s).rest);
    } else {
      assert s != [] by { NoStart(s); }
      SkipPISteps(s);
      FindBound(s, END_PI);
      if Find(s, END_PI) == |s| {
        OpenInstructionOf(s);
        ms, open := [], s;
        assert MiscText([]) == [] && [] + s == s;
      } else {
        var m := InstructionOf(s);
        ms, open := OpenBehind(s, m, s[|m|..]);
      }
    }
  }

  lemma NoStart(s: CString)
    requires StartsWith(s, BEGIN_PI)
    ensures s != []
  {
  }

  lemma {:induction false} OpenBehind(s: CString, m: CString, rest: CString) returns (ms: seq<Spaced>, open: CString)
    requires IsMisc(m) && s == m + rest && |rest| < |s| && SkipMisc(SkipSpace(rest)) == Skip(false, [])
    ensures AreMisc(ms) && s == MiscText(ms) + open && IsOpenInstruction(open)
    decreases |rest|, 1
  {
    hide SkipMisc, SkipSpace, IsMisc, IsOpenInstruction, IsBlank, MiscText, AreMisc;
    var w := SpaceOf(rest);
    SkipSpaceLength(rest);
    var tl;
    tl, open := OpenOf(SkipSpace(rest));
    ms := [Spaced(m, w)] + tl;
    MoreMisc(Spaced(m, w), tl);
    MiscTextOf(Spaced(m, w), tl);
    RegroupFour(m, w, MiscText(tl), open);
  }

  /** Text that fades is a gap, with an instruction behind it that is not closed, or with nothing. */
  lemma FadesOf(s: CString) returns (gap: Gap, open: CString)
    requires Fades(s)
    ensures IsGap(gap) && s == GapText(gap) + open && (open == [] || IsOpenInstruction(open))
  {
    hide SkipMisc, SkipSpace, IsOpenInstruction, AreMisc, IsBlank;
    if SkipMisc(SkipSpace(s)).ok {
      gap := GapOf(s);
      open := [];
    } else {
      var w := SpaceOf(s);
      var ms;
      ms, open := OpenOf(SkipSpace(s));
      gap := Gap(w, ms);
      Regroup(w, MiscText(ms), open);
    }
  }

  /** The tokens that are accepted where there is no root yet */
  lemma TopCases(t: Tables, s: CString, k: Token)
    requires s != [] && k == GetNextToken(t, SkipSpace(s)) && k.text != [] && Step(t, InitialState(s)).Some?
    ensures k.text[0] == GREATERTHAN || (k.text[0] == LESSTHAN && k.text != ENDTAG)
    ensures k.text[0] == GREATERTHAN ==> Step(t, InitialState(s)) == Some(InitialState(k.rest))
  {
    hide GetNextToken, SkipSpace, ProcessSTag, ProcessAttribute, ProcessContent;
  }

  lemma TokenAhead(t: Tables, s: CString)
    requires ParseLoop(t, InitialState(s)).Some? && !Fades(s)
    ensures s != [] && GetNextToken(t, SkipSpace(s)).text != [] && Step(t, InitialState(s)).Some?
    ensures ParseLoop(t, InitialState(s)) == ParseLoop(t, Step(t, InitialState(s)).value)
  {
    hide SkipMisc, SkipSpace, ParseLoop, Step, GetNextNode;
    SkipNothing();
    LoopGoesOn(t, InitialState(s));
    NodeIsToken(t, InitialState(s).cursor, true);
    NoTokenAhead(t, SkipSpace(s));
  }

  lemma NoTokenAhead(t: Tables, s: CString)
    ensures GetNextToken(t, s).text == [] ==> GetNextToken(t, s).rest == (if s == [] then [] else SkipMisc(s).rest)
  {
    hide SkipMisc, CopyLoop, TokenLength;
    if s != [] && SkipMisc(s).ok && GetNextToken(t, s).text == [] {
      var p := SkipMisc(s).rest;
      TokenLengthBound(t, p);
      TakenIsText(p, TokenLength(t, p));
    }
  }

  lemma TakenIsText(p: CString, n: nat)
    requires n <= |p| && TakeToken(p, n).text == []
    ensures TakeToken(p, n).rest == p
  {
    if n > 0 && CopyToken(p, n).Some? {
      CopyTokenNonEmpty(p, n);
      assert false;
    }
  }

  lemma PutMark(g: Gap, marks: seq<Gap>, gap: Gap, x: CString)
    ensures Lead([g] + marks, gap, x) == GapText(g) + ([GREATERTHAN] + Lead(marks, gap, x))
  {
    hide GapText, Lead;
    LeadCut([g] + marks, gap, x);
    assert ([g] + marks + [gap])[0] == g && ([g] + marks)[1..] == marks;
  }

  lemma GapsPut(g: Gap, marks: seq<Gap>)
    requires IsGap(g) && AreGaps(marks)
    ensures AreGaps([g] + marks)
  {
    hide IsGap;
  }

  /** What the parser accepts where there is no root yet */
  lemma {:induction false} LeadOf(t: Tables, s: CString) returns (marks: seq<Gap>, gap: Gap, x: CString)
    requires ParseLoop(t, InitialState(s)).Some?
    ensures AreGaps(marks) && IsGap(gap) && s == Lead(marks, gap, x)
    ensures x == [] || IsOpenInstruction(x) || (IsTagAt(t, x) && GetNextToken(t, x).text == STARTTAG)
    decreases |s|
  {
    hide SkipMisc, SkipSpace, ParseLoop, Step, IsOpenInstruction, IsTagAt, IsGap, GetNextToken, GapText, Lead, Fades,
         IsNameSpelling, TextOf, Utf8ToInt, IsStop, IsTagGap, InitialState;
    if Fades(s) {
      gap, x := FadesOf(s);
      marks := [];
      NoMarks(gap, x);
    } else {
      TokenAhead(t, s);
      var q := SkipSpace(s);
      var k := GetNextToken(t, q);
      TokenParts(t, q);
      var g := GapOf(s);
      var _, ps := TokenOf(t, q);
      TokenAdvances(t, q);
      SkipSpaceLength(s);
      TopCases(t, s, k);
      if k.text[0] == GREATERTHAN {
        marks, gap, x := LeadOf(t, k.rest);
        TagsAgree();
        PutMark(g, marks, gap, x);
        GapsPut(g, marks);
        marks := [g] + marks;
      } else {
        marks, gap, x := [], g, k.start;
        NoMarks(gap, x);
        FollowsAtOnce(t, x);
      }
    }
  }

  // ---- Behind the root ----

  lemma NoLeafOutside(d: State, e: Event)
    requires d.open == [] && OnEvent(d, e).Some?
    ensures !e.TextNode? && !e.CDataNode?
  {
  }

  lemma TagOutside(t: Tables, d: State)
    requires d.stack == [] && d.hasTop && d.cursor.mode == CONTENT && TagIsNext(d.cursor.rest)
    ensures ParseLoop(t, d) == None
  {
    hide ParseLoop, SkipSpace, StartsWith, GetNextNode, IsStop, GetNextToken, IsTagStart, LeadsTo, IsNameSpelling, TextOf,
         AreAttrs, Follows, EndTail, TagTail;
    if ParseLoop(t, d).Some? {
      SkipSpaceLength(d.cursor.rest);
      var p := SkipSpace(d.cursor.rest);
      var d1 := d.(cursor := d.cursor.(rest := p, mode := ELEMENT));
      LoopGoesOn(t, d);
      ContentIsRead(t, d.cursor, true);
      TagNode(d.cursor);
      LoopStep(t, d, d1.cursor, Nothing, d1);
      LoopGoesOn(t, d1);
      NodeIsToken(t, d1.cursor, true);
      NoSpaceToSkip(p);
      NoTokenAhead(t, p);
      StopHere(p);
      TagOf(t, p);
      StopLeads(p);
      if GetNextToken(t, p).text == ENDTAG {
        var _, _, _, _ := EndTagOf(t, d1, p);
      } else {
        var _, _, _, _, _ := StartTagOf(t, d1, p);
      }
    }
  }

  lemma ContentIsRead(t: Tables, c: Cursor, top: bool)
    requires c.rest != [] && c.mode == CONTENT
    ensures GetNextNode(t, c, top) == ProcessContent(c)
  {
    hide ProcessContent;
  }

  lemma StopHere(p: CString)
    requires p != [] && p[0] == LESSTHAN && !StartsWith(p, BEGIN_COMMENT) && !StartsWith(p, BEGIN_PI)
    ensures SkipMisc(p).rest == p || !SkipMisc(p).ok
    ensures SkipMisc(p).rest != []
  {
    hide SkipMisc, StartsWith;
    SkipMiscCases(p);
    NoSpaceToSkip(p);
  }

  /** Behind the root nothing is accepted but white space, comments and instructions. */
  lemma {:induction false} TrailerOf(t: Tables, d: State) returns (w: CString, ms: seq<Spaced>)
    requires d.stack == [] && d.open == [] && d.hasTop && d.cursor.mode == CONTENT && ParseLoop(t, d).Some?
    ensures IsBlank(w) && AreMisc(ms) && d.cursor.rest == w + MiscText(ms)
    decreases |d.cursor.rest|
  {
    hide ParseLoop, SkipSpace, StartsWith, GetNextNode, OnEvent, IsMisc, IsBlank, ProcessContent, Step, MiscText, AreMisc;
    var s, c := d.cursor.rest, d.cursor;
    w := SpaceOf(s);
    ms := [];
    NoMiscText();
    if SkipSpace(s) == [] {
    } else if TagIsNext(s) {
      TagOutside(t, d);
      assert false;
    } else {
      SkipsInText(s);
      LoopGoesOn(t, d);
      ContentIsRead(t, c, true);
      var item, next;
      w, item, next := AsideOf(t, d);
      ParseAside(t, d, w, item.misc, next);
      var w2, tl := TrailerOf(t, d.(cursor := c.(rest := next)));
      ms := [Spaced(item.misc, w2)] + tl;
      MoreMisc(Spaced(item.misc, w2), tl);
      MiscTextOf(Spaced(item.misc, w2), tl);
      Regroup(item.misc, w2, MiscText(tl));
    }
  }

  lemma SkipsInText(s: CString)
    requires SkipSpace(s) != []
    ensures s != []
  {
  }

  lemma AsideOf(t: Tables, d: State) returns (w: CString, item: Item, next: CString)
    requires d.open == [] && SkipSpace(d.cursor.rest) != [] && !TagIsNext(d.cursor.rest) && ProcessContent(d.cursor).Got?
    requires var n := ProcessContent(d.cursor); OnEvent(d.(cursor := n.cursor), n.event).Some?
    ensures IsBlank(w) && item.Aside? && IsMisc(item.misc) && d.cursor.rest == w + (item.misc + next)
    ensures |next| < |d.cursor.rest|
  {
    hide SkipSpace, StartsWith, ProcessContent, OnEvent, IsMisc, IsBlank;
    var n := ProcessContent(d.cursor);
    NoLeafOutside(d.(cursor := n.cursor), n.event);
    if SkipSpace(d.cursor.rest)[0] != LESSTHAN {
      TextNodeOf(d.cursor);
      assert false;
    }
    w, item, next := MarkedLeafOf(t, d.cursor);
    if item.Section? {
      SectionNode(d.cursor, w, item, next);
      assert false;
    }
  }

  lemma SectionNode(c: Cursor, w: CString, item: Item, next: CString)
    requires item.Section? && IsBlank(w) && c.rest == w + (ItemText(item) + next) && ProcessContent(c).Got?
    ensures ProcessContent(c).event.CDataNode?
  {
    hide SkipSpace, CDataLength;
    DelimitersAgree();
    var p := ItemText(item) + next;
    assert p == CDSTART + (item.text + item.stop + next);
    assert p[..|CDSTART|] == CDSTART && p[0] == LESSTHAN;
    AfterSpace(w, p);
  }

  // ---- The prolog ----

  lemma PutPart(part: TypePart, tl: seq<TypePart>)
    requires AreParts(tl)
    requires match part
             case Octet(b) => b !in {LESSTHAN, GREATERTHAN, QUOTE}
             case Quoted(text) => QUOTE !in text
             case Nested(inner) => AreParts(inner)
    ensures AreParts([part] + tl)
  {
    var parts := [part] + tl;
    assert parts[0] == part && forall k :: 0 <= k < |tl| ==> parts[k + 1] == tl[k];
  }

  /** What is skipped inside a document type declaration, up to the ">" that ends it */
  lemma {:induction false} InsideOf(s: CString, num: int) returns (parts: seq<TypePart>, rest: CString)
    requires num > 0 && SkipDocType(s, num).ok
    ensures AreParts(parts) && s == PartsText(parts) + ([GREATERTHAN] + rest)
    ensures SkipDocType(s, num) == SkipDocType(rest, num - 1) && |rest| < |s|
    decreases |s|
  {
    hide PartsText, AreParts, SkipDocType;
    DocTypeStep(s, num);
    var b := s[0];
    if b == GREATERTHAN {
      parts, rest := [], s[1..];
      NoParts();
      NonePart();
      assert s == [] + ([GREATERTHAN] + rest);
    } else {
      var part, tl;
      if b == LESSTHAN {
        var inner, more := InsideOf(s[1..], num + 1);
        part := Nested(inner);
        tl, rest := InsideOf(more, num);
        NestedCut(s, PartsText(inner), more, PartsText(tl), rest);
      } else if b == QUOTE {
        var text, more := StringOf(s[1..]);
        part := Quoted(text);
        tl, rest := InsideOf(more, num);
        QuotedCut(s, text, more, PartsText(tl), rest);
      } else {
        part := Octet(b);
        tl, rest := InsideOf(s[1..], num);
        Regroup([b], PartsText(tl), [GREATERTHAN] + rest);
        assert s == [b] + s[1..];
      }
      PartsUnfold(part, tl);
      PutPart(part, tl);
      parts := [part] + tl;
    }
  }

  lemma NestedCut(s: CString, inner: CString, more: CString, tl: CString, rest: CString)
    requires s != [] && s[0] == LESSTHAN && s[1..] == inner + ([GREATERTHAN] + more) && more == tl + ([GREATERTHAN] + rest)
    ensures s == [LESSTHAN] + inner + [GREATERTHAN] + tl + ([GREATERTHAN] + rest)
  {
    assert s == [LESSTHAN] + s[1..];
  }

  lemma QuotedCut(s: CString, text: CString, more: CString, tl: CString, rest: CString)
    requires s != [] && s[0] == QUOTE && s[1..] == text + ([QUOTE] + more) && more == tl + ([GREATERTHAN] + rest)
    ensures s == [QUOTE] + text + [QUOTE] + tl + ([GREATERTHAN] + rest)
  {
    assert s == [QUOTE] + s[1..];
  }

  lemma NonePart()
    ensures AreParts([])
  {
  }

  lemma DocTypeStep(s: CString, num: int)
    requires num > 0 && SkipDocType(s, num).ok
    ensures s != []
    ensures s[0] == LESSTHAN ==> SkipDocType(s, num) == SkipDocType(s[1..], num + 1)
    ensures s[0] == GREATERTHAN ==> SkipDocType(s, num) == SkipDocType(s[1..], num - 1)
    ensures s[0] == QUOTE ==>
      var i := Find(s[1..], [QUOTE]); i < |s[1..]| && SkipDocType(s, num) == SkipDocType(s[1..][i + 1..], num)
    ensures s[0] !in {LESSTHAN, GREATERTHAN, QUOTE} ==> SkipDocType(s, num) == SkipDocType(s[1..], num)
  {
    hide Find;
    if s != [] {
      FindBound(s[1..], [QUOTE]);
    }
  }

  /** The text up to the closing quote */
  lemma StringOf(s: CString) returns (text: CString, more: CString)
    requires Find(s, [QUOTE]) < |s|
    ensures QUOTE !in text && s == text + ([QUOTE] + more) && more == s[Find(s, [QUOTE]) + 1..]
  {
    hide Find;
    FindBound(s, [QUOTE]);
    var n := Find(s, [QUOTE]);
    text, more := s[..n], s[n + 1..];
    assert s[n..][..1][0] == s[n];
    forall k | 0 <= k < n
      ensures s[k] != QUOTE
    {
      assert !StartsWith(s[k..], [QUOTE]);
      assert s[k..][..1] == [s[k]];
    }
  }

  /** A document type declaration that is skipped is one. */
  lemma TypeOf(s: CString) returns (parts: seq<TypePart>, rest: CString)
    requires StartsWith(s, BEGIN_DOCTYPE) && SkipDocType(s[1..], 1).ok
    ensures AreParts(parts) && s == TypeText(parts) + rest && SkipDocType(s[1..], 1) == Skip(true, rest)
  {
    hide PartsText, AreParts, SkipDocType;
    DelimitersAgree();
    TagsAgree();
    var tl := s[9..];
    var name := BEGIN_DOCTYPE[1..];
    assert s == BEGIN_DOCTYPE + tl && s[1..] == name + tl;
    PlainOctetsSkipped(name, 1, tl);
    parts, rest := InsideOf(tl, 1);
    BracketsStep(rest, 1);
    Regroup(BEGIN_DOCTYPE + PartsText(parts), [GREATERTHAN], rest);
    Regroup(BEGIN_DOCTYPE, PartsText(parts), [GREATERTHAN] + rest);
  }

  /** An XML declaration that is skipped is one, with the white space behind it. */
  lemma DeclarationOf(s: CString) returns (decl: Spaced)
    requires StartsWith(s, XMLDECL) && SkipString(s, END_PI).ok
    ensures IsXmlDeclaration(decl.misc) && IsBlank(decl.space)
    ensures s == decl.misc + decl.space + SkipSpace(SkipString(s, END_PI).rest)
  {
    hide Find, SkipSpace, EndsWithFirst, StartsWith, IsBlank;
    DelimitersAgree();
    FindBound(s, END_PI);
    var n := Find(s, END_PI) + 2;
    StartsLong(s[n - 2..], END_PI);
    FoundIsEnd(s, END_PI, s[..n]);
    var w := SpaceOf(s[n..]);
    decl := Spaced(s[..n], w);
    DeclarationStarts(s, n);
    assert s[n - 2..][2..] == s[n..] && s == s[..n] + s[n..];
    Regroup(s[..n], w, SkipSpace(s[n..]));
  }

  /** "?>" is found behind the "<?xml ". */
  lemma DeclarationStarts(s: CString, n: nat)
    requires StartsWith(s, XMLDECL) && 2 <= n <= |s| && StartsWith(s[n - 2..], END_PI)
    ensures Occurs(s[..n], XMLDECL, 0)
  {
    assert s[n - 2..][..2][0] == s[n - 2] && s[n - 2..][..2][1] == s[n - 1];
    assert s[..6][1] == s[1] && s[..6][0] == s[0] && s[..6][2] == s[2] && s[..6][3] == s[3] && s[..6][4] == s[4]
        && s[..6][5] == s[5];
    assert n >= 6;
    assert s[..n][0..6] == s[..6];
  }

  /** The parts in front of the root, and what is left for the tokenizer */
  datatype Prologue = Prologue(space: CString, decl: Option<Spaced>, misc: seq<Spaced>, doctype: Option<seq<TypePart>>)

  predicate IsPrologue(p: Prologue) {
    && IsBlank(p.space) && AreMisc(p.misc) && (p.doctype.Some? ==> AreParts(p.doctype.value))
    && (p.decl.Some? ==> IsXmlDeclaration(p.decl.value.misc) && IsBlank(p.decl.value.space))
  }

  function PrologueText(p: Prologue, rest: CString): CString {
    p.space + ((if p.decl.Some? then p.decl.value.misc + p.decl.value.space else [])
               + (MiscText(p.misc) + ((if p.doctype.Some? then TypeText(p.doctype.value) else []) + rest)))
  }

  lemma PrologSteps(s: CString)
    requires SkipProlog(s).ok
    ensures var p := SkipSpace(s);
      var decl := StartsWith(p, XMLDECL);
      && (decl ==> SkipString(p, END_PI).ok)
      && var q := if decl then SkipSpace(SkipString(p, END_PI).rest) else p;
         && SkipMisc(q).ok
         && var y := SkipMisc(q).rest;
            if StartsWith(y, BEGIN_DOCTYPE) then
              SkipDocType(y[1..], 1).ok && SkipProlog(s) == SkipMisc(SkipDocType(y[1..], 1).rest)
            else SkipProlog(s) == SkipMisc(y)
  {
    hide SkipSpace, SkipMisc, StartsWith, SkipString, SkipDocType;
    NoStartNothing();
  }

  lemma NoStartNothing()
    ensures forall y: CString :: StartsWith(y, BEGIN_DOCTYPE) ==> y != []
  {
  }

  /** What `Parser_skipProlog` skips is a prolog. */
  lemma PrologueOf(s: CString) returns (p: Prologue, rest: CString)
    requires SkipProlog(s).ok
    ensures IsPrologue(p) && s == PrologueText(p, rest) && SkipProlog(s) == SkipMisc(rest)
    ensures p.doctype.None? ==> SkipProlog(s).rest == rest && (rest == [] || IsStop(rest))
  {
    hide SkipProlog, SkipSpace, SkipMisc, StartsWith, SkipString, SkipDocType, IsStop, AreMisc, IsXmlDeclaration, IsBlank, AreParts,
         TypeText, MiscText;
    PrologSteps(s);
    var w := SpaceOf(s);
    var a := SkipSpace(s);
    var decl := None;
    var q := a;
    if StartsWith(a, XMLDECL) {
      var d := DeclarationOf(a);
      decl := Some(d);
      q := SkipSpace(SkipString(a, END_PI).rest);
      SkipSpaceLength(SkipString(a, END_PI).rest);
    } else {
      assert [] + a == a;
    }
    var ms := MiscsOf(q);
    var y := SkipMisc(q).rest;
    SkipNothing();
    if y != [] {
      StopSkips(y);
    }
    if StartsWith(y, BEGIN_DOCTYPE) {
      var parts;
      parts, rest := TypeOf(y);
      p := Prologue(w, decl, ms, Some(parts));
    } else {
      rest := y;
      assert [] + y == y;
      p := Prologue(w, decl, ms, None);
    }
  }

  // ---- Documents ----

  lemma {:induction false} MiscTextSum(a: seq<Spaced>, b: seq<Spaced>)
    ensures MiscText(a + b) == MiscText(a) + MiscText(b)
    decreases |a|
  {
    if a == [] {
      assert a + b == b;
    } else {
      assert (a + b)[0] == a[0] && (a + b)[1..] == a[1..] + b;
      MiscTextSum(a[1..], b);
    }
  }

  /** A gap and another one without white space in front make one gap. */
  lemma JoinGaps(g: Gap, h: Gap)
    requires IsGap(g) && IsGap(h) && h.space == []
    ensures var j := Gap(g.space, g.misc + h.misc); IsGap(j) && GapText(j) == GapText(g) + GapText(h)
  {
    hide MiscText, IsMisc, IsBlank;
    MiscTextSum(g.misc, h.misc);
    Regroup(g.space, MiscText(g.misc), MiscText(h.misc));
    assert [] + MiscText(h.misc) == MiscText(h.misc);
  }

  lemma SpaceFirst(h: Gap, tl: CString)
    requires h.space != [] && IsBlank(h.space)
    ensures GapText(h) + tl != [] && IsSpace((GapText(h) + tl)[0])
  {
    hide MiscText;
    BlankIsSpace(h.space);
    assert (GapText(h) + tl)[0] == h.space[0];
  }

  lemma NoSpaceFirst(h: Gap, tl: CString, s: CString)
    requires s == GapText(h) + tl && IsGap(h) && (s == [] || !IsSpace(s[0]))
    ensures h.space == []
  {
    hide MiscText, AreMisc, IsBlank;
    if h.space != [] {
      SpaceFirst(h, tl);
    }
  }

  /** Where the skipping stops there is no gap. */
  lemma NothingLeft(h: Gap, tl: CString, s: CString)
    requires s == GapText(h) + tl && IsGap(h) && (s == [] || IsStop(s))
    ensures h == Gap([], [])
  {
    hide SkipMisc, SkipSpace, SkipComment, SkipString, IsRemark, IsInstruction, IsBlank, StartsWith, IsXmlDecl;
    NoSpaceFirst(h, tl, s);
    if h.misc != [] {
      var m, rest := h.misc[0].misc, h.misc[0].space + MiscText(h.misc[1..]) + tl;
      assert IsMisc(m);
      assert s == m + rest;
      MiscAhead(m, rest);
      SkipSpaceLength(rest);
      SkipMiscLength(SkipSpace(rest));
      assert false;
    }
  }

  lemma MiscAhead(m: CString, rest: CString)
    requires IsMisc(m)
    ensures m != [] && SkipMisc(m + rest) == SkipMisc(SkipSpace(rest))
  {
    hide SkipMisc, SkipSpace, IsRemark, IsInstruction, SkipComment, SkipString, StartsWith, IsXmlDecl;
    SkipMiscCases(m + rest);
    if IsRemark(m) {
      RemarkIsSkipped(m, rest);
      RemarkIsLong(m);
    } else {
      InstructionStarts(m, rest);
      NoDeclaration(m, rest);
      InstructionIsSkipped(m, rest);
    }
  }

  lemma RemarkIsLong(m: CString)
    requires IsRemark(m)
    ensures m != []
  {
  }

  /** The root, with what follows it, or no root */
  lemma CoreOf(t: Tables, s: CString, marks: seq<Gap>, gap: Gap, x: CString) returns (core: Core)
    requires ParseLoop(t, InitialState(s)).Some? && AreGaps(marks) && IsGap(gap) && s == Lead(marks, gap, x)
    requires x == [] || IsOpenInstruction(x) || (IsTagAt(t, x) && GetNextToken(t, x).text == STARTTAG)
    ensures IsCore(t, core) && CoreText(core) == x && (core.NoRoot? ==> core.open == x)
  {
    hide ParseLoop, IsOpenInstruction, IsTagAt, GetNextToken, IsGap, GapText, Lead, IsItem, ItemText, LeadsTo, ItemMeaning, IsBlank,
         AreMisc, MiscText, Walk;
    if x == [] || IsOpenInstruction(x) {
      core := NoRoot(x);
    } else {
      var r := GapText(gap) + x;
      RootIsNext(t, s, marks, gap, x);
      var e, rest := ElementOf(t, InitialState(r), x);
      ParseRoot(t, r, e, rest);
      var n := ItemMeaning(t, e)[0];
      var last :| ParseLoop(t, InitialState(r)) == ParseLoop(t, AfterRoot(n, rest, last));
      var w, ms := TrailerOf(t, AfterRoot(n, rest, last));
      GapUnfold(Gap(w, ms));
      assert IsGap(Gap(w, ms)) by { GapIs(w, ms); }
      core := Root(e, Gap(w, ms));
    }
  }

  lemma GapIs(w: CString, ms: seq<Spaced>)
    requires IsBlank(w) && AreMisc(ms)
    ensures IsGap(Gap(w, ms))
  {
  }

  lemma RootIsNext(t: Tables, s: CString, marks: seq<Gap>, gap: Gap, x: CString)
    requires ParseLoop(t, InitialState(s)).Some? && AreGaps(marks) && IsGap(gap) && s == Lead(marks, gap, x) && IsTagAt(t, x)
    ensures var r := GapText(gap) + x; ParseLoop(t, InitialState(r)).Some? && LeadsTo(r, x)
  {
    hide ParseLoop, GetNextToken, IsGap, GapText, Lead, LeadTail, LeadsTo, IsStop, IsTagStart;
    AnyGapLeads(gap, x);
    if marks == [] {
      NoMarks(gap, x);
    } else {
      LeadCut(marks, gap, x);
      LeadStops(marks, gap, x);
      AnyGapLeads(marks[0], LeadTail(marks, gap, x));
      MarksArePassed(t, s, marks, gap, x);
    }
  }

  /** What the prolog leaves, with the gap behind the document type declaration made part of it */
  lemma JoinLead(g2: Gap, s: CString, marks: seq<Gap>, gap: Gap, x: CString) returns (marks2: seq<Gap>, gap2: Gap)
    requires IsTagGap(g2) && AreGaps(marks) && IsGap(gap) && s == Lead(marks, gap, x)
    requires s != [] ==> !IsSpace(s[0]) && (g2.space == [] ==> IsStop(s))
    ensures AreGaps(marks2) && IsGap(gap2) && GapText(g2) + s == Lead(marks2, gap2, x) && (marks2 == [] <==> marks == [])
    ensures (marks2 + [gap2])[0].space == g2.space
    ensures g2.space == [] ==> (marks + [gap])[0] == Gap([], []) && (marks2 + [gap2])[0].misc == g2.misc
  {
    hide GapText, Lead, LeadTail, IsStop, AreMisc, IsBlank;
    var h, tl := (marks + [gap])[0], LeadTail(marks, gap, x);
    LeadCut(marks, gap, x);
    NoSpaceFirst(h, tl, s);
    JoinGaps(g2, h);
    Regroup(GapText(g2), GapText(h), tl);
    var j := Gap(g2.space, g2.misc + h.misc);
    marks2, gap2 := if marks == [] then [] else [j] + marks[1..], if marks == [] then j else gap;
    LeadCut(marks2, gap2, x);
    SameTail(j, marks, gap, marks2, gap2, x);
    if g2.space == [] {
      NothingLeft(h, tl, s);
      assert g2.misc + [] == g2.misc;
    }
  }

  lemma SameTail(j: Gap, marks: seq<Gap>, gap: Gap, marks2: seq<Gap>, gap2: Gap, x: CString)
    requires if marks == [] then marks2 == [] && gap2 == j else marks2 == [j] + marks[1..] && gap2 == gap
    ensures LeadTail(marks2, gap2, x) == LeadTail(marks, gap, x) && (marks2 + [gap2])[0] == j
  {
    hide Lead;
  }

  /** An instruction that is not closed stands behind a ">" or behind white space. */
  lemma OpenIsBehind(g2: Gap, s: CString, marks: seq<Gap>, gap: Gap, x: CString)
    requires s == Lead(marks, gap, x) && marks == [] && (s == [] || IsStop(s)) && gap == Gap([], [])
    ensures !IsOpenInstruction(x)
  {
    hide IsOpenInstruction, SkipMisc;
    NoMarks(gap, x);
    NoGap();
    assert [] + x == x;
    if IsOpenInstruction(x) {
      OpenFades(x);
      OpenIsText(x);
      assert false;
    }
  }

  lemma OpenIsText(x: CString)
    requires IsOpenInstruction(x)
    ensures x != []
  {
  }

  /** Every text that the parser accepts is the spelling of a document. */
  lemma AcceptedIsSpelled(t: Tables, text: CString) returns (d: Document)
    requires ParseDocument(t, text).Some?
    ensures IsDocument(t, d) && text == DocumentText(d)
  {
    hide ParseLoop, SkipProlog, IsOpenInstruction, IsTagAt, GetNextToken, IsGap, GapText, Lead, IsCore, CoreText, SkipMisc, IsStop,
         IsBlank, AreMisc, AreParts, IsXmlDeclaration, DocumentText, MiscText, TypeText;
    var p, rest := PrologueOf(text);
    var s := SkipProlog(text).rest;
    var marks, gap, x := LeadOf(t, s);
    var core := CoreOf(t, s, marks, gap, x);
    var g2 := TagGapBehind(p.doctype, rest, s);
    var marks2, gap2 := JoinLead(g2, s, marks, gap, x);
    d := Document(p.space, p.decl, p.misc, p.doctype, marks2, gap2, core);
    DocumentCut(d);
    if core.NoRoot? && x != [] && marks2 == [] && g2.space == [] {
      OpenIsBehind(g2, s, marks, gap, x);
      OpenIs(t, core);
      assert false;
    }
  }

  lemma OpenIs(t: Tables, core: Core)
    requires IsCore(t, core) && core.NoRoot? && core.open != []
    ensures IsOpenInstruction(core.open)
  {
  }

  lemma TagGapBehind(doctype: Option<seq<TypePart>>, rest: CString, s: CString) returns (g: Gap)
    requires SkipMisc(rest) == Skip(true, s)
    requires doctype.None? ==> s == rest && (rest == [] || IsStop(rest))
    ensures IsTagGap(g) && rest == GapText(g) + s && (doctype.None? ==> g == Gap([], []))
    ensures s != [] ==> !IsSpace(s[0]) && (g.space == [] ==> IsStop(s))
  {
    hide SkipMisc, IsStop, AreMisc, IsBlank, MiscText;
    if doctype.None? {
      g := Gap([], []);
      NoGap();
      NoBlank();
      NoMiscText();
      assert [] + s == s;
      if s != [] {
        StopIsNoSpace(s);
      }
    } else {
      g := TagGapOf(rest);
    }
  }

  /** The language of the parser: it accepts a text exactly if the text spells some nodes, and then these are the nodes that
      it builds; no text spells two different rows of nodes. */
  lemma AcceptedIffSpelled(t: Tables, text: CString, nodes: seq<Node>)
    ensures SpellsNodes(t, text, nodes) <==> ParseDocument(t, text).Some? && ParseDocument(t, text).value.roots == nodes
  {
    hide ParseDocument, IsDocument, DocumentText, CoreMeaning;
    if SpellsNodes(t, text, nodes) {
      ParseSpelled(t, text, nodes);
    }
    if ParseDocument(t, text).Some? {
      var d := AcceptedIsSpelled(t, text);
      DocumentIsCore(t, d);
      assert SpellsNodes(t, text, CoreMeaning(t, d.core));
      ParseSpelled(t, text, CoreMeaning(t, d.core));
    }
  }

  lemma DocumentIsCore(t: Tables, d: Document)
    requires IsDocument(t, d)
    ensures IsCore(t, d.core)
  {
  }
}

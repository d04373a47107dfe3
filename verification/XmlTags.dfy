/** Start tags, attributes and end tags in every spelling, as the parser reads them node by node. */
module XmlTags {
  import opened Options
  import opened Bytes
  import opened Utf8
  import opened Escape
  import opened Names
  import opened XmlTree
  import opened Parser
  import opened Spelling
  import opened XmlSyntax
  import opened XmlTokens

  /** The end of a start tag: ">", or "/>", or nothing */
  datatype Closing = Mark | EmptyMark | Missing

  function CloseText(closing: Closing): CString {
    match closing
    case Mark => TAGEND
    case EmptyMark => COMPLETETAG
    case Missing => []
  }

  /** Behind a start tag without ">" there is an end tag, or another start tag if there are no attributes. */
  predicate Follows(t: Tables, bare: bool, closing: Closing, rest: CString) {
    closing.Missing? ==>
      && IsStop(rest) && IsMarkup(rest[0])
      && (GetNextToken(t, rest).text == ENDTAG || (bare && GetNextToken(t, rest).text == STARTTAG))
  }

  /** What is left of a start tag in front of `attrs`, and `rest` behind it */
  function TagTail(attrs: seq<AttrSpelling>, end: Gap, closing: Closing, rest: CString): CString {
    AttrsText(attrs) + (GapText(end) + (CloseText(closing) + rest))
  }

  lemma CloseIsStop(t: Tables, bare: bool, closing: Closing, rest: CString)
    requires Follows(t, bare, closing, rest)
    ensures IsStop(CloseText(closing) + rest) && IsMarkup((CloseText(closing) + rest)[0])
  {
    hide GetNextToken;
    if closing.Missing? {
      assert CloseText(closing) + rest == rest;
    } else {
      PlainIsStop(CloseText(closing) + rest);
    }
  }

  lemma RegroupAttr(g: CString, n: CString, b: CString, a: CString, q: CString, v: CString, x: CString, rest: CString)
    ensures g + n + b + Octets("=") + a + q + v + q + x + rest
         == g + (n + (b + ([EQUALS] + (a + (q + (v + (q + (x + rest))))))))
  {
    TagsAgree();
    var r1 := q + (x + rest);
    assert v + q + x + rest == v + r1;
    var r2 := q + (v + r1);
    assert q + v + q + x + rest == r2;
    var r3 := [EQUALS] + (a + r2);
    assert Octets("=") + a + q + v + q + x + rest == r3;
    assert g + n + b + Octets("=") + a + q + v + q + x + rest
        == g + n + b + (Octets("=") + a + q + v + q + x + rest);
  }

  /** What stands behind the name of an attribute */
  function ValueTail(a: AttrSpelling, more: CString): CString {
    GapText(a.before) + ([EQUALS] + (GapText(a.after) + ([a.quote] + (RawText(a.value) + ([a.quote] + more)))))
  }

  lemma TagTailUnfold(a: AttrSpelling, tl: seq<AttrSpelling>, end: Gap, closing: Closing, rest: CString)
    ensures TagTail([a] + tl, end, closing, rest)
         == GapText(a.gap) + (RawText(a.name) + ValueTail(a, TagTail(tl, end, closing, rest)))
  {
    var attrs, r := [a] + tl, GapText(end) + (CloseText(closing) + rest);
    assert attrs[0] == a && attrs[1..] == tl;
    RegroupAttr(GapText(a.gap), RawText(a.name), GapText(a.before), GapText(a.after), [a.quote], RawText(a.value), AttrsText(tl),
                r);
    assert AttrText(a) + AttrsText(tl) + r
        == GapText(a.gap) + RawText(a.name) + GapText(a.before) + Octets("=") + GapText(a.after) + [a.quote] + RawText(a.value)
           + [a.quote] + AttrsText(tl) + r;
  }

  /** The first octet of a gap, or of what follows it */
  lemma GapStart(g: Gap, p: CString)
    requires IsGap(g) && p != []
    ensures var s := GapText(g) + p; s != [] && (if GapText(g) == [] then s[0] == p[0] else IsMarkup(s[0]))
  {
    hide AreMisc;
    if g.space != [] {
      BlankIsSpace(g.space);
      assert (GapText(g) + p)[0] == g.space[0];
    } else if g.misc != [] {
      MiscStart(g.misc, []);
      assert (GapText(g) + p)[0] == MiscText(g.misc)[0];
    }
  }

  lemma ValueTailStart(a: AttrSpelling, more: CString)
    requires IsGap(a.before)
    ensures ValueTail(a, more) != [] && IsMarkup(ValueTail(a, more)[0])
  {
    GapStart(a.before, [EQUALS] + (GapText(a.after) + ([a.quote] + (RawText(a.value) + ([a.quote] + more)))));
  }

  lemma EqualsIsStop(b: Byte, rest: CString)
    requires b in {QUOTE, SINGLEQUOTE, EQUALS, GREATERTHAN}
    ensures IsStop([b] + rest)
  {
    PlainIsStop([b] + rest);
  }

  /** The token at the end of a start tag */
  function CloseToken(t: Tables, closing: Closing, rest: CString): Token {
    if closing.Missing? then GetNextToken(t, rest) else Token(CloseText(closing), CloseText(closing) + rest, rest)
  }

  /** The token read ahead behind a name or a value: the end of the tag, or the name of the next attribute */
  lemma LookAhead(t: Tables, attrs: seq<AttrSpelling>, bare: bool, end: Gap, closing: Closing, rest: CString)
    requires (forall k :: 0 <= k < |attrs| ==> IsAttr(t, attrs[k])) && IsTagGap(end) && Follows(t, bare, closing, rest)
    ensures var s := TagTail(attrs, end, closing, rest);
      var k := GetNextToken(t, s);
      && s != []
      && if attrs == [] then k == CloseToken(t, closing, rest)
         else ArePieces(attrs[0].name) && k.text == TextOf(attrs[0].name) && k.text != [] && !IsMarkup(k.text[0])
  {
    hide GetNextToken, SkipMisc, IsStop, IsTagGap, IsNameSpelling, ArePieces, TagTail, ValueTail, Follows, CloseToken,
         TextOf;
    if attrs == [] {
      TailOfNone(end, closing, rest);
      CloseIsStop(t, bare, closing, rest);
      TagGapIsSkipped(end, CloseText(closing) + rest);
      CloseRead(t, GapText(end) + (CloseText(closing) + rest), bare, closing, rest);
    } else {
      var a, tl := attrs[0], attrs[1..];
      assert attrs == [a] + tl && IsAttr(t, a);
      TagTailUnfold(a, tl, end, closing, rest);
      NameAhead(t, a, ValueTail(a, TagTail(tl, end, closing, rest)), TagTail(tl, end, closing, rest));
    }
  }

  lemma TailOfNone(end: Gap, closing: Closing, rest: CString)
    ensures TagTail([], end, closing, rest) == GapText(end) + (CloseText(closing) + rest)
  {
  }

  lemma CloseRead(t: Tables, s: CString, bare: bool, closing: Closing, rest: CString)
    requires s != [] && SkipMisc(s) == Skip(true, CloseText(closing) + rest) && Follows(t, bare, closing, rest)
    ensures GetNextToken(t, s) == CloseToken(t, closing, rest)
  {
    hide GetNextToken, SkipMisc, IsStop;
    match closing
    case Mark => SymbolRead(t, s, GREATERTHAN, rest);
    case EmptyMark =>
      EmptyEndToken(t, rest);
      SameToken(t, s, COMPLETETAG + rest);
    case Missing =>
      assert CloseText(closing) + rest == rest;
      SameToken(t, s, rest);
  }

  lemma NameIsSpelled(t: Tables, a: AttrSpelling)
    requires IsAttr(t, a)
    ensures IsNameSpelling(t, a.name) && ArePieces(a.name) && ArePieces(a.value)
  {
  }

  /** The name of an attribute behind its gap, with and without skipping white space first */
  lemma NameAhead(t: Tables, a: AttrSpelling, r: CString, more: CString)
    requires IsAttr(t, a) && r == ValueTail(a, more)
    ensures var s := GapText(a.gap) + (RawText(a.name) + r);
      && s != [] && ArePieces(a.name)
      && GetNextToken(t, s) == GetNextToken(t, SkipSpace(s)) == Token(TextOf(a.name), RawText(a.name) + r, r)
    ensures TextOf(a.name) != [] && !IsMarkup(TextOf(a.name)[0])
  {
    hide GetNextToken, SkipMisc, IsNameSpelling, ArePieces, ValueTail, SkipSpace, GapText, TextOf, RawText;
    NameIsSpelled(t, a);
    ValueTailStart(a, more);
    NameText(t, a.name);
    NameStart(t, a.name, r);
    PlainIsStop(RawText(a.name) + r);
    TagGapIsSkipped(a.gap, RawText(a.name) + r);
    var s := GapText(a.gap) + (RawText(a.name) + r);
    NameRead(t, s, a.name, r);
    NotEmptied(s, RawText(a.name) + r);
    NameRead(t, SkipSpace(s), a.name, r);
  }

  /** From `s` the parser gets to `x` by skipping white space first. */
  predicate LeadsTo(s: CString, x: CString) {
    SkipSpace(s) != [] && SkipMisc(SkipSpace(s)) == Skip(true, x)
  }

  lemma NotEmptied(s: CString, p: CString)
    requires SkipMisc(SkipSpace(s)) == Skip(true, p) && p != []
    ensures SkipSpace(s) != []
  {
  }

  lemma {:induction false} NoLess(s: CString)
    requires forall k :: 0 <= k < |s| ==> s[k] != LESSTHAN
    ensures !HasIllegalLess(s)
    decreases |s|
  {
    if s != [] {
      NoLess(if s[0] == AMPERSAND && |s| > 1 then s[2..] else s[1..]);
    }
  }

  /** A value ends at the first quote of its kind. */
  lemma ValueEnds(v: CString, q: Byte, rest: CString)
    requires forall k :: 0 <= k < |v| ==> v[k] != q
    ensures Find(v + ([q] + rest), [q]) == |v|
  {
    hide Find;
    var s := v + ([q] + rest);
    assert s[|v|..][..1] == [q];
    forall j | 0 <= j < |v|
      ensures !StartsWith(s[j..], [q])
    {
      assert s[j..][..1][0] == v[j];
    }
    FindIs(s, [q], |v|);
  }

  /** The text between two quotes is read as what it spells. */
  lemma ValueRead(v: seq<Piece>, q: Byte, more: CString)
    requires ArePieces(v)
    ensures var raw := RawText(v);
      (if raw == [] then Some([]) else CopyToken(raw + ([q] + more), |raw|)) == Some(TextOf(v))
  {
    hide CopyLoop, ArePieces, CharOf, GetChar;
    PiecesAreCopied(v, [q] + more);
    if RawText(v) == [] {
      CopyNothing([q] + more);
      assert RawText(v) + ([q] + more) == [q] + more;
    }
  }

  /** An attribute is read with the text that its value spells, and the token behind it decides what comes next. */
  lemma AttributeParsed(t: Tables, a: AttrSpelling, c: Cursor, more: CString)
    requires IsAttr(t, a) && c.rest == ValueTail(a, more)
    requires GetNextToken(t, more).text != [] && GetNextToken(t, more).text != STARTTAG
    ensures var k := GetNextToken(t, more);
      && ArePieces(a.name) && ArePieces(a.value)
      && ProcessAttribute(t, TextOf(a.name), c)
         == Got(if k.text == TAGEND then c.(rest := k.rest, mode := CONTENT) else c.(rest := Backup(more, k)),
                AttributeNode(TextOf(a.name), TextOf(a.value)))
  {
    hide GetNextToken, CopyLoop, Find, HasIllegalLess, SkipMisc, IsTagGap, ArePieces, TextOf, GapText, IsNameSpelling,
         Utf8ToInt, ProcessAttribute, IsStop;
    var raw, q := RawText(a.value), a.quote;
    var s := raw + ([q] + more);
    NameIsSpelled(t, a);
    NameText(t, a.name);
    EqualsIsStop(EQUALS, GapText(a.after) + ([q] + s));
    TagGapIsSkipped(a.before, [EQUALS] + (GapText(a.after) + ([q] + s)));
    SymbolRead(t, c.rest, EQUALS, GapText(a.after) + ([q] + s));
    EqualsIsStop(q, s);
    TagGapIsSkipped(a.after, [q] + s);
    SymbolRead(t, GapText(a.after) + ([q] + s), q, s);
    ValueEnds(raw, q, more);
    assert s[..|raw|] == raw && s[|raw| + 1..] == more;
    NoLess(raw);
    ValueRead(a.value, q, more);
    QuotedIsAttribute(t, TextOf(a.name), c, GapText(a.after) + ([q] + s), q, s, |raw|, TextOf(a.value));
  }

  /** `Parser_processAttribute`, when "=", the quote, the value and the next token have been read */
  lemma QuotedIsAttribute(t: Tables, name: CString, c: Cursor, r: CString, q: Byte, s: CString, n: nat, value: CString)
    requires t.IsLetter(Utf8ToInt(name).ch) && GetNextToken(t, c.rest).text == [EQUALS] && GetNextToken(t, c.rest).rest == r
    requires q in {QUOTE, SINGLEQUOTE} && GetNextToken(t, r).text == [q] && GetNextToken(t, r).rest == s
    requires Find(s, [q]) == n < |s| && !HasIllegalLess(s[..n])
    requires (if n == 0 then Some([]) else CopyToken(s, n)) == Some(value)
    requires var k := GetNextToken(t, s[n + 1..]); k.text != [] && k.text != STARTTAG
    ensures var more, k := s[n + 1..], GetNextToken(t, s[n + 1..]);
      ProcessAttribute(t, name, c)
      == Got(if k.text == TAGEND then c.(rest := k.rest, mode := CONTENT) else c.(rest := Backup(more, k)),
             AttributeNode(name, value))
  {
    hide GetNextToken, CopyLoop, Find, HasIllegalLess, Utf8ToInt;
  }

  /** The cursor behind the last attribute of a start tag */
  function TagEnd(c: Cursor, end: Gap, closing: Closing, rest: CString): Cursor {
    match closing
    case Mark => c.(rest := rest, mode := CONTENT)
    case EmptyMark => c.(rest := COMPLETETAG + rest)
    case Missing => c.(rest := GapText(end) + rest)
  }

  lemma AttributeNext(t: Tables, c: Cursor, a: AttrSpelling, tl: seq<AttrSpelling>, end: Gap, closing: Closing,
                      rest: CString)
    requires IsAttr(t, a) && (forall k :: 0 <= k < |tl| ==> IsAttr(t, tl[k])) && IsTagGap(end)
    requires Follows(t, false, closing, rest)
    requires c.rest == TagTail([a] + tl, end, closing, rest) && c.mode == ATTRIBUTE
    ensures ArePieces(a.name) && ArePieces(a.value)
    ensures GetNextNode(t, c, false)
         == Got(if tl == [] then TagEnd(c, end, closing, rest) else c.(rest := TagTail(tl, end, closing, rest)),
                AttributeNode(TextOf(a.name), TextOf(a.value)))
  {
    hide GetNextToken, IsAttr, TagTail, ValueTail, IsTagGap, ProcessAttribute, TextOf, SkipSpace, Follows, CloseToken,
         ArePieces, RawText;
    var more := TagTail(tl, end, closing, rest);
    var r := ValueTail(a, more);
    TagTailUnfold(a, tl, end, closing, rest);
    NameIsSpelled(t, a);
    NameAhead(t, a, r, more);
    LookAhead(t, tl, false, end, closing, rest);
    CloseCases(t, false, end, closing, rest);
    TextIsNoMark(t, tl);
    AttributeParsed(t, a, c.(rest := r), more);
    HandsOver(t, c, TextOf(a.name), RawText(a.name) + r, r);
  }

  /** What the token behind the attributes is */
  lemma CloseCases(t: Tables, bare: bool, end: Gap, closing: Closing, rest: CString)
    requires Follows(t, bare, closing, rest)
    ensures var k := CloseToken(t, closing, rest);
      match closing
      case Mark => k.text == TAGEND && k.rest == rest
      case EmptyMark => k.text == COMPLETETAG && k.start == COMPLETETAG + rest
      case Missing => (k.text == ENDTAG || (bare && k.text == STARTTAG))
                      && TagTail([], end, closing, rest) == GapText(end) + rest
  {
    hide GetNextToken;
    TailOfNone(end, closing, rest);
    assert [] + rest == rest;
  }

  /** A name is not taken for the end of a tag. */
  lemma TextIsNoMark(t: Tables, attrs: seq<AttrSpelling>)
    requires forall k :: 0 <= k < |attrs| ==> IsAttr(t, attrs[k])
    ensures attrs != [] ==> ArePieces(attrs[0].name) && TextOf(attrs[0].name) !in {TAGEND, COMPLETETAG, STARTTAG}
  {
    hide ArePieces, TextOf, IsAttr;
    if attrs != [] {
      NameIsSpelled(t, attrs[0]);
      NameText(t, attrs[0].name);
    }
  }

  lemma HandsOver(t: Tables, c: Cursor, name: CString, p: CString, r: CString)
    requires c.rest != [] && c.mode == ATTRIBUTE && GetNextToken(t, SkipSpace(c.rest)) == Token(name, p, r)
    requires name != [] && !IsMarkup(name[0])
    ensures GetNextNode(t, c, false) == ProcessAttribute(t, name, c.(rest := r))
  {
    hide GetNextToken, SkipSpace, ProcessAttribute;
  }

  // ---- Tags ----

  lemma AreAttrsEach(t: Tables, attrs: seq<AttrSpelling>)
    requires AreAttrs(t, attrs)
    ensures forall k :: 0 <= k < |attrs| ==> IsAttr(t, attrs[k])
  {
    hide IsAttr;
  }

  /** A "<" leads to `Parser_processSTag`. */
  lemma STagNode(t: Tables, c: Cursor, top: bool)
    requires c.rest != [] && c.mode != CONTENT && GetNextToken(t, SkipSpace(c.rest)).text == STARTTAG
    ensures GetNextNode(t, c, top) == ProcessSTag(t, GetNextToken(t, SkipSpace(c.rest)).rest)
  {
    hide GetNextToken, SkipSpace, ProcessSTag, ProcessContent;
  }

  /** `Parser_processSTag` with the name and the token behind it */
  lemma ReadsName(t: Tables, s: CString, name: CString, r: CString)
    requires name != [] && GetNextToken(t, s) == Token(name, s, r) && GetNextToken(t, r).text != []
    ensures var k := GetNextToken(t, r);
      ProcessSTag(t, s) ==
      if k.text == TAGEND then Got(Cursor(k.rest, CONTENT, Some(name)), StartTag(name))
      else Got(Cursor(Backup(r, k), if k.text == COMPLETETAG then ELEMENT else ATTRIBUTE, Some(name)), StartTag(name))
  {
    hide GetNextToken;
  }

  /** What is left of a start tag behind its name begins with markup. */
  lemma TagTailStart(t: Tables, attrs: seq<AttrSpelling>, end: Gap, closing: Closing, rest: CString)
    requires AreAttrs(t, attrs) && IsTagGap(end) && Follows(t, attrs == [], closing, rest)
    ensures var s := TagTail(attrs, end, closing, rest); s != [] && IsMarkup(s[0])
  {
    hide IsNameSpelling, ArePieces, AreMisc, TagTail, ValueTail, Follows, RawText;
    CloseIsStop(t, attrs == [], closing, rest);
    if attrs == [] {
      TailOfNone(end, closing, rest);
      GapStart(end, CloseText(closing) + rest);
    } else {
      var a, tl := attrs[0], attrs[1..];
      assert attrs == [a] + tl && IsAttr(t, a);
      TagTailUnfold(a, tl, end, closing, rest);
      NameStart(t, a.name, []);
      GapStart(a.gap, RawText(a.name) + ValueTail(a, TagTail(tl, end, closing, rest)));
    }
  }

  /** The cursor behind a start tag: an empty-element tag is left in front of its "/>". */
  function TagCursor(name: CString, bare: bool, end: Gap, closing: Closing, rest: CString): Cursor {
    match closing
    case Mark => Cursor(rest, CONTENT, Some(name))
    case EmptyMark => Cursor(COMPLETETAG + rest, if bare then ELEMENT else ATTRIBUTE, Some(name))
    case Missing => Cursor(GapText(end) + rest, ATTRIBUTE, Some(name))
  }

  /** The node that a start tag is read as, up to its attributes */
  lemma StartTagRead(t: Tables, c: Cursor, top: bool, name: seq<Piece>, attrs: seq<AttrSpelling>, end: Gap,
                     closing: Closing, rest: CString)
    requires IsNameSpelling(t, name) && AreAttrs(t, attrs) && IsTagGap(end) && c.mode != CONTENT
    requires Follows(t, attrs == [], closing, rest)
    requires LeadsTo(c.rest, STARTTAG + (RawText(name) + TagTail(attrs, end, closing, rest)))
    ensures GetNextNode(t, c, top)
         == Got(if attrs == [] then TagCursor(TextOf(name), true, end, closing, rest)
                else Cursor(TagTail(attrs, end, closing, rest), ATTRIBUTE, Some(TextOf(name))),
                StartTag(TextOf(name)))
  {
    hide GetNextNode, GetNextToken, ProcessSTag, IsNameSpelling, IsAttr, TagTail, SkipSpace, SkipMisc, IsTagGap, AreAttrs,
         Follows, CloseToken, TextOf, RawText, ArePieces, IsStop;
    var r := TagTail(attrs, end, closing, rest);
    NameIsPieces(t, name);
    TagTailStart(t, attrs, end, closing, rest);
    AreAttrsEach(t, attrs);
    LookAhead(t, attrs, attrs == [], end, closing, rest);
    CloseCases(t, attrs == [], end, closing, rest);
    TextIsNoMark(t, attrs);
    StartTagToken(t, name, r);
    SameToken(t, SkipSpace(c.rest), STARTTAG + (RawText(name) + r));
    SkipSpaceLength(c.rest);
    STagNode(t, c, top);
    NameStart(t, name, r);
    NameText(t, name);
    PlainIsStop(RawText(name) + r);
    StopSkips(RawText(name) + r);
    NameRead(t, RawText(name) + r, name, r);
    ReadsName(t, RawText(name) + r, TextOf(name), r);
  }

  lemma NameIsPieces(t: Tables, name: seq<Piece>)
    requires IsNameSpelling(t, name)
    ensures ArePieces(name) && name != []
  {
  }

  lemma StopSkips(p: CString)
    requires IsStop(p)
    ensures p != [] && SkipMisc(p) == Skip(true, p)
  {
  }

  /** "/>" is read as the end of the element that was opened last. */
  lemma EmptyEndRead(t: Tables, c: Cursor, top: bool, name: CString, rest: CString)
    requires c.rest == COMPLETETAG + rest && c.mode != CONTENT && c.lastElem == Some(name)
    ensures GetNextNode(t, c, top) == Got(c.(rest := rest), EndTag(name))
  {
    hide GetNextToken, ProcessAttribute, ProcessSTag, ProcessETag, ProcessContent;
    EmptyEndToken(t, rest);
    NoSpaceToSkip(c.rest);
  }

  /** An end tag and what follows it */
  function EndTail(name: seq<Piece>, gap1: Gap, gap2: Gap, rest: CString): CString {
    ENDTAG + (GapText(gap1) + (RawText(name) + (GapText(gap2) + (TAGEND + rest))))
  }

  lemma EndTailStarts(t: Tables, name: seq<Piece>, gap1: Gap, gap2: Gap, rest: CString)
    ensures var s := EndTail(name, gap1, gap2, rest);
      && IsTagStart(s) && IsStop(s) && IsMarkup(s[0])
      && GetNextToken(t, s) == Token(ENDTAG, s, GapText(gap1) + (RawText(name) + (GapText(gap2) + (TAGEND + rest))))
  {
    hide GetNextToken, GapText, RawText;
    EndTagToken(t, GapText(gap1) + (RawText(name) + (GapText(gap2) + (TAGEND + rest))));
    PlainIsStop(EndTail(name, gap1, gap2, rest));
  }

  /** An end tag, with gaps on both sides of its name */
  lemma EndTagRead(t: Tables, c: Cursor, top: bool, name: seq<Piece>, gap1: Gap, gap2: Gap, rest: CString)
    requires IsNameSpelling(t, name) && IsTagGap(gap1) && IsGap(gap2) && c.mode != CONTENT
    requires LeadsTo(c.rest, EndTail(name, gap1, gap2, rest))
    ensures GetNextNode(t, c, top) == Got(c.(rest := rest), EndTag(TextOf(name)))
  {
    hide GetNextToken, ProcessAttribute, ProcessSTag, ProcessContent, IsNameSpelling, SkipSpace, SkipMisc, IsTagGap, IsGap,
         GapText, TextOf, RawText, IsStop;
    var r2 := GapText(gap2) + (TAGEND + rest);
    var r1 := GapText(gap1) + (RawText(name) + r2);
    NameIsPieces(t, name);
    EndTailStarts(t, name, gap1, gap2, rest);
    SameToken(t, SkipSpace(c.rest), EndTail(name, gap1, gap2, rest));
    SkipSpaceLength(c.rest);
    EqualsIsStop(GREATERTHAN, rest);
    GapStart(gap2, TAGEND + rest);
    NameStart(t, name, r2);
    NameText(t, name);
    PlainIsStop(RawText(name) + r2);
    TagGapIsSkipped(gap1, RawText(name) + r2);
    NameRead(t, r1, name, r2);
    GapIsSkipped(gap2, TAGEND + rest);
    NotEmptied(r2, TAGEND + rest);
    SymbolRead(t, SkipSpace(r2), GREATERTHAN, rest);
    EndNode(t, c, top, TextOf(name), r1, r2, rest);
  }

  lemma EndNode(t: Tables, c: Cursor, top: bool, name: CString, r1: CString, r2: CString, rest: CString)
    requires c.rest != [] && c.mode != CONTENT && GetNextToken(t, SkipSpace(c.rest)).text == ENDTAG
    requires GetNextToken(t, SkipSpace(c.rest)).rest == r1
    requires name != [] && GetNextToken(t, r1).text == name && GetNextToken(t, r1).rest == r2
    requires GetNextToken(t, SkipSpace(r2)).text == TAGEND && GetNextToken(t, SkipSpace(r2)).rest == rest
    ensures GetNextNode(t, c, top) == Got(c.(rest := rest), EndTag(name))
  {
    hide GetNextToken, SkipSpace;
  }
}

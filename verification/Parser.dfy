/** The parser of ixmlparser.c as functions on the input that is left, with one function for each
    routine. `ixmlparser` on a buffer is `ParseDocument` on the whole of it. */
module Parser {
  import opened Options
  import opened Bytes
  import opened Utf8
  import opened Escape
  import opened Names
  import opened XmlTree

  const COMPLETETAG: CString := [0x2F, 0x3E] // "/>"
  const ENDTAG: CString := [0x3C, 0x2F] // "</"
  const STARTTAG: CString := [0x3C] // "<"
  const TAGEND: CString := [0x3E] // ">"
  const XMLDECL: CString := [0x3C, 0x3F, 0x78, 0x6D, 0x6C, 0x20] // "<?xml "
  const XMLDECL2: CString := [0x3C, 0x3F, 0x78, 0x6D, 0x6C, 0x3F] // "<?xml?"
  const BEGIN_COMMENT: CString := [0x3C, 0x21, 0x2D, 0x2D] // "<!--"
  const END_COMMENT: CString := [0x2D, 0x2D, 0x3E] // "-->"
  const BEGIN_PI: CString := [0x3C, 0x3F] // "<?"
  const END_PI: CString := [0x3F, 0x3E] // "?>"
  const BEGIN_DOCTYPE: CString := [0x3C, 0x21, 0x44, 0x4F, 0x43, 0x54, 0x59, 0x50, 0x45] // "<!DOCTYPE"
  const CDSTART: CString := [0x3C, 0x21, 0x5B, 0x43, 0x44, 0x41, 0x54, 0x41, 0x5B] // "<![CDATA["
  const CDEND: CString := [0x5D, 0x5D, 0x3E] // "]]>"

  // ---- Skipping ----

  /** Whether a skip succeeded, and where it left the cursor. */
  datatype Skip = Skip(ok: bool, rest: CString)

  /** `Parser_skipString` */
  function SkipString(s: CString, key: CString): Skip {
    var i := Find(s, key);
    FindBound(s, key);
    if i == |s| then Skip(false, []) else Skip(true, s[i..][|key|..])
  }

  /** `Parser_skipComment` */
  function SkipComment(s: CString): Skip {
    var i := Find(s, END_COMMENT);
    FindBound(s, END_COMMENT);
    if 0 < i < |s| && s[i - 1] != DASH then Skip(true, s[i..][|END_COMMENT|..]) else Skip(false, s)
  }

  lemma SkipStringAdvances(s: CString, key: CString)
    requires key != []
    ensures SkipString(s, key).ok ==> |SkipString(s, key).rest| < |s|
  {
    FindBound(s, key);
  }

  lemma SkipCommentAdvances(s: CString)
    ensures SkipComment(s).ok ==> |SkipComment(s).rest| < |s|
    ensures |SkipComment(s).rest| <= |s|
  {
    FindBound(s, END_COMMENT);
  }

  predicate IsXmlDecl(s: CString) {
    StartsWithNoCase(s, XMLDECL) || StartsWithNoCase(s, XMLDECL2)
  }

  /** `Parser_skipMisc` */
  function SkipMisc(s: CString): Skip
    decreases |s|
  {
    if StartsWith(s, BEGIN_COMMENT) then
      var c := SkipComment(s);
      SkipCommentAdvances(s);
      SkipSpaceLength(c.rest);
      if c.ok then SkipMisc(SkipSpace(c.rest)) else Skip(false, SkipSpace(c.rest))
    else if IsXmlDecl(s) then Skip(false, SkipSpace(s))
    else if StartsWith(s, BEGIN_PI) then
      var c := SkipString(s, END_PI);
      SkipStringAdvances(s, END_PI);
      SkipSpaceLength(c.rest);
      if c.ok then SkipMisc(SkipSpace(c.rest)) else Skip(false, SkipSpace(c.rest))
    else Skip(true, SkipSpace(s))
  }

  lemma {:induction false} SkipMiscLength(s: CString)
    ensures |SkipMisc(s).rest| <= |s|
    decreases |s|
  {
    SkipSpaceLength(s);
    if StartsWith(s, BEGIN_COMMENT) {
      var c := SkipComment(s);
      SkipCommentAdvances(s);
      SkipSpaceLength(c.rest);
      if c.ok { SkipMiscLength(SkipSpace(c.rest)); }
    } else if !IsXmlDecl(s) && StartsWith(s, BEGIN_PI) {
      var c := SkipString(s, END_PI);
      SkipStringAdvances(s, END_PI);
      SkipSpaceLength(c.rest);
      if c.ok { SkipMiscLength(SkipSpace(c.rest)); }
    }
  }

  /** The loop of `Parser_skipDocType` with `num` brackets still open. */
  function SkipDocType(s: CString, num: int): Skip
    decreases |s|
  {
    if num == 0 then Skip(true, s)
    else if s == [] then Skip(false, s)
    else if s[0] == LESSTHAN then SkipDocType(s[1..], num + 1)
    else if s[0] == GREATERTHAN then SkipDocType(s[1..], num - 1)
    else if s[0] == QUOTE then
      var i := Find(s[1..], [QUOTE]);
      FindBound(s[1..], [QUOTE]);
      if i == |s| - 1 then Skip(false, s) else SkipDocType(s[1..][i + 1..], num)
    else SkipDocType(s[1..], num)
  }

  /** `Parser_skipProlog` */
  function SkipProlog(s: CString): Skip {
    var p := SkipSpace(s);
    var decl := if StartsWith(p, XMLDECL) then SkipString(p, END_PI) else Skip(true, p);
    if !decl.ok then decl
    else
      var misc := SkipMisc(if StartsWith(p, XMLDECL) then SkipSpace(decl.rest) else p);
      if !misc.ok then misc
      else
        var doctype := if StartsWith(misc.rest, BEGIN_DOCTYPE) then SkipDocType(misc.rest[1..], 1) else misc;
        if !doctype.ok then doctype else SkipMisc(doctype.rest)
  }

  // ---- Tokens ----

  /** The text of a token (none for a failure), where it starts and what follows it. */
  datatype Token = Token(text: CString, start: CString, rest: CString)

  function TakeToken(s: CString, n: nat): Token
    requires n <= |s|
  {
    var text := CopyToken(s, n);
    if text.None? then Token([], s, s) else Token(text.value, s, s[n..])
  }

  /** How many octets the token at `p` takes; none if no token starts there. */
  function TokenLength(t: Tables, p: CString): nat {
    if p == [] then 0
    else if p[0] == QUOTE || p[0] == SINGLEQUOTE || p[0] == EQUALS || p[0] == GREATERTHAN then 1
    else if p[0] == LESSTHAN then
      var c := Utf8ToInt(p[1..]).ch;
      if c == SLASH then 2 else if t.IsLetter(c) then 1 else 0
    else if p[0] == SLASH then
      if At(p, 1) == GREATERTHAN then 2 else 0
    else if t.IsLetter(Utf8ToInt(p).ch) then NameLength(t, p)
    else 0
  }

  lemma TokenLengthBound(t: Tables, p: CString)
    ensures TokenLength(t, p) <= |p|
  {
    NameLengthBound(t, p);
  }

  /** `Parser_getNextToken` */
  function GetNextToken(t: Tables, s: CString): Token {
    if s == [] then Token([], s, s)
    else
      var misc := SkipMisc(s);
      TokenLengthBound(t, misc.rest);
      if misc.ok then TakeToken(misc.rest, TokenLength(t, misc.rest)) else Token([], misc.rest, misc.rest)
  }

  /** Where `savePtr` points after reading token `k` from `s`: a token "/>" saves its own start. */
  function Backup(s: CString, k: Token): CString {
    if k.text == COMPLETETAG then k.start else s
  }

  // ---- Nodes ----

  datatype Mode = ELEMENT | ATTRIBUTE | CONTENT

  /** The parser's cursor, its `state`, and the name of the last start tag. */
  datatype Cursor = Cursor(rest: CString, mode: Mode, lastElem: Option<CString>)

  /** The node that `Parser_getNextNode` fills in; `EndTag` is a node with `bETag` set. */
  datatype Event =
    | Nothing
    | StartTag(name: CString)
    | EndTag(name: CString)
    | AttributeNode(name: CString, value: CString)
    | TextNode(text: CString)
    | CDataNode(text: CString)

  datatype Next = Failed | FileDone | Got(cursor: Cursor, event: Event)

  /** `Parser_processSTag` after the "<" */
  function ProcessSTag(t: Tables, s: CString): Next {
    var name := GetNextToken(t, s);
    if name.text == [] then Failed
    else
      var k := GetNextToken(t, name.rest);
      if k.text == [] then Failed
      else if k.text == TAGEND then Got(Cursor(k.rest, CONTENT, Some(name.text)), StartTag(name.text))
      else
        Got(Cursor(Backup(name.rest, k), if k.text == COMPLETETAG then ELEMENT else ATTRIBUTE, Some(name.text)),
            StartTag(name.text))
  }

  /** `Parser_processETag` after the "</" */
  function ProcessETag(t: Tables, s: CString, c: Cursor): Next {
    var name := GetNextToken(t, s);
    if name.text == [] then Failed
    else
      var k := GetNextToken(t, SkipSpace(name.rest));
      if k.text == TAGEND then Got(c.(rest := k.rest), EndTag(name.text)) else Failed
  }

  /** The check of an attribute value for "<": the octet after an "&" is not looked at. */
  predicate HasIllegalLess(s: CString)
    decreases |s|
  {
    s != [] && (s[0] == LESSTHAN || HasIllegalLess(if s[0] == AMPERSAND && |s| > 1 then s[2..] else s[1..]))
  }

  /** `Parser_processAttribute` after the name token */
  function ProcessAttribute(t: Tables, name: CString, c: Cursor): Next {
    if !t.IsLetter(Utf8ToInt(name).ch) then Failed
    else
      var eq := GetNextToken(t, c.rest);
      if eq.text == [] || eq.text[0] != EQUALS then Failed
      else
        var quote := GetNextToken(t, eq.rest);
        if quote.text == [] || (quote.text[0] != QUOTE && quote.text[0] != SINGLEQUOTE) then Failed
        else
          var s := quote.rest;
          var n := Find(s, quote.text);
          FindBound(s, quote.text);
          if n == |s| || HasIllegalLess(s[..n]) then Failed
          else
            var value := if n == 0 then Some([]) else CopyToken(s, n);
            if value.None? then Failed
            else
              var after := s[n + 1..];
              var k := GetNextToken(t, after);
              if k.text == [] || k.text == STARTTAG then Failed
              else if k.text == TAGEND then
                Got(c.(rest := k.rest, mode := CONTENT), AttributeNode(name, value.value))
              else
                Got(c.(rest := Backup(after, k)), AttributeNode(name, value.value))
  }

  /** How far the loop of `Parser_processCDSect` gets; a `char` above 127 is negative and stops it. */
  function CDataLength(s: CString): nat {
    if s == [] || s[0] > 0x7F || !IsXmlChar(s[0]) || StartsWith(s, CDEND) then 0 else 1 + CDataLength(s[1..])
  }

  /** How far the text loop of `Parser_processContent` gets. */
  function TextLength(s: CString): nat {
    if s == [] || s[0] == LESSTHAN || StartsWith(s, CDEND) then 0 else 1 + TextLength(s[1..])
  }

  lemma {:induction false} TextLengthBound(s: CString)
    ensures TextLength(s) <= |s|
  {
    if !(s == [] || s[0] == LESSTHAN || StartsWith(s, CDEND)) {
      TextLengthBound(s[1..]);
    }
  }

  lemma {:induction false} CDataLengthBound(s: CString)
    ensures CDataLength(s) <= |s|
  {
    if !(s == [] || s[0] > 0x7F || !IsXmlChar(s[0]) || StartsWith(s, CDEND)) {
      CDataLengthBound(s[1..]);
    }
  }

  /** `Parser_processCDSect`. Where C would step past the terminating NUL this is a failure. */
  function ProcessCData(s: CString, c: Cursor): Next
    requires StartsWith(s, CDSTART)
  {
    var p := s[|CDSTART|..];
    var n := CDataLength(p);
    CDataLengthBound(p);
    if 0 < n && n + |CDEND| <= |p| then Got(c.(rest := p[n + |CDEND|..]), CDataNode(p[..n])) else Failed
  }

  /** `Parser_skipPI` */
  function SkipPI(s: CString): Skip {
    if IsXmlDecl(s) then Skip(false, s)
    else
      var i := Find(s, END_PI);
      FindBound(s, END_PI);
      if 0 < i < |s| then Skip(true, s[i..][|END_PI|..]) else Skip(false, s)
  }

  /** `Parser_processContent` */
  function ProcessContent(c: Cursor): Next {
    var s := c.rest;
    var p := SkipSpace(s);
    if p == [] then Got(c.(rest := p), Nothing)
    else if p[0] == LESSTHAN then
      if StartsWith(p, CDSTART) then ProcessCData(p, c)
      else if StartsWith(p, BEGIN_COMMENT) then
        var k := SkipComment(p);
        if k.ok then Got(c.(rest := k.rest), Nothing) else Failed
      else if StartsWith(p, BEGIN_PI) then
        var k := SkipPI(p);
        if k.ok then Got(c.(rest := k.rest), Nothing) else Failed
      else Got(c.(rest := p, mode := ELEMENT), Nothing)
    else
      var n := TextLength(s);
      TextLengthBound(s);
      if StartsWith(s[n..], CDEND) then Failed
      else
        var text := CopyToken(s, n);
        if text.None? then Failed else Got(c.(rest := s[n..]), TextNode(text.value))
  }

  /** `Parser_getNextNode`; `top` says that the element stack is empty. */
  function GetNextNode(t: Tables, c: Cursor, top: bool): Next {
    if c.rest == [] then FileDone
    else if c.mode == CONTENT then ProcessContent(c)
    else
      var k := GetNextToken(t, SkipSpace(c.rest));
      var after := c.(rest := k.rest);
      if k.text == [] then
        if top && k.rest == [] then Got(after, Nothing) else Failed
      else if k.text[0] == GREATERTHAN then Got(after, Nothing)
      else if k.text == ENDTAG then ProcessETag(t, k.rest, c)
      else if k.text[0] == LESSTHAN then ProcessSTag(t, k.rest)
      else if k.text == COMPLETETAG then
        if c.lastElem.None? then Failed else Got(after, EndTag(c.lastElem.value))
      else if c.mode == ATTRIBUTE && !top then ProcessAttribute(t, k.text, after)
      else Failed
  }

  // ---- Progress: every successful step lowers (octets left, 1 in content else 0) ----

  lemma CopyTokenNonEmpty(s: CString, n: nat)
    requires 0 < n <= |s| && CopyToken(s, n).Some?
    ensures CopyToken(s, n).value != []
  {
    GetCharAdvances(s);
    EncodingHasNoNul(GetChar(s).ch);
  }

  /** A token that was read takes at least one octet; a failed read never moves backwards. */
  lemma TokenAdvances(t: Tables, s: CString)
    ensures var k := GetNextToken(t, s);
      |k.rest| <= |k.start| <= |s| && (k.text != [] ==> |k.rest| < |k.start|)
  {
    SkipMiscLength(s);
    TokenLengthBound(t, SkipMisc(s).rest);
  }

  lemma STagAdvances(t: Tables, s: CString)
    ensures ProcessSTag(t, s).Got? ==> |ProcessSTag(t, s).cursor.rest| < |s|
    ensures ProcessSTag(t, s) != FileDone
  {
    TokenAdvances(t, s);
    TokenAdvances(t, GetNextToken(t, s).rest);
  }

  lemma ETagAdvances(t: Tables, s: CString, c: Cursor)
    ensures ProcessETag(t, s, c).Got? ==> |ProcessETag(t, s, c).cursor.rest| < |s|
    ensures ProcessETag(t, s, c) != FileDone
  {
    TokenAdvances(t, s);
    var name := GetNextToken(t, s);
    SkipSpaceLength(name.rest);
    TokenAdvances(t, SkipSpace(name.rest));
  }

  lemma AttributeAdvances(t: Tables, name: CString, c: Cursor)
    ensures var n := ProcessAttribute(t, name, c); n.Got? ==> |n.cursor.rest| < |c.rest|
    ensures ProcessAttribute(t, name, c) != FileDone
  {
    hide GetNextToken, Find, CopyLoop, HasIllegalLess, Utf8ToInt;
    var eq := GetNextToken(t, c.rest);
    TokenAdvances(t, c.rest);
    var quote := GetNextToken(t, eq.rest);
    TokenAdvances(t, eq.rest);
    var n := Find(quote.rest, quote.text);
    FindBound(quote.rest, quote.text);
    if n < |quote.rest| {
      TokenAdvances(t, quote.rest[n + 1..]);
    }
  }

  lemma ContentAdvances(c: Cursor)
    requires c.rest != [] && c.mode == CONTENT
    ensures var n := ProcessContent(c);
      n.Got? ==> |n.cursor.rest| < |c.rest| || (|n.cursor.rest| == |c.rest| && n.cursor.mode == ELEMENT)
    ensures ProcessContent(c) != FileDone
  {
    SkipSpaceLength(c.rest);
    var p := SkipSpace(c.rest);
    if p == [] {
    } else if p[0] == LESSTHAN {
      if StartsWith(p, CDSTART) {
        CDataLengthBound(p[|CDSTART|..]);
      } else if StartsWith(p, BEGIN_COMMENT) {
        SkipCommentAdvances(p);
      } else if StartsWith(p, BEGIN_PI) {
        FindBound(p, END_PI);
      }
    } else {
      TextLengthBound(c.rest);
    }
  }

  function ModeRank(m: Mode): nat {
    if m == CONTENT then 1 else 0
  }

  /** Every node read lowers the pair, although the parser backs up to re-read tokens. */
  lemma NextNodeAdvances(t: Tables, c: Cursor, top: bool)
    ensures var n := GetNextNode(t, c, top);
      n.Got? ==>
        || |n.cursor.rest| < |c.rest|
        || (|n.cursor.rest| == |c.rest| && ModeRank(n.cursor.mode) < ModeRank(c.mode) && n.event == Nothing)
    ensures GetNextNode(t, c, top) == FileDone <==> c.rest == []
  {
    if c.rest != [] {
      if c.mode == CONTENT {
        ContentAdvances(c);
        var n := ProcessContent(c);
        assert n.Got? && |n.cursor.rest| == |c.rest| ==> n.event == Nothing;
      } else {
        SkipSpaceLength(c.rest);
        var p := SkipSpace(c.rest);
        var k := GetNextToken(t, p);
        TokenAdvances(t, p);
        ETagAdvances(t, k.rest, c);
        STagAdvances(t, k.rest);
        AttributeAdvances(t, k.text, c.(rest := k.rest));
      }
    }
  }

  // ---- The parse loop ----

  /** An element whose end tag has not been read: one node on the path from the document to
      `currentNodePtr`. */
  datatype Frame = Frame(name: CString, attrs: seq<Attr>, children: seq<Node>)

  datatype Tag = Open(name: CString) | Close(name: CString)

  /** The parser during `Parser_parseDocument`: the element stack (top last), the open elements down
      to `currentNodePtr`, the children of the document, `bHasTopLevel`, and the tags read so far. */
  datatype State = State(cursor: Cursor, stack: seq<CString>, open: seq<Frame>, roots: seq<Node>, hasTop: bool,
                         tags: seq<Tag>)

  function Last<T>(s: seq<T>): T
    requires s != []
  {
    s[|s| - 1]
  }

  function DropLast<T>(s: seq<T>): seq<T>
    requires s != []
  {
    s[..|s| - 1]
  }

  /** `ixmlNode_appendChild(currentNodePtr, n)`: only an element may be a child of the document. */
  function AppendChild(d: State, n: Node): Option<State> {
    if d.open == [] then
      if n.Element? then Some(d.(roots := d.roots + [n])) else None
    else
      var f := Last(d.open);
      Some(d.(open := DropLast(d.open) + [f.(children := f.children + [n])]))
  }

  /** `Parser_processElementName` */
  function OpenElement(d: State, name: CString): Option<State> {
    if d.hasTop && d.stack == [] then None
    else
      Some(d.(hasTop := true, stack := d.stack + [name], open := d.open + [Frame(name, [], [])],
              tags := d.tags + [Open(name)]))
  }

  /** `Parser_processAttributeName` */
  function AddAttribute(d: State, name: CString, value: CString): Option<State> {
    if d.open == [] then None
    else
      var f := Last(d.open);
      if exists i :: 0 <= i < |f.attrs| && f.attrs[i].name == name then None
      else Some(d.(open := DropLast(d.open) + [f.(attrs := f.attrs + [Attr(name, value)])]))
  }

  /** `Parser_eTagVerification`: the name must be on top of the element stack, and must be the name of
      `currentNodePtr`; the state becomes content. */
  function CloseElement(d: State, name: CString): Option<State> {
    if d.stack == [] || Last(d.stack) != name then None
    else if d.open == [] || Last(d.open).name != name then None
    else
      var f := Last(d.open);
      var up := d.(stack := DropLast(d.stack), open := DropLast(d.open), tags := d.tags + [Close(name)],
                   cursor := d.cursor.(mode := CONTENT));
      AppendChild(up, Element(f.name, f.attrs, f.children))
  }

  function OnEvent(d: State, e: Event): Option<State> {
    match e
    case Nothing => Some(d)
    case StartTag(name) => OpenElement(d, name)
    case EndTag(name) => CloseElement(d, name)
    case AttributeNode(name, value) => AddAttribute(d, name, value)
    case TextNode(text) => AppendChild(d, Text(text))
    case CDataNode(text) => AppendChild(d, CData(text))
  }

  /** One pass of the loop of `Parser_parseDocument` that does not end it. */
  function Step(t: Tables, d: State): Option<State> {
    var n := GetNextNode(t, d.cursor, d.stack == []);
    if n.Got? then OnEvent(d.(cursor := n.cursor), n.event) else None
  }

  lemma OnEventCursor(d: State, e: Event)
    requires OnEvent(d, e).Some?
    ensures OnEvent(d, e).value.cursor.rest == d.cursor.rest
    ensures !e.EndTag? ==> OnEvent(d, e).value.cursor == d.cursor
  {
  }

  lemma StepAdvances(t: Tables, d: State)
    requires Step(t, d).Some?
    ensures var c, c' := d.cursor, Step(t, d).value.cursor;
      |c'.rest| < |c.rest| || (|c'.rest| == |c.rest| && ModeRank(c'.mode) < ModeRank(c.mode))
  {
    NextNodeAdvances(t, d.cursor, d.stack == []);
    var n := GetNextNode(t, d.cursor, d.stack == []);
    OnEventCursor(d.(cursor := n.cursor), n.event);
  }

  /** The loop of `Parser_parseDocument`: it ends with an error, or at the end of the input. */
  function ParseLoop(t: Tables, d: State): Option<State>
    decreases |d.cursor.rest|, ModeRank(d.cursor.mode)
  {
    if GetNextNode(t, d.cursor, d.stack == []) == FileDone then
      if d.stack == [] then Some(d) else None
    else
      var next := Step(t, d);
      if next.None? then None
      else
        StepAdvances(t, d);
        ParseLoop(t, next.value)
  }

  function InitialState(s: CString): State {
    State(Cursor(s, ELEMENT, None), [], [], [], false, [])
  }

  /** `Parser_parseDocument`: the final state, with the children of the document in `roots`. */
  function ParseDocument(t: Tables, s: CString): Option<State> {
    var prolog := SkipProlog(s);
    if prolog.ok then ParseLoop(t, InitialState(prolog.rest)) else None
  }
}

/** The spellings of a document: what can stand in its text besides the bare tree, and the tree that the text stands for.
    Everything is written out here as text; nothing is taken from the parser. */
module XmlSyntax {
  import opened Options
  import opened Bytes
  import opened Names
  import opened XmlTree
  import opened Spelling

  // ---- White space, comments and processing instructions ----

  predicate IsBlank(s: CString) {
    forall k :: 0 <= k < |s| ==> s[k] in {0x20, 0x9, 0xD, 0xA}
  }

  predicate Occurs(s: CString, key: CString, k: nat) {
    k + |key| <= |s| && s[k..k + |key|] == key
  }

  /** `key` stands at the end of `s` and nowhere before. */
  predicate EndsWithFirst(s: CString, key: CString) {
    |key| <= |s| && Occurs(s, key, |s| - |key|) && forall k :: 0 <= k < |s| - |key| ==> !Occurs(s, key, k)
  }

  /** A comment as the parser knows it: the text from "<!--" to the first "-->", with no "-" in front of that. */
  predicate IsRemark(s: CString) {
    Occurs(s, Octets("<!--"), 0) && EndsWithFirst(s, Octets("-->")) && |s| >= 4 && s[|s| - 4] != '-' as int
  }

  predicate IsDeclaration(s: CString) {
    |s| >= 6 && (IsInAnyCase(s[..6], Octets("<?xml ")) || IsInAnyCase(s[..6], Octets("<?xml?")))
  }

  /** A processing instruction: the text from "<?" to the first "?>", if it is not an XML declaration. */
  predicate IsInstruction(s: CString) {
    Occurs(s, Octets("<?"), 0) && EndsWithFirst(s, Octets("?>")) && !IsDeclaration(s)
  }

  predicate IsMisc(s: CString) {
    IsRemark(s) || IsInstruction(s)
  }

  /** A comment or an instruction, and white space behind it */
  datatype Spaced = Spaced(misc: CString, space: CString)

  /** White space, and behind it comments and instructions */
  datatype Gap = Gap(space: CString, misc: seq<Spaced>)

  function MiscText(ms: seq<Spaced>): CString {
    if ms == [] then [] else ms[0].misc + ms[0].space + MiscText(ms[1..])
  }

  predicate AreMisc(ms: seq<Spaced>) {
    forall k :: 0 <= k < |ms| ==> IsMisc(ms[k].misc) && IsBlank(ms[k].space)
  }

  function GapText(g: Gap): CString {
    g.space + MiscText(g.misc)
  }

  predicate IsGap(g: Gap) {
    IsBlank(g.space) && AreMisc(g.misc)
  }

  /** Inside a tag, comments and instructions are skipped only if they follow the token before at once. */
  predicate IsTagGap(g: Gap) {
    IsGap(g) && (g.space == [] || g.misc == [])
  }

  // ---- Tags ----

  /** A letter, and then name characters, each as it stands and in any encoding */
  predicate IsNameSpelling(t: Tables, ps: seq<Piece>) {
    && ArePieces(ps) && ps != []
    && (forall k :: 0 <= k < |ps| ==> ps[k].Plain? && IsNamePiece(t, ps[k]))
    && IsPiece(ps[0]) && t.letter(CharOf(ps[0]))
  }

  predicate IsNamePiece(t: Tables, p: Piece) {
    IsPiece(p) && (t.letter(CharOf(p)) || t.nameChar(CharOf(p)))
  }

  /** An attribute with what stands in front of it and around the "=", and its value between quotes of either kind */
  datatype AttrSpelling = AttrSpelling(gap: Gap, name: seq<Piece>, before: Gap, after: Gap, quote: Byte,
                                       value: seq<Piece>)

  function AttrText(a: AttrSpelling): CString {
    GapText(a.gap) + RawText(a.name) + GapText(a.before) + Octets("=") + GapText(a.after) + [a.quote] + RawText(a.value)
    + [a.quote]
  }

  function AttrsText(attrs: seq<AttrSpelling>): CString {
    if attrs == [] then [] else AttrText(attrs[0]) + AttrsText(attrs[1..])
  }

  predicate IsAttr(t: Tables, a: AttrSpelling) {
    && IsTagGap(a.gap) && IsTagGap(a.before) && IsTagGap(a.after)
    && IsNameSpelling(t, a.name) && a.quote in {'"' as int, '\'' as int} && ArePieces(a.value)
    && forall k :: 0 <= k < |RawText(a.value)| ==> RawText(a.value)[k] != a.quote && RawText(a.value)[k] != '<' as int
  }

  /** Nothing needs to stand between two attributes; only the first one has to be apart from the name of the element. */
  predicate AreAttrs(t: Tables, attrs: seq<AttrSpelling>) {
    && (forall k :: 0 <= k < |attrs| ==> IsAttr(t, attrs[k]))
    && (attrs != [] ==> GapText(attrs[0].gap) != [])
    && forall j, k :: 0 <= j < k < |attrs| ==> TextOf(attrs[j].name) != TextOf(attrs[k].name)
  }

  function AttrOf(a: AttrSpelling): Attr
    requires ArePieces(a.name) && ArePieces(a.value)
  {
    Attr(TextOf(a.name), TextOf(a.value))
  }

  function AttrsOf(attrs: seq<AttrSpelling>): seq<Attr>
    requires forall k :: 0 <= k < |attrs| ==> ArePieces(attrs[k].name) && ArePieces(attrs[k].value)
  {
    seq(|attrs|, k requires 0 <= k < |attrs| => AttrOf(attrs[k]))
  }

  // ---- Content ----

  datatype Item =
    | Chars(pieces: seq<Piece>)
    | Section(text: CString, stop: CString)
    | Aside(misc: CString)
    | Elem(name: seq<Piece>, attrs: seq<AttrSpelling>, end: Gap, body: Body)

  /** An element is an empty-element tag, or has content and an end tag. `marked` says that there is a ">" at the end of
      its start tag. */
  datatype Body = Empty | Full(marked: bool, items: seq<Item>, name2: seq<Piece>, gap1: Gap, gap2: Gap)

  function StartText(name: seq<Piece>, attrs: seq<AttrSpelling>, end: Gap): CString {
    Octets("<") + RawText(name) + AttrsText(attrs) + GapText(end)
  }

  function EndText(name: seq<Piece>, gap1: Gap, gap2: Gap): CString {
    Octets("</") + GapText(gap1) + RawText(name) + GapText(gap2) + Octets(">")
  }

  function ItemText(item: Item): CString
    decreases item
  {
    match item
    case Chars(pieces) => RawText(pieces)
    case Section(text, end) => Octets("<![CDATA[") + text + end
    case Aside(misc) => misc
    case Elem(name, attrs, end, Empty) => StartText(name, attrs, end) + Octets("/>")
    case Elem(name, attrs, end, Full(marked, items, name2, gap1, gap2)) =>
      StartText(name, attrs, end) + (if marked then Octets(">") else []) + ItemsText(items) + EndText(name2, gap1, gap2)
  }

  function ItemsText(items: seq<Item>): CString
    decreases items
  {
    if items == [] then [] else ItemText(items[0]) + ItemsText(items[1..])
  }

  /** Character data: not empty, no "<", no "]]>" */
  predicate AreChars(pieces: seq<Piece>) {
    && ArePieces(pieces) && pieces != []
    && forall k :: 0 <= k < |RawText(pieces)| ==>
         RawText(pieces)[k] != '<' as int && !Occurs(RawText(pieces), Octets("]]>"), k)
  }

  /** The three octets that end a CDATA section: "]]>", or any three of which the first is no ASCII character that XML
      allows. */
  predicate IsSectionEnd(s: CString) {
    |s| == 3 && (s == Octets("]]>") || s[0] >= 0x80 || !IsChar(s[0]))
  }

  /** The text of a CDATA section: not empty, ASCII only, no "]]>" */
  predicate IsSectionText(s: CString) {
    s != [] && forall k :: 0 <= k < |s| ==> s[k] < 0x80 && IsChar(s[k]) && !Occurs(s, Octets("]]>"), k)
  }

  /** The ">" of a start tag can be missing in front of the end tag, and if there are no attributes, also in front of
      another start tag. */
  predicate CanBeMissing(attrs: seq<AttrSpelling>, items: seq<Item>) {
    items == [] || (attrs == [] && items[0].Elem?)
  }

  ghost predicate IsItem(t: Tables, item: Item)
    decreases item
  {
    match item
    case Chars(pieces) => AreChars(pieces)
    case Section(text, end) => IsSectionText(text) && IsSectionEnd(end)
    case Aside(misc) => IsMisc(misc)
    case Elem(name, attrs, end, body) =>
      && IsNameSpelling(t, name) && AreAttrs(t, attrs) && IsTagGap(end)
      && match body
         case Empty => true
         case Full(marked, items, name2, gap1, gap2) =>
           && (marked || CanBeMissing(attrs, items)) && AreItems(t, items)
           && IsNameSpelling(t, name2) && TextOf(name2) == TextOf(name) && IsTagGap(gap1) && IsGap(gap2)
  }

  /** Stretches of character data are not divided. */
  ghost predicate AreItems(t: Tables, items: seq<Item>)
    decreases items
  {
    && (forall k :: 0 <= k < |items| ==> IsItem(t, items[k]))
    && forall j, k :: 0 <= j < k < |items| && k == j + 1 ==> !(items[j].Chars? && items[k].Chars?)
  }

  /** The nodes that an item stands for, at most one: character data that is white space as it stands is dropped. */
  ghost function ItemMeaning(t: Tables, item: Item): (nodes: seq<Node>)
    requires IsItem(t, item)
    ensures |nodes| <= 1
    decreases item
  {
    match item
    case Chars(pieces) => if IsBlank(RawText(pieces)) then [] else [Text(TextOf(pieces))]
    case Section(text, _) => [CData(text)]
    case Aside(_) => []
    case Elem(name, attrs, _, Empty) => [Element(TextOf(name), AttrsOf(attrs), [])]
    case Elem(name, attrs, _, Full(_, items, _, _, _)) => [Element(TextOf(name), AttrsOf(attrs), Meaning(t, items))]
  }

  ghost function Meaning(t: Tables, items: seq<Item>): seq<Node>
    requires AreItems(t, items)
    decreases items
  {
    if items == [] then []
    else
      TailIsItems(t, items);
      ItemMeaning(t, items[0]) + Meaning(t, items[1..])
  }

  lemma TailIsItems(t: Tables, items: seq<Item>)
    requires items != [] && AreItems(t, items)
    ensures AreItems(t, items[1..])
  {
    hide IsItem;
    var tl := items[1..];
    assert forall k :: 0 <= k < |tl| ==> tl[k] == items[k + 1];
  }

  // ---- Documents ----

  /** The inside of a document type declaration: octets, strings in double quotes, and nested angle brackets */
  datatype TypePart = Octet(octet: Byte) | Quoted(text: CString) | Nested(parts: seq<TypePart>)

  function PartsText(parts: seq<TypePart>): CString
    decreases parts
  {
    if parts == [] then []
    else
      (match parts[0]
       case Octet(b) => [b]
       case Quoted(text) => Octets("\"") + text + Octets("\"")
       case Nested(inner) => Octets("<") + PartsText(inner) + Octets(">"))
      + PartsText(parts[1..])
  }

  predicate AreParts(parts: seq<TypePart>)
    decreases parts
  {
    forall k :: 0 <= k < |parts| ==>
      match parts[k]
      case Octet(b) => b !in {'<' as int, '>' as int, '"' as int}
      case Quoted(text) => '"' as int !in text
      case Nested(inner) => AreParts(inner)
  }

  /** The root and what follows it, or no root: then an instruction can be left open at the end of the text. */
  datatype Core = Root(item: Item, end: Gap) | NoRoot(open: CString)

  /** A document: white space, an XML declaration with white space behind it, comments and instructions, a document type
      declaration, more gaps, with any number of ">" between them, and the root */
  datatype Document = Document(space: CString, decl: Option<Spaced>, misc: seq<Spaced>, doctype: Option<seq<TypePart>>,
                               marks: seq<Gap>, gap: Gap, core: Core)

  /** Gaps, each with a ">" behind it */
  function MarksText(marks: seq<Gap>): CString {
    if marks == [] then [] else GapText(marks[0]) + Octets(">") + MarksText(marks[1..])
  }

  predicate AreGaps(gaps: seq<Gap>) {
    forall k :: 0 <= k < |gaps| ==> IsGap(gaps[k])
  }

  predicate IsXmlDeclaration(s: CString) {
    Occurs(s, Octets("<?xml "), 0) && EndsWithFirst(s, Octets("?>"))
  }

  /** A processing instruction without end */
  predicate IsOpenInstruction(s: CString) {
    Occurs(s, Octets("<?"), 0) && !IsDeclaration(s) && forall k :: 0 <= k < |s| ==> !Occurs(s, Octets("?>"), k)
  }

  ghost predicate IsCore(t: Tables, core: Core) {
    match core
    case Root(item, end) => item.Elem? && IsItem(t, item) && IsGap(end)
    case NoRoot(open) => open == [] || IsOpenInstruction(open)
  }

  function CoreText(core: Core): CString {
    match core
    case Root(item, end) => ItemText(item) + GapText(end)
    case NoRoot(open) => open
  }

  ghost function CoreMeaning(t: Tables, core: Core): seq<Node>
    requires IsCore(t, core)
  {
    match core
    case Root(item, _) => ItemMeaning(t, item)
    case NoRoot(_) => []
  }

  ghost predicate IsDocument(t: Tables, d: Document) {
    && IsBlank(d.space) && AreMisc(d.misc) && AreGaps(d.marks) && IsGap(d.gap) && IsCore(t, d.core)
    && (d.decl.Some? ==> IsXmlDeclaration(d.decl.value.misc) && IsBlank(d.decl.value.space))
    && (if d.doctype.Some? then AreParts(d.doctype.value) else (d.marks + [d.gap])[0] == Gap([], []))
    && (d.core.NoRoot? && d.core.open != [] ==> d.marks != [] || d.gap.space != [])
  }

  function DocumentText(d: Document): CString {
    d.space + (if d.decl.Some? then d.decl.value.misc + d.decl.value.space else []) + MiscText(d.misc)
    + (if d.doctype.Some? then Octets("<!DOCTYPE") + PartsText(d.doctype.value) + Octets(">") else [])
    + MarksText(d.marks) + GapText(d.gap) + CoreText(d.core)
  }

  /** The text spells these nodes. */
  ghost predicate SpellsNodes(t: Tables, text: CString, nodes: seq<Node>) {
    exists d: Document :: IsDocument(t, d) && text == DocumentText(d) && nodes == CoreMeaning(t, d.core)
  }
}

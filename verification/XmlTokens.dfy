/** White space, comments, instructions and tokens: what the tokenizer makes of the spellings of module XmlSyntax. */
module XmlTokens {
  import opened Options
  import opened Bytes
  import opened Utf8
  import opened Escape
  import opened Names
  import opened XmlTree
  import opened Parser
  import opened Spelling
  import opened XmlSyntax

  lemma DelimitersAgree()
    ensures Octets("<!--") == BEGIN_COMMENT && Octets("-->") == END_COMMENT
    ensures Octets("<?") == BEGIN_PI && Octets("?>") == END_PI
    ensures Octets("<?xml ") == XMLDECL && Octets("<?xml?") == XMLDECL2
    ensures Octets("<!DOCTYPE") == BEGIN_DOCTYPE
    ensures Octets("<![CDATA[") == CDSTART && Octets("]]>") == CDEND
  {
  }

  lemma TagsAgree()
    ensures Octets("<") == STARTTAG == LESS && Octets(">") == TAGEND == GREATER == [GREATERTHAN]
    ensures Octets("</") == ENDTAG == LESS_SLASH && Octets("/>") == COMPLETETAG
    ensures Octets("=") == [EQUALS] && Octets("\"") == [QUOTE]
  {
  }

  // ---- Skipping ----

  /** Text that the skipping of comments and instructions does not touch. */
  predicate IsPlainStart(s: CString) {
    s != [] && !IsSpace(s[0]) && (s[0] == LESSTHAN ==> |s| > 1 && s[1] != BANG && s[1] != QUESTION)
  }

  /** Text that starts an element, an end tag or nothing else: no comment, instruction or CDATA section. */
  predicate IsTagStart(s: CString) {
    |s| > 1 && s[0] == LESSTHAN && s[1] != BANG && s[1] != QUESTION
  }

  lemma DiffersAt(s: CString, key: CString, k: nat)
    requires k < |s| && k < |key| && ToLower(s[k]) != ToLower(key[k])
    ensures !StartsWith(s, key) && !StartsWithNoCase(s, key)
  {
  }

  /** No comment, declaration or instruction starts here. */
  lemma NoMisc(s: CString)
    requires s != [] && (s[0] == LESSTHAN ==> |s| > 1 && s[1] != BANG && s[1] != QUESTION)
    ensures SkipMisc(s) == Skip(true, SkipSpace(s))
  {
    hide Find, SkipComment, SkipString;
    var k := if s[0] == LESSTHAN then 1 else 0;
    DiffersAt(s, BEGIN_COMMENT, k);
    DiffersAt(s, BEGIN_PI, k);
    DiffersAt(s, XMLDECL, k);
    DiffersAt(s, XMLDECL2, k);
  }

  lemma PlainStart(w: CString, s: CString)
    requires AllSpace(w) && IsPlainStart(s)
    ensures SkipMisc(w + s) == Skip(true, s)
    ensures SkipSpace(w + s) == s
  {
    SkipSpacePrefix(w, s);
    if w == [] {
      assert w + s == s;
    } else {
      assert (w + s)[0] == w[0];
    }
    NoMisc(w + s);
  }

  lemma NoSpaceToSkip(s: CString)
    requires s != [] && !IsSpace(s[0])
    ensures SkipSpace(s) == s
  {
  }

  lemma BlankIsSpace(s: CString)
    ensures IsBlank(s) <==> AllSpace(s)
  {
  }

  /** The end of a comment or an instruction is found where it ends, whatever follows. */
  lemma FindsEnd(s: CString, key: CString, rest: CString)
    requires EndsWithFirst(s, key) && key != []
    ensures Find(s + rest, key) == |s| - |key|
  {
    hide Find;
    var b, n := s + rest, |s| - |key|;
    assert b[n..][..|key|] == s[n..n + |key|];
    forall j | 0 <= j < n
      ensures !StartsWith(b[j..], key)
    {
      assert b[j..][..|key|] == s[j..j + |key|];
      assert !Occurs(s, key, j);
    }
    FindIs(b, key, n);
  }

  lemma AfterSpace(space: CString, next: CString)
    requires IsBlank(space) && (next == [] || !IsSpace(next[0]))
    ensures SkipSpace(space + next) == next
  {
    BlankIsSpace(space);
    SkipSpacePrefix(space, next);
  }

  lemma RemarkIsSkipped(misc: CString, rest: CString)
    requires IsRemark(misc)
    ensures StartsWith(misc + rest, BEGIN_COMMENT) && SkipComment(misc + rest) == Skip(true, rest)
  {
    hide Find;
    DelimitersAgree();
    var s, n := misc + rest, |misc| - 3;
    FindsEnd(misc, END_COMMENT, rest);
    assert s[..4] == misc[0..4];
    assert s[n..][|END_COMMENT|..] == rest;
  }

  /** What `Parser_skipMisc` and `Parser_skipPI` both look for first */
  lemma NoDeclaration(misc: CString, rest: CString)
    requires IsInstruction(misc)
    ensures !IsXmlDecl(misc + rest)
  {
    DelimitersAgree();
    var s, n := misc + rest, |misc|;
    assert misc[n - 2..n] == END_PI;
    assert s[n - 1] == misc[n - 2..n][1] == GREATERTHAN;
    if n < 6 {
      DiffersAt(s, XMLDECL, n - 1);
      DiffersAt(s, XMLDECL2, n - 1);
    } else {
      NotInAnyCase(misc, rest, XMLDECL);
      NotInAnyCase(misc, rest, XMLDECL2);
    }
  }

  lemma NotInAnyCase(misc: CString, rest: CString, key: CString)
    requires |misc| >= 6 == |key| && !IsInAnyCase(misc[..6], key)
    requires forall k :: 0 <= k < 6 ==> !(0x41 <= key[k] <= 0x5A)
    ensures !StartsWithNoCase(misc + rest, key)
  {
    var k :| 0 <= k < 6 && misc[..6][k] != key[k] && !('a' as int <= key[k] <= 'z' as int && misc[..6][k] == key[k] - 0x20);
    assert (misc + rest)[k] == misc[..6][k];
    DiffersAt(misc + rest, key, k);
  }

  lemma InstructionStarts(misc: CString, rest: CString)
    requires IsInstruction(misc)
    ensures |misc| >= 3 && misc[0] == LESSTHAN && misc[1] == QUESTION
    ensures StartsWith(misc + rest, BEGIN_PI) && !StartsWith(misc + rest, BEGIN_COMMENT)
  {
    DelimitersAgree();
    var n := |misc|;
    assert misc[0..2] == BEGIN_PI;
    assert misc[0] == misc[0..2][0] && misc[1] == misc[0..2][1];
    assert misc[n - 2..n] == END_PI;
    assert misc[n - 2] == misc[n - 2..n][0];
    assert (misc + rest)[..2] == misc[0..2];
    DiffersAt(misc + rest, BEGIN_COMMENT, 1);
  }

  lemma InstructionIsSkipped(misc: CString, rest: CString)
    requires IsInstruction(misc)
    ensures SkipString(misc + rest, END_PI) == Skip(true, rest) && SkipPI(misc + rest) == Skip(true, rest)
  {
    hide Find, IsXmlDecl;
    DelimitersAgree();
    InstructionStarts(misc, rest);
    FindsEnd(misc, END_PI, rest);
    NoDeclaration(misc, rest);
    var s, n := misc + rest, |misc| - 2;
    assert s[n..][|END_PI|..] == rest;
  }

  /** A comment or an instruction, with white space behind it, is skipped. */
  lemma MiscIsSkipped(misc: CString, space: CString, next: CString)
    requires IsMisc(misc) && IsBlank(space) && (next == [] || !IsSpace(next[0]))
    ensures SkipMisc(misc + space + next) == SkipMisc(next)
  {
    hide SkipComment, SkipString, SkipSpace, IsRemark, IsInstruction, StartsWith, IsXmlDecl;
    var s, rest := misc + space + next, space + next;
    assert s == misc + rest;
    AfterSpace(space, next);
    if IsRemark(misc) {
      RemarkIsSkipped(misc, rest);
    } else {
      InstructionStarts(misc, rest);
      NoDeclaration(misc, rest);
      InstructionIsSkipped(misc, rest);
    }
  }

  lemma MiscStart(ms: seq<Spaced>, next: CString)
    requires AreMisc(ms) && (next == [] || !IsSpace(next[0]))
    ensures var s := MiscText(ms) + next; s == [] || !IsSpace(s[0])
    ensures ms != [] ==> |ms[0].misc| >= 3 && MiscText(ms) != [] && MiscText(ms)[0] == LESSTHAN
  {
    if ms != [] {
      var m := ms[0].misc;
      assert IsMisc(m);
      DelimitersAgree();
      if IsRemark(m) {
        assert m[0] == m[0..4][0];
      } else {
        assert m[0] == m[0..2][0];
      }
    } else {
      assert MiscText(ms) + next == next;
    }
  }

  lemma {:induction false} MiscsAreSkipped(ms: seq<Spaced>, next: CString)
    requires AreMisc(ms) && (next == [] || !IsSpace(next[0]))
    ensures SkipMisc(MiscText(ms) + next) == SkipMisc(next)
    decreases |ms|
  {
    hide SkipMisc, IsMisc;
    if ms == [] {
      assert MiscText(ms) + next == next;
    } else {
      var tl := MiscText(ms[1..]) + next;
      assert MiscText(ms) + next == ms[0].misc + ms[0].space + tl;
      MiscStart(ms[1..], next);
      MiscIsSkipped(ms[0].misc, ms[0].space, tl);
      MiscsAreSkipped(ms[1..], next);
    }
  }

  /** The text `p` is where the skipping stops. */
  predicate IsStop(p: CString) {
    p != [] && !IsSpace(p[0]) && SkipMisc(p) == Skip(true, p)
  }

  /** Whatever is in a gap is skipped by the tokenizer, if white space is skipped first. */
  lemma GapIsSkipped(g: Gap, p: CString)
    requires IsGap(g) && IsStop(p)
    ensures SkipMisc(SkipSpace(GapText(g) + p)) == Skip(true, p) && GapText(g) + p != []
    ensures SkipSpace(GapText(g) + p) == MiscText(g.misc) + p != []
  {
    hide SkipMisc, SkipSpace, AreMisc, IsBlank;
    assert GapText(g) + p == g.space + (MiscText(g.misc) + p);
    MiscStart(g.misc, p);
    AfterSpace(g.space, MiscText(g.misc) + p);
    MiscsAreSkipped(g.misc, p);
  }

  lemma BlankIsSkipped(space: CString, p: CString)
    requires IsBlank(space) && space != [] && IsStop(p)
    ensures SkipMisc(space + p) == Skip(true, p)
  {
    hide SkipMisc, SkipSpace, IsStop;
    var s := space + p;
    assert s[0] == space[0];
    BlankIsSpace(space);
    NoMisc(s);
    StopIsNoSpace(p);
    AfterSpace(space, p);
  }

  lemma StopIsNoSpace(p: CString)
    requires IsStop(p)
    ensures p != [] && !IsSpace(p[0])
  {
  }

  /** In a tag it is skipped at once. */
  lemma TagGapIsSkipped(g: Gap, p: CString)
    requires IsTagGap(g) && IsStop(p)
    ensures SkipMisc(GapText(g) + p) == Skip(true, p)
    ensures SkipMisc(SkipSpace(GapText(g) + p)) == Skip(true, p) && GapText(g) + p != []
  {
    hide SkipSpace, SkipMisc, AreMisc, IsBlank;
    GapIsSkipped(g, p);
    if g.misc == [] && g.space != [] {
      BlankIsSkipped(g.space, p);
      assert GapText(g) + p == g.space + p;
    } else {
      MiscsAreSkipped(g.misc, p);
      assert GapText(g) + p == MiscText(g.misc) + p;
    }
  }

  lemma PlainIsStop(p: CString)
    requires IsPlainStart(p)
    ensures IsStop(p)
  {
    PlainStart([], p);
    assert [] + p == p;
  }

  // ---- Tokens ----

  /** Name characters are scanned up to the markup behind them. */
  lemma {:induction false} NameIsScanned(t: Tables, ps: seq<Piece>, rest: CString)
    requires forall k :: 0 <= k < |ps| ==> ps[k].Plain? && IsNamePiece(t, ps[k])
    requires rest != [] && IsMarkup(rest[0])
    ensures NameLength(t, RawText(ps) + rest) == |RawText(ps)|
    decreases |ps|
  {
    hide Bits, Utf8ToInt;
    assert t.Valid();
    if ps == [] {
      assert RawText(ps) + rest == rest;
      AsciiDecodes(rest);
    } else {
      var r, more := Raw(ps[0]), RawText(ps[1..]) + rest;
      assert IsNamePiece(t, ps[0]);
      SequenceIsDecoded(r, more);
      assert RawText(ps) + rest == r + more;
      assert (r + more)[|r|..] == more;
      NameIsScanned(t, ps[1..], rest);
    }
  }

  /** The first octet of a name is no markup. */
  lemma NameStart(t: Tables, ps: seq<Piece>, rest: CString)
    requires IsNameSpelling(t, ps)
    ensures RawText(ps) != [] && !IsMarkup(RawText(ps)[0]) && IsPlainStart(RawText(ps) + rest)
    ensures Utf8ToInt(RawText(ps) + rest).ch == CharOf(ps[0]) && t.IsLetter(CharOf(ps[0]))
  {
    hide Utf8ToInt, ArePieces;
    assert t.Valid() && IsNamePiece(t, ps[0]);
    var r := Raw(ps[0]);
    SequenceIsDecoded(r, RawText(ps[1..]) + rest);
    assert RawText(ps) + rest == r + (RawText(ps[1..]) + rest);
    FirstOctet(r);
    assert RawText(ps)[0] == r[0];
  }

  lemma FirstOctet(octets: CString)
    requires IsSequence(octets)
    ensures octets != [] && (octets[0] < 0x80 ==> Bits(octets) == octets[0]) && (octets[0] >= 0x80 ==> !IsMarkup(octets[0]))
  {
  }

  /** The text that a name stands for begins with a letter, too. */
  lemma NameText(t: Tables, ps: seq<Piece>)
    requires IsNameSpelling(t, ps)
    ensures TextOf(ps) != [] && !IsMarkup(TextOf(ps)[0]) && t.IsLetter(Utf8ToInt(TextOf(ps)).ch)
  {
    hide CharOf;
    assert t.Valid() && IsNamePiece(t, ps[0]);
    var c := CharOf(ps[0]);
    var e, tl := IntToUtf8(c), TextOf(ps[1..]);
    EncodingHasNoNul(c);
    DecodeEncode(c, tl);
    EncodingIsSequence(c);
    FirstOctet(e);
    assert TextOf(ps)[0] == e[0];
  }

  lemma TokenRead(t: Tables, s: CString, p: CString, n: nat, text: CString)
    requires s != [] && SkipMisc(s) == Skip(true, p) && TokenLength(t, p) == n <= |p|
    requires CopyToken(p, n) == Some(text)
    ensures GetNextToken(t, s) == Token(text, p, p[n..])
  {
    hide SkipMisc, TokenLength, CopyToken;
  }

  lemma NameTokenLength(t: Tables, p: CString)
    requires p != [] && !IsMarkup(p[0]) && t.IsLetter(Utf8ToInt(p).ch)
    ensures TokenLength(t, p) == NameLength(t, p)
  {
    hide NameLength, Utf8ToInt;
  }

  /** An ASCII character other than "&" is copied as it is. */
  lemma CopyAscii(b: Byte, s: CString, n: nat, tl: CString)
    requires b <= 0x7F && IsXmlChar(b) && b != AMPERSAND
    requires n <= |s| && CopyLoop(s, n) == Some(tl)
    ensures CopyLoop([b] + s, n + 1) == Some([b] + tl)
  {
    hide CopyLoop, StartsWithNoCase, Utf8ToInt;
    var buf := [b] + s;
    assert buf[1..] == s;
    assert GetChar(buf) == Decoded(b, 1);
    CopyStep(buf, Decoded(b, 1), n, tl);
  }

  lemma CopyOne(b: Byte, s: CString)
    requires b <= 0x7F && IsXmlChar(b) && b != AMPERSAND
    ensures CopyLoop([b] + s, 1) == Some([b])
  {
    CopyAscii(b, s, 0, []);
    assert [b] + [] == [b];
  }

  lemma SymbolToken(t: Tables, b: Byte, rest: CString)
    requires b == QUOTE || b == SINGLEQUOTE || b == EQUALS || b == GREATERTHAN
    ensures GetNextToken(t, [b] + rest) == Token([b], [b] + rest, rest)
  {
    hide CopyLoop, SkipMisc, NameLength, IsXmlText, StartsWith;
    var s := [b] + rest;
    PlainStart([], s);
    assert [] + s == s;
    CopyOne(b, rest);
    assert s[1..] == rest;
  }

  lemma StartTagToken(t: Tables, ps: seq<Piece>, rest: CString)
    requires IsNameSpelling(t, ps)
    ensures var s := STARTTAG + (RawText(ps) + rest);
      GetNextToken(t, s) == Token(STARTTAG, s, RawText(ps) + rest) && IsStop(s) && IsTagStart(s)
  {
    hide Utf8ToInt, Find, SkipSpace, CopyLoop, SkipMisc, NameLength, StartsWith, IsNameSpelling, RawText;
    var x := RawText(ps) + rest;
    var s := STARTTAG + x;
    NameStart(t, ps, rest);
    assert s[1..] == x && s[0] == LESSTHAN && s[1] == RawText(ps)[0];
    PlainIsStop(s);
    assert t.Valid() && t.IsNameChar(Utf8ToInt(x).ch);
    CopyOne(LESSTHAN, x);
  }

  lemma EndTagToken(t: Tables, rest: CString)
    ensures GetNextToken(t, LESS_SLASH + rest) == Token(ENDTAG, LESS_SLASH + rest, rest)
  {
    hide Find, SkipSpace, CopyLoop, SkipMisc, NameLength, IsXmlText, StartsWith;
    var s := LESS_SLASH + rest;
    var s1 := [SLASH] + rest;
    assert s == [LESSTHAN] + s1;
    assert CopyToken(s, 2) == Some(ENDTAG) by {
      CopyOne(SLASH, rest);
      CopyAscii(LESSTHAN, s1, 1, [SLASH]);
      assert [LESSTHAN] + [SLASH] == ENDTAG;
    }
    PlainStart([], s);
    assert [] + s == s;
    assert s[1..] == s1;
    assert s[2..] == rest;
  }

  /** A token depends only on where the skipping stops. */
  lemma SameToken(t: Tables, s: CString, p: CString)
    requires s != [] && SkipMisc(s) == Skip(true, p) && IsStop(p)
    ensures GetNextToken(t, s) == GetNextToken(t, p)
  {
    hide SkipMisc, TokenLength, CopyLoop;
  }

  /** The next token is a name, behind whatever is skipped. */
  lemma NameRead(t: Tables, s: CString, ps: seq<Piece>, rest: CString)
    requires IsNameSpelling(t, ps) && rest != [] && IsMarkup(rest[0])
    requires s != [] && SkipMisc(s) == Skip(true, RawText(ps) + rest)
    ensures GetNextToken(t, s) == Token(TextOf(ps), RawText(ps) + rest, rest)
  {
    hide SkipMisc, GetNextToken, NameLength, Utf8ToInt, CopyLoop, TokenLength, TextOf, RawText, IsNamePiece;
    var p, n := RawText(ps) + rest, |RawText(ps)|;
    NameStart(t, ps, rest);
    NameIsScanned(t, ps, rest);
    NameTokenLength(t, p);
    PiecesAreCopied(ps, rest);
    TokenRead(t, s, p, n, TextOf(ps));
    assert p[n..] == rest;
  }

  lemma SymbolRead(t: Tables, s: CString, b: Byte, rest: CString)
    requires b in {QUOTE, SINGLEQUOTE, EQUALS, GREATERTHAN} && s != [] && SkipMisc(s) == Skip(true, [b] + rest)
    ensures GetNextToken(t, s) == Token([b], [b] + rest, rest)
  {
    hide SkipMisc, GetNextToken;
    PlainIsStop([b] + rest);
    SameToken(t, s, [b] + rest);
    SymbolToken(t, b, rest);
  }

  /** The end of an empty-element tag */
  lemma EmptyEndToken(t: Tables, rest: CString)
    ensures var p := COMPLETETAG + rest; IsStop(p) && GetNextToken(t, p) == Token(COMPLETETAG, p, rest)
  {
    hide CopyLoop, SkipMisc, NameLength, StartsWith;
    var p, p1 := COMPLETETAG + rest, [GREATERTHAN] + rest;
    assert p == [SLASH] + p1 && p[2..] == rest;
    PlainIsStop(p);
    CopyOne(GREATERTHAN, rest);
    CopyAscii(SLASH, p1, 1, [GREATERTHAN]);
    assert [SLASH] + [GREATERTHAN] == COMPLETETAG;
  }
}
